/** What a repeated flag of Docker's container list comes to, by the words that
    set it (control/native.rs, `docker_list_bool`). */
module ListReading {
  import opened CommandLine
  import opened Common
  import opened ContainerList

  // ----- one word ----------------------------------------------------------

  /** Letters that stand for a flag each, so that the next one is looked at. */
  predicate Plain(letters: string) { forall c :: c in letters ==> Groups(c) }

  /** The flag's letter at a place of a group where it is looked at. */
  predicate Mentions(letters: string, flag: Flag, i: nat) {
    i < |letters| && letters[i] == flag.letter && Plain(letters[..i])
  }

  predicate LastMention(letters: string, flag: Flag, i: nat) {
    Mentions(letters, flag, i) && forall j :: i < j < |letters| ==> !Mentions(letters, flag, j)
  }

  function ValueAt(letters: string, i: nat): bool
    requires i < |letters|
  {
    if i + 1 < |letters| && letters[i + 1] == '=' then DockerBool(letters[i + 2..]) else true
  }

  /** What a word sets the flag to: alone to true, with a value to what docker
      reads of it, and in a group by the last mention. */
  ghost predicate Sets(word: string, flag: Flag, value: bool) {
    || (word == flag.name && value)
    || (flag.name + "=" <= word && value == DockerBool(word[|flag.name| + 1..]))
    || (Dash(word) && !Long(word) && exists i: nat :: LastMention(word[1..], flag, i) && value == ValueAt(word[1..], i))
  }

  /** A word whose value is the next word. */
  predicate TakesNext(word: string) {
    || ListValue(word)
    || (|word| >= 2 && Dash(word) && !Long(word) && Plain(word[1..|word| - 1]) && TakesRest(word[|word| - 1]))
  }

  lemma MentionBehind(letters: string, flag: Flag, i: nat)
    requires letters != "" && Groups(letters[0])
    ensures Mentions(letters[1..], flag, i) <==> Mentions(letters, flag, i + 1)
  {
    if i + 1 < |letters| {
      assert letters[..i + 1] == [letters[0]] + letters[1..][..i];
    }
  }

  predicate Unmentioned(letters: string, flag: Flag) { forall i :: 0 <= i < |letters| ==> !Mentions(letters, flag, i) }

  lemma {:induction false} UnmentionedIsUnchanged(letters: string, flag: Flag, showing: bool)
    requires Groups(flag.letter) && Unmentioned(letters, flag)
    ensures ReadGroup(letters, flag, showing).showing == showing
  {
    if letters != "" {
      assert letters[..0] == "" && !Mentions(letters, flag, 0);
      if Groups(letters[0]) {
        forall i | 0 <= i < |letters[1..]| ensures !Mentions(letters[1..], flag, i) { MentionBehind(letters, flag, i); }
        UnmentionedIsUnchanged(letters[1..], flag, showing);
      }
    }
  }

  lemma {:induction false} LastMentionDecides(letters: string, flag: Flag, showing: bool, i: nat)
    requires Groups(flag.letter) && LastMention(letters, flag, i)
    ensures ReadGroup(letters, flag, showing).showing == ValueAt(letters, i)
  {
    var rest := letters[1..];
    if i > 0 { assert letters[0] in letters[..i]; }
    if i > 1 { assert letters[1] in letters[..i]; }
    forall j | 0 <= j < |rest| ensures Mentions(rest, flag, j) <==> Mentions(letters, flag, j + 1) { MentionBehind(letters, flag, j); }
    assert letters[i] == flag.letter && Plain(letters[..i]);
    assert i + 1 < |letters| ==> rest[i..] == letters[i + 1..];
    hide Mentions;
    if i > 0 {
      LastMentionDecides(rest, flag, if letters[0] == flag.letter then true else showing, i - 1);
    } else if rest != "" && rest[0] == '=' {
    } else {
      UnmentionedIsUnchanged(rest, flag, true);
    }
  }

  lemma {:induction false} GroupTakesNext(letters: string, flag: Flag, showing: bool)
    requires Groups(flag.letter)
    ensures ReadGroup(letters, flag, showing).pending <==>
      letters != "" && Plain(letters[..|letters| - 1]) && TakesRest(letters[|letters| - 1])
  {
    if letters != "" {
      var rest := letters[1..];
      var now := if letters[0] != flag.letter then showing else true;
      GroupTakesNext(rest, flag, now);
      if rest != "" {
        assert letters[0] in letters[..|letters| - 1];
        assert letters[..|letters| - 1] == [letters[0]] + rest[..|rest| - 1];
        if rest[0] == '=' && |rest| > 1 { assert rest[0] in rest[..|rest| - 1]; }
      }
    }
  }

  lemma ExplicitIsPrefix(word: string, flag: Flag)
    ensures Explicit(word, flag) <==> flag.name + "=" <= word
  {
    var name := flag.name + "=";
    assert |name| <= |word| ==> (name <= word <==> word[..|name|] == name);
    if |word| > |flag.name| { assert word[..|flag.name| + 1] == word[..|flag.name|] + [word[|flag.name|]]; }
  }

  lemma LongWordIsRead(word: string, flag: Flag, showing: bool)
    requires (flag == ALL || flag == SIZE) && (Long(word) || !Dash(word))
    ensures forall value :: Sets(word, flag, value) ==> ReadWord(word, flag, showing).showing == value
    ensures (forall value :: !Sets(word, flag, value)) ==> ReadWord(word, flag, showing).showing == showing
    ensures ReadWord(word, flag, showing).pending <==> TakesNext(word)
  {
    ExplicitIsPrefix(word, flag);
    ListValuesDiffer(word, flag);
    hide ListValue, Explicit, LastMention;
    if word == flag.name { assert Sets(word, flag, true); }
    if flag.name + "=" <= word { assert Sets(word, flag, DockerBool(word[|flag.name| + 1..])); }
  }

  lemma ListValuesDiffer(word: string, flag: Flag)
    requires flag == ALL || flag == SIZE
    ensures ListValue(word) ==> word != flag.name && !(flag.name + "=" <= word) && Long(word)
  {
    if flag.name + "=" <= word { assert word[2] == (flag.name + "=")[2] && word[3] == (flag.name + "=")[3]; }
  }

  lemma GroupWordIsRead(word: string, flag: Flag, showing: bool)
    requires (flag == ALL || flag == SIZE) && Dash(word) && !Long(word)
    ensures forall value :: Sets(word, flag, value) ==> ReadWord(word, flag, showing).showing == value
    ensures (forall value :: !Sets(word, flag, value)) ==> ReadWord(word, flag, showing).showing == showing
    ensures ReadWord(word, flag, showing).pending <==> TakesNext(word)
  {
    var letters := word[1..];
    ListValuesDiffer(word, flag);
    ExplicitIsPrefix(word, flag);
    ExplicitIsLong(word, flag);
    assert Groups(flag.letter) && Long(flag.name);
    assert ReadWord(word, flag, showing) == ReadGroup(letters, flag, showing) by { hide ReadGroup, ListValue; }
    GroupTakesNext(letters, flag, showing);
    if letters != "" { assert letters[..|letters| - 1] == word[1..|word| - 1] && letters[|letters| - 1] == word[|word| - 1]; }
    hide ListValue, ReadGroup, ReadWord, Plain, TakesRest, Mentions, Explicit;
    forall i: nat | LastMention(letters, flag, i) ensures ReadGroup(letters, flag, showing).showing == ValueAt(letters, i) {
      LastMentionDecides(letters, flag, showing, i);
    }
    if forall value :: !Sets(word, flag, value) {
      NothingSetIsUnmentioned(word, flag);
      UnmentionedIsUnchanged(letters, flag, showing);
    }
  }

  lemma {:induction false} SomeMentionIsLast(letters: string, flag: Flag, i: nat) returns (last: nat)
    requires Mentions(letters, flag, i)
    ensures LastMention(letters, flag, last)
    decreases |letters| - i
  {
    if j :| i < j < |letters| && Mentions(letters, flag, j) {
      last := SomeMentionIsLast(letters, flag, j);
    } else {
      last := i;
    }
  }

  lemma SomeMentionSets(word: string, flag: Flag, i: nat) returns (value: bool)
    requires Dash(word) && !Long(word) && Mentions(word[1..], flag, i)
    ensures Sets(word, flag, value)
  {
    var last := SomeMentionIsLast(word[1..], flag, i);
    value := ValueAt(word[1..], last);
  }

  lemma NothingSetIsUnmentioned(word: string, flag: Flag)
    requires Dash(word) && !Long(word) && forall value :: !Sets(word, flag, value)
    ensures Unmentioned(word[1..], flag)
  {
    forall i | 0 <= i < |word[1..]| ensures !Mentions(word[1..], flag, i) {
      if Mentions(word[1..], flag, i) {
        var value := SomeMentionSets(word, flag, i);
        assert false;
      }
    }
  }

  lemma ExplicitIsLong(word: string, flag: Flag)
    requires flag == ALL || flag == SIZE
    ensures flag.name + "=" <= word ==> Long(word)
  {
    assert (flag.name + "=")[0] == '-' && (flag.name + "=")[1] == '-';
  }

  /** A word sets the flag, or leaves it as it was, and takes the next word,
      whatever was read before it. */
  lemma WordIsRead(word: string, flag: Flag, showing: bool)
    requires flag == ALL || flag == SIZE
    ensures forall value :: Sets(word, flag, value) ==> ReadWord(word, flag, showing).showing == value
    ensures (forall value :: !Sets(word, flag, value)) ==> ReadWord(word, flag, showing).showing == showing
    ensures ReadWord(word, flag, showing).pending <==> TakesNext(word)
  {
    hide *;
    if Dash(word) && !Long(word) { GroupWordIsRead(word, flag, showing); } else { LongWordIsRead(word, flag, showing); }
  }

  // ----- the whole list command --------------------------------------------

  /** What the words set, one after the other; behind `--`, and in the place of
      a value, no word sets anything. */
  ghost function Settings(words: seq<string>, flag: Flag): seq<bool>
    decreases |words|
  {
    if words == [] || words[0] == "--" then []
    else
      var rest := Settings(words[if TakesNext(words[0]) && |words| > 1 then 2 else 1..], flag);
      if Sets(words[0], flag, true) then [true] + rest
      else if Sets(words[0], flag, false) then [false] + rest
      else rest
  }

  function LastOr(settings: seq<bool>, otherwise: bool): bool {
    if settings == [] then otherwise else settings[|settings| - 1]
  }

  lemma WordSetsOnce(word: string, flag: Flag)
    requires flag == ALL || flag == SIZE
    ensures !(Sets(word, flag, true) && Sets(word, flag, false))
    ensures !Sets(word, flag, true) && !Sets(word, flag, false) ==> forall value :: !Sets(word, flag, value)
  {
    WordIsRead(word, flag, true);
    hide Sets, ReadWord;
  }

  function Step(words: seq<string>): nat
    requires words != []
  {
    if TakesNext(words[0]) && |words| > 1 then 2 else 1
  }

  lemma ScanStep(words: seq<string>, position: nat, flag: Flag, found: ContainerList.Result) returns (now: ContainerList.Result)
    requires (flag == ALL || flag == SIZE) && words != [] && words[0] != "--"
    ensures now.showing == ReadWord(words[0], flag, found.showing).showing
    ensures ReadFrom(words, position, flag, found).showing == ReadFrom(words[Step(words)..], position + Step(words), flag, now).showing
  {
    WordIsRead(words[0], flag, found.showing);
    hide Sets, ReadWord, TakesNext, Explicit;
    var reading := ReadWord(words[0], flag, found.showing);
    now := found.(showing := reading.showing, explicitAt := if Explicit(words[0], flag) then Some(position) else found.explicitAt);
  }

  lemma SettingsStep(words: seq<string>, flag: Flag, before: bool)
    requires (flag == ALL || flag == SIZE) && words != [] && words[0] != "--"
    ensures LastOr(Settings(words, flag), before)
         == LastOr(Settings(words[Step(words)..], flag), ReadWord(words[0], flag, before).showing)
  {
    WordIsRead(words[0], flag, before);
    WordSetsOnce(words[0], flag);
    hide Sets, ReadWord, TakesNext;
  }

  lemma {:induction false} ScanBySettings(words: seq<string>, position: nat, flag: Flag, found: ContainerList.Result)
    requires flag == ALL || flag == SIZE
    ensures ReadFrom(words, position, flag, found).showing == LastOr(Settings(words, flag), found.showing)
    decreases |words|
  {
    hide ReadWord, TakesNext;
    if words != [] && words[0] != "--" {
      hide ReadFrom, Settings, LastOr;
      var now := ScanStep(words, position, flag, found);
      SettingsStep(words, flag, found.showing);
      ScanBySettings(words[Step(words)..], position + Step(words), flag, now);
    }
  }

  /** A flag of the list is read as what the last word behind the command sets
      it to, and as unset where no word does. */
  lemma TheLastSettingDecides(args: seq<string>, flag: Flag)
    requires flag == ALL || flag == SIZE
    ensures Read(args, flag).showing == LastOr(Settings(args[CommandBoundary(args, Containers)..], flag), false)
  {
    hide ReadFrom, CommandPosition, Settings;
    var start := CommandBoundary(args, Containers);
    ScanBySettings(args[start..], start, flag, NOTHING);
  }
}
