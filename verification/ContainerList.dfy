/** The flags of Docker's container list as Hamn reads and toggles them
    (control/native.rs, `docker_list_bool`, `show_size` and `toggle_all`). */
module ContainerList {
  import opened CommandLine
  import opened Common

  /** A boolean flag: its long name and its letter in a group. */
  datatype Flag = Flag(name: string, letter: char)

  const ALL := Flag("--all", 'a')
  const SIZE := Flag("--size", 's')

  /** The value options that the list command itself may be followed by. */
  predicate ListValue(word: string) {
    word == "--filter" || word == "--last" || word == "--format" || word == "--context" || word == "--host" ||
    word == "--config" || word == "--log-level" || word == "--tlscacert" || word == "--tlscert" || word == "--tlskey"
  }

  predicate TakesRest(letter: char) { letter == 'f' || letter == 'n' || letter == 'c' || letter == 'H' }

  predicate Groups(letter: char) {
    letter == 'a' || letter == 's' || letter == 'l' || letter == 'q' || letter == 'D'
  }

  // ----- reading -----------------------------------------------------------

  /** The flag's value after some words, and whether the last of them takes
      the next word. */
  datatype Reading = Reading(showing: bool, pending: bool)

  /** One group of short flags, from its first letter on. */
  function ReadGroup(letters: string, flag: Flag, showing: bool): Reading {
    if letters == "" then Reading(showing, false)
    else
      var letter, rest := letters[0], letters[1..];
      if TakesRest(letter) then Reading(showing, rest == "")
      else
        var inline := rest != "" && rest[0] == '=';
        var now := if letter != flag.letter then showing else if inline then DockerBool(rest[1..]) else true;
        if inline || !Groups(letter) then Reading(now, false) else ReadGroup(rest, flag, now)
  }

  /** The word `name=value`. */
  predicate Explicit(word: string, flag: Flag) {
    |word| > |flag.name| && word[..|flag.name|] == flag.name && word[|flag.name|] == '='
  }

  function ReadWord(word: string, flag: Flag, showing: bool): Reading {
    if word == flag.name then Reading(true, false)
    else if Explicit(word, flag) then Reading(DockerBool(word[|flag.name| + 1..]), false)
    else if ListValue(word) then Reading(showing, true)
    else if Dash(word) && !Long(word) then ReadGroup(word[1..], flag, showing)
    else Reading(showing, false)
  }

  /** How a scan ends: at the end of the words, at `--`, or behind an option
      whose value is missing. `explicitAt` is the last word `name=value`. */
  datatype End = AtEnd | AtDashes | ValueMissing

  datatype Result = Result(showing: bool, explicitAt: Option<nat>, end: End)

  function ReadFrom(words: seq<string>, position: nat, flag: Flag, found: Result): Result
    decreases |words|
  {
    if words == [] then found.(end := AtEnd)
    else if words[0] == "--" then found.(end := AtDashes)
    else
      var reading := ReadWord(words[0], flag, found.showing);
      var now := found.(
        showing := reading.showing,
        explicitAt := if Explicit(words[0], flag) then Some(position) else found.explicitAt);
      if !reading.pending then ReadFrom(words[1..], position + 1, flag, now)
      else if |words| == 1 then now.(end := ValueMissing)
      else ReadFrom(words[2..], position + 2, flag, now)
  }

  const NOTHING := Result(false, None, AtEnd)

  /** Only what follows the command is read. */
  function Read(args: seq<string>, flag: Flag): Result {
    var start := CommandBoundary(args, Containers);
    ReadFrom(args[start..], start, flag, NOTHING)
  }

  method ReadGroupOf(word: string, flag: Flag, before: bool) returns (showing: bool, pending: bool)
    requires Dash(word)
    ensures Reading(showing, pending) == ReadGroup(word[1..], flag, before)
  {
    showing, pending := before, false;
    var letters := word[1..];
    while letters != ""
      invariant ReadGroup(letters, flag, showing) == ReadGroup(word[1..], flag, before) && !pending
      decreases |letters|
    {
      var letter, rest := letters[0], letters[1..];
      if TakesRest(letter) { return showing, rest == ""; }
      var inline := rest != "" && rest[0] == '=';
      if letter == flag.letter { showing := if inline then DockerBool(rest[1..]) else true; }
      if inline { return; }
      if !Groups(letter) { return; }
      letters := rest;
    }
  }

  /** The rest of a scan whose last word may have taken the next one. */
  function ReadAfter(skip: bool, words: seq<string>, position: nat, flag: Flag, found: Result): Result {
    if !skip then ReadFrom(words, position, flag, found)
    else if words == [] then found
    else ReadFrom(words[1..], position + 1, flag, found)
  }

  predicate Agree(a: Result, b: Result) { a.showing == b.showing && a.explicitAt == b.explicitAt }

  method DockerListBool(args: seq<string>, flag: Flag) returns (showing: bool, explicitAt: Option<nat>)
    ensures Agree(Result(showing, explicitAt, AtEnd), Read(args, flag))
  {
    hide ReadGroup;
    var index := CommandIndex(args, Containers);
    var start := if index.Some? then index.value else |args|;
    var position: nat, rest := start, args[start..];
    var skip := false;
    showing, explicitAt := false, None;
    while rest != []
      invariant Agree(ReadAfter(skip, rest, position, flag, Result(showing, explicitAt, AtEnd)), Read(args, flag))
      decreases |rest|
    {
      var word := rest[0];
      if skip {
        skip := false;
      } else {
        if word == "--" { break; }
        if word == flag.name {
          showing := true;
        } else if Explicit(word, flag) {
          showing := DockerBool(word[|flag.name| + 1..]);
          explicitAt := Some(position);
        } else if ListValue(word) {
          skip := true;
        } else if Dash(word) && !Long(word) {
          showing, skip := ReadGroupOf(word, flag, showing);
        }
      }
      if |rest| > 1 { assert rest[1..][1..] == rest[2..]; }
      rest := rest[1..];
      position := position + 1;
    }
  }

  // ----- toggling ----------------------------------------------------------

  function Override(showing: bool): string { if showing then "--all=true" else "--all=false" }

  function Toggled(args: seq<string>): seq<string> {
    var r := Read(args, ALL);
    if args != [] && r.explicitAt == Some(|args| - 1) then args[..|args| - 1] + [Override(!r.showing)]
    else args + [Override(!r.showing)]
  }

  class Invocation {
    var args: seq<string>

    constructor (words: seq<string>)
      ensures args == words
    {
      args := words;
    }

    method ToggleAll()
      modifies this
      ensures args == Toggled(old(args))
    {
      var showing, explicitAt := DockerListBool(args, ALL);
      var value := Override(!showing);
      if explicitAt.Some? && explicitAt.value + 1 == |args| {
        args := args[..|args| - 1] + [value];
      } else {
        args := args + [value];
      }
    }
  }

  /** Whether an override at the end of the argv is read: the argv has a
      command, no `--` that is not a value, and no value missing at its end. */
  predicate Toggles(args: seq<string>) {
    CommandPosition(args, Containers).Some? && Read(args, ALL).end.AtEnd?
  }

  lemma OverrideIsRead(showing: bool, before: bool)
    ensures Explicit(Override(showing), ALL) && Override(showing) != "--"
    ensures ReadWord(Override(showing), ALL, before) == Reading(showing, false)
    ensures ReadWord(Override(showing), SIZE, before) == Reading(before, false) && !Explicit(Override(showing), SIZE)
    ensures Dash(Override(showing)) && '=' in Override(showing)
  {
    var word := Override(showing);
    assert word[..5] == "--all" && word[5] == '=';
    assert word[6..] == if showing then "true" else "false";
    assert word[2] == 'a' && SIZE.name[2] == 's';
    assert !Explicit(word, SIZE) by { if |word| > 6 { assert word[..6][2] == 'a'; } }
  }

  /** What one more override at the end changes. */
  lemma {:induction false} ReadWithOverride(words: seq<string>, position: nat, found: Result, showing: bool)
    ensures var before := ReadFrom(words, position, ALL, found);
      var after := ReadFrom(words + [Override(showing)], position, ALL, found);
      after == match before.end
        case AtEnd => Result(showing, Some(position + |words|), AtEnd)
        case AtDashes => before
        case ValueMissing => before.(end := AtEnd)
    decreases |words|
  {
    hide ReadWord, Override, Explicit;
    OverrideIsRead(showing, found.showing);
    var word := Override(showing);
    var all := words + [word];
    if words == [] {
      assert all == [word] && all[1..] == [];
      assert ReadFrom([], position + 1, ALL, Result(showing, Some(position), AtEnd)).end == AtEnd;
    } else if words[0] != "--" {
      var reading := ReadWord(words[0], ALL, found.showing);
      var now := found.(
        showing := reading.showing,
        explicitAt := if Explicit(words[0], ALL) then Some(position) else found.explicitAt);
      if !reading.pending {
        assert all[1..] == words[1..] + [word];
        ReadWithOverride(words[1..], position + 1, now, showing);
      } else if |words| == 1 {
        assert all[2..] == [];
      } else {
        assert all[2..] == words[2..] + [word];
        ReadWithOverride(words[2..], position + 2, now, showing);
      }
    }
  }

  /** An explicit last word that was read ends the scan, and taking it away
      leaves a scan that ends there. */
  lemma {:induction false} ExplicitLast(words: seq<string>, position: nat, found: Result)
    requires words != [] && ReadFrom(words, position, ALL, found).explicitAt == Some(position + |words| - 1)
    requires found.explicitAt.Some? ==> found.explicitAt.value < position
    ensures ReadFrom(words, position, ALL, found).end == AtEnd && Explicit(words[|words| - 1], ALL)
    ensures ReadFrom(words[..|words| - 1], position, ALL, found).end == AtEnd
    decreases |words|
  {
    hide ReadGroup;
    var reading := ReadWord(words[0], ALL, found.showing);
    var now := found.(
      showing := reading.showing,
      explicitAt := if Explicit(words[0], ALL) then Some(position) else found.explicitAt);
    if words[0] != "--" {
      if |words| == 1 {
      } else if !reading.pending {
        assert words[..|words| - 1][1..] == words[1..][..|words| - 2];
        ExplicitLast(words[1..], position + 1, now);
      } else if |words| > 2 {
        assert words[..|words| - 1][2..] == words[2..][..|words| - 3];
        ExplicitLast(words[2..], position + 2, now);
      }
    }
  }

  /** The command is found from the words up to it. */
  lemma {:induction false} CommandFromPrefix(args: seq<string>, other: seq<string>, n: nat)
    requires n <= |args| && n <= |other| && args[..n] == other[..n]
    requires CommandPosition(args, Containers).Some? && CommandPosition(args, Containers).value < n
    ensures CommandPosition(other, Containers) == CommandPosition(args, Containers)
    decreases |args|
  {
    hide Advance;
    assert args[0] == args[..n][0] == other[..n][0] == other[0];
    if Dash(args[0]) {
      var step := Advance(args[0], Containers);
      assert args[step..][..n - step] == args[..n][step..];
      assert other[step..][..n - step] == other[..n][step..];
      CommandFromPrefix(args[step..], other[step..], n - step);
    }
  }

  /** An override behind an argv without a command is not one. */
  lemma {:induction false} NoCommandAppears(args: seq<string>, showing: bool)
    requires CommandPosition(args, Containers).None?
    ensures CommandPosition(args + [Override(showing)], Containers).None?
    decreases |args|
  {
    OverrideIsRead(showing, false);
    OverrideAdvances(showing);
    hide Advance, Override;
    var all := args + [Override(showing)];
    if args == [] {
      assert all == [Override(showing)] && all[1..] == [];
    } else {
      var step := Advance(args[0], Containers);
      assert all[0] == args[0];
      if 0 < step <= |args| {
        assert all[step..] == args[step..] + [Override(showing)];
        NoCommandAppears(args[step..], showing);
      } else if 0 < step <= |all| {
        assert all[step..] == [];
      }
    }
  }

  lemma OverrideAdvances(showing: bool)
    ensures Advance(Override(showing), Containers) == 1
  {
    OverrideIsRead(showing, false);
    DockerVocabularyNamesOptions(Override(showing));
    assert Override(showing)[..2] == "--";
  }

  lemma ToggleWithoutCommand(args: seq<string>, flag: Flag)
    requires CommandPosition(args, Containers).None?
    ensures Read(args, flag) == NOTHING && Read(Toggled(args), flag) == NOTHING && !Toggles(Toggled(args))
  {
    NothingIsRead(|args|, ALL);
    NothingIsRead(|args|, flag);
    NoCommandAppears(args, true);
    NothingIsRead(|args| + 1, flag);
  }

  lemma ReadAt(args: seq<string>, i: nat, flag: Flag)
    requires CommandPosition(args, Containers) == Some(i)
    ensures i < |args| && Read(args, flag) == ReadFrom(args[i..], i, flag, NOTHING) && NOTHING.explicitAt == None
  {
  }

  lemma ToggledForm(args: seq<string>)
    ensures var value := Override(!Read(args, ALL).showing);
      if args != [] && Read(args, ALL).explicitAt == Some(|args| - 1) then Toggled(args) == args[..|args| - 1] + [value]
      else Toggled(args) == args + [value]
  {
  }

  lemma NothingIsRead(position: nat, flag: Flag)
    ensures ReadFrom([], position, flag, NOTHING) == NOTHING
  {
  }

  lemma ToggleByAppending(args: seq<string>, i: nat)
    requires CommandPosition(args, Containers) == Some(i) && Read(args, ALL).explicitAt != Some(|args| - 1)
    ensures CommandPosition(Toggled(args), Containers) == Some(i)
    ensures var before, after := Read(args, ALL), Read(Toggled(args), ALL);
      after == match before.end
        case AtEnd => Result(!before.showing, Some(|args|), AtEnd)
        case AtDashes => before
        case ValueMissing => before.(end := AtEnd)
  {
    hide *;
    var showing := !Read(args, ALL).showing;
    var toggled := args + [Override(showing)];
    ToggledForm(args);
    ReadAt(args, i, ALL);
    CommandFromPrefix(args, toggled, |args|);
    ReadAt(toggled, i, ALL);
    assert toggled[i..] == args[i..] + [Override(showing)];
    ReadWithOverride(args[i..], i, NOTHING, showing);
  }

  lemma ToggleByReplacing(args: seq<string>, i: nat)
    requires CommandPosition(args, Containers) == Some(i) && Read(args, ALL).explicitAt == Some(|args| - 1)
    ensures CommandPosition(Toggled(args), Containers) == Some(i) && Read(args, ALL).end == AtEnd
    ensures Read(Toggled(args), ALL) == Result(!Read(args, ALL).showing, Some(|args| - 1), AtEnd)
  {
    hide *;
    var words, showing := args[i..], !Read(args, ALL).showing;
    var toggled := args[..|args| - 1] + [Override(showing)];
    ReadAt(args, i, ALL);
    ToggledForm(args);
    ExplicitLast(words, i, NOTHING);
    assert words[|words| - 1] == args[|args| - 1];
    ExplicitIsDash(args[|args| - 1]);
    CommandFromPrefix(args, toggled, |args| - 1);
    ReadAt(toggled, i, ALL);
    var fewer := words[..|words| - 1];
    assert toggled[i..] == fewer + [Override(showing)];
    ReadWithOverride(fewer, i, NOTHING, showing);
  }

  lemma ExplicitIsDash(word: string)
    requires Explicit(word, ALL)
    ensures Dash(word)
  {
    assert word[..5][0] == '-';
  }

  /** A toggle negates what the list shows exactly when the argv has a
      command, no unconsumed `--` and no value missing at its end; otherwise
      it changes nothing that is read. */
  lemma ToggleNegatesWhatIsRead(args: seq<string>)
    ensures (Read(Toggled(args), ALL).showing == !Read(args, ALL).showing) <==> Toggles(args)
    ensures Toggles(args) ==> Toggles(Toggled(args)) && Read(Toggled(args), ALL).explicitAt == Some(|Toggled(args)| - 1)
  {
    hide CommandPosition, Read, Toggled;
    match CommandPosition(args, Containers) {
      case None => ToggleWithoutCommand(args, ALL);
      case Some(i) =>
        ToggledForm(args);
        if Read(args, ALL).explicitAt == Some(|args| - 1) { ToggleByReplacing(args, i); } else { ToggleByAppending(args, i); }
    }
  }

  /** Three argvs whose reading a toggle cannot change. */
  lemma UntoggledArgvs()
    ensures !Toggles([]) && !Toggles(["ps", "--"]) && !Toggles(["ps", "--filter"])
  {
    assert ["ps", "--"][0..] == ["ps", "--"] && ["ps", "--"][1..] == ["--"];
    assert ["ps", "--filter"][0..] == ["ps", "--filter"] && ["ps", "--filter"][1..] == ["--filter"];
    var found := Result(false, None, AtEnd);
    assert ReadWord("ps", ALL, false) == Reading(false, false);
    assert ReadFrom(["--"], 1, ALL, found).end == AtDashes;
    assert ReadFrom(["--filter"], 1, ALL, found).end == ValueMissing;
  }

  function ToggledTimes(args: seq<string>, n: nat): seq<string> {
    if n == 0 then args else Toggled(ToggledTimes(args, n - 1))
  }

  function Negated(value: bool, n: nat): bool { if n % 2 == 0 then value else !value }

  /** The words that toggling keeps: all but an explicit `--all` at the end. */
  function Kept(args: seq<string>): seq<string> {
    if args != [] && Read(args, ALL).explicitAt == Some(|args| - 1) then args[..|args| - 1] else args
  }

  /** Any number of toggles keeps every other word and leaves one override at
      the end; an even number restores what is read. */
  lemma {:induction false} TogglesKeepEveryOtherWord(args: seq<string>, n: nat)
    requires Toggles(args)
    ensures Toggles(ToggledTimes(args, n))
    ensures Read(ToggledTimes(args, n), ALL).showing == Negated(Read(args, ALL).showing, n)
    ensures n > 0 ==> ToggledTimes(args, n) == Kept(args) + [Override(Negated(Read(args, ALL).showing, n))]
    ensures |ToggledTimes(args, n)| <= |args| + 1
    decreases n
  {
    hide Read, Override, Toggled, Toggles, CommandPosition;
    if n > 0 {
      var before := ToggledTimes(args, n - 1);
      TogglesKeepEveryOtherWord(args, n - 1);
      ToggleNegatesWhatIsRead(before);
      ToggledForm(before);
      assert Negated(Read(args, ALL).showing, n) == !Negated(Read(args, ALL).showing, n - 1);
      assert ToggledTimes(args, n) == Kept(before) + [Override(Negated(Read(args, ALL).showing, n))];
      if n > 1 {
        TogglesKeepEveryOtherWord(args, n - 2);
        ToggleNegatesWhatIsRead(ToggledTimes(args, n - 2));
        var value := Override(Negated(Read(args, ALL).showing, n - 1));
        assert before == Kept(args) + [value] && before[..|before| - 1] == Kept(args);
      }
    }
  }

  // ----- the size column ---------------------------------------------------

  lemma SizeIgnoresTheWord(word: string, before: bool)
    requires Explicit(word, ALL)
    ensures word != "--" && !Explicit(word, SIZE) && ReadWord(word, SIZE, before) == Reading(before, false)
  {
    assert word[..5] == "--all" && word[0] == word[..5][0] && word[1] == word[..5][1] && word[2] == word[..5][2];
    assert '=' in word;
    if |word| > 6 { assert word[..6][2] == 'a' && "--size"[2] == 's'; }
  }

  /** The scan for `--size` does not see a word `--all=value`. */
  lemma {:induction false} SizeIgnoresExplicitAll(words: seq<string>, position: nat, found: Result, word: string)
    requires Explicit(word, ALL)
    ensures ReadFrom(words + [word], position, SIZE, found).showing == ReadFrom(words, position, SIZE, found).showing
    decreases |words|
  {
    SizeIgnoresTheWord(word, found.showing);
    hide ReadWord, Explicit;
    var all := words + [word];
    if words == [] {
      assert all == [word] && all[1..] == [];
      assert ReadFrom(all, position, SIZE, found) == ReadFrom([], position + 1, SIZE, found);
    } else if words[0] != "--" {
      var reading := ReadWord(words[0], SIZE, found.showing);
      var now := found.(
        showing := reading.showing,
        explicitAt := if Explicit(words[0], SIZE) then Some(position) else found.explicitAt);
      if !reading.pending {
        assert all[1..] == words[1..] + [word];
        SizeIgnoresExplicitAll(words[1..], position + 1, now, word);
      } else if |words| == 1 {
        assert all[2..] == [];
        assert ReadFrom([], position + 2, SIZE, now).showing == now.showing;
      } else {
        assert all[2..] == words[2..] + [word];
        SizeIgnoresExplicitAll(words[2..], position + 2, now, word);
      }
    }
  }

  /** Toggling the list never changes whether sizes are shown. */
  lemma ToggleKeepsTheSizeColumn(args: seq<string>)
    ensures Read(Toggled(args), SIZE).showing == Read(args, SIZE).showing
  {
    hide *;
    match CommandPosition(args, Containers) {
      case None => ToggleWithoutCommand(args, SIZE);
      case Some(i) => ToggleBehindTheCommandKeepsSizes(args, i);
    }
  }

  lemma ToggleBehindTheCommandKeepsSizes(args: seq<string>, i: nat)
    requires CommandPosition(args, Containers) == Some(i)
    ensures Read(Toggled(args), SIZE).showing == Read(args, SIZE).showing
  {
    hide *;
    var words, value := args[i..], Override(!Read(args, ALL).showing);
    ToggledForm(args);
    OverrideIsRead(!Read(args, ALL).showing, false);
    ReadAt(args, i, SIZE);
    ReadAt(args, i, ALL);
    if Read(args, ALL).explicitAt == Some(|args| - 1) {
      ToggleByReplacing(args, i);
      ExplicitLast(words, i, NOTHING);
      var fewer, last := words[..|words| - 1], words[|words| - 1];
      assert words == fewer + [last] && Toggled(args)[i..] == fewer + [value];
      SizeIgnoresExplicitAll(fewer, i, NOTHING, last);
      SizeIgnoresExplicitAll(fewer, i, NOTHING, value);
    } else {
      ToggleByAppending(args, i);
      assert Toggled(args)[i..] == words + [value];
      SizeIgnoresExplicitAll(words, i, NOTHING, value);
    }
    ReadAt(Toggled(args), i, SIZE);
  }
}
