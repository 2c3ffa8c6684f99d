/** The words that `get` completes, from the resource names that kubectl lists
    (control/cluster_kinds.rs, `words`). */
module KindWords {
  import opened Text
  import opened Common

  // ----- names -------------------------------------------------------------

  predicate LabelCharacter(c: char) { 'a' <= c <= 'z' || '0' <= c <= '9' || c == '-' }

  /** A label as section 2.1 of RFC 1123 allows it, in lower case. */
  predicate DnsLabel(part: string) {
    && 1 <= |part| <= 63
    && (forall c :: c in part ==> LabelCharacter(c))
    && part[0] != '-' && part[|part| - 1] != '-'
  }

  /** The position of the first dot, or the length of a name without one. */
  function Dot(name: string): (i: nat)
    ensures i <= |name| && '.' !in name[..i] && (i < |name| ==> name[i] == '.')
  {
    if name == "" || name[0] == '.' then 0 else Dot(name[1..]) + 1
  }

  function PluralOf(name: string): string { name[..Dot(name)] }

  /** A plural that is a label and, outside the core group, a group of labels. */
  predicate ResourceName(line: string) {
    if Dot(line) == |line| then DnsLabel(line)
    else
      var group := line[Dot(line) + 1..];
      DnsLabel(PluralOf(line)) && |group| <= 253 && forall part :: part in Split(group, '.') ==> DnsLabel(part)
  }

  lemma PluralHasNoDot(name: string)
    ensures Dot(PluralOf(name)) == |PluralOf(name)| && PluralOf(PluralOf(name)) == PluralOf(name)
  {
    var plural := PluralOf(name);
    assert forall i :: 0 <= i < |plural| ==> plural[i] in name[..Dot(name)];
  }

  // ----- the words of a set of names ---------------------------------------

  function Served(names: set<string>, plural: string): set<string> { set n | n in names && PluralOf(n) == plural }

  /** A plural that one group serves stands for its name; any other name
      stands for itself. */
  function WordFor(names: set<string>, name: string): string {
    if |Served(names, PluralOf(name))| == 1 then PluralOf(name) else name
  }

  function WordsFor(names: set<string>): set<string> { set n | n in names :: WordFor(names, n) }

  lemma OnlyMember(names: set<string>, name: string)
    requires name in names && |names| == 1
    ensures names == {name}
  {
    assert |names - {name}| == 0;
  }

  /** No two names share a word, and a bare plural is never the name of
      another line. */
  lemma WordsAreUnique(names: set<string>, a: string, b: string)
    requires a in names && b in names && a != b
    ensures WordFor(names, a) != WordFor(names, b)
    ensures WordFor(names, a) != b
  {
    PluralHasNoDot(a);
    PluralHasNoDot(b);
    var served := Served(names, PluralOf(a));
    if |served| == 1 {
      assert a in served;
      OnlyMember(served, a);
      assert b !in served;
    }
    if |Served(names, PluralOf(b))| == 1 {
      assert b in Served(names, PluralOf(b));
      OnlyMember(Served(names, PluralOf(b)), b);
    }
  }

  /** The plural of a resource name: the name itself, or what stands before its
      first dot. */
  predicate IsPlural(plural: string, name: string) { '.' !in plural && (name == plural || plural + "." <= name) }

  lemma {:induction false} DotIsAt(name: string, i: nat)
    requires i <= |name| && '.' !in name[..i] && (i < |name| ==> name[i] == '.')
    ensures Dot(name) == i
  {
    if i > 0 {
      assert name[0] in name[..i];
      assert name[1..][..i - 1] == name[..i][1..];
      DotIsAt(name[1..], i - 1);
    }
  }

  lemma PluralIsUnique(plural: string, name: string)
    ensures IsPlural(plural, name) <==> plural == PluralOf(name)
  {
    var i := Dot(name);
    assert i < |name| ==> name == name[..i] + "." + name[i + 1..];
    if IsPlural(plural, name) {
      assert name[..|plural|] == plural;
      assert name != plural ==> name[|plural|] == (plural + ".")[|plural|];
      DotIsAt(name, |plural|);
    }
  }

  /** A name is offered as its plural exactly when no other line has that
      plural, and as the whole name otherwise. */
  lemma WordsAreShortened(names: set<string>, name: string, plural: string)
    requires name in names && IsPlural(plural, name)
    ensures WordFor(names, name) ==
      if forall other :: other in names && IsPlural(plural, other) ==> other == name then plural else name
  {
    forall other ensures IsPlural(plural, other) <==> plural == PluralOf(other) { PluralIsUnique(plural, other); }
    hide IsPlural, PluralOf;
    var served := Served(names, plural);
    assert name in served;
    if forall other :: other in names && IsPlural(plural, other) ==> other == name {
      assert served == {name};
    } else {
      var other :| other in names && IsPlural(plural, other) && other != name;
      assert other in served;
      if |served| == 1 { OnlyMember(served, name); }
    }
  }

  lemma WordsAreNames(names: set<string>, name: string)
    requires name in names && ResourceName(name)
    ensures ResourceName(WordFor(names, name))
  {
    PluralHasNoDot(name);
  }

  /** There are as many words as distinct names. */
  lemma {:induction false} OneWordPerName(names: set<string>, some: set<string>)
    requires some <= names
    ensures |set n | n in some :: WordFor(names, n)| == |some|
  {
    if some != {} {
      var name :| name in some;
      var fewer := some - {name};
      OneWordPerName(names, fewer);
      var word, words := WordFor(names, name), set n | n in fewer :: WordFor(names, n);
      forall n | n in fewer ensures WordFor(names, n) != word { WordsAreUnique(names, n, name); }
      assert (set n | n in some :: WordFor(names, n)) == words + {word};
    }
  }

  // ----- the order of the words --------------------------------------------

  predicate Lexical(a: string, b: string) {
    if b == "" then false
    else if a == "" then true
    else a[0] < b[0] || (a[0] == b[0] && Lexical(a[1..], b[1..]))
  }

  predicate Before(a: string, b: string) { |a| < |b| || (|a| == |b| && Lexical(a, b)) }

  lemma {:induction false} LexicalIsTotal(a: string, b: string)
    ensures Lexical(a, b) || Lexical(b, a) || a == b
    ensures !(Lexical(a, b) && Lexical(b, a)) && !Lexical(a, a)
  {
    if a != "" && b != "" {
      LexicalIsTotal(a[1..], b[1..]);
      assert a == [a[0]] + a[1..] && b == [b[0]] + b[1..];
    }
    if a != "" { LexicalIsTotal(a[1..], a[1..]); }
  }

  lemma {:induction false} LexicalIsTransitive(a: string, b: string, c: string)
    requires Lexical(a, b) && Lexical(b, c)
    ensures Lexical(a, c)
  {
    if a != "" && a[0] == b[0] && b[0] == c[0] { LexicalIsTransitive(a[1..], b[1..], c[1..]); }
  }

  lemma BeforeIsATotalOrder(a: string, b: string, c: string)
    ensures Before(a, b) || Before(b, a) || a == b
    ensures !(Before(a, b) && Before(b, a)) && !Before(a, a)
    ensures Before(a, b) && Before(b, c) ==> Before(a, c)
  {
    LexicalIsTotal(a, b);
    LexicalIsTotal(a, a);
    if Lexical(a, b) && Lexical(b, c) { LexicalIsTransitive(a, b, c); }
  }

  predicate Ordered(words: seq<string>) { forall i, j :: 0 <= i < j < |words| ==> Before(words[i], words[j]) }

  function Members(words: seq<string>): set<string> { set w | w in words }

  /** The list of words is determined by the set of names. */
  predicate WordList(names: set<string>, words: seq<string>) {
    Ordered(words) && Members(words) == WordsFor(names)
  }

  lemma FirstIsLeast(words: seq<string>, word: string)
    requires Ordered(words) && word in words
    ensures word == words[0] || Before(words[0], word)
  {
  }

  lemma RestOfOrdered(words: seq<string>)
    requires Ordered(words) && words != []
    ensures Ordered(words[1..]) && Members(words[1..]) == Members(words) - {words[0]}
  {
    var rest := words[1..];
    assert words == [words[0]] + rest;
    if words[0] in rest {
      var i :| 0 <= i < |rest| && rest[i] == words[0];
      assert words[i + 1] == words[0];
      BeforeIsATotalOrder(words[0], words[0], words[0]);
    }
  }

  lemma {:induction false} OrderedLength(words: seq<string>)
    requires Ordered(words)
    ensures |Members(words)| == |words|
  {
    NoMembers(words);
    if words != [] {
      RestOfOrdered(words);
      OrderedLength(words[1..]);
      assert words[0] in Members(words);
    }
  }

  lemma NoMembers(words: seq<string>)
    ensures words == [] <==> Members(words) == {}
  {
    if words != [] { assert words[0] in Members(words); }
  }

  lemma {:induction false} OrderedListsAreEqual(a: seq<string>, b: seq<string>)
    requires Ordered(a) && Ordered(b) && Members(a) == Members(b)
    ensures a == b
  {
    NoMembers(a);
    NoMembers(b);
    if a != [] {
      assert a[0] in Members(a);
      assert b[0] in Members(b);
      FirstIsLeast(a, b[0]);
      FirstIsLeast(b, a[0]);
      BeforeIsATotalOrder(a[0], b[0], a[0]);
      RestOfOrdered(a);
      RestOfOrdered(b);
      OrderedListsAreEqual(a[1..], b[1..]);
      assert a == [a[0]] + a[1..] && b == [b[0]] + b[1..];
    }
  }

  /** Sorts words that differ, as the standard library's sort does. */
  method Sort(words: set<string>) returns (sorted: seq<string>)
    ensures Ordered(sorted) && Members(sorted) == words
  {
    sorted := [];
    var left := words;
    while left != {}
      invariant left <= words && Ordered(sorted) && Members(sorted) == words - left
      decreases |left|
    {
      var word :| word in left;
      left := left - {word};
      assert word !in Members(sorted);
      sorted := Insert(sorted, word);
    }
  }

  method Insert(words: seq<string>, word: string) returns (longer: seq<string>)
    requires Ordered(words) && word !in words
    ensures Ordered(longer) && Members(longer) == Members(words) + {word}
  {
    var i := 0;
    while i < |words| && Before(words[i], word)
      invariant 0 <= i <= |words| && forall k :: 0 <= k < i ==> Before(words[k], word)
    {
      i := i + 1;
    }
    forall k | i <= k < |words| ensures Before(word, words[k]) {
      BeforeIsATotalOrder(words[i], word, word);
      BeforeIsATotalOrder(word, words[i], words[k]);
    }
    longer := words[..i] + [word] + words[i..];
    OrderedAround(words[..i], word, words[i..]);
    assert words == words[..i] + words[i..];
  }

  lemma OrderedAround(a: seq<string>, word: string, b: seq<string>)
    requires Ordered(a + b)
    requires forall k :: 0 <= k < |a| ==> Before(a[k], word)
    requires forall k :: 0 <= k < |b| ==> Before(word, b[k])
    ensures Ordered(a + [word] + b)
  {
    var before, all := a + b, a + [word] + b;
    forall i, j | 0 <= i < j < |all| ensures Before(all[i], all[j]) {
      var at := (k: int) => if k < |a| then k else k - 1;
      if i != |a| && j != |a| { assert all[i] == before[at(i)] && all[j] == before[at(j)]; }
    }
  }

  // ----- the output of kubectl ---------------------------------------------

  datatype Refusal = NotText | NoLastNewline | NotAName(line: string)

  predicate EndsLine(text: string) { text != "" && text[|text| - 1] == '\n' }

  function Lines(text: string): seq<string>
    requires EndsLine(text)
  {
    Split(text[..|text| - 1], '\n')
  }

  /** The output as text, if it is UTF-8, is refused unless it is empty or
      whole lines that are resource names; the first wrong line is reported. */
  ghost predicate RefusedFor(text: Option<string>, refusal: Refusal) {
    match refusal
    case NotText => text.None?
    case NoLastNewline => text.Some? && text.value != "" && !EndsLine(text.value)
    case NotAName(line) =>
      && text.Some? && EndsLine(text.value)
      && FirstWrong(Lines(text.value), NotAName(line))
  }

  ghost predicate FirstWrong(lines: seq<string>, refusal: Refusal) {
    refusal.NotAName? &&
    exists i :: 0 <= i < |lines| && lines[i] == refusal.line && !ResourceName(lines[i])
      && forall k :: 0 <= k < i ==> ResourceName(lines[k])
  }

  function Names(text: string): set<string> { if EndsLine(text) then Members(Lines(text)) else {} }

  predicate Accepted(text: Option<string>) {
    text.Some? && (text.value == "" || (EndsLine(text.value) && forall n :: n in Names(text.value) ==> ResourceName(n)))
  }

  method Words(text: Option<string>) returns (words: Result<seq<string>, Refusal>)
    ensures words.Ok? <==> Accepted(text)
    ensures words.Ok? ==> WordList(Names(text.value), words.value)
    ensures words.Err? ==> RefusedFor(text, words.error)
  {
    if text == None { return Err(NotText); }
    var output := text.value;
    if output == "" {
      assert WordsFor({}) == {} == Members([]);
      return Ok([]);
    }
    if output[|output| - 1] != '\n' { return Err(NoLastNewline); }
    var lines := Split(output[..|output| - 1], '\n');
    var names := NamesOf(lines);
    if names.Err? { return Err(names.error); }
    var sorted := WordsOf(names.value);
    return Ok(sorted);
  }

  method NamesOf(lines: seq<string>) returns (names: Result<set<string>, Refusal>)
    ensures names.Ok? <==> forall n :: n in Members(lines) ==> ResourceName(n)
    ensures names.Ok? ==> names.value == Members(lines)
    ensures names.Err? ==> FirstWrong(lines, names.error)
  {
    var found: set<string> := {};
    var i := 0;
    while i < |lines|
      invariant 0 <= i <= |lines|
      invariant found == Members(lines[..i])
      invariant forall k :: 0 <= k < i ==> ResourceName(lines[k])
    {
      if !ResourceName(lines[i]) {
        assert lines[i] in Members(lines);
        return Err(NotAName(lines[i]));
      }
      assert lines[..i + 1] == lines[..i] + [lines[i]];
      found := found + {lines[i]};
      i := i + 1;
    }
    assert lines[..i] == lines;
    return Ok(found);
  }

  method WordsOf(names: set<string>) returns (words: seq<string>)
    ensures WordList(names, words)
  {
    var groups := Groups(names);
    var found: set<string> := {};
    var left := names;
    while left != {}
      invariant left <= names
      invariant found == set n | n in names && n !in left :: WordFor(names, n)
      decreases |left|
    {
      var name :| name in left;
      left := left - {name};
      assert name in Served(names, PluralOf(name));
      found := found + {if groups[PluralOf(name)] == 1 then PluralOf(name) else name};
    }
    words := Sort(found);
  }

  ghost predicate Counts(names: set<string>, groups: map<string, nat>) {
    && (forall p :: p in groups <==> Served(names, p) != {})
    && (forall p :: p in groups ==> groups[p] == |Served(names, p)|)
  }

  lemma CountOneMore(names: set<string>, groups: map<string, nat>, name: string)
    requires Counts(names, groups) && name !in names
    ensures var plural := PluralOf(name);
      Counts(names + {name}, groups[plural := (if plural in groups then groups[plural] else 0) + 1])
  {
    hide PluralOf;
    var more, plural := names + {name}, PluralOf(name);
    assert Served(more, plural) == Served(names, plural) + {name};
    forall p | p != plural ensures Served(more, p) == Served(names, p) { }
  }

  /** Counts the names of each plural. */
  method Groups(names: set<string>) returns (groups: map<string, nat>)
    ensures Counts(names, groups)
  {
    groups := map[];
    var left := names;
    while left != {}
      invariant left <= names && Counts(names - left, groups)
      decreases |left|
    {
      var name :| name in left;
      var plural := PluralOf(name);
      CountOneMore(names - left, groups, name);
      assert names - (left - {name}) == names - left + {name};
      groups := groups[plural := (if plural in groups then groups[plural] else 0) + 1];
      left := left - {name};
    }
    assert names - left == names;
  }

  /** Accepted output gives one word for each distinct line, in strict order,
      and every word is itself a resource name. */
  lemma WordListsAreBijective(names: set<string>, words: seq<string>)
    requires WordList(names, words) && forall n :: n in names ==> ResourceName(n)
    ensures |words| == |names|
    ensures forall w :: w in words ==> ResourceName(w) && exists n :: n in names && WordFor(names, n) == w
    ensures forall w :: w in words && w in names ==> WordFor(names, w) == w
  {
    OneWordPerName(names, names);
    OrderedLength(words);
    forall w | w in words ensures ResourceName(w) && exists n :: n in names && WordFor(names, n) == w {
      assert w in Members(words);
      var n :| n in names && WordFor(names, n) == w;
      WordsAreNames(names, n);
    }
    forall w | w in words && w in names ensures WordFor(names, w) == w {
      assert w in Members(words);
      var n :| n in names && WordFor(names, n) == w;
      if n != w { WordsAreUnique(names, n, w); }
    }
  }

  /** The words depend only on the set of lines, not on their order or
      repetition. */
  lemma WordsDependOnTheLinesOnly(names: set<string>, a: seq<string>, b: seq<string>)
    requires WordList(names, a) && WordList(names, b)
    ensures a == b
  {
    OrderedListsAreEqual(a, b);
  }

  // ----- the order in other words ------------------------------------------

  /** The shorter word comes first, and of two of one length the one with the
      smaller character where they first differ. */
  lemma ShorterWordsComeFirst(a: string, b: string)
    ensures Before(a, b) <==>
      |a| < |b| || (|a| == |b| && exists i :: 0 <= i < |a| && a[..i] == b[..i] && a[i] < b[i])
  {
    LexicalByFirstDifference(a, b);
  }

  lemma {:induction false} LexicalByFirstDifference(a: string, b: string)
    ensures |a| == |b| ==> (Lexical(a, b) <==> exists i :: 0 <= i < |a| && a[..i] == b[..i] && a[i] < b[i])
  {
    if |a| == |b| > 0 {
      LexicalByFirstDifference(a[1..], b[1..]);
      if Lexical(a, b) {
        if a[0] < b[0] {
          assert a[..0] == b[..0];
        } else {
          var i :| 0 <= i < |a[1..]| && a[1..][..i] == b[1..][..i] && a[1..][i] < b[1..][i];
          assert a[..i + 1] == [a[0]] + a[1..][..i] && b[..i + 1] == [b[0]] + b[1..][..i];
        }
      }
      if i :| 0 <= i < |a| && a[..i] == b[..i] && a[i] < b[i] {
        if i > 0 {
          assert a[..i][0] == a[0] && b[..i][0] == b[0];
          assert a[1..][..i - 1] == a[..i][1..] && b[1..][..i - 1] == b[..i][1..];
        }
      }
    }
  }
}
