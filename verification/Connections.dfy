/** The connection options that an action takes over from the displayed argv
    (`connections` of control/native_actions.rs). */
module Connections {
  import opened Common
  import opened CommandLine
  import Inspection

  // ----- vocabulary --------------------------------------------------------

  datatype Vocabulary = Vocabulary(value: string -> bool, flag: string -> bool)

  predicate DockerConnectionValue(name: string) {
    name == "--context" || name == "-c" || name == "--host" || name == "-H" || name == "--config" ||
    name == "--tlscacert" || name == "--tlscert" || name == "--tlskey"
  }

  predicate DockerConnectionFlag(name: string) { name == "--tls" || name == "--tlsverify" }

  function VocabularyOf(workspace: Workspace): Vocabulary {
    if workspace.Containers? then Vocabulary(n => DockerConnectionValue(n), n => DockerConnectionFlag(n))
    else Vocabulary(n => KubeConnectionValue(n), n => KubeConnectionFlag(n))
  }

  /** The part of a word before its first `=`. */
  function Head(word: string): string {
    if word == "" || word[0] == '=' then "" else [word[0]] + Head(word[1..])
  }

  /** The value option that `word` names: alone, with an inline value after
      `=`, or as a short option glued to its value. */
  function ValueOption(word: string, v: Vocabulary): Option<string> {
    if v.value(word) then Some(word)
    else if '=' in word && v.value(Head(word)) then Some(Head(word))
    else if |word| > 2 && v.value(word[..2]) then Some(word[..2])
    else None
  }

  predicate FlagOption(word: string, v: Vocabulary) {
    v.flag(word) || ('=' in word && v.flag(Head(word)))
  }

  predicate ConnectionWord(word: string, v: Vocabulary) {
    ValueOption(word, v).Some? || FlagOption(word, v)
  }

  predicate NamespaceName(name: string) { name == "--namespace" || name == "-n" }

  predicate NamespaceWord(word: string, v: Vocabulary) {
    match ValueOption(word, v) case None => false case Some(name) => NamespaceName(name)
  }

  /** What a grammar and a vocabulary have to agree on. */
  ghost predicate Compatible(v: Vocabulary, g: Grammar) {
    && WellFormed(g)
    && (forall name :: v.value(name) ==> g.takes(name))
    && (forall name :: v.flag(name) ==> !g.takes(name) && OptionName(name) && name[1] == '-')
  }

  // ----- the projection ----------------------------------------------------

  function Less(n: nat, k: nat): nat { if n > k then n - k else 0 }

  /** The connection options among the first `room` words; `scoped` leaves the
      namespaces out. */
  function Project(words: seq<string>, room: nat, v: Vocabulary, g: Grammar, scoped: bool): seq<string> {
    if room == 0 || words == [] || words[0] == "--" then []
    else
      var skip := scoped && NamespaceWord(words[0], v);
      if v.value(words[0]) then
        if |words| == 1 then (if skip then [] else words)
        else (if skip then [] else words[..2]) + Project(words[2..], Less(room, 2), v, g, scoped)
      else if ConnectionWord(words[0], v) then
        (if skip then [] else [words[0]]) + Project(words[1..], room - 1, v, g, scoped)
      else if g.takes(words[0]) && |words| > 1 then Project(words[2..], Less(room, 2), v, g, scoped)
      else Project(words[1..], room - 1, v, g, scoped)
  }

  function ScopeOption(namespace: Option<string>): seq<string> {
    match namespace case None => [] case Some(name) => ["--namespace", name]
  }

  /** Where connection options end: docker's before the command, kubectl's
      anywhere in the argv. */
  function Room(words: seq<string>, workspace: Workspace): nat {
    if workspace.Kubernetes? then |words|
    else match CommandPosition(words, workspace) case None => 0 case Some(i) => i
  }

  function ConnectionsOf(args: seq<string>, workspace: Workspace, namespace: Option<string>): seq<string> {
    var words := Inspected(args, workspace);
    Project(words, Room(words, workspace), VocabularyOf(workspace),
            RootGrammar(workspace, Command(args, workspace)), namespace.Some?) + ScopeOption(namespace)
  }

  lemma {:induction false} HeadIsProper(word: string)
    ensures if '=' in word then |Head(word)| < |word| else Head(word) == word
    ensures '=' !in Head(word) && Head(word) <= word
  {
    if word != "" && word[0] != '=' { HeadIsProper(word[1..]); }
  }

  lemma WholeWordIsTheName(word: string, v: Vocabulary)
    ensures ValueOption(word, v) == Some(word) <==> v.value(word)
  {
    HeadIsProper(word);
  }

  /** The loop of `connections`. */
  method Collect(words: seq<string>, end: nat, v: Vocabulary, g: Grammar, scoped: bool)
    returns (args: seq<string>)
    ensures args == Project(words, end, v, g, scoped)
  {
    hide ValueOption, FlagOption;
    args := [];
    var rest, room: nat := words, end;
    while room > 0 && rest != []
      invariant args + Project(rest, room, v, g, scoped) == Project(words, end, v, g, scoped)
      decreases |rest|
    {
      var arg, was, space := rest[0], rest, room;
      if arg == "--" { break; }
      rest, room := rest[1..], room - 1;
      var taken: seq<string> := [];
      var name := ValueOption(arg, v);
      WholeWordIsTheName(arg, v);
      if name.Some? {
        var skip := scoped && NamespaceName(name.value);
        if !skip { taken := [arg]; }
        if arg == name.value && rest != [] {
          if !skip { taken := taken + [rest[0]]; }
          rest, room := rest[1..], Less(room, 1);
          assert rest == was[2..];
        }
      } else if FlagOption(arg, v) {
        taken := [arg];
      } else if g.takes(arg) && rest != [] {
        rest, room := rest[1..], Less(room, 1);
        assert rest == was[2..];
      }
      assert Project(was, space, v, g, scoped) == taken + Project(rest, room, v, g, scoped);
      Associate(args, taken, Project(rest, room, v, g, scoped));
      args := args + taken;
    }
    assert args + [] == args;
  }

  // ----- the name of an option is found, whatever the order of the search ---

  /** What the search for a value option accepts for one name. */
  predicate Names(word: string, name: string) {
    word == name || name + "=" <= word || (|name| == 2 && name <= word && |word| > 2)
  }

  lemma {:induction false} HeadOfInline(word: string, name: string)
    requires '=' !in name && name + "=" <= word
    ensures '=' in word && Head(word) == name
  {
    if name == "" {
      assert word[0] == ("=")[0];
    } else {
      assert word[0] == name[0] && name[1..] + "=" <= word[1..] by { assert (name + "=")[1..] == name[1..] + "="; }
      HeadOfInline(word[1..], name[1..]);
    }
  }

  lemma GluedValueMatches(word: string, name: string, v: Vocabulary)
    requires forall n :: v.value(n) ==> OptionName(n)
    requires v.value(name) && |name| == 2 && name <= word && |word| > 2
    ensures ValueOption(word, v) == Some(name)
  {
    HeadIsProper(word);
    assert word[1] == name[1] && name == word[..2];
    if '=' in word && v.value(Head(word)) {
      assert Head(word)[1] == word[1];
      assert Head(word) == word[..2];
    }
  }

  /** At most one name of a vocabulary matches a word, so the first match in
      any order is `ValueOption`. */
  lemma TheMatchIsUnique(word: string, name: string, v: Vocabulary)
    requires forall n :: v.value(n) ==> OptionName(n)
    ensures v.value(name) && Names(word, name) <==> ValueOption(word, v) == Some(name)
  {
    HeadIsProper(word);
    if ValueOption(word, v) == Some(name) && !v.value(word) && '=' in word && v.value(Head(word)) {
      InlineOfHead(word);
    }
    if v.value(name) && name + "=" <= word { HeadOfInline(word, name); }
    if v.value(name) && |name| == 2 && name <= word && |word| > 2 { GluedValueMatches(word, name, v); }
  }

  lemma {:induction false} InlineOfHead(word: string)
    requires '=' in word
    ensures Head(word) + "=" <= word
  {
    if word[0] != '=' {
      InlineOfHead(word[1..]);
      assert Head(word) + "=" == [word[0]] + (Head(word[1..]) + "=");
    }
  }

  // ----- words and grammars ------------------------------------------------

  lemma ShortValueStaysWhole(word: string, g: Grammar)
    requires |word| >= 2 && word[1] != '-' && g.takes(word[..2]) && WellFormed(g)
    ensures Parts(word, g) == [word]
  {
    var flags := word[1..];
    assert flags[0] == word[1] && ['-', flags[0]] == word[..2];
    assert ['-', flags[0]] + flags[1..] == word;
  }

  /** A word with its value inline, and a flag, take no other word and are
      never split; a value option that stands alone takes the next word. */
  lemma ConnectionWordsStandAlone(word: string, v: Vocabulary, g: Grammar)
    requires Compatible(v, g) && ConnectionWord(word, v)
    ensures Dash(word) && word != "--" && Parts(word, g) == [word] && (g.takes(word) <==> v.value(word))
  {
    HeadIsProper(word);
    if v.value(word) || ('=' in word && v.value(Head(word))) {
      var name := if v.value(word) then word else Head(word);
      assert name <= word && OptionName(name) && g.takes(name);
      if |name| == 2 {
        assert name == word[..2];
        ShortValueStaysWhole(word, g);
      }
    } else if ValueOption(word, v).Some? {
      ShortValueStaysWhole(word, g);
    } else {
      var name := if v.flag(word) then word else Head(word);
      assert name <= word && word[1] == name[1];
    }
  }

  // ----- complete lists of connection options ------------------------------

  /** Connection options only, each separate value present. */
  predicate Complete(words: seq<string>, v: Vocabulary) {
    words == [] ||
    (if v.value(words[0]) then |words| >= 2 && Complete(words[2..], v)
     else ConnectionWord(words[0], v) && Complete(words[1..], v))
  }

  lemma {:induction false} CompleteAppends(first: seq<string>, second: seq<string>, v: Vocabulary)
    requires Complete(first, v) && Complete(second, v)
    ensures Complete(first + second, v)
  {
    if first == [] {
      assert first + second == second;
    } else {
      var k := if v.value(first[0]) then 2 else 1;
      CompleteAppends(first[k..], second, v);
      assert (first + second)[k..] == first[k..] + second;
    }
  }

  lemma InspectOneWord(word: string, rest: seq<string>, v: Vocabulary, g: Grammar)
    requires Compatible(v, g) && ConnectionWord(word, v) && !v.value(word)
    ensures InspectWith([word] + rest, g) == [word] + InspectWith(rest, g)
  {
    hide ConnectionWord, InspectWith, Parts;
    ConnectionWordsStandAlone(word, v, g);
    Inspection.InspectPiece(word, rest, g);
  }

  lemma InspectOnePair(name: string, value: string, rest: seq<string>, v: Vocabulary, g: Grammar)
    requires Compatible(v, g) && v.value(name)
    ensures InspectWith([name, value] + rest, g) == [name, value] + InspectWith(rest, g)
  {
    hide InspectWith, Parts;
    WholeWordIsTheName(name, v);
    ConnectionWordsStandAlone(name, v, g);
    Inspection.InspectPiece(name, [value] + rest, g);
    assert [name, value] + rest == [name] + ([value] + rest) && ([value] + rest)[1..] == rest;
    assert [name] + [value] == [name, value];
  }

  /** A complete list is read word for word, whatever follows it. */
  lemma {:induction false} InspectAfterConnections(list: seq<string>, rest: seq<string>, v: Vocabulary, g: Grammar)
    requires Compatible(v, g) && Complete(list, v)
    ensures InspectWith(list + rest, g) == list + InspectWith(rest, g)
  {
    hide ConnectionWord, InspectWith;
    if list == [] {
      assert list + rest == rest;
      assert list + InspectWith(rest, g) == InspectWith(rest, g);
    } else {
      var k := if v.value(list[0]) then 2 else 1;
      var later := list[k..];
      InspectAfterConnections(later, rest, v, g);
      assert list == list[..k] + later;
      Associate(list[..k], later, rest);
      Associate(list[..k], later, InspectWith(rest, g));
      if k == 2 {
        assert list[..k] == [list[0], list[1]];
        InspectOnePair(list[0], list[1], later + rest, v, g);
      } else {
        assert list[..k] == [list[0]];
        InspectOneWord(list[0], later + rest, v, g);
      }
    }
  }

  lemma ProjectOneWord(word: string, rest: seq<string>, room: nat, v: Vocabulary, g: Grammar)
    requires Compatible(v, g) && ConnectionWord(word, v) && !v.value(word)
    ensures Project([word] + rest, 1 + room, v, g, false) == [word] + Project(rest, room, v, g, false)
  {
    ConnectionWordsStandAlone(word, v, g);
    assert ([word] + rest)[1..] == rest;
  }

  lemma ProjectOnePair(name: string, value: string, rest: seq<string>, room: nat, v: Vocabulary, g: Grammar)
    requires Compatible(v, g) && v.value(name)
    ensures Project([name, value] + rest, 2 + room, v, g, false) == [name, value] + Project(rest, room, v, g, false)
  {
    var words := [name, value] + rest;
    assert words[2..] == rest && words[..2] == [name, value];
  }

  lemma {:induction false} ProjectAfterConnections(list: seq<string>, rest: seq<string>, room: nat, v: Vocabulary, g: Grammar)
    requires Compatible(v, g) && Complete(list, v)
    ensures Project(list + rest, |list| + room, v, g, false) == list + Project(rest, room, v, g, false)
  {
    hide ConnectionWord, Project;
    if list == [] {
      assert list + rest == rest;
      assert list + Project(rest, room, v, g, false) == Project(rest, room, v, g, false);
    } else {
      var k := if v.value(list[0]) then 2 else 1;
      var later := list[k..];
      ProjectAfterConnections(later, rest, room, v, g);
      assert list == list[..k] + later;
      Associate(list[..k], later, rest);
      Associate(list[..k], later, Project(rest, room, v, g, false));
      if k == 2 {
        assert list[..k] == [list[0], list[1]];
        ProjectOnePair(list[0], list[1], later + rest, |later| + room, v, g);
      } else {
        assert list[..k] == [list[0]];
        ProjectOneWord(list[0], later + rest, |later| + room, v, g);
      }
    }
  }

  // ----- complete projections ----------------------------------------------

  /** The projection ends in an option whose value is missing. */
  predicate Dangling(words: seq<string>, room: nat, v: Vocabulary, g: Grammar, scoped: bool) {
    if room == 0 || words == [] || words[0] == "--" then false
    else if v.value(words[0]) then
      if |words| == 1 then !(scoped && NamespaceWord(words[0], v))
      else Dangling(words[2..], Less(room, 2), v, g, scoped)
    else if !ConnectionWord(words[0], v) && g.takes(words[0]) && |words| > 1 then
      Dangling(words[2..], Less(room, 2), v, g, scoped)
    else Dangling(words[1..], room - 1, v, g, scoped)
  }

  lemma {:induction false} ProjectionIsComplete(words: seq<string>, room: nat, v: Vocabulary, g: Grammar, scoped: bool)
    requires !Dangling(words, room, v, g, scoped)
    ensures Complete(Project(words, room, v, g, scoped), v)
  {
    hide ValueOption, FlagOption;
    if room == 0 || words == [] || words[0] == "--" {
    } else {
      var skip := scoped && NamespaceWord(words[0], v);
      WholeWordIsTheName(words[0], v);
      if v.value(words[0]) {
        if |words| > 1 {
          var later := Project(words[2..], Less(room, 2), v, g, scoped);
          ProjectionIsComplete(words[2..], Less(room, 2), v, g, scoped);
          CompletePair(words[0], words[1], later, v);
          assert words[..2] == [words[0], words[1]];
          assert Project(words, room, v, g, scoped) == if skip then later else [words[0], words[1]] + later;
        }
      } else if ConnectionWord(words[0], v) {
        var later := Project(words[1..], room - 1, v, g, scoped);
        ProjectionIsComplete(words[1..], room - 1, v, g, scoped);
        CompleteWord(words[0], later, v);
        assert Project(words, room, v, g, scoped) == if skip then later else [words[0]] + later;
      } else if g.takes(words[0]) && |words| > 1 {
        ProjectionIsComplete(words[2..], Less(room, 2), v, g, scoped);
      } else {
        ProjectionIsComplete(words[1..], room - 1, v, g, scoped);
      }
    }
  }

  lemma CompletePair(name: string, value: string, rest: seq<string>, v: Vocabulary)
    requires v.value(name) && Complete(rest, v)
    ensures Complete([name, value] + rest, v)
  {
    assert ([name, value] + rest)[2..] == rest;
  }

  lemma CompleteWord(word: string, rest: seq<string>, v: Vocabulary)
    requires !v.value(word) && ConnectionWord(word, v) && Complete(rest, v)
    ensures Complete([word] + rest, v)
  {
    assert ([word] + rest)[1..] == rest;
  }

  /** A dangling projection is a complete list and the option that lacks its
      value. */
  lemma {:induction false} DanglingProjection(words: seq<string>, room: nat, v: Vocabulary, g: Grammar, scoped: bool)
    returns (list: seq<string>, name: string)
    requires Dangling(words, room, v, g, scoped)
    ensures Project(words, room, v, g, scoped) == list + [name] && Complete(list, v) && v.value(name)
  {
    hide ValueOption, FlagOption;
    var skip := scoped && NamespaceWord(words[0], v);
    WholeWordIsTheName(words[0], v);
    if v.value(words[0]) {
      if |words| == 1 {
        return [], words[0];
      }
      list, name := DanglingProjection(words[2..], Less(room, 2), v, g, scoped);
      if !skip {
        CompletePair(words[0], words[1], list, v);
        assert words[..2] == [words[0], words[1]];
        Associate([words[0], words[1]], list, [name]);
        list := [words[0], words[1]] + list;
      }
    } else if ConnectionWord(words[0], v) {
      list, name := DanglingProjection(words[1..], room - 1, v, g, scoped);
      if !skip {
        CompleteWord(words[0], list, v);
        Associate([words[0]], list, [name]);
        list := [words[0]] + list;
      }
    } else if g.takes(words[0]) && |words| > 1 {
      list, name := DanglingProjection(words[2..], Less(room, 2), v, g, scoped);
    } else {
      list, name := DanglingProjection(words[1..], room - 1, v, g, scoped);
    }
  }

  // ----- which words are picked --------------------------------------------

  /** What a word is in an inspected argv, by the arity of the options alone. */
  datatype Role = Name | Value | Operand | Literal

  function Roles(words: seq<string>, g: Grammar): (roles: seq<Role>)
    ensures |roles| == |words|
  {
    if words == [] then []
    else if words[0] == "--" then seq(|words|, i => Literal)
    else
      var role := if Dash(words[0]) then Name else Operand;
      if g.takes(words[0]) && |words| > 1 then [role, Value] + Roles(words[2..], g)
      else [role] + Roles(words[1..], g)
  }

  /** The words that stand where an option's name stands and name a connection
      option, and the values of those names. */
  function Pick(words: seq<string>, roles: seq<Role>, before: string, v: Vocabulary, scoped: bool): seq<string>
    requires |roles| == |words|
  {
    if words == [] then []
    else
      var owner := if roles[0].Value? then before else words[0];
      var picked := (roles[0].Name? || (roles[0].Value? && v.value(owner))) && ConnectionWord(owner, v) &&
                    !(scoped && NamespaceWord(owner, v));
      (if picked then [words[0]] else []) + Pick(words[1..], roles[1..], words[0], v, scoped)
  }

  lemma {:induction false} NothingPickedFromLiterals(words: seq<string>, before: string, v: Vocabulary, scoped: bool)
    ensures Pick(words, seq(|words|, i => Literal), before, v, scoped) == []
  {
    if words != [] {
      NothingPickedFromLiterals(words[1..], words[0], v, scoped);
      assert seq(|words|, i => Literal)[1..] == seq(|words[1..]|, i => Literal);
    }
  }

  predicate Picked(name: string, v: Vocabulary, scoped: bool) {
    ConnectionWord(name, v) && !(scoped && NamespaceWord(name, v))
  }

  lemma PickOne(words: seq<string>, role: Role, later: seq<Role>, before: string, v: Vocabulary, scoped: bool)
    requires |words| == 1 + |later| && !role.Value? && (ConnectionWord(words[0], v) ==> role.Name?)
    ensures Pick(words, [role] + later, before, v, scoped) ==
            (if role.Name? && Picked(words[0], v, scoped) then [words[0]] else []) +
            Pick(words[1..], later, words[0], v, scoped)
  {
    assert ([role] + later)[1..] == later;
  }

  lemma PickPair(words: seq<string>, later: seq<Role>, before: string, v: Vocabulary, scoped: bool)
    requires |words| == 2 + |later| && (ConnectionWord(words[0], v) <==> v.value(words[0]))
    ensures Pick(words, [Name, Value] + later, before, v, scoped) ==
            (if Picked(words[0], v, scoped) then [words[0], words[1]] else []) +
            Pick(words[2..], later, words[1], v, scoped)
  {
    hide ConnectionWord, NamespaceWord;
    var roles := [Name, Value] + later;
    assert roles[1..] == [Value] + later && roles[1..][1..] == later && words[1..][1..] == words[2..];
    var tail := Pick(words[2..], later, words[1], v, scoped);
    assert Pick(words[1..], roles[1..], words[0], v, scoped) ==
           (if Picked(words[0], v, scoped) then [words[1]] else []) + tail;
    assert [words[0]] + ([words[1]] + tail) == [words[0], words[1]] + tail;
  }

  /** A room that never ends between an option and its value. */
  predicate Aligned(words: seq<string>, room: nat, g: Grammar)
    decreases |words|
  {
    room <= |words| &&
    (room == 0 || words[0] == "--" ||
     (if g.takes(words[0]) && |words| > 1 then room >= 2 && Aligned(words[2..], room - 2, g)
      else Aligned(words[1..], room - 1, g)))
  }

  lemma {:induction false} WholeIsAligned(words: seq<string>, g: Grammar)
    ensures Aligned(words, |words|, g)
  {
    if words != [] {
      if |words| > 1 { WholeIsAligned(words[2..], g); }
      WholeIsAligned(words[1..], g);
    }
  }

  lemma LiteralsOf(words: seq<string>, room: nat, g: Grammar)
    requires room <= |words| && words != [] && words[0] == "--"
    ensures Roles(words, g)[..room] == seq(|words[..room]|, i => Literal)
  {
  }

  /** Among the words of its room, the projection never takes a word that
      another option consumes: it is the selection by role, and the roles do
      not know about connections. */
  lemma {:induction false} ProjectionBySelection(words: seq<string>, room: nat, before: string, v: Vocabulary, g: Grammar, scoped: bool)
    requires Compatible(v, g) && Aligned(words, room, g)
    ensures Project(words, room, v, g, scoped) == Pick(words[..room], Roles(words, g)[..room], before, v, scoped)
    decreases |words|
  {
    hide ValueOption, FlagOption, Parts, Pick;
    if room == 0 {
      NothingPickedFromLiterals([], before, v, scoped);
      assert words[..0] == [] && Roles(words, g)[..0] == seq(0, i => Literal);
    } else if words[0] == "--" {
      NothingPickedFromLiterals(words[..room], before, v, scoped);
      LiteralsOf(words, room, g);
    } else {
      WholeWordIsTheName(words[0], v);
      if ConnectionWord(words[0], v) { ConnectionWordsStandAlone(words[0], v, g); }
      var some, roles := words[..room], Roles(words, g)[..room];
      if g.takes(words[0]) && |words| > 1 {
        var later := Roles(words[2..], g)[..room - 2];
        ProjectionBySelection(words[2..], room - 2, words[1], v, g, scoped);
        assert some[2..] == words[2..][..room - 2] && roles == [Name, Value] + later;
        PickPair(some, later, before, v, scoped);
        assert words[..2] == [words[0], words[1]];
      } else {
        var role, later := if Dash(words[0]) then Name else Operand, Roles(words[1..], g)[..room - 1];
        ProjectionBySelection(words[1..], room - 1, words[0], v, g, scoped);
        assert some[1..] == words[1..][..room - 1] && roles == [role] + later;
        PickOne(some, role, later, before, v, scoped);
        assert |words| == 1 ==> words == [words[0]] && Project(words[1..], 0, v, g, scoped) == [];
      }
    }
  }

  // ----- the workspaces ----------------------------------------------------

  lemma KubeConnectionsTakeValues(name: string, command: string)
    ensures KubeConnectionValue(name) ==> TakesValueIn(name, Kubernetes, command)
  {
    hide KubeCommandValue, KubeGlobalValue, KubeReadValue;
  }

  lemma KubeConnectionFlagsTakeNone(name: string, command: string)
    requires KubeConnectionFlag(name)
    ensures !TakesValueIn(name, Kubernetes, command) && OptionName(name) && name[1] == '-'
    ensures !KubeConnectionValue(name) && !KubeGlobalValue(name)
  {
    hide KubeConnectionFlag, KubeConnectionValue, KubeCommandValue, KubeGlobalValue, KubeReadValue;
    ConnectionFlagsAreOptions(name);
    GlobalVocabularyNamesOptions(name);
    ReadVocabularyNamesOptions(name);
    ConnectionValuesAreNoFlags(name);
    CommandVocabularyNamesOptions(name);
  }

  lemma DockerConnectionsTakeValues(name: string)
    ensures DockerConnectionValue(name) ==> DockerValue(name)
    ensures DockerConnectionFlag(name) ==> !DockerValue(name) && OptionName(name) && name[1] == '-'
  {}

  lemma VocabulariesAreCompatible(workspace: Workspace, command: string)
    ensures Compatible(VocabularyOf(workspace), RootGrammar(workspace, command))
  {
    hide KubeConnectionFlag, KubeConnectionValue, DockerConnectionValue, DockerConnectionFlag, DockerValue;
    var v, g := VocabularyOf(workspace), RootGrammar(workspace, command);
    GrammarsAreWellFormed(workspace, command);
    forall name | v.value(name) ensures g.takes(name) {
      if workspace.Containers? { DockerConnectionsTakeValues(name); } else { KubeConnectionsTakeValues(name, command); }
    }
    forall name | v.flag(name) ensures !g.takes(name) && OptionName(name) && name[1] == '-' {
      if workspace.Containers? { DockerConnectionsTakeValues(name); } else { KubeConnectionFlagsTakeNone(name, command); }
    }
  }

  lemma AdvanceOverConnectionWord(word: string, workspace: Workspace)
    requires ConnectionWord(word, VocabularyOf(workspace))
    ensures Dash(word)
    ensures Advance(word, workspace) == if VocabularyOf(workspace).value(word) then 2 else 1
  {
    hide KubeConnectionFlag, KubeConnectionValue, DockerConnectionValue, DockerConnectionFlag, DockerValue,
      KubeGlobalValue, Parts, ShortOptions;
    var v, g := VocabularyOf(workspace), RootGrammar(workspace, "get");
    VocabulariesAreCompatible(workspace, "get");
    ConnectionWordsStandAlone(word, v, g);
    if v.value(word) {
      if workspace.Containers? { DockerConnectionsTakeValues(word); }
    } else {
      NoRootValueBesides(word, workspace);
      if '=' !in word && ValueOption(word, v).Some? && workspace.Containers? { DockerConnectionsTakeValues(word[..2]); }
      if FlagOption(word, v) && '=' !in word && workspace.Containers? { DockerFlagsAreBare(word); }
    }
  }

  lemma DockerFlagsAreBare(word: string)
    ensures DockerConnectionFlag(word) ==> BareRootFlag(word)
  {
    hide KubeConnectionFlag;
  }

  lemma NoRootValueBesides(word: string, workspace: Workspace)
    requires ConnectionWord(word, VocabularyOf(workspace)) && !VocabularyOf(workspace).value(word)
    ensures !RootValue(word, workspace)
  {
    hide KubeConnectionFlag, KubeConnectionValue, DockerConnectionValue, DockerConnectionFlag, DockerValue,
      KubeGlobalValue, KubeCommandValue, KubeReadValue;
    VocabulariesAreCompatible(workspace, "get");
    ConnectionWordsStandAlone(word, VocabularyOf(workspace), RootGrammar(workspace, "get"));
    assert RootValue(word, workspace) ==> TakesValueIn(word, workspace, "get") by {
      GlobalVocabularyNamesOptions(word);
      ConnectionVocabularyNamesOptions(word);
    }
  }

  /** The word after a complete list of connection options is the command. */
  lemma {:induction false} CommandAfterConnections(list: seq<string>, rest: seq<string>, workspace: Workspace)
    requires Complete(list, VocabularyOf(workspace)) && rest != [] && !Dash(rest[0])
    ensures CommandPosition(list + rest, workspace) == Some(|list|)
  {
    hide Advance, VocabularyOf, ValueOption, FlagOption;
    if list == [] {
      assert list + rest == rest;
    } else {
      WholeWordIsTheName(list[0], VocabularyOf(workspace));
      AdvanceOverConnectionWord(list[0], workspace);
      var k := if VocabularyOf(workspace).value(list[0]) then 2 else 1;
      CommandAfterConnections(list[k..], rest, workspace);
      assert (list + rest)[k..] == list[k..] + rest;
    }
  }

  // ----- projecting again --------------------------------------------------

  /** Words behind a command that hold no connection option, however many of
      them are consumed. */
  predicate Inert(words: seq<string>, v: Vocabulary, g: Grammar) {
    words == [] || words[0] == "--" ||
    (!ConnectionWord(words[0], v) && Parts(words[0], g) == [words[0]] &&
     (if g.takes(words[0]) && |words| > 1 then Inert(words[2..], v, g) else Inert(words[1..], v, g)))
  }

  lemma {:induction false} InertIsSkipped(words: seq<string>, v: Vocabulary, g: Grammar)
    requires Inert(words, v, g) && !g.endsAtOperand
    ensures InspectWith(words, g) == words && Project(words, |words|, v, g, false) == []
  {
    hide ValueOption, FlagOption;
    if words != [] && words[0] != "--" {
      WholeWordIsTheName(words[0], v);
      if g.takes(words[0]) && |words| > 1 {
        InertIsSkipped(words[2..], v, g);
        assert [words[0]] + [words[1]] + words[2..] == words;
      } else {
        InertIsSkipped(words[1..], v, g);
        assert [words[0]] + words[1..] == words;
      }
    }
  }

  /** The first word that a projection picks is an option. */
  lemma {:induction false} ProjectionStartsWithAnOption(words: seq<string>, room: nat, v: Vocabulary, g: Grammar)
    requires Compatible(v, g)
    ensures var list := Project(words, room, v, g, false); list != [] ==> Dash(list[0])
  {
    hide ValueOption, FlagOption, Parts;
    if room > 0 && words != [] && words[0] != "--" {
      WholeWordIsTheName(words[0], v);
      if ConnectionWord(words[0], v) {
        ConnectionWordsStandAlone(words[0], v, g);
      } else if g.takes(words[0]) && |words| > 1 {
        ProjectionStartsWithAnOption(words[2..], Less(room, 2), v, g);
      } else {
        ProjectionStartsWithAnOption(words[1..], room - 1, v, g);
      }
    }
  }

  lemma ListComesBackFromKubectl(list: seq<string>, tail: seq<string>, v: Vocabulary, g: Grammar)
    requires Compatible(v, g) && Complete(list, v) && Inert(tail, v, g) && !g.endsAtOperand
    ensures var words := InspectWith(list + tail, g); Project(words, |words|, v, g, false) == list
  {
    hide Project, Inert, InspectWith, Complete, Compatible;
    InspectAfterConnections(list, tail, v, g);
    InertIsSkipped(tail, v, g);
    ProjectAfterConnections(list, tail, |tail|, v, g);
    assert list + [] == list;
  }

  lemma ListComesBackFromDocker(list: seq<string>, tail: seq<string>, v: Vocabulary, g: Grammar)
    requires Compatible(v, g) && Complete(list, v) && tail != [] && EndsOptions(tail[0], g)
    ensures InspectWith(list + tail, g) == list + tail
    ensures Project(list + tail, |list|, v, g, false) == list
  {
    hide Project, Complete, Compatible;
    InspectAfterConnections(list, tail, v, g);
    ProjectAfterConnections(list, tail, 0, v, g);
    NoRoom(tail, v, g);
    assert list + [] == list;
  }

  /** A complete list of connection options before a command comes back
      unchanged from the argv that was built with it. */
  lemma CompleteListComesBack(list: seq<string>, tail: seq<string>, workspace: Workspace)
    requires Complete(list, VocabularyOf(workspace)) && tail != [] && !Dash(tail[0])
    requires workspace.Kubernetes? ==> Inert(tail, VocabularyOf(workspace), RootGrammar(workspace, tail[0]))
    ensures ConnectionsOf(list + tail, workspace, None) == list
  {
    hide VocabularyOf, TakesValueIn, Project, Inert, Complete, Compatible, InspectWith, CommandPosition;
    var v, g := VocabularyOf(workspace), RootGrammar(workspace, tail[0]);
    VocabulariesAreCompatible(workspace, tail[0]);
    CommandAfterConnections(list, tail, workspace);
    assert (list + tail)[|list|] == tail[0];
    if workspace.Kubernetes? {
      ListComesBackFromKubectl(list, tail, v, g);
    } else {
      ListComesBackFromDocker(list, tail, v, g);
    }
    assert list + [] == list;
  }

  lemma NoRoom(words: seq<string>, v: Vocabulary, g: Grammar)
    ensures Project(words, 0, v, g, false) == []
  {}

  // ----- docker: the options before the command are always complete ---------

  lemma {:induction false} NothingDanglesBeforeTheCommand(words: seq<string>, command: string)
    requires CommandPosition(words, Containers).Some?
    requires Inspection.Settled(words, RootGrammar(Containers, command))
    ensures !Dangling(words, CommandPosition(words, Containers).value, VocabularyOf(Containers),
                      RootGrammar(Containers, command), false)
  {
    hide VocabularyOf, ValueOption, FlagOption, Advance, Parts, ShortOptions, DockerValue;
    if Dash(words[0]) {
      var v, g := VocabularyOf(Containers), RootGrammar(Containers, command);
      VocabulariesAreCompatible(Containers, command);
      WholeWordIsTheName(words[0], v);
      DockerStep(words[0], command);
      var step := Advance(words[0], Containers);
      NothingDanglesBeforeTheCommand(words[step..], command);
      if ConnectionWord(words[0], v) { ConnectionWordsStandAlone(words[0], v, g); }
    }
  }

  /** Where docker's command is looked for and where its connection options
      are collected, a word takes the same words with it. */
  lemma DockerStep(word: string, command: string)
    requires var g := RootGrammar(Containers, command); Parts(word, g) == [word] || EndsOptions(word, g)
    requires Dash(word) && Advance(word, Containers) != 0
    ensures word != "--"
    ensures Advance(word, Containers) == if RootGrammar(Containers, command).takes(word) then 2 else 1
  {
    hide DockerValue, KubeConnectionFlag;
    DockerVocabularyNamesOptions(word);
    ConnectionFlagsAreOptions(word);
    if |word| == 2 { DockerVocabularyNamesOptions(word[..2]); }
    var g, read := RootGrammar(Containers, command), RootGrammar(Containers, "get");
    Inspection.SameSplit(word[1..], g, read);
  }

  /** docker's command is never looked for between an option and its value. */
  lemma {:induction false} RoomBeforeCommandIsAligned(words: seq<string>, command: string)
    requires CommandPosition(words, Containers).Some?
    requires Inspection.Settled(words, RootGrammar(Containers, command))
    ensures Aligned(words, CommandPosition(words, Containers).value, RootGrammar(Containers, command))
    decreases |words|
  {
    hide Advance, Parts, ShortOptions, DockerValue;
    if Dash(words[0]) {
      DockerStep(words[0], command);
      var step := Advance(words[0], Containers);
      RoomBeforeCommandIsAligned(words[step..], command);
    }
  }

  /** The projection of every displayed argv picks by role, up to docker's
      command and from the whole of a kubectl argv. */
  lemma ProjectionFollowsRoles(args: seq<string>, workspace: Workspace, scoped: bool)
    ensures var words, g := Inspected(args, workspace), RootGrammar(workspace, Command(args, workspace));
      var v, room := VocabularyOf(workspace), Room(words, workspace);
      && room <= |words|
      && Project(words, room, v, g, scoped) == Pick(words[..room], Roles(words, g)[..room], "", v, scoped)
  {
    var words, g := Inspected(args, workspace), RootGrammar(workspace, Command(args, workspace));
    VocabulariesAreCompatible(workspace, Command(args, workspace));
    GrammarsAreWellFormed(workspace, Command(args, workspace));
    Inspection.InspectionSettles(args, g);
    hide VocabularyOf, RootGrammar, Project, Pick, CommandPosition, Command, InspectWith, Inspection.Settled;
    if workspace.Kubernetes? {
      WholeIsAligned(words, g);
    } else if CommandPosition(words, Containers).Some? {
      RoomBeforeCommandIsAligned(words, Command(args, workspace));
    }
    ProjectionBySelection(words, Room(words, workspace), "", VocabularyOf(workspace), g, scoped);
  }

  // ----- the connection of an argv -----------------------------------------

  /** Whether the displayed argv ends in a connection option whose value is
      missing, so that the next word would become its value. */
  predicate DanglingConnection(args: seq<string>, workspace: Workspace, namespace: Option<string>) {
    var words := Inspected(args, workspace);
    Dangling(words, Room(words, workspace), VocabularyOf(workspace),
             RootGrammar(workspace, Command(args, workspace)), namespace.Some?)
  }

  lemma ScopeIsComplete(namespace: Option<string>)
    ensures Complete(ScopeOption(namespace), VocabularyOf(Kubernetes))
    ensures Complete(ScopeOption(None), VocabularyOf(Containers))
  {
    if namespace.Some? {
      assert ScopeOption(namespace) == ["--namespace", namespace.value];
      assert ScopeOption(namespace)[2..] == [];
      assert VocabularyOf(Kubernetes).value("--namespace");
    }
  }

  lemma ConnectionsAreComplete(args: seq<string>, workspace: Workspace, namespace: Option<string>)
    requires workspace.Containers? ==> namespace.None?
    requires workspace.Kubernetes? ==> !DanglingConnection(args, workspace, namespace)
    ensures Complete(ConnectionsOf(args, workspace, namespace), VocabularyOf(workspace))
  {
    hide VocabularyOf, TakesValueIn, Parts, Project, Dangling, Advance, CommandPosition;
    var words := Inspected(args, workspace);
    var v, g := VocabularyOf(workspace), RootGrammar(workspace, Command(args, workspace));
    GrammarsAreWellFormed(workspace, Command(args, workspace));
    Inspection.InspectionSettles(args, g);
    if workspace.Containers? {
      if CommandPosition(words, workspace).Some? {
        NothingDanglesBeforeTheCommand(words, Command(args, workspace));
      } else {
        NothingDanglesInNoRoom(words, v, g);
      }
    }
    ProjectionIsComplete(words, Room(words, workspace), v, g, namespace.Some?);
    ScopeIsComplete(namespace);
    CompleteAppends(Project(words, Room(words, workspace), v, g, namespace.Some?), ScopeOption(namespace), v);
  }

  lemma NothingDanglesInNoRoom(words: seq<string>, v: Vocabulary, g: Grammar)
    ensures !Dangling(words, 0, v, g, false)
  {}

  /** What is appended as a command. */
  ghost predicate CommandTail(tail: seq<string>, workspace: Workspace) {
    && tail != [] && !Dash(tail[0])
    && (workspace.Kubernetes? ==> Inert(tail, VocabularyOf(workspace), RootGrammar(workspace, tail[0])))
  }

  /** docker: every argv hands its connection on unchanged. */
  lemma DockerConnectionIsKept(args: seq<string>, tail: seq<string>)
    requires CommandTail(tail, Containers)
    ensures var connection := ConnectionsOf(args, Containers, None);
            ConnectionsOf(connection + tail, Containers, None) == connection
  {
    ConnectionsAreComplete(args, Containers, None);
    CompleteListComesBack(ConnectionsOf(args, Containers, None), tail, Containers);
  }

  /** kubectl: the connection comes back unchanged exactly when the displayed
      argv does not end in a connection option without its value. */
  lemma KubectlConnectionIsKept(args: seq<string>, namespace: Option<string>, tail: seq<string>)
    requires CommandTail(tail, Kubernetes)
    requires namespace.Some? ==> !Dash(namespace.value)
    ensures var connection := ConnectionsOf(args, Kubernetes, namespace);
            ConnectionsOf(connection + tail, Kubernetes, None) == connection <==>
            !DanglingConnection(args, Kubernetes, namespace)
  {
    hide VocabularyOf, TakesValueIn, Inert, ConnectionsOf, DanglingConnection;
    if DanglingConnection(args, Kubernetes, namespace) {
      DanglingConnectionIsLost(args, namespace, tail);
    } else {
      ConnectionsAreComplete(args, Kubernetes, namespace);
      CompleteListComesBack(ConnectionsOf(args, Kubernetes, namespace), tail, Kubernetes);
    }
  }

  /** Whatever follows a complete list, its options come back first, and what
      comes after them starts with an option. */
  lemma ReadsOn(list: seq<string>, rest: seq<string>) returns (more: seq<string>)
    requires Complete(list, VocabularyOf(Kubernetes))
    ensures ConnectionsOf(list + rest, Kubernetes, None) == list + more
    ensures more != [] ==> Dash(more[0])
  {
    hide VocabularyOf, TakesValueIn, Parts, Project, CommandPosition, ValueOption, FlagOption;
    var v, g := VocabularyOf(Kubernetes), RootGrammar(Kubernetes, Command(list + rest, Kubernetes));
    VocabulariesAreCompatible(Kubernetes, Command(list + rest, Kubernetes));
    InspectAfterConnections(list, rest, v, g);
    var after := InspectWith(rest, g);
    ProjectAfterConnections(list, after, |after|, v, g);
    ProjectionStartsWithAnOption(after, |after|, v, g);
    more := Project(after, |after|, v, g, false);
    assert list + more + [] == list + more;
  }

  lemma DanglingConnectionIsLost(args: seq<string>, namespace: Option<string>, tail: seq<string>)
    requires tail != [] && !Dash(tail[0])
    requires namespace.Some? ==> !Dash(namespace.value)
    requires DanglingConnection(args, Kubernetes, namespace)
    ensures var connection := ConnectionsOf(args, Kubernetes, namespace);
            ConnectionsOf(connection + tail, Kubernetes, None) != connection
  {
    hide VocabularyOf, TakesValueIn, Parts, Project, Dangling, Advance, CommandPosition, ValueOption, FlagOption;
    var words := Inspected(args, Kubernetes);
    var v, g := VocabularyOf(Kubernetes), RootGrammar(Kubernetes, Command(args, Kubernetes));
    var connection := ConnectionsOf(args, Kubernetes, namespace);
    var list, name := DanglingProjection(words, |words|, v, g, namespace.Some?);
    // The option takes the next word, whatever it is.
    var next := if namespace.Some? then "--namespace" else tail[0];
    var rest := if namespace.Some? then [namespace.value] + tail else tail[1..];
    var taken := list + [name, next];
    CompletePair(name, next, [], v);
    assert [name, next] + [] == [name, next];
    CompleteAppends(list, [name, next], v);
    assert connection + tail == taken + rest;
    var more := ReadsOn(taken, rest);
    if namespace.Some? {
      assert connection == taken + [namespace.value];
      assert more != [namespace.value];
      SamePrefix(taken, more, [namespace.value]);
    } else {
      assert |taken + more| > |connection|;
    }
  }

  lemma InspectTwo(a: string, b: string, g: Grammar)
    requires WellFormed(g) && !g.endsAtOperand && !Dash(a) && Parts(b, g) == [b] && b != "--"
    ensures InspectWith([a, b], g) == [a, b]
  {
    assert ShortOptions(a, g).None?;
    Inspection.InspectPiece(a, [b], g);
    Inspection.InspectPiece(b, [], g);
    assert [a] + [b] == [a, b] && [b] + [] == [b];
    assert InspectWith([], g) == [];
  }

  lemma DanglesAtTheEnd(a: string, b: string, v: Vocabulary, g: Grammar)
    requires !v.value(a) && !ConnectionWord(a, v) && !g.takes(a) && a != "--" && v.value(b) && b != "--"
    ensures Dangling([a, b], 2, v, g, false)
  {
    assert [a, b][1..] == [b];
    assert Dangling([b], 1, v, g, false);
  }

  /** An argv that loses its connection: the next word becomes the namespace. */
  lemma ADanglingArgv()
    ensures DanglingConnection(["get", "--namespace"], Kubernetes, None)
  {
    var v, g := VocabularyOf(Kubernetes), RootGrammar(Kubernetes, "get");
    assert v.value("--namespace");
    assert Command(["get", "--namespace"], Kubernetes) == "get";
    assert !g.endsAtOperand;
    VocabulariesAreCompatible(Kubernetes, "get");
    WholeWordIsTheName("--namespace", v);
    hide VocabularyOf, TakesValueIn, CommandPosition, Parts, Dangling, Command, RootGrammar, InspectWith;
    ConnectionWordsStandAlone("--namespace", v, g);
    OperandsAreNoOptions("get", v, g);
    InspectTwo("get", "--namespace", g);
    DanglesAtTheEnd("get", "--namespace", v, g);
  }

  lemma OperandsAreNoOptions(word: string, v: Vocabulary, g: Grammar)
    requires Compatible(v, g) && !Dash(word)
    ensures !g.takes(word) && !ConnectionWord(word, v)
  {
    if ConnectionWord(word, v) { ConnectionWordsStandAlone(word, v, g); }
  }

  lemma SamePrefix(prefix: seq<string>, a: seq<string>, b: seq<string>)
    requires a != b
    ensures prefix + a != prefix + b
  {
    assert (prefix + a)[|prefix|..] == a && (prefix + b)[|prefix|..] == b;
  }

  // ----- namespaces in option position -------------------------------------

  /** The namespace options of a list of connection options, each with its
      value. */
  function NamespaceOptions(list: seq<string>, v: Vocabulary): seq<seq<string>> {
    if list == [] then []
    else
      var k := if v.value(list[0]) && |list| > 1 then 2 else 1;
      (if NamespaceWord(list[0], v) then [list[..k]] else []) + NamespaceOptions(list[k..], v)
  }

  lemma {:induction false} NamespaceOptionsAppend(first: seq<string>, second: seq<string>, v: Vocabulary)
    requires Complete(first, v)
    ensures NamespaceOptions(first + second, v) == NamespaceOptions(first, v) + NamespaceOptions(second, v)
  {
    hide ConnectionWord, NamespaceWord;
    if first == [] {
      assert first + second == second;
    } else {
      var all := first + second;
      var k := if v.value(first[0]) then 2 else 1;
      NamespaceOptionsAppend(first[k..], second, v);
      assert all[k..] == first[k..] + second && all[..k] == first[..k] && all[0] == first[0];
      var own := if NamespaceWord(first[0], v) then [first[..k]] else [];
      assert NamespaceOptions(all, v) == own + NamespaceOptions(all[k..], v);
      Associate(own, NamespaceOptions(first[k..], v), NamespaceOptions(second, v));
    }
  }

  lemma {:induction false} ScopedProjectionHasNoNamespace(words: seq<string>, room: nat, v: Vocabulary, g: Grammar)
    requires !Dangling(words, room, v, g, true)
    ensures NamespaceOptions(Project(words, room, v, g, true), v) == []
  {
    hide ValueOption, FlagOption, NamespaceWord;
    if room > 0 && words != [] && words[0] != "--" {
      WholeWordIsTheName(words[0], v);
      var skip := NamespaceWord(words[0], v);
      if v.value(words[0]) {
        if |words| > 1 {
          var later := Project(words[2..], Less(room, 2), v, g, true);
          ScopedProjectionHasNoNamespace(words[2..], Less(room, 2), v, g);
          assert words[..2] == [words[0], words[1]];
          if !skip { NamespacesBehind(words[..2], later, v); }
          assert Project(words, room, v, g, true) == if skip then later else words[..2] + later;
        }
      } else if ConnectionWord(words[0], v) {
        var later := Project(words[1..], room - 1, v, g, true);
        ScopedProjectionHasNoNamespace(words[1..], room - 1, v, g);
        if !skip { NamespacesBehind([words[0]], later, v); }
        assert Project(words, room, v, g, true) == if skip then later else [words[0]] + later;
      } else if g.takes(words[0]) && |words| > 1 {
        ScopedProjectionHasNoNamespace(words[2..], Less(room, 2), v, g);
      } else {
        ScopedProjectionHasNoNamespace(words[1..], room - 1, v, g);
      }
    }
  }

  lemma NamespacesBehind(option: seq<string>, rest: seq<string>, v: Vocabulary)
    requires option != [] && |option| == (if v.value(option[0]) then 2 else 1)
    requires !NamespaceWord(option[0], v)
    ensures NamespaceOptions(option + rest, v) == NamespaceOptions(rest, v)
  {
    assert (option + rest)[|option|..] == rest;
  }

  /** The namespace of the row is the only one that an action passes on in
      option position. */
  lemma RowNamespaceIsTheOnlyOne(args: seq<string>, namespace: string)
    requires !DanglingConnection(args, Kubernetes, Some(namespace))
    ensures NamespaceOptions(ConnectionsOf(args, Kubernetes, Some(namespace)), VocabularyOf(Kubernetes)) ==
            [["--namespace", namespace]]
  {
    hide TakesValueIn, Parts, Project, Dangling, Advance, CommandPosition, Complete;
    var words := Inspected(args, Kubernetes);
    var v, g := VocabularyOf(Kubernetes), RootGrammar(Kubernetes, Command(args, Kubernetes));
    ProjectionIsComplete(words, |words|, v, g, true);
    ScopedProjectionHasNoNamespace(words, |words|, v, g);
    NamespaceOptionsAppend(Project(words, |words|, v, g, true), ScopeOption(Some(namespace)), v);
    var scope := ["--namespace", namespace];
    assert v.value(scope[0]) && NamespaceWord(scope[0], v);
    assert scope[..2] == scope && scope[2..] == [];
    assert NamespaceOptions(scope[2..], v) == [];
  }
}
