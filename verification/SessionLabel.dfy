/** The label of a terminal session (control/terminal_session.rs,
    `session_summary`): a bounded text that must never show the value of a
    connection option. */
module SessionLabel {
  import opened CommandLine
  import opened Common
  import Connections
  import Inspection
  import OwnCommand
  import Text

  // ----- texts -------------------------------------------------------------

  function Short(value: string, limit: nat): string {
    if |value| > limit then value[..limit] + "…" else value
  }

  predicate Alphanumeric(c: char) { 'a' <= c <= 'z' || 'A' <= c <= 'Z' || '0' <= c <= '9' }

  predicate Identifier(value: string) {
    && value != "" && Alphanumeric(value[0])
    && forall c :: c in value ==> Alphanumeric(c) || c == '-' || c == '.' || c == '_' || c == '/'
  }

  function Count(value: string, c: char): nat {
    if value == "" then 0 else (if value[0] == c then 1 else 0) + Count(value[1..], c)
  }

  predicate PortMapping(value: string) {
    && (exists c :: c in value && Alphanumeric(c))
    && Count(value, ':') <= 1
    && forall c :: c in value ==> Alphanumeric(c) || c == '-' || c == ':'
  }

  // ----- the scan behind the command ---------------------------------------

  predicate Takes(flag: string, workspace: Workspace, command: string) {
    if workspace.Kubernetes? then TakesValueIn(flag, workspace, command)
    else flag == "--since" || flag == "--until" || flag == "--tail" || flag == "-n"
  }

  predicate KnownLogFlag(flag: string, workspace: Workspace) {
    if workspace.Kubernetes? then
      flag == "--follow" || flag == "-f" || flag == "--previous" || flag == "-p" || flag == "--timestamps" ||
      flag == "--all-containers" || flag == "--all-pods" || flag == "--ignore-errors" || flag == "--prefix" ||
      flag == "--insecure-skip-tls-verify-backend"
    else
      flag == "--follow" || flag == "-f" || flag == "--timestamps" || flag == "-t" || flag == "--details" ||
      (Dash(flag) && !Long(flag) && forall c :: c in flag[1..] ==> c == 'f' || c == 't')
  }

  predicate KnownFlag(flag: string, workspace: Workspace, command: string) {
    || (command == "logs" && KnownLogFlag(flag, workspace))
    || flag == "--help" || flag == "-h"
    || (workspace.Kubernetes? && KubeConnectionFlag(flag))
  }

  /** A word as an option and the value in the same word, if it has one. */
  function OptionOf(word: string, workspace: Workspace, command: string): (string, Option<string>) {
    var head := Connections.Head(word);
    if |head| < |word| then (head, Some(word[|head| + 1..]))
    else if |word| > 2 && !Long(word) && Takes(word[..2], workspace, command) then (word[..2], Some(word[2..]))
    else (word, None)
  }

  /** What the scan has collected. */
  datatype Seen = Seen(operands: seq<string>, container: Option<string>, positional: bool)

  predicate ContainerOption(flag: string) { flag == "-c" || flag == "--container" }

  function Noted(seen: Seen, flag: string, value: string, workspace: Workspace): Seen {
    if workspace.Kubernetes? && ContainerOption(flag) && Identifier(value) then seen.(container := Some(value))
    else seen
  }

  /** Operands and container of a log or port-forward command; none when an
      option of unknown arity could hide a value among them. */
  function Scan(words: seq<string>, workspace: Workspace, command: string, seen: Seen): Option<Seen>
    decreases |words|
  {
    if words == [] then Some(seen)
    else if words[0] == "--" && !seen.positional then Scan(words[1..], workspace, command, seen.(positional := true))
    else if seen.positional || !Dash(words[0]) then
      Scan(words[1..], workspace, command, seen.(operands := seen.operands + [words[0]]))
    else
      var (flag, inline) := OptionOf(words[0], workspace, command);
      if Takes(flag, workspace, command) then
        match inline
        case Some(value) => Scan(words[1..], workspace, command, Noted(seen, flag, value, workspace))
        case None =>
          if |words| == 1 then None
          else Scan(words[2..], workspace, command, Noted(seen, flag, words[1], workspace))
      else if KnownFlag(flag, workspace, command) then Scan(words[1..], workspace, command, seen)
      else None
  }

  // ----- the label ---------------------------------------------------------

  const NOTHING := Seen([], None, false)

  function Ports(ports: seq<string>): string {
    if ports == [] then "" else " " + Short(ports[0], 20) + Ports(ports[1..])
  }

  function Detailed(basis: string, command: string, seen: Seen): string {
    if seen.operands == [] || !Identifier(seen.operands[0]) then basis
    else if command != "port-forward" && |seen.operands| != 1 then basis
    else
      var text := basis + " " + Short(seen.operands[0], 48);
      if command == "port-forward" then
        var ports := seen.operands[1..];
        if ports == [] || exists port :: port in ports && !PortMapping(port) then basis
        else
          var shown := if |ports| > 3 then ports[..3] else ports;
          Short(text + Ports(shown) + if |ports| > 3 then " +" + Text.Decimal(|ports| - 3) + " ports" else "", 159)
      else Short(match seen.container case None => text case Some(name) => text + " container=" + Short(name, 32), 159)
  }

  /** The label of the words from the command on. */
  function Labelled(words: seq<string>, workspace: Workspace, program: string, clean: string -> string): string
    requires words != []
  {
    var wrapped := workspace.Containers? && words[0] == "container" && |words| > 1 && words[1] == "logs";
    var command := if wrapped then "logs" else words[0];
    var basis := program + " " + Short(clean(command), 32);
    if command != "logs" && !(workspace.Kubernetes? && command == "port-forward") then basis
    else
      match Scan(words[if wrapped then 2 else 1..], workspace, command, NOTHING)
      case None => basis
      case Some(seen) => Detailed(basis, command, seen)
  }

  function Summary(args: seq<string>, workspace: Workspace, program: string, clean: string -> string): string {
    var words := Inspected(args, workspace);
    match CommandPosition(words, workspace)
    case None => program
    case Some(i) => Labelled(words[i..], workspace, program, clean)
  }

  /** The scan as the loop of the source. */
  method ScanBehind(words: seq<string>, workspace: Workspace, command: string) returns (result: Option<Seen>)
    ensures result == Scan(words, workspace, command, NOTHING)
  {
    hide Takes, KnownFlag, OptionOf;
    var operands: seq<string> := [];
    var container: Option<string> := None;
    var positional := false;
    var rest := words;
    while rest != []
      invariant Scan(rest, workspace, command, Seen(operands, container, positional)) == Scan(words, workspace, command, NOTHING)
      decreases |rest|
    {
      var arg := rest[0];
      var was := rest;
      rest := rest[1..];
      if arg == "--" && !positional {
        positional := true;
        continue;
      }
      if positional || !Dash(arg) {
        operands := operands + [arg];
        continue;
      }
      var (flag, inline) := OptionOf(arg, workspace, command);
      if Takes(flag, workspace, command) {
        var value;
        match inline {
          case Some(text) => value := text;
          case None =>
            if rest == [] { return None; }
            value := rest[0];
            rest := rest[1..];
            assert rest == was[2..];
        }
        if workspace.Kubernetes? && ContainerOption(flag) && Identifier(value) { container := Some(value); }
      } else if !KnownFlag(flag, workspace, command) {
        return None;
      }
    }
    return Some(Seen(operands, container, positional));
  }

  /** `inspected` is the argv with its groups split. */
  method SessionSummary(inspected: seq<string>, workspace: Workspace, program: string, clean: string -> string)
    returns (text: string)
    ensures forall args :: inspected == Inspected(args, workspace) ==> text == Summary(args, workspace, program, clean)
  {
    hide Inspected, Scan, Detailed, CommandPosition;
    var index := CommandIndex(inspected, workspace);
    if index == None { return program; }
    var words := inspected[index.value..];
    var command, start := words[0], 1;
    if workspace.Containers? && command == "container" && |words| > 1 && words[1] == "logs" {
      command, start := "logs", 2;
    }
    var basis := program + " " + Short(clean(command), 32);
    if command != "logs" && !(workspace.Kubernetes? && command == "port-forward") { return basis; }
    var seen := ScanBehind(words[start..], workspace, command);
    if seen == None { return basis; }
    text := Detailed(basis, command, seen.value);
  }

  // ----- values that cannot be seen ----------------------------------------

  /** A word that gives an option its value: `--name=value`, `-nvalue` or
      `-n=value`. A glued value without its `=` in front has none inside, as it
      is then not read as a value. */
  predicate Carries(word: string, name: string) {
    name + "=" <= word || (|name| == 2 && |word| > 2 && name <= word && '=' !in word)
  }

  /** Two words that give one option other than a container's their values,
      behind the same flags of a group. */
  ghost predicate SameOption(x: string, y: string, name: string, g: Grammar) {
    var p, q := Parts(x, g), Parts(y, g);
    && g.takes(name) && !ContainerOption(name)
    && |p| == |q| && p[..|p| - 1] == q[..|q| - 1] && Carries(Last(p), name) && Carries(Last(q), name)
  }

  /** `b` is `a` with some option values replaced, given separately or in the
      option's word, but not the name of a container. */
  ghost predicate SameButValues(a: seq<string>, b: seq<string>, g: Grammar)
    decreases |a|
  {
    if a == [] || b == [] || a[0] == "--" then a == b
    else if a[0] != b[0] then (exists name :: SameOption(a[0], b[0], name, g)) && SameButValues(a[1..], b[1..], g)
    else if Consumes(a[0], g) && |a| > 1 && |b| > 1 then
      (a[1] == b[1] || !ContainerOption(Last(Parts(a[0], g)))) && SameButValues(a[2..], b[2..], g)
    else SameButValues(a[1..], b[1..], g)
  }

  ghost predicate InlineAlike(x: string, y: string, g: Grammar) {
    exists name :: g.takes(name) && !ContainerOption(name) && Carries(x, name) && Carries(y, name)
  }

  /** The same for argvs whose groups are split. */
  ghost predicate Alike(a: seq<string>, b: seq<string>, g: Grammar)
    decreases |a|
  {
    if a == [] || b == [] || a[0] == "--" then a == b
    else if a[0] != b[0] then InlineAlike(a[0], b[0], g) && Alike(a[1..], b[1..], g)
    else if g.takes(a[0]) && |a| > 1 && |b| > 1 then
      (a[1] == b[1] || !ContainerOption(a[0])) && Alike(a[2..], b[2..], g)
    else Alike(a[1..], b[1..], g)
  }

  lemma AlikePiece(part: string, a: seq<string>, b: seq<string>, g: Grammar)
    requires part != "--"
    ensures !g.takes(part) && Alike(a, b, g) ==> Alike([part] + a, [part] + b, g)
    ensures g.takes(part) && a == [] && b == [] ==> Alike([part] + a, [part] + b, g)
    ensures g.takes(part) && a != [] && b != [] && (a[0] == b[0] || !ContainerOption(part)) && Alike(a[1..], b[1..], g)
      ==> Alike([part] + a, [part] + b, g)
  {
    var x, y := [part] + a, [part] + b;
    assert x[1..] == a && y[1..] == b;
    if a != [] && b != [] { assert x[2..] == a[1..] && y[2..] == b[1..]; }
  }

  lemma CarriersTakeNothing(word: string, name: string, g: Grammar)
    requires WellFormed(g) && g.takes(name) && Carries(word, name)
    ensures Dash(word) && word != "--" && !g.takes(word)
  {
    assert OptionName(name);
    assert g.takes(word) ==> OptionName(word);
    if name + "=" <= word { assert word[|name|] == (name + "=")[|name|]; assert word[0] == (name + "=")[0] && word[1] == (name + "=")[1]; }
  }

  lemma AlikeInline(x: string, y: string, a: seq<string>, b: seq<string>, g: Grammar)
    requires WellFormed(g) && InlineAlike(x, y, g) && Alike(a, b, g)
    ensures Alike([x] + a, [y] + b, g)
  {
    var name :| g.takes(name) && !ContainerOption(name) && Carries(x, name) && Carries(y, name);
    CarriersTakeNothing(x, name, g);
    hide InlineAlike, Carries, WellFormed;
    var s, t := [x] + a, [y] + b;
    assert s[1..] == a && t[1..] == b;
  }

  lemma OptionsAreDashed(x: string, y: string, name: string, g: Grammar)
    requires WellFormed(g) && SameOption(x, y, name, g)
    ensures Dash(x) && x != "--" && Dash(y) && y != "--" && !Consumes(x, g) && !Consumes(y, g)
    ensures !EndsOptions(x, g) && !EndsOptions(y, g)
  {
    hide Carries, ContainerOption, Parts, WellFormed;
    CarriersTakeNothing(Last(Parts(x, g)), name, g);
    CarriersTakeNothing(Last(Parts(y, g)), name, g);
    DashesOfParts(x, g);
    DashesOfParts(y, g);
  }

  lemma PiecesAlike(p: seq<string>, q: seq<string>, a: seq<string>, b: seq<string>, g: Grammar)
    requires WellFormed(g) && p != [] && q != [] && p[..|p| - 1] == q[..|q| - 1]
    requires InlineAlike(Last(p), Last(q), g) && Alike(a, b, g)
    requires (forall i :: 0 <= i < |p| - 1 ==> p[i] != "--" && !g.takes(p[i]))
    ensures Alike(p + a, q + b, g)
  {
    hide *;
    var u, v, before := [Last(p)] + a, [Last(q)] + b, p[..|p| - 1];
    AlikeInline(Last(p), Last(q), a, b, g);
    WithLast(p, a);
    WithLast(q, b);
    if before == [] {
      assert before + u == u && before + v == v;
    } else {
      assert forall i :: 0 <= i < |before| ==> before[i] == p[i];
      LastOfAll(before);
      AlikePieces(before, u, v, g);
    }
  }

  lemma WithLast(p: seq<string>, a: seq<string>)
    requires p != []
    ensures p + a == p[..|p| - 1] + ([Last(p)] + a)
  {
  }

  lemma LastOfAll(p: seq<string>)
    requires p != []
    ensures Last(p) == p[|p| - 1]
  {
  }

  /** The words that stand for two such options are alike. */
  lemma OptionsAlike(x: string, y: string, name: string, a: seq<string>, b: seq<string>, g: Grammar)
    requires WellFormed(g) && SameOption(x, y, name, g) && Alike(a, b, g)
    ensures Alike(Parts(x, g) + a, Parts(y, g) + b, g)
  {
    var p, q := Parts(x, g), Parts(y, g);
    assert InlineAlike(Last(p), Last(q), g) && p != [] && q != [];
    hide *;
    PiecesOfOption(x, y, name, g);
    PiecesAlike(p, q, a, b, g);
  }

  lemma PiecesOfOption(x: string, y: string, name: string, g: Grammar)
    requires WellFormed(g) && SameOption(x, y, name, g)
    ensures var p, q := Parts(x, g), Parts(y, g);
      p[..|p| - 1] == q[..|q| - 1] && forall i :: 0 <= i < |p| - 1 ==> p[i] != "--" && !g.takes(p[i])
  {
    var p := Parts(x, g);
    hide Carries, ContainerOption, Parts, WellFormed;
    Inspection.PartsOfWord(x, g);
    CarriersTakeNothing(Last(p), name, g);
    DashesOfParts(x, g);
    assert forall i :: 0 <= i < |p| - 1 ==> p[i] in p;
  }

  lemma DashesOfParts(x: string, g: Grammar)
    requires WellFormed(g) && Dash(Last(Parts(x, g))) && Last(Parts(x, g)) != "--"
    ensures Dash(x) && x != "--" && !EndsOptions(x, g) && forall part <- Parts(x, g) :: part != "--"
  {
    hide SplitFlags;
    Inspection.PartsOfWord(x, g);
  }

  lemma {:induction false} AlikePieces(parts: seq<string>, a: seq<string>, b: seq<string>, g: Grammar)
    requires parts != [] && forall i :: 0 <= i < |parts| ==> parts[i] != "--"
    requires forall i :: 0 <= i < |parts| - 1 ==> !g.takes(parts[i])
    ensures !g.takes(Last(parts)) && Alike(a, b, g) ==> Alike(parts + a, parts + b, g)
    ensures g.takes(Last(parts)) && a == [] && b == [] ==> Alike(parts + a, parts + b, g)
    ensures g.takes(Last(parts)) && a != [] && b != [] && (a[0] == b[0] || !ContainerOption(Last(parts))) && Alike(a[1..], b[1..], g)
      ==> Alike(parts + a, parts + b, g)
  {
    hide Alike, ContainerOption;
    var more := parts[1..];
    assert parts + a == [parts[0]] + (more + a);
    assert parts + b == [parts[0]] + (more + b);
    AlikePiece(parts[0], more + a, more + b, g);
    if more != [] {
      AlikePieces(more, a, b, g);
      assert Last(more) == Last(parts);
    } else {
      assert more + a == a && more + b == b && parts == [parts[0]];
    }
  }

  /** Inspection keeps the relation: it splits the same groups and copies the
      same values. */
  lemma {:induction false} InspectionKeepsAlike(a: seq<string>, b: seq<string>, g: Grammar)
    requires WellFormed(g) && !g.endsAtOperand && SameButValues(a, b, g)
    ensures Alike(InspectWith(a, g), InspectWith(b, g), g)
    decreases |a|
  {
    hide Parts, Alike, ContainerOption, SplitFlags, ShortOptions;
    if a == b {
      AlikeItself(InspectWith(a, g), g);
    } else if a[0] != b[0] {
      var name :| SameOption(a[0], b[0], name, g);
      InspectionKeepsAlike(a[1..], b[1..], g);
      OptionsAreDashed(a[0], b[0], name, g);
      hide SameOption;
      OptionsAlike(a[0], b[0], name, InspectWith(a[1..], g), InspectWith(b[1..], g), g);
    } else {
      var parts := Parts(a[0], g);
      Inspection.PartsOfWord(a[0], g);
      assert forall i :: 0 <= i < |parts| ==> !EndsOptions(parts[i], g);
      if Consumes(a[0], g) && |a| > 1 && |b| > 1 {
        InspectionKeepsAlike(a[2..], b[2..], g);
        var x, y := [a[1]] + InspectWith(a[2..], g), [b[1]] + InspectWith(b[2..], g);
        assert x[1..] == InspectWith(a[2..], g) && y[1..] == InspectWith(b[2..], g);
        AlikePieces(parts, x, y, g);
        Associate(parts, [a[1]], InspectWith(a[2..], g));
        Associate(parts, [b[1]], InspectWith(b[2..], g));
      } else {
        SameLength(a, b, g);
        InspectionKeepsAlike(a[1..], b[1..], g);
        AlikePieces(parts, InspectWith(a[1..], g), InspectWith(b[1..], g), g);
      }
    }
  }

  lemma {:induction false} SameLength(a: seq<string>, b: seq<string>, g: Grammar)
    requires SameButValues(a, b, g)
    ensures |a| == |b|
    decreases |a|
  {
    hide SameOption, Parts, ContainerOption;
    if a != [] && b != [] && a[0] != "--" {
      if a[0] == b[0] && Consumes(a[0], g) && |a| > 1 && |b| > 1 { SameLength(a[2..], b[2..], g); }
      else { SameLength(a[1..], b[1..], g); }
    }
  }

  lemma {:induction false} AlikeItself(a: seq<string>, g: Grammar)
    ensures Alike(a, a, g)
    decreases |a|
  {
    if a != [] {
      if g.takes(a[0]) && |a| > 1 { AlikeItself(a[2..], g); } else { AlikeItself(a[1..], g); }
    }
  }

  /** A value option that stands alone is read as it is, and no other word
      takes the next one. */
  lemma TakersStandAlone(word: string, command: string)
    requires Dash(word)
    ensures var (flag, inline) := OptionOf(word, Kubernetes, command);
      (inline.None? && Takes(flag, Kubernetes, command)) <==> TakesValueIn(word, Kubernetes, command)
    ensures TakesValueIn(word, Kubernetes, command) ==> OptionOf(word, Kubernetes, command) == (word, None)
  {
    hide TakesValueIn;
    if TakesValueIn(word, Kubernetes, command) { TakersAreNames(word, command); }
    Connections.HeadIsProper(word);
  }

  lemma TakersAreNames(word: string, command: string)
    requires TakesValueIn(word, Kubernetes, command)
    ensures OptionName(word)
  {
    GrammarsAreWellFormed(Kubernetes, command);
    hide TakesValueIn;
    assert RootGrammar(Kubernetes, command).takes(word);
  }

  lemma CarriedParts(word: string, name: string)
    requires OptionName(name) && Carries(word, name)
    ensures Connections.Head(word) <= word
    ensures if name + "=" <= word then Connections.Head(word) == name && |name| < |word|
            else Connections.Head(word) == word && |word| > 2 && !Long(word) && word[..2] == name
  {
    Connections.HeadIsProper(word);
    if name + "=" <= word { Connections.HeadOfInline(word, name); }
  }

  /** A word that gives an option its value is read as just that. */
  lemma CarriedValue(word: string, name: string, command: string)
    requires TakesValueIn(name, Kubernetes, command) && Carries(word, name)
    ensures Dash(word) && word != "--"
    ensures OptionOf(word, Kubernetes, command).0 == name && OptionOf(word, Kubernetes, command).1.Some?
  {
    TakersAreNames(name, command);
    CarriedParts(word, name);
    CarriersAreDashed(word, name);
    hide TakesValueIn, Carries;
  }

  lemma CarriersAreDashed(word: string, name: string)
    requires OptionName(name) && Carries(word, name)
    ensures Dash(word) && word != "--"
  {
    if name + "=" <= word {
      assert word[0] == (name + "=")[0] && word[1] == (name + "=")[1] && |word| >= |name| + 1;
    }
  }

  lemma ScanCarried(word: string, rest: seq<string>, name: string, command: string, seen: Seen)
    requires TakesValueIn(name, Kubernetes, command) && Carries(word, name) && !ContainerOption(name) && !seen.positional
    ensures Scan([word] + rest, Kubernetes, command, seen) == Scan(rest, Kubernetes, command, seen)
  {
    CarriedValue(word, name, command);
    hide TakesValueIn, Carries, OptionOf, ContainerOption;
    assert ([word] + rest)[1..] == rest;
  }

  lemma {:induction false} ScanIgnoresValues(a: seq<string>, b: seq<string>, command: string, seen: Seen)
    requires Alike(a, b, RootGrammar(Kubernetes, command)) && !seen.positional
    ensures Scan(a, Kubernetes, command, seen) == Scan(b, Kubernetes, command, seen)
    decreases |a|
  {
    hide TakesValueIn, OptionOf, KnownFlag, Identifier, ContainerOption;
    if a != b {
      var g := RootGrammar(Kubernetes, command);
      assert g.takes(a[0]) == TakesValueIn(a[0], Kubernetes, command);
      if a[0] != b[0] {
        var name :| g.takes(name) && !ContainerOption(name) && Carries(a[0], name) && Carries(b[0], name);
        ScanIgnoresValues(a[1..], b[1..], command, seen);
        assert a == [a[0]] + a[1..] && b == [b[0]] + b[1..];
        hide Scan, Carries;
        ScanCarried(a[0], a[1..], name, command, seen);
        ScanCarried(b[0], b[1..], name, command, seen);
      } else if !Dash(a[0]) {
        GrammarsAreWellFormed(Kubernetes, command);
        ScanIgnoresValues(a[1..], b[1..], command, seen.(operands := seen.operands + [a[0]]));
      } else {
        TakersStandAlone(a[0], command);
        var (flag, inline) := OptionOf(a[0], Kubernetes, command);
        if g.takes(a[0]) {
          if |a| > 1 && |b| > 1 {
            assert Noted(seen, flag, a[1], Kubernetes) == Noted(seen, flag, b[1], Kubernetes);
            ScanIgnoresValues(a[2..], b[2..], command, Noted(seen, flag, a[1], Kubernetes));
          }
        } else {
          var next := if Takes(flag, Kubernetes, command) then Noted(seen, flag, inline.value, Kubernetes) else seen;
          ScanIgnoresValues(a[1..], b[1..], command, next);
        }
      }
    }
  }

  // ----- the options before the command ------------------------------------

  /** The connection and global options of kubectl. */
  function RootVocabulary(): Connections.Vocabulary {
    Connections.Vocabulary(n => RootValue(n, Kubernetes), n => KubeConnectionFlag(n))
  }

  lemma RootValuesTakeValues(name: string, command: string)
    requires RootValue(name, Kubernetes)
    ensures TakesValueIn(name, Kubernetes, command) && !ContainerOption(name)
  {
    hide KubeCommandValue, KubeReadValue;
  }

  lemma RootVocabularyIsCompatible(command: string)
    ensures Connections.Compatible(RootVocabulary(), RootGrammar(Kubernetes, command))
  {
    hide RootValue, KubeConnectionFlag, TakesValueIn;
    GrammarsAreWellFormed(Kubernetes, command);
    forall name | RootValue(name, Kubernetes) ensures RootGrammar(Kubernetes, command).takes(name) {
      RootValuesTakeValues(name, command);
    }
    forall name | KubeConnectionFlag(name)
      ensures !RootGrammar(Kubernetes, command).takes(name) && OptionName(name) && name[1] == '-'
    {
      Connections.KubeConnectionFlagsTakeNone(name, command);
    }
  }

  /** Where the command is looked for, such an option takes the same words. */
  lemma AdvanceOverRootWord(word: string)
    requires Connections.ConnectionWord(word, RootVocabulary())
    ensures Dash(word)
    ensures Advance(word, Kubernetes) == if RootVocabulary().value(word) then 2 else 1
  {
    hide KubeConnectionFlag, KubeConnectionValue, KubeGlobalValue, TakesValueIn, Parts;
    var v, g := RootVocabulary(), RootGrammar(Kubernetes, "get");
    RootVocabularyIsCompatible("get");
    Connections.ConnectionWordsStandAlone(word, v, g);
    Connections.HeadIsProper(word);
    if !RootValue(word, Kubernetes) && '=' !in word && !KubeConnectionFlag(word) {
      assert RootValue(word[..2], Kubernetes) && |word| > 2;
      if !InlineRootValue(word, Kubernetes) { GluedGlobalValue(word); }
    }
  }

  lemma GluedGlobalValue(word: string)
    requires |word| > 2 && KubeGlobalValue(word[..2]) && Parts(word, RootGrammar(Kubernetes, "get")) == [word]
    requires !TakesValueIn(word, Kubernetes, "get")
    ensures ShortOptions(word, RootGrammar(Kubernetes, "get")) == Some([word])
  {
    hide TakesValueIn;
    RootValuesTakeValues(word[..2], "get");
    GlobalVocabularyNamesOptions(word[..2]);
    assert ['-', word[1]] == word[..2];
    assert word[1..][0] == word[1];
  }

  lemma RootValueIsAConnectionWord(word: string)
    ensures RootVocabulary().value(word) ==> Connections.ConnectionWord(word, RootVocabulary())
  {
    Connections.WholeWordIsTheName(word, RootVocabulary());
  }

  lemma {:induction false} CommandAfterRootOptions(list: seq<string>, rest: seq<string>)
    requires Connections.Complete(list, RootVocabulary()) && rest != [] && !Dash(rest[0])
    ensures CommandPosition(list + rest, Kubernetes) == Some(|list|)
  {
    hide Advance, Connections.ConnectionWord, RootVocabulary;
    if list == [] {
      assert list + rest == rest;
    } else {
      RootValueIsAConnectionWord(list[0]);
      AdvanceOverRootWord(list[0]);
      var k := if RootVocabulary().value(list[0]) then 2 else 1;
      var all := list + rest;
      CommandAfterRootOptions(list[k..], rest);
      assert all[0] == list[0] && all[k..] == list[k..] + rest;
    }
  }

  /** Such a word before the command is a root option again, whatever its
      value. */
  lemma SameRootWord(x: string, y: string, name: string, g: Grammar)
    requires Connections.Compatible(RootVocabulary(), g) && Connections.ConnectionWord(x, RootVocabulary())
    requires SameOption(x, y, name, g)
    ensures !RootVocabulary().value(x) && !RootVocabulary().value(y) && Connections.ConnectionWord(y, RootVocabulary())
  {
    var v := RootVocabulary();
    Connections.ConnectionWordsStandAlone(x, v, g);
    Inspection.PartsOfWord(y, g);
    assert Parts(y, g) == [y] && Last(Parts(x, g)) == x && Last(Parts(y, g)) == y;
    hide Parts, RootVocabulary;
    CarriersTakeNothing(x, name, g);
    CarriersTakeNothing(y, name, g);
    CarriedName(x, name, v, g);
    CarriedOption(y, name, v);
  }

  lemma CarriedName(word: string, name: string, v: Connections.Vocabulary, g: Grammar)
    requires Connections.Compatible(v, g) && Connections.ConnectionWord(word, v) && g.takes(name) && Carries(word, name)
    requires !g.takes(word)
    ensures v.value(name)
  {
    Connections.HeadIsProper(word);
    assert OptionName(name) && !v.value(word);
    if name + "=" <= word {
      Connections.HeadOfInline(word, name);
      assert word[|name|] == (name + "=")[|name|];
      if |word| > 2 && v.value(word[..2]) {
        assert OptionName(word[..2]) && word[..2][1] == word[1] == (name + "=")[1];
        assert name == word[..2];
      }
    } else {
      assert name == word[..2];
    }
  }

  lemma CarriedOption(word: string, name: string, v: Connections.Vocabulary)
    requires v.value(name) && Carries(word, name) && OptionName(name)
    ensures Connections.ConnectionWord(word, v)
  {
    if name + "=" <= word { Connections.HeadOfInline(word, name); } else { assert name == word[..2]; }
  }

  /** Related argvs have related root options and related words behind them. */
  lemma {:induction false} SameRootOptions(a: seq<string>, b: seq<string>, n: nat, g: Grammar)
    requires n < |a| && Connections.Complete(a[..n], RootVocabulary()) && !Dash(a[n])
    requires Connections.Compatible(RootVocabulary(), g) && SameButValues(a, b, g)
    ensures |b| == |a| && Connections.Complete(b[..n], RootVocabulary()) && b[n] == a[n]
    ensures SameButValues(a[n..], b[n..], g)
    decreases n
  {
    hide RootValue, RootVocabulary, Parts, ContainerOption, Connections.ConnectionWord, SameOption;
    SameLength(a, b, g);
    var v := RootVocabulary();
    if a[0] != b[0] {
      var name :| SameOption(a[0], b[0], name, g);
      OptionsAreDashed(a[0], b[0], name, g);
      assert a[..n][0] == a[0];
      RootOptionStands(a[0], g);
      SameRootWord(a[0], b[0], name, g);
      assert a[1..][..n - 1] == a[..n][1..] && a[1..][n - 1] == a[n];
      SameRootOptions(a[1..], b[1..], n - 1, g);
      assert b[..n][1..] == b[1..][..n - 1] && b[..n][0] == b[0];
      assert a[1..][n - 1..] == a[n..] && b[1..][n - 1..] == b[n..];
    } else if n > 0 {
      var list := a[..n];
      assert list[0] == a[0];
      Connections.WholeWordIsTheName(a[0], v);
      RootOptionStands(a[0], g);
      var k := if v.value(a[0]) then 2 else 1;
      assert a[k..][..n - k] == list[k..] && a[k..][n - k] == a[n];
      SameRootOptions(a[k..], b[k..], n - k, g);
      assert b[..n][k..] == b[k..][..n - k] && b[..n][0] == b[0];
      assert a[k..][n - k..] == a[n..] && b[k..][n - k..] == b[n..];
    }
  }

  lemma RootOptionStands(word: string, g: Grammar)
    requires Connections.Compatible(RootVocabulary(), g)
    ensures RootVocabulary().value(word) || Connections.ConnectionWord(word, RootVocabulary()) ==>
      word != "--" && (Consumes(word, g) <==> RootVocabulary().value(word))
  {
    hide RootVocabulary, Parts;
    if RootVocabulary().value(word) || Connections.ConnectionWord(word, RootVocabulary()) {
      Connections.WholeWordIsTheName(word, RootVocabulary());
      Connections.ConnectionWordsStandAlone(word, RootVocabulary(), g);
    }
  }

  /** What is inspected and where its command is, behind root options. */
  lemma InspectedFromCommand(list: seq<string>, command: string, rest: seq<string>)
    requires Connections.Complete(list, RootVocabulary()) && !Dash(command)
    ensures var words := InspectWith(rest, RootGrammar(Kubernetes, command));
      && Inspected(list + ([command] + rest), Kubernetes) == list + ([command] + words)
      && CommandPosition(list + ([command] + words), Kubernetes) == Some(|list|)
  {
    hide *;
    var g, args := RootGrammar(Kubernetes, command), list + ([command] + rest);
    CommandAfterRootOptions(list, [command] + rest);
    assert args[|list|] == command;
    InspectedBy(args, |list|);
    RootVocabularyIsCompatible(command);
    GrammarsAreWellFormed(Kubernetes, command);
    Connections.InspectAfterConnections(list, [command] + rest, RootVocabulary(), g);
    InspectCommand(command, rest, g);
    CommandAfterRootOptions(list, [command] + InspectWith(rest, g));
  }

  lemma InspectedBy(args: seq<string>, n: nat)
    requires CommandPosition(args, Kubernetes) == Some(n)
    ensures n < |args| && Inspected(args, Kubernetes) == InspectWith(args, RootGrammar(Kubernetes, args[n]))
    ensures !RootGrammar(Kubernetes, args[n]).endsAtOperand
  {
    hide CommandPosition, InspectWith;
    assert Command(args, Kubernetes) == args[n];
  }

  lemma InspectCommand(word: string, rest: seq<string>, g: Grammar)
    requires !Dash(word) && WellFormed(g) && !g.endsAtOperand
    ensures InspectWith([word] + rest, g) == [word] + InspectWith(rest, g)
  {
    assert ShortOptions(word, g).None?;
    Inspection.InspectPiece(word, rest, g);
  }

  /** The label of a kubectl session does not depend on the values of its
      options, the container's name excepted, when only connection and global
      options come before its command. */
  lemma LabelIgnoresValues(a: seq<string>, b: seq<string>, n: nat, program: string, clean: string -> string)
    requires n < |a| && Connections.Complete(a[..n], RootVocabulary()) && !Dash(a[n])
    requires SameButValues(a, b, RootGrammar(Kubernetes, a[n]))
    ensures Summary(a, Kubernetes, program, clean) == Summary(b, Kubernetes, program, clean)
  {
    hide *;
    var command := a[n];
    var g := RootGrammar(Kubernetes, command);
    RootVocabularyIsCompatible(command);
    GrammarsAreWellFormed(Kubernetes, command);
    SameRootOptions(a, b, n, g);
    SameBehindCommand(a[n..], b[n..], g);
    var x, y := a[n + 1..], b[n + 1..];
    assert a[n..][1..] == x && b[n..][1..] == y;
    assert a == a[..n] + ([command] + x) && b == b[..n] + ([command] + y);
    SummaryFromCommand(a[..n], command, x, program, clean);
    SummaryFromCommand(b[..n], command, y, program, clean);
    NoOperandEndsOptions(command);
    InspectionKeepsAlike(x, y, g);
    SameLabel(command, InspectWith(x, g), InspectWith(y, g), program, clean);
  }

  lemma NoOperandEndsOptions(command: string)
    ensures !RootGrammar(Kubernetes, command).endsAtOperand
  {
  }

  lemma SummaryFromCommand(list: seq<string>, command: string, rest: seq<string>, program: string, clean: string -> string)
    requires Connections.Complete(list, RootVocabulary()) && !Dash(command)
    ensures Summary(list + ([command] + rest), Kubernetes, program, clean)
         == Labelled([command] + InspectWith(rest, RootGrammar(Kubernetes, command)), Kubernetes, program, clean)
  {
    InspectedFromCommand(list, command, rest);
    var words := InspectWith(rest, RootGrammar(Kubernetes, command));
    hide Connections.Complete, RootVocabulary, CommandPosition, InspectWith, Inspected, Labelled;
    assert (list + ([command] + words))[|list|..] == [command] + words;
  }

  lemma SameBehindCommand(a: seq<string>, b: seq<string>, g: Grammar)
    requires a != [] && !Dash(a[0]) && WellFormed(g) && SameButValues(a, b, g)
    ensures b != [] && SameButValues(a[1..], b[1..], g)
  {
    assert ShortOptions(a[0], g).None?;
  }

  lemma SameLabel(command: string, x: seq<string>, y: seq<string>, program: string, clean: string -> string)
    requires Alike(x, y, RootGrammar(Kubernetes, command))
    ensures Labelled([command] + x, Kubernetes, program, clean) == Labelled([command] + y, Kubernetes, program, clean)
  {
    hide Scan, Detailed, Alike;
    ScanIgnoresValues(x, y, command, NOTHING);
    assert ([command] + x)[1..] == x && ([command] + y)[1..] == y;
  }

  // ----- values of connection options --------------------------------------

  /** `b` is `a` with values of connection options replaced, given separately
      or in the option's word. */
  ghost predicate SameButConnections(a: seq<string>, b: seq<string>, g: Grammar)
    decreases |a|
  {
    if a == [] || b == [] || a[0] == "--" then a == b
    else if a[0] != b[0] then
      (exists name :: KubeConnectionValue(name) && SameOption(a[0], b[0], name, g)) && SameButConnections(a[1..], b[1..], g)
    else if Consumes(a[0], g) && |a| > 1 && |b| > 1 then
      (a[1] == b[1] || KubeConnectionValue(Last(Parts(a[0], g)))) && SameButConnections(a[2..], b[2..], g)
    else SameButConnections(a[1..], b[1..], g)
  }

  lemma {:induction false} ConnectionsAreValues(a: seq<string>, b: seq<string>, g: Grammar)
    requires SameButConnections(a, b, g)
    ensures SameButValues(a, b, g)
    decreases |a|
  {
    hide Parts, KubeConnectionValue, ContainerOption, SameOption;
    if a != [] && b != [] && a[0] != "--" {
      if a[0] != b[0] {
        var name :| KubeConnectionValue(name) && SameOption(a[0], b[0], name, g);
        ConnectionsAreValues(a[1..], b[1..], g);
      } else if Consumes(a[0], g) && |a| > 1 && |b| > 1 {
        ContainersAreNoConnections(Last(Parts(a[0], g)));
        ConnectionsAreValues(a[2..], b[2..], g);
      } else {
        ConnectionsAreValues(a[1..], b[1..], g);
      }
    }
  }

  lemma ContainersAreNoConnections(name: string)
    ensures KubeConnectionValue(name) ==> !ContainerOption(name)
  {
  }

  lemma LabelIgnoresConnectionValues(a: seq<string>, b: seq<string>, n: nat, program: string, clean: string -> string)
    requires n < |a| && Connections.Complete(a[..n], RootVocabulary()) && !Dash(a[n])
    requires SameButConnections(a, b, RootGrammar(Kubernetes, a[n]))
    ensures Summary(a, Kubernetes, program, clean) == Summary(b, Kubernetes, program, clean)
  {
    hide *;
    ConnectionsAreValues(a, b, RootGrammar(Kubernetes, a[n]));
    LabelIgnoresValues(a, b, n, program, clean);
  }

  // ----- the value of one option -------------------------------------------

  lemma {:induction false} SameConnectionsItself(a: seq<string>, g: Grammar)
    ensures SameButConnections(a, a, g)
    decreases |a|
  {
    hide Parts;
    if a != [] {
      if |a| > 1 { SameConnectionsItself(a[2..], g); }
      SameConnectionsItself(a[1..], g);
    }
  }

  lemma OneOptionApart(command: string, x: string, y: string, name: string, rest: seq<string>, g: Grammar)
    requires !Dash(command) && WellFormed(g) && KubeConnectionValue(name) && SameOption(x, y, name, g)
    ensures SameButConnections([command] + ([x] + rest), [command] + ([y] + rest), g)
  {
    var s, t := [x] + rest, [y] + rest;
    var a, b := [command] + s, [command] + t;
    assert a[1..] == s && b[1..] == t && s[1..] == rest && t[1..] == rest;
    assert Parts(command, g) == [command] && !g.takes(command);
    OptionsAreDashed(x, y, name, g);
    SameConnectionsItself(rest, g);
    SameConnectionsItself(s, g);
    hide SameOption, Parts, KubeConnectionValue, WellFormed;
    assert SameButConnections(s, t, g);
  }

  /** Behind a command, an option word may give any value: one label. */
  lemma LabelHidesOneValue(command: string, x: string, y: string, name: string, rest: seq<string>, program: string, clean: string -> string)
    requires !Dash(command) && KubeConnectionValue(name) && SameOption(x, y, name, RootGrammar(Kubernetes, command))
    ensures Summary([command] + ([x] + rest), Kubernetes, program, clean) == Summary([command] + ([y] + rest), Kubernetes, program, clean)
  {
    var a, b, g := [command] + ([x] + rest), [command] + ([y] + rest), RootGrammar(Kubernetes, command);
    assert Connections.Complete(a[..0], RootVocabulary());
    hide *;
    GrammarsAreWellFormed(Kubernetes, command);
    OneOptionApart(command, x, y, name, rest, g);
    assert a[0] == command;
    LabelIgnoresConnectionValues(a, b, 0, program, clean);
  }

  /** `--token=one` and `--token=other` show the same, behind every command. */
  lemma LabelHidesTokens(command: string, one: string, other: string, rest: seq<string>, program: string, clean: string -> string)
    requires !Dash(command)
    ensures Summary([command] + (["--token=" + one] + rest), Kubernetes, program, clean)
         == Summary([command] + (["--token=" + other] + rest), Kubernetes, program, clean)
  {
    assert KubeConnectionValue("--token") && !ContainerOption("--token");
    LongWordIsWhole("--token=" + one, command);
    LongWordIsWhole("--token=" + other, command);
    assert "--token" + "=" == "--token=";
    hide *;
    TokenIsTaken(command);
    TokensAreOneOption(one, other, RootGrammar(Kubernetes, command));
    LabelHidesOneValue(command, "--token=" + one, "--token=" + other, "--token", rest, program, clean);
  }

  lemma TokensAreOneOption(one: string, other: string, g: Grammar)
    requires g.takes("--token") && Parts("--token=" + one, g) == ["--token=" + one] && Parts("--token=" + other, g) == ["--token=" + other]
    ensures SameOption("--token=" + one, "--token=" + other, "--token", g)
  {
    assert "--token" + "=" == "--token=" && !ContainerOption("--token");
    hide Parts;
  }

  lemma TokenIsTaken(command: string)
    ensures RootGrammar(Kubernetes, command).takes("--token") && KubeConnectionValue("--token")
  {
    assert KubeConnectionValue("--token");
    hide KubeConnectionValue;
    RootValuesTakeValues("--token", command);
  }

  lemma LongWordIsWhole(word: string, command: string)
    requires Long(word)
    ensures Parts(word, RootGrammar(Kubernetes, command)) == [word]
  {
  }

  lemma GluedWordIsWhole(word: string, rest: seq<string>, command: string)
    requires |word| > 2 && word[..2] == "-n" && !Dash(command)
    ensures InspectWith([word] + rest, RootGrammar(Kubernetes, command)) == [word] + InspectWith(rest, RootGrammar(Kubernetes, command))
  {
    var g := RootGrammar(Kubernetes, command);
    assert word[1] == word[..2][1] == 'n';
    assert KubeConnectionValue("-n");
    hide KubeConnectionValue;
    RootValuesTakeValues("-n", command);
    GrammarsAreWellFormed(Kubernetes, command);
    NoOperandEndsOptions(command);
    assert g.takes("-n") && !OptionName(word);
    hide TakesValueIn;
    Connections.ShortValueStaysWhole(word, g);
    assert !g.takes(word);
    OwnCommand.InspectFlags(word, rest, g);
  }

  lemma OneOperand(word: string, command: string)
    requires !Dash(word)
    ensures InspectWith([word], RootGrammar(Kubernetes, command)) == [word]
    ensures Scan([word], Kubernetes, command, NOTHING) == Some(Seen([word], None, false))
  {
    GrammarsAreWellFormed(Kubernetes, command);
    NoOperandEndsOptions(command);
    assert [] + [word] == [word];
    hide TakesValueIn;
    InspectCommand(word, [], RootGrammar(Kubernetes, command));
    assert [word] + [] == [word];
  }

  lemma UnknownOption(word: string, rest: seq<string>, command: string)
    requires Dash(word) && word != "--"
    requires var flag := OptionOf(word, Kubernetes, command).0; !Takes(flag, Kubernetes, command) && !KnownFlag(flag, Kubernetes, command)
    ensures Scan([word] + rest, Kubernetes, command, NOTHING) == None
  {
    hide Takes, KnownFlag, OptionOf;
  }

  /** `-na` names no option. */
  lemma NotAnOption(flag: string, command: string)
    requires |flag| == 3 && flag[1] != '-'
    ensures !Takes(flag, Kubernetes, command) && !KubeConnectionFlag(flag)
  {
    hide TakesValueIn, KubeConnectionFlag;
    if TakesValueIn(flag, Kubernetes, command) { TakersAreNames(flag, command); }
    if KubeConnectionFlag(flag) { ConnectionFlagsAreOptions(flag); }
  }

  lemma NotKnown(flag: string, command: string)
    requires |flag| == 3 && flag[1] != '-'
    ensures !KnownFlag(flag, Kubernetes, command)
  {
    hide KubeConnectionFlag;
    NotAnOption(flag, command);
  }

  lemma GluedEqualsIsUnknown()
    ensures OptionOf("-na=b", Kubernetes, "logs").0 == "-na"
    ensures !Takes("-na", Kubernetes, "logs") && !KnownFlag("-na", Kubernetes, "logs")
  {
    assert "-na=b" == "-na" + "=" + "b" && "-na"[1] == 'n';
    hide Takes, KnownFlag;
    NotAnOption("-na", "logs");
    NotKnown("-na", "logs");
    Connections.HeadOfInline("-na=b", "-na");
  }

  lemma LogsOf(words: seq<string>, program: string, clean: string -> string)
    ensures Labelled(["logs"] + words, Kubernetes, program, clean) ==
      match Scan(words, Kubernetes, "logs", NOTHING)
      case None => program + " " + Short(clean("logs"), 32)
      case Some(seen) => Detailed(program + " " + Short(clean("logs"), 32), "logs", seen)
  {
    hide Scan, Detailed, Short;
    assert (["logs"] + words)[1..] == words;
  }

  /** A value glued to `-n` counts as one only without a `=`: of these two argvs
      the first shows its pod, the second nothing behind its command. */
  lemma AGluedEquals(program: string, clean: string -> string)
    ensures Summary(["logs"] + (["-na"] + ["web"]), Kubernetes, program, clean)
         == Short(program + " " + Short(clean("logs"), 32) + " " + "web", 159)
    ensures Summary(["logs"] + (["-na=b"] + ["web"]), Kubernetes, program, clean) == program + " " + Short(clean("logs"), 32)
  {
    assert KubeConnectionValue("-n") && Carries("-na", "-n") && !ContainerOption("-n") && !Dash("logs") && !Dash("web");
    assert "-na"[..2] == "-n" && "-na=b"[..2] == "-n" && Dash("-na=b") && "-na=b" != "--";
    assert Connections.Complete([], RootVocabulary());
    assert !NOTHING.positional;
    assert Identifier("web") && Short("web", 48) == "web";
    var web, a, b := ["web"], ["-na"] + ["web"], ["-na=b"] + ["web"];
    assert [] + (["logs"] + a) == ["logs"] + a && [] + (["logs"] + b) == ["logs"] + b;
    hide *;
    RootValuesTakeValues("-n", "logs");
    OneOperand("web", "logs");
    GluedWordIsWhole("-na", web, "logs");
    GluedWordIsWhole("-na=b", web, "logs");
    SummaryFromCommand([], "logs", a, program, clean);
    SummaryFromCommand([], "logs", b, program, clean);
    ScanCarried("-na", web, "-n", "logs", NOTHING);
    GluedEqualsIsUnknown();
    UnknownOption("-na=b", web, "logs");
    LogsOf(a, program, clean);
    LogsOf(b, program, clean);
    OneOperandShown(program + " " + Short(clean("logs"), 32), "web");
  }

  lemma OneOperandShown(basis: string, name: string)
    requires Identifier(name)
    ensures Detailed(basis, "logs", Seen([name], None, false)) == Short(basis + " " + Short(name, 48), 159)
  {
    hide Identifier;
  }
}
