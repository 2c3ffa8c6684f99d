/** What the label of a terminal session shows (control/terminal_session.rs,
    `session_summary`): the program, the command, and for logs and port-forwards
    the operands and the container, by the place of each word alone. */
module LabelContents {
  import opened CommandLine
  import opened Common
  import opened SessionLabel
  import Connections
  import Text

  // ----- the place of a word -----------------------------------------------

  /** A word that gives an option its value, and that value. */
  predicate Gives(word: string, name: string, value: string) {
    word == name + "=" + value || (|name| == 2 && value != "" && '=' !in word && word == name + value)
  }

  /** A flag that is known to take nothing, alone or with an inline value. */
  predicate KnownWord(word: string, workspace: Workspace, command: string) {
    KnownFlag(word, workspace, command) || exists n :: 0 <= n < |word| && word[n] == '=' && KnownFlag(word[..n], workspace, command)
  }

  ghost predicate ValueWord(word: string, workspace: Workspace, command: string) {
    exists name, value :: Takes(name, workspace, command) && Gives(word, name, value)
  }

  /** The arity of every option before `--` is known, and no value is missing. */
  ghost predicate Understood(words: seq<string>, workspace: Workspace, command: string)
    decreases |words|
  {
    if words == [] || words[0] == "--" then true
    else if !Dash(words[0]) then Understood(words[1..], workspace, command)
    else if Takes(words[0], workspace, command) then |words| > 1 && Understood(words[2..], workspace, command)
    else
      (ValueWord(words[0], workspace, command) || KnownWord(words[0], workspace, command)) &&
      Understood(words[1..], workspace, command)
  }

  /** The words that are neither options nor their values; behind `--`, all. */
  function Operands(words: seq<string>, workspace: Workspace, command: string): seq<string>
    decreases |words|
  {
    if words == [] then []
    else if words[0] == "--" then words[1..]
    else if !Dash(words[0]) then [words[0]] + Operands(words[1..], workspace, command)
    else Operands(words[if Takes(words[0], workspace, command) && |words| > 1 then 2 else 1..], workspace, command)
  }

  // ----- the scan reads by place -------------------------------------------

  lemma TakenNamesAreOptions(name: string, workspace: Workspace, command: string)
    ensures Takes(name, workspace, command) ==> OptionName(name)
  {
    if workspace.Kubernetes? {
      hide TakesValueIn;
      if TakesValueIn(name, Kubernetes, command) { TakersAreNames(name, command); }
    }
  }

  lemma KnownFlagsAreOptions(flag: string, workspace: Workspace, command: string)
    ensures KnownFlag(flag, workspace, command) ==> '=' !in flag && flag != "" && flag != "--"
  {
    hide KubeConnectionFlag, KnownLogFlag;
    if KubeConnectionFlag(flag) { ConnectionFlagsAreOptions(flag); }
    if workspace.Kubernetes? { KubeLogFlags(flag); } else { DockerLogFlags(flag); }
  }

  lemma KubeLogFlags(flag: string)
    ensures KnownLogFlag(flag, Kubernetes) ==> '=' !in flag && flag != "" && flag != "--"
  {
  }

  lemma DockerLogFlags(flag: string)
    ensures KnownLogFlag(flag, Containers) ==> '=' !in flag && flag != "" && flag != "--"
  {
    if '=' in flag && Dash(flag) { assert flag == [flag[0]] + flag[1..] && '=' in flag[1..]; }
  }

  lemma GivenOption(word: string, name: string, value: string, workspace: Workspace, command: string)
    requires Takes(name, workspace, command) && Gives(word, name, value)
    ensures OptionOf(word, workspace, command) == (name, Some(value)) && Dash(word) && word != "--" && !Takes(word, workspace, command)
  {
    TakenNamesAreOptions(name, workspace, command);
    TakenNamesAreOptions(word, workspace, command);
    hide Takes;
    Connections.HeadIsProper(word);
    if word == name + "=" + value {
      Connections.HeadOfInline(word, name);
      assert word[|name|] == '=';
    } else {
      assert word[..2] == name && word[2..] == value;
    }
  }

  lemma SplitAtEquals(word: string, workspace: Workspace, command: string)
    requires '=' in word
    ensures var head := Connections.Head(word);
      |head| < |word| && OptionOf(word, workspace, command) == (head, Some(word[|head| + 1..])) && Gives(word, head, word[|head| + 1..])
  {
    hide Takes;
    Connections.HeadIsProper(word);
    Connections.InlineOfHead(word);
  }

  lemma SplitGlued(word: string, workspace: Workspace, command: string)
    requires '=' !in word && Dash(word) && !Takes(word, workspace, command)
    ensures Connections.Head(word) == word
    ensures var (flag, inline) := OptionOf(word, workspace, command);
      if |word| > 2 && !Long(word) && Takes(word[..2], workspace, command) then
        flag == word[..2] && inline == Some(word[2..]) && Gives(word, flag, word[2..])
      else flag == word
  {
    hide Takes;
    Connections.HeadIsProper(word);
  }

  lemma SplitOption(word: string, workspace: Workspace, command: string)
    requires Dash(word) && word != "--" && !Takes(word, workspace, command)
    ensures var (flag, inline) := OptionOf(word, workspace, command);
      && (Takes(flag, workspace, command) ==> inline.Some? && Gives(word, flag, inline.value))
      && (!Takes(flag, workspace, command) ==> flag == Connections.Head(word))
  {
    hide Takes, OptionOf, Gives;
    if '=' in word { SplitAtEquals(word, workspace, command); } else { SplitGlued(word, workspace, command); }
  }

  lemma HeadIsKnown(word: string, workspace: Workspace, command: string)
    ensures KnownFlag(Connections.Head(word), workspace, command) <==> KnownWord(word, workspace, command)
  {
    Connections.HeadIsProper(word);
    var head := Connections.Head(word);
    hide KnownFlag;
    forall n | 0 <= n < |word| && word[n] == '=' && KnownFlag(word[..n], workspace, command) ensures head == word[..n] {
      KnownFlagsAreOptions(word[..n], workspace, command);
      assert word[..n] + "=" <= word;
      Connections.HeadOfInline(word, word[..n]);
    }
    if KnownFlag(word, workspace, command) { KnownFlagsAreOptions(word, workspace, command); }
    if '=' in word {
      Connections.InlineOfHead(word);
      assert word[|head|] == (head + "=")[|head|] && word[..|head|] == head;
    }
  }

  // ----- the container -----------------------------------------------------

  /** The container that a word names with its option. */
  function ContainerIn(word: string): Option<string> {
    if "--container=" <= word then Some(word[12..])
    else if "-c=" <= word then Some(word[3..])
    else if |word| > 2 && "-c" <= word && '=' !in word then Some(word[2..])
    else None
  }

  function Later(name: Option<string>, before: Option<string>): Option<string> {
    if name.Some? && Identifier(name.value) then name else before
  }

  /** The last container that kubectl is given by an identifier. */
  function ContainerOf(words: seq<string>, command: string, before: Option<string>): Option<string>
    decreases |words|
  {
    if words == [] || words[0] == "--" then before
    else if Dash(words[0]) && Takes(words[0], Kubernetes, command) then
      if |words| == 1 then before
      else ContainerOf(words[2..], command, if ContainerOption(words[0]) then Later(Some(words[1]), before) else before)
    else ContainerOf(words[1..], command, if Dash(words[0]) then Later(ContainerIn(words[0]), before) else before)
  }

  lemma ContainersAreTaken(command: string)
    ensures Takes("-c", Kubernetes, command) && Takes("--container", Kubernetes, command)
  {
    assert KubeValuesShort("-c") && KubeValuesBtoC("--container");
    hide KubeConnectionValue, KubeGlobalValue, KubeReadValue, KubeValuesA, KubeValuesD, KubeValuesEtoF, KubeValuesGtoK, KubeValuesLtoM,
      KubeValuesNtoO, KubeValuesP, KubeValuesQtoR, KubeValuesS, KubeValuesTtoZ, KubeValuesShort, KubeValuesBtoC;
  }

  lemma ContainerWords(word: string)
    ensures match ContainerIn(word)
      case Some(value) => (Gives(word, "--container", value) || Gives(word, "-c", value))
      case None => forall value :: !Gives(word, "--container", value) && !Gives(word, "-c", value)
  {
    assert "--container" + "=" == "--container=" && "-c" + "=" == "-c=";
    if "--container=" <= word {
      assert word == "--container=" + word[12..];
    } else if "-c=" <= word {
      assert word == "-c=" + word[3..];
    } else if |word| > 2 && "-c" <= word && '=' !in word {
      assert word == "-c" + word[2..];
    }
  }

  /** What the scan notes of an inline value is the container in the word. */
  lemma NotedIsContainerIn(word: string, command: string, seen: Seen)
    requires Dash(word) && word != "--" && !Takes(word, Kubernetes, command)
    ensures var (flag, inline) := OptionOf(word, Kubernetes, command);
      (if Takes(flag, Kubernetes, command) && inline.Some? then Noted(seen, flag, inline.value, Kubernetes) else seen)
        == seen.(container := Later(ContainerIn(word), seen.container))
  {
    var (flag, inline) := OptionOf(word, Kubernetes, command);
    SplitOption(word, Kubernetes, command);
    ContainersAreTaken(command);
    ContainerWords(word);
    hide Takes, OptionOf, Identifier, Gives, ContainerIn;
    match ContainerIn(word) {
      case None =>
      case Some(value) =>
        if Gives(word, "--container", value) { GivenOption(word, "--container", value, Kubernetes, command); }
        else { GivenOption(word, "-c", value, Kubernetes, command); }
    }
  }

  // ----- the scan ----------------------------------------------------------

  lemma {:induction false} BehindDashes(words: seq<string>, workspace: Workspace, command: string, seen: Seen)
    requires seen.positional
    ensures Scan(words, workspace, command, seen) == Some(seen.(operands := seen.operands + words))
    decreases |words|
  {
    if words == [] {
      assert seen.operands + [] == seen.operands;
    } else {
      BehindDashes(words[1..], workspace, command, seen.(operands := seen.operands + [words[0]]));
      assert seen.operands + [words[0]] + words[1..] == seen.operands + words;
    }
  }

  /** Whether `--` ends the options. */
  predicate Dashes(words: seq<string>, workspace: Workspace, command: string)
    decreases |words|
  {
    words != [] &&
    (words[0] == "--" ||
     Dashes(words[if Dash(words[0]) && Takes(words[0], workspace, command) && |words| > 1 then 2 else 1..], workspace, command))
  }

  function Container(words: seq<string>, workspace: Workspace, command: string, before: Option<string>): Option<string> {
    if workspace.Containers? then before else ContainerOf(words, command, before)
  }

  lemma ScanOption(words: seq<string>, workspace: Workspace, command: string, seen: Seen)
    requires words != [] && Dash(words[0]) && words[0] != "--" && !seen.positional && !Takes(words[0], workspace, command)
    ensures Scan(words, workspace, command, seen) ==
      if ValueWord(words[0], workspace, command) || KnownWord(words[0], workspace, command) then
        Scan(words[1..], workspace, command,
             if workspace.Containers? then seen else seen.(container := Later(ContainerIn(words[0]), seen.container)))
      else None
  {
    var (flag, inline) := OptionOf(words[0], workspace, command);
    SplitOption(words[0], workspace, command);
    HeadIsKnown(words[0], workspace, command);
    if workspace.Kubernetes? { NotedIsContainerIn(words[0], command, seen); }
    if ValueWord(words[0], workspace, command) {
      var name, value :| Takes(name, workspace, command) && Gives(words[0], name, value);
      GivenOption(words[0], name, value, workspace, command);
    }
    hide Takes, KnownFlag, KnownWord, OptionOf, Gives, ContainerIn, Later;
  }

  /** The scan succeeds exactly when every option is understood, and then holds
      the operands and the container. */
  lemma {:induction false} ScanReadsByPlace(words: seq<string>, workspace: Workspace, command: string, seen: Seen)
    requires !seen.positional
    ensures Scan(words, workspace, command, seen) ==
      if Understood(words, workspace, command) then
        Some(Seen(seen.operands + Operands(words, workspace, command), Container(words, workspace, command, seen.container),
                  Dashes(words, workspace, command)))
      else None
    decreases |words|
  {
    hide Takes, KnownWord, ValueWord, OptionOf, ContainerIn, Later, ContainerOption;
    if words == [] {
      assert seen.operands + [] == seen.operands;
    } else if words[0] == "--" {
      BehindDashes(words[1..], workspace, command, seen.(positional := true));
    } else if !Dash(words[0]) {
      ScanReadsByPlace(words[1..], workspace, command, seen.(operands := seen.operands + [words[0]]));
      Associate(seen.operands, [words[0]], Operands(words[1..], workspace, command));
    } else if Takes(words[0], workspace, command) {
      ScanTaker(words, workspace, command, seen);
      if |words| > 1 {
        ScanReadsByPlace(words[2..], workspace, command, Noted(seen, words[0], words[1], workspace));
      }
    } else {
      hide Scan;
      ScanOption(words, workspace, command, seen);
      ScanReadsByPlace(words[1..], workspace, command,
        if workspace.Containers? then seen else seen.(container := Later(ContainerIn(words[0]), seen.container)));
    }
  }

  lemma ScanTaker(words: seq<string>, workspace: Workspace, command: string, seen: Seen)
    requires words != [] && Dash(words[0]) && words[0] != "--" && !seen.positional && Takes(words[0], workspace, command)
    ensures Scan(words, workspace, command, seen) ==
      if |words| > 1 then Scan(words[2..], workspace, command, Noted(seen, words[0], words[1], workspace)) else None
    ensures |words| > 1 ==>
      var next := Noted(seen, words[0], words[1], workspace);
      && next.operands == seen.operands && !next.positional
      && next.container == if workspace.Kubernetes? && ContainerOption(words[0]) then Later(Some(words[1]), seen.container) else seen.container
  {
    TakenNamesAreOptions(words[0], workspace, command);
    Connections.HeadIsProper(words[0]);
    hide Takes, Identifier;
  }

  // ----- the label ---------------------------------------------------------

  /** The words of an argv behind its program, from the command on. */
  predicate CommandAt(args: seq<string>, workspace: Workspace, i: nat) {
    var words := Inspected(args, workspace);
    i < |words| && CommandPosition(words, workspace) == Some(i)
  }

  /** docker's longer way to say `logs`. */
  predicate ContainerLogs(words: seq<string>, workspace: Workspace, i: nat) {
    workspace.Containers? && i + 1 < |words| && words[i] == "container" && words[i + 1] == "logs"
  }

  /** Where the operands of a logs command start. */
  predicate LogsFrom(words: seq<string>, workspace: Workspace, i: nat, from: nat) {
    i < |words| && ((words[i] == "logs" && from == i + 1) || (ContainerLogs(words, workspace, i) && from == i + 2))
  }

  lemma LabelAt(args: seq<string>, workspace: Workspace, i: nat, program: string, clean: string -> string)
    requires CommandAt(args, workspace, i)
    ensures Summary(args, workspace, program, clean) == Labelled(Inspected(args, workspace)[i..], workspace, program, clean)
  {
    hide Labelled, Inspected, CommandPosition;
  }

  /** Any argv of another command shows the program and the command's name, of
      which at most 32 characters, and no other word. */
  lemma OtherCommandsShowTheirName(args: seq<string>, workspace: Workspace, i: nat, program: string, clean: string -> string)
    requires CommandAt(args, workspace, i)
    requires var words := Inspected(args, workspace);
      words[i] != "logs" && !ContainerLogs(words, workspace, i) && !(workspace.Kubernetes? && words[i] == "port-forward")
    ensures var name := clean(Inspected(args, workspace)[i]);
      Summary(args, workspace, program, clean) == program + " " + if |name| <= 32 then name else name[..32] + "…"
  {
    LabelAt(args, workspace, i, program, clean);
    hide Inspected, CommandPosition, Scan, Detailed, Summary;
    assert Inspected(args, workspace)[i..][0] == Inspected(args, workspace)[i];
  }

  lemma NoCommandShowsTheProgram(args: seq<string>, workspace: Workspace, program: string, clean: string -> string)
    requires CommandPosition(Inspected(args, workspace), workspace).None?
    ensures Summary(args, workspace, program, clean) == program
  {
    hide Inspected, CommandPosition;
  }

  /** Logs show their one operand, if it is an identifier, and the container,
      unless an option could have taken the operand for its value. */
  lemma LogsShow(args: seq<string>, workspace: Workspace, i: nat, from: nat, program: string, clean: string -> string)
    requires CommandAt(args, workspace, i) && LogsFrom(Inspected(args, workspace), workspace, i, from)
    ensures from <= |Inspected(args, workspace)|
    ensures var behind := Inspected(args, workspace)[from..];
      var basis, operands := program + " " + Short(clean("logs"), 32), Operands(behind, workspace, "logs");
      Summary(args, workspace, program, clean) ==
        if Understood(behind, workspace, "logs") && |operands| == 1 && Identifier(operands[0]) then
          Short(match Container(behind, workspace, "logs", None)
                case None => basis + " " + Short(operands[0], 48)
                case Some(name) => basis + " " + Short(operands[0], 48) + " container=" + Short(name, 32), 159)
        else basis
  {
    LabelAt(args, workspace, i, program, clean);
    hide Inspected, CommandPosition, Identifier, Summary, Operands, Container, Understood, Dashes;
    var words := Inspected(args, workspace);
    assert words[i..][from - i..] == words[from..];
    ScanReadsByPlace(words[from..], workspace, "logs", NOTHING);
    hide Scan;
    assert [] + Operands(words[from..], workspace, "logs") == Operands(words[from..], workspace, "logs");
  }

  /** Up to three ports, and how many more there are. */
  function PortsShown(ports: seq<string>): string {
    match |ports|
    case 0 => ""
    case 1 => " " + Short(ports[0], 20)
    case 2 => " " + Short(ports[0], 20) + " " + Short(ports[1], 20)
    case 3 => " " + Short(ports[0], 20) + " " + Short(ports[1], 20) + " " + Short(ports[2], 20)
    case n => " " + Short(ports[0], 20) + " " + Short(ports[1], 20) + " " + Short(ports[2], 20) + " +" + Text.Decimal(n - 3) + " ports"
  }

  lemma PortsOf(port: string, ports: seq<string>)
    ensures Ports([port] + ports) == " " + Short(port, 20) + Ports(ports)
  {
    assert ([port] + ports)[1..] == ports;
  }

  lemma NoPorts()
    ensures Ports([]) == ""
  {
  }

  lemma OnePort(a: string)
    ensures Ports([a]) == " " + Short(a, 20)
  {
    hide *;
    PortsOf(a, []);
    NoPorts();
    assert [a] + [] == [a] && " " + Short(a, 20) + "" == " " + Short(a, 20);
  }

  lemma TwoPorts(a: string, b: string)
    ensures Ports([a, b]) == " " + Short(a, 20) + " " + Short(b, 20)
  {
    hide *;
    OnePort(b);
    PortsOf(a, [b]);
    assert [a] + [b] == [a, b];
    Associate(" " + Short(a, 20), " ", Short(b, 20));
  }

  lemma ThreePorts(a: string, b: string, c: string)
    ensures Ports([a, b, c]) == " " + Short(a, 20) + " " + Short(b, 20) + " " + Short(c, 20)
  {
    hide *;
    TwoPorts(b, c);
    PortsOf(a, [b, c]);
    assert [a] + [b, c] == [a, b, c];
    var x, y, z := " " + Short(a, 20), " " + Short(b, 20), " " + Short(c, 20);
    assert " " + Short(b, 20) + " " + Short(c, 20) == y + z by { Associate(y, " ", Short(c, 20)); }
    Associate(x, y, z);
    assert x + y == x + " " + Short(b, 20) by { Associate(x, " ", Short(b, 20)); }
    assert x + y + z == x + y + " " + Short(c, 20) by { Associate(x + y, " ", Short(c, 20)); }
  }

  lemma FewPorts(ports: seq<string>)
    requires |ports| <= 3
    ensures Ports(ports) == PortsShown(ports)
  {
    hide Short, Text.Decimal, Ports;
    match |ports| {
      case 0 => NoPorts(); assert ports == [];
      case 1 => OnePort(ports[0]); assert ports == [ports[0]];
      case 2 => TwoPorts(ports[0], ports[1]); assert ports == [ports[0], ports[1]];
      case _ => ThreePorts(ports[0], ports[1], ports[2]); assert ports == [ports[0], ports[1], ports[2]];
    }
  }

  lemma ManyPorts(ports: seq<string>)
    requires |ports| > 3
    ensures Ports(ports[..3]) + (" +" + Text.Decimal(|ports| - 3) + " ports") == PortsShown(ports)
  {
    hide Short, Text.Decimal, Ports;
    assert ports[..3] == [ports[0], ports[1], ports[2]];
    ThreePorts(ports[0], ports[1], ports[2]);
    MorePorts(Ports(ports[..3]), Text.Decimal(|ports| - 3));
  }

  lemma PortsAreShown(ports: seq<string>)
    ensures Ports(if |ports| > 3 then ports[..3] else ports) +
      (if |ports| > 3 then " +" + Text.Decimal(|ports| - 3) + " ports" else "") == PortsShown(ports)
  {
    hide *;
    if |ports| > 3 {
      ManyPorts(ports);
    } else {
      FewPorts(ports);
      assert Ports(ports) + "" == Ports(ports);
    }
  }

  lemma MorePorts(text: string, count: string)
    ensures text + (" +" + count + " ports") == text + " +" + count + " ports"
  {
  }

  lemma ForwardDetails(basis: string, seen: Seen)
    ensures Detailed(basis, "port-forward", seen) ==
      if |seen.operands| >= 2 && Identifier(seen.operands[0]) && (forall port :: port in seen.operands[1..] ==> PortMapping(port)) then
        Short(basis + " " + Short(seen.operands[0], 48) + PortsShown(seen.operands[1..]), 159)
      else basis
  {
    hide Identifier, PortMapping, PortsShown, Ports, Short, Text.Decimal;
    if seen.operands != [] {
      var ports := seen.operands[1..];
      PortsAreShown(ports);
      Associate(basis + " " + Short(seen.operands[0], 48), Ports(if |ports| > 3 then ports[..3] else ports),
        if |ports| > 3 then " +" + Text.Decimal(|ports| - 3) + " ports" else "");
    }
  }

  /** Port-forwards show what they forward and up to three of the ports. */
  lemma PortForwardsShow(args: seq<string>, i: nat, program: string, clean: string -> string)
    requires CommandAt(args, Kubernetes, i) && Inspected(args, Kubernetes)[i] == "port-forward"
    ensures var behind := Inspected(args, Kubernetes)[i + 1..];
      var basis, operands := program + " " + Short(clean("port-forward"), 32), Operands(behind, Kubernetes, "port-forward");
      Summary(args, Kubernetes, program, clean) ==
        if Understood(behind, Kubernetes, "port-forward") && |operands| >= 2 && Identifier(operands[0]) &&
           (forall port :: port in operands[1..] ==> PortMapping(port)) then
          Short(basis + " " + Short(operands[0], 48) + PortsShown(operands[1..]), 159)
        else basis
  {
    LabelAt(args, Kubernetes, i, program, clean);
    var words := Inspected(args, Kubernetes);
    var behind := words[i + 1..];
    assert words[i..][1..] == behind;
    hide Inspected, CommandPosition, Identifier, Summary, Operands, Container, Understood, Dashes, PortMapping, Scan, Detailed, Short;
    ScanReadsByPlace(behind, Kubernetes, "port-forward", NOTHING);
    var seen := Seen(Operands(behind, Kubernetes, "port-forward"), Container(behind, Kubernetes, "port-forward", None),
                     Dashes(behind, Kubernetes, "port-forward"));
    assert [] + Operands(behind, Kubernetes, "port-forward") == Operands(behind, Kubernetes, "port-forward");
    ForwardDetails(program + " " + Short(clean("port-forward"), 32), seen);
  }

  /** Whatever is typed, a label has at most 160 characters, or those of the
      program and 34 more. */
  lemma LabelsAreBounded(args: seq<string>, workspace: Workspace, program: string, clean: string -> string)
    ensures |Summary(args, workspace, program, clean)| <= if |program| + 34 > 160 then |program| + 34 else 160
  {
    hide Inspected, CommandPosition, Scan;
    var words := Inspected(args, workspace);
    match CommandPosition(words, workspace) {
      case None =>
      case Some(i) => LabelledIsBounded(words[i..], workspace, program, clean);
    }
  }

  lemma LabelledIsBounded(words: seq<string>, workspace: Workspace, program: string, clean: string -> string)
    requires words != []
    ensures |Labelled(words, workspace, program, clean)| <= if |program| + 34 > 160 then |program| + 34 else 160
  {
    hide Scan, Identifier, PortMapping, Ports, Text.Decimal;
  }
}
