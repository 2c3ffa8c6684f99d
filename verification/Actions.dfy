/** The argv of an action on a selected row and of a related list
    (`build`, `logs`, `shell`, `port_forward` and `related` of
    control/native_actions.rs), and that it keeps the displayed connection. */
module Actions {
  import opened Common
  import opened CommandLine
  import opened Connections
  import OwnCommand
  import Text

  datatype Failure = NoSelection | UnsupportedOperation | InvalidPorts | NoSelector | InvalidResponse

  datatype Invocation = Invocation(workspace: Workspace, args: seq<string>, resource: Option<string>)

  /** The fields of a row that an action reads. `deletion` and `restart` are
      what the guarded deletion and restart make of the row, `labels` the
      label selector of a workload. */
  datatype Row = Row(
    dockerID: Option<string>, dockerId: Option<string>, dockerName: Option<string>,
    name: Option<string>, namespace: Option<string>, uid: Option<string>,
    deletion: Result<string, Failure>, restart: Result<string, Failure>,
    labels: Result<seq<string>, Failure>)

  predicate Pods(resource: string) { resource == "pods" || resource == "pod" || resource == "po" }

  predicate Restartable(resource: string) {
    resource == "deployments" || resource == "deployment" || resource == "deploy" || resource == "statefulsets" ||
    resource == "sts" || resource == "daemonsets" || resource == "ds"
  }

  predicate Forwardable(resource: string) {
    Pods(resource) || resource == "services" || resource == "service" || resource == "svc" ||
    resource == "deployments" || resource == "deployment" || resource == "deploy" || resource == "statefulsets" ||
    resource == "statefulset" || resource == "sts" || resource == "replicasets" || resource == "replicaset" ||
    resource == "rs" || resource == "daemonsets" || resource == "daemonset" || resource == "ds"
  }

  const SHELL := "command -v bash >/dev/null && exec bash || exec sh"

  // ----- the command of an action ------------------------------------------

  function DockerName(row: Row): Option<string> {
    if row.dockerID.Some? then row.dockerID else if row.dockerId.Some? then row.dockerId else row.dockerName
  }

  function Singular(resource: string): Option<string> {
    if resource == "containers" then Some("container")
    else if resource == "images" then Some("image")
    else if resource == "volumes" then Some("volume")
    else if resource == "networks" then Some("network")
    else None
  }

  function DockerTail(resource: string, row: Row, action: string): Result<seq<string>, Failure> {
    match DockerName(row)
    case None => Err(NoSelection)
    case Some(name) =>
      match Singular(resource)
      case None => Err(UnsupportedOperation)
      case Some(singular) =>
        if action == "inspect" || action == "describe" || action == "yaml" then Ok([singular, "inspect", name])
        else if action == "delete" then Ok([singular, "rm", name])
        else if resource != "containers" then Err(UnsupportedOperation)
        else if action == "shell" then Ok(["exec", "--interactive", "--tty", name, "sh", "-c", SHELL])
        else if action == "start" || action == "stop" || action == "restart" then Ok([action, name])
        else if action == "logs" then Ok(["logs", "--follow", "--tail=200", "--timestamps", name])
        else if action == "stats" then Ok(["stats", name])
        else Err(UnsupportedOperation)
  }

  function KubeTail(resource: string, row: Row, action: string, operands: seq<string>): Result<seq<string>, Failure> {
    match row.name
    case None => Err(NoSelection)
    case Some(name) =>
      var path := resource + "/" + name;
      if action == "inspect" || action == "yaml" || action == "json" then
        Ok(["get", resource, name, "-o", if action == "json" then "json" else "yaml"])
      else if action == "describe" then Ok(["describe", resource, name])
      else if action == "shell" && Pods(resource) then
        Ok(["exec", "--stdin", "--tty", path] + operands + ["--", "sh", "-c", SHELL])
      else if action == "port-forward" && Forwardable(resource) && operands != [] then
        Ok(["port-forward", path] + operands)
      else if action == "delete" then
        (match row.deletion case Err(e) => Err(e) case Ok(uri) => Ok(["delete", "--raw", uri]))
      else if action == "logs" then Ok(["logs", "--follow", "--tail=200", "--timestamps", path])
      else if action == "stats" && Pods(resource) then Ok(["top", "pod", name])
      else if action == "restart" && Restartable(resource) then
        (match row.restart
         case Err(e) => Err(e)
         case Ok(patch) => Ok(["patch", resource, name, "--type=json", "--patch", patch]))
      else Err(UnsupportedOperation)
  }

  function ActionTail(invocation: Invocation, row: Row, action: string, operands: seq<string>)
    : Result<seq<string>, Failure>
  {
    match invocation.resource
    case None => Err(NoSelection)
    case Some(resource) =>
      if invocation.workspace.Containers? then DockerTail(resource, row, action)
      else KubeTail(resource, row, action, operands)
  }

  /** Docker rows carry no namespace over. */
  function RowNamespace(invocation: Invocation, row: Row): Option<string> {
    if invocation.workspace.Containers? then None else row.namespace
  }

  function Connection(invocation: Invocation, row: Row): seq<string> {
    ConnectionsOf(invocation.args, invocation.workspace, RowNamespace(invocation, row))
  }

  // ----- inert tails -------------------------------------------------------

  ghost predicate Plain(word: string, g: Grammar) {
    !ConnectionWord(word, VocabularyOf(Kubernetes)) && Parts(word, g) == [word]
  }

  lemma OperandIsPlain(word: string, g: Grammar)
    requires WellFormed(g) && !Dash(word)
    ensures Plain(word, g) && !g.takes(word)
  {
    hide KubeConnectionFlag, KubeConnectionValue;
    HeadIsProper(word);
    ConnectionVocabularyNamesOptions(word);
    ConnectionVocabularyNamesOptions(Head(word));
    if |word| > 2 { ConnectionVocabularyNamesOptions(word[..2]); }
    ConnectionFlagsAreOptions(word);
    ConnectionFlagsAreOptions(Head(word));
  }

  lemma LongOptionIsPlain(word: string, name: string, g: Grammar)
    requires WellFormed(g) && |name| > 2 && name[0] == name[1] == '-' && '=' !in name
    requires word == name || name + "=" <= word
    requires !KubeConnectionValue(name) && !KubeConnectionFlag(name)
    ensures Plain(word, g)
  {
    hide KubeConnectionFlag, KubeConnectionValue;
    HeadIsProper(word);
    if word != name {
      HeadOfInline(word, name);
      ConnectionVocabularyNamesOptions(word);
      ConnectionFlagsAreOptions(word);
    }
    assert name <= word && word[0] == word[1] == '-';
    ConnectionVocabularyNamesOptions(word[..2]);
  }

  lemma WordsOfActionsAreNoConnections()
    ensures forall word | word in {"--stdin", "--tty", "--container", "--follow", "--tail"} ::
              !KubeConnectionValue(word) && !KubeConnectionFlag(word)
  {}

  lemma MoreWordsOfActionsAreNoConnections()
    ensures forall word | word in {"--timestamps", "--previous", "--raw", "--type", "--patch", "--selector", "--field-selector", "-o"} ::
              !KubeConnectionValue(word) && !KubeConnectionFlag(word)
  {}

  predicate Written(word: string) {
    word == "--stdin" || word == "--tty" || word == "--container" || word == "--follow" || word == "--tail=200" ||
    word == "--timestamps" || word == "--previous" || word == "--raw" || word == "--type=json" || word == "--patch" ||
    word == "--selector" || word == "--field-selector" || word == "-o"
  }

  lemma WrittenOptionsArePlain(word: string, g: Grammar)
    requires WellFormed(g) && 'o' !in g.flags && Written(word)
    ensures Plain(word, g)
  {
    hide KubeConnectionFlag, KubeConnectionValue, Plain;
    WordsOfActionsAreNoConnections();
    MoreWordsOfActionsAreNoConnections();
    if word == "-o" {
      ShortOutputIsPlain(g);
    } else if word == "--tail=200" {
      LongOptionIsPlain(word, "--tail", g);
    } else if word == "--type=json" {
      LongOptionIsPlain(word, "--type", g);
    } else {
      LongOptionIsPlain(word, word, g);
    }
  }

  lemma ShortOutputIsPlain(g: Grammar)
    requires WellFormed(g) && 'o' !in g.flags
    requires !KubeConnectionValue("-o") && !KubeConnectionFlag("-o")
    ensures Plain("-o", g)
  {
    hide KubeConnectionFlag, KubeConnectionValue;
    assert "-o"[1..] == "o" && ['-', 'o'] + "o"[1..] == "-o";
  }

  function KubeGrammar(command: string): Grammar { RootGrammar(Kubernetes, command) }

  ghost predicate KubeInert(words: seq<string>, command: string) {
    Inert(words, VocabularyOf(Kubernetes), KubeGrammar(command))
  }

  lemma InertOperand(word: string, rest: seq<string>, command: string)
    requires !Dash(word) && KubeInert(rest, command)
    ensures KubeInert([word] + rest, command)
  {
    hide VocabularyOf, TakesValueIn, ConnectionWord, Parts;
    GrammarsAreWellFormed(Kubernetes, command);
    OperandIsPlain(word, KubeGrammar(command));
    assert ([word] + rest)[1..] == rest;
  }

  /** Before an operand it does not matter whether a written option takes a
      value: it would take a word that holds no connection option. */
  lemma InertOption(word: string, rest: seq<string>, command: string)
    requires Written(word) && KubeInert(rest, command)
    requires rest != [] ==> KubeInert(rest[1..], command)
    ensures KubeInert([word] + rest, command)
  {
    hide VocabularyOf, TakesValueIn, ConnectionWord, Parts, Written;
    GrammarsAreWellFormed(Kubernetes, command);
    WrittenOptionsArePlain(word, KubeGrammar(command));
    var words := [word] + rest;
    assert words[1..] == rest;
    if rest != [] { assert words[2..] == rest[1..]; }
  }

  /** A written option that takes a value hides it, whatever it is. */
  lemma InertPair(word: string, value: string, rest: seq<string>, command: string)
    requires Written(word) && TakesValueIn(word, Kubernetes, command) && KubeInert(rest, command)
    ensures KubeInert([word, value] + rest, command)
  {
    hide VocabularyOf, TakesValueIn, ConnectionWord, Parts, Written;
    GrammarsAreWellFormed(Kubernetes, command);
    WrittenOptionsArePlain(word, KubeGrammar(command));
    assert ([word, value] + rest)[2..] == rest;
  }

  lemma InertEnd(rest: seq<string>, command: string)
    ensures KubeInert([], command) && KubeInert(["--"] + rest, command)
  {}

  lemma {:induction false} InertOperands(words: seq<string>, rest: seq<string>, command: string)
    requires (forall word <- words :: !Dash(word)) && KubeInert(rest, command)
    ensures KubeInert(words + rest, command)
  {
    hide KubeInert;
    if words == [] {
      assert words + rest == rest;
    } else {
      InertOperands(words[1..], rest, command);
      InertOperand(words[0], words[1..] + rest, command);
      assert [words[0]] + (words[1..] + rest) == words + rest;
    }
  }

  lemma WrittenValuesAreTaken(command: string)
    ensures TakesValueIn("--container", Kubernetes, command) && TakesValueIn("--patch", Kubernetes, command)
    ensures TakesValueIn("--selector", Kubernetes, command) && TakesValueIn("--field-selector", Kubernetes, command)
    ensures command != "config" ==> TakesValueIn("--raw", Kubernetes, command)
  {
    hide KubeConnectionValue, KubeGlobalValue;
  }

  // ----- every action is a command tail ------------------------------------

  /** What the operands of an action are: a chosen container of a shell, or
      the mappings of a port-forward. */
  ghost predicate OperandsOf(action: string, operands: seq<string>) {
    if action == "shell" then operands == [] || (|operands| == 2 && operands[0] == "--container")
    else if action == "port-forward" then forall word <- operands :: !Dash(word)
    else operands == []
  }

  lemma ReadTails(resource: string, name: string, output: string)
    requires !Dash(resource) && !Dash(name) && !Dash(output)
    ensures KubeInert(["get", resource, name, "-o", output], "get")
    ensures KubeInert(["describe", resource, name], "describe")
    ensures KubeInert(["top", "pod", name], "top")
  {
    hide KubeInert, Written;
    InertEnd([], "get");
    InertOperand(output, [], "get");
    assert [output][1..] == [] && [output] + [] == [output];
    assert Written("-o") by { WrittenOutput(); }
    InertOption("-o", [output], "get");
    InertOperand(name, ["-o"] + [output], "get");
    InertOperand(resource, [name] + (["-o"] + [output]), "get");
    InertOperand("get", [resource] + ([name] + (["-o"] + [output])), "get");
    assert ["get"] + ([resource] + ([name] + (["-o"] + [output]))) == ["get", resource, name, "-o", output];
    InertOperands(["describe", resource, name], [], "describe") by { InertEnd([], "describe"); }
    assert ["describe", resource, name] + [] == ["describe", resource, name];
    InertOperands(["top", "pod", name], [], "top") by { InertEnd([], "top"); }
    assert ["top", "pod", name] + [] == ["top", "pod", name];
  }

  lemma WrittenOutput() ensures Written("-o") {}

  lemma ShellOperandsAreInert(operands: seq<string>, shell: seq<string>)
    requires OperandsOf("shell", operands)
    ensures KubeInert(operands + (["--"] + shell), "exec")
  {
    hide KubeInert, Written;
    InertEnd(shell, "exec");
    if operands != [] {
      WrittenValuesAreTaken("exec");
      assert Written("--container") by { WrittenLogOptions(); }
      InertPair("--container", operands[1], ["--"] + shell, "exec");
      assert operands == ["--container", operands[1]];
    } else {
      assert operands + (["--"] + shell) == ["--"] + shell;
    }
  }

  lemma ShellTail(path: string, rest: seq<string>)
    requires !Dash(path) && KubeInert(rest, "exec")
    ensures KubeInert(["exec", "--stdin", "--tty", path] + rest, "exec")
  {
    hide KubeInert, Written;
    assert Written("--stdin") && Written("--tty") by { WrittenShellOptions(); }
    var words := [path] + rest;
    InertOperand(path, rest, "exec");
    assert words[1..] == rest;
    InertOption("--tty", words, "exec");
    var terminal := ["--tty"] + words;
    assert terminal[1..] == words;
    InertOption("--stdin", terminal, "exec");
    InertOperand("exec", ["--stdin"] + terminal, "exec");
    assert ["exec"] + (["--stdin"] + terminal) == ["exec", "--stdin", "--tty", path] + rest;
  }

  lemma WrittenShellOptions() ensures Written("--stdin") && Written("--tty") {}

  /** `rest` is what a log action adds behind the path. */
  lemma LogTail(path: string, rest: seq<string>, follow: bool)
    requires !Dash(path) && KubeInert(rest, "logs")
    ensures KubeInert((if follow then ["logs", "--follow"] else ["logs"]) + ["--tail=200", "--timestamps", path] + rest, "logs")
  {
    hide KubeInert;
    var root := "logs";
    InertOperand(path, rest, root);
    var words := [path] + rest;
    assert words[1..] == rest;
    InertOption("--timestamps", words, root);
    var timed := ["--timestamps"] + words;
    assert timed[1..] == words;
    InertOption("--tail=200", timed, root);
    var tailed := ["--tail=200"] + timed;
    assert tailed[1..] == timed;
    InertOption("--follow", tailed, root);
    InertOperand("logs", tailed, root);
    InertOperand("logs", ["--follow"] + tailed, root);
    assert ["logs"] + tailed == ["logs"] + ["--tail=200", "--timestamps", path] + rest;
    assert ["logs"] + (["--follow"] + tailed) == ["logs", "--follow"] + ["--tail=200", "--timestamps", path] + rest;
  }

  lemma ChangeTails(resource: string, name: string, uri: string, patch: string)
    requires !Dash(resource) && !Dash(name)
    ensures KubeInert(["delete", "--raw", uri], "delete")
    ensures KubeInert(["patch", resource, name, "--type=json", "--patch", patch], "patch")
  {
    hide KubeInert;
    WrittenValuesAreTaken("delete");
    WrittenValuesAreTaken("patch");
    InertEnd([], "delete");
    InertEnd([], "patch");
    InertPair("--raw", uri, [], "delete");
    InertOperand("delete", ["--raw", uri] + [], "delete");
    assert ["delete"] + (["--raw", uri] + []) == ["delete", "--raw", uri];
    InertPair("--patch", patch, [], "patch");
    var last := ["--patch", patch];
    assert last + [] == last;
    InertFlag("--type=json", last, "patch");
    InertOperands(["patch", resource, name], ["--type=json"] + last, "patch");
    assert ["patch", resource, name] + (["--type=json"] + last) ==
           ["patch", resource, name, "--type=json", "--patch", patch];
  }

  lemma InertFlag(word: string, rest: seq<string>, command: string)
    requires Written(word) && '=' in word && KubeInert(rest, command)
    ensures KubeInert([word] + rest, command)
  {
    hide VocabularyOf, TakesValueIn, ConnectionWord, Parts, Written;
    GrammarsAreWellFormed(Kubernetes, command);
    WrittenOptionsArePlain(word, KubeGrammar(command));
    assert ([word] + rest)[1..] == rest;
  }

  lemma RelatedTail(kind: string, option: string, value: string)
    requires !Dash(kind) && (option == "--selector" || option == "--field-selector")
    ensures KubeInert(["get", kind, option, value], "get")
  {
    hide KubeInert;
    WrittenValuesAreTaken("get");
    InertEnd([], "get");
    InertPair(option, value, [], "get");
    InertOperands(["get", kind], [option, value] + [], "get");
    assert ["get", kind] + ([option, value] + []) == ["get", kind, option, value];
  }

  lemma KubeTailIsACommandTail(resource: string, row: Row, action: string, operands: seq<string>)
    requires KubeTail(resource, row, action, operands).Ok?
    requires !Dash(resource) && !Dash(row.name.value) && OperandsOf(action, operands)
    ensures CommandTail(KubeTail(resource, row, action, operands).value, Kubernetes)
  {
    hide KubeInert, Pods, Restartable, Forwardable;
    var name := row.name.value;
    var path := resource + "/" + name;
    assert !Dash(path);
    var tail := KubeTail(resource, row, action, operands).value;
    assert KubeInert(tail, tail[0]) && !Dash(tail[0]) by {
      if action == "inspect" || action == "yaml" || action == "json" || action == "describe" || action == "stats" {
        ReadTails(resource, name, if action == "json" then "json" else "yaml");
      } else if action == "shell" {
        var shell := ["--", "sh", "-c", SHELL];
        assert ["--"] + shell[1..] == shell;
        ShellOperandsAreInert(operands, shell[1..]);
        ShellTail(path, operands + shell);
        Associate(["exec", "--stdin", "--tty", path], operands, shell);
      } else if action == "port-forward" {
        InertEnd([], "port-forward");
        InertOperands(["port-forward", path] + operands, [], "port-forward");
        assert ["port-forward", path] + operands + [] == ["port-forward", path] + operands;
      } else if action == "logs" {
        InertEnd([], "logs");
        LogTail(path, [], true);
        assert tail == ["logs", "--follow"] + ["--tail=200", "--timestamps", path] + [];
      } else if action == "delete" {
        ChangeTails(resource, name, row.deletion.value, "");
      } else {
        ChangeTails(resource, name, "", row.restart.value);
      }
    }
    InertCommand(tail);
  }

  lemma InertCommand(tail: seq<string>)
    requires tail != [] && !Dash(tail[0]) && KubeInert(tail, tail[0])
    ensures CommandTail(tail, Kubernetes)
  {
    hide Inert;
  }

  /** Whether the names that a row contributes to an argv are no options. */
  predicate Named(invocation: Invocation, row: Row) {
    invocation.workspace.Kubernetes? ==>
      && (invocation.resource.Some? ==> !Dash(invocation.resource.value))
      && (row.name.Some? ==> !Dash(row.name.value))
      && (row.namespace.Some? ==> !Dash(row.namespace.value))
  }

  /** Whether the displayed argv leaves a connection option without its value;
      before docker's command none can be left. */
  predicate Unfinished(invocation: Invocation, row: Row) {
    invocation.workspace.Kubernetes? && DanglingConnection(invocation.args, Kubernetes, row.namespace)
  }

  /** The connection that a built argv projects to. */
  predicate KeepsConnection(invocation: Invocation, row: Row, built: seq<string>) {
    ConnectionsOf(built, invocation.workspace, None) == Connection(invocation, row)
  }

  /** The namespace in the connection of a built argv: the row's, and none
      beside it, or for a row without one what the displayed argv says. */
  predicate StaysInNamespace(invocation: Invocation, row: Row, built: seq<string>) {
    NamespaceOptions(ConnectionsOf(built, Kubernetes, None), VocabularyOf(Kubernetes)) ==
      match row.namespace
      case Some(namespace) => [["--namespace", namespace]]
      case None => NamespaceOptions(ConnectionsOf(invocation.args, Kubernetes, None), VocabularyOf(Kubernetes))
  }

  lemma KeptNamespace(invocation: Invocation, row: Row, built: seq<string>)
    requires invocation.workspace.Kubernetes? && KeepsConnection(invocation, row, built) && !Unfinished(invocation, row)
    ensures StaysInNamespace(invocation, row, built)
  {
    hide ConnectionsOf, DanglingConnection, NamespaceOptions, VocabularyOf;
    match row.namespace {
      case None =>
      case Some(namespace) => RowNamespaceIsTheOnlyOne(invocation.args, namespace);
    }
  }

  lemma TailKeepsConnection(invocation: Invocation, row: Row, tail: seq<string>)
    requires Named(invocation, row) && CommandTail(tail, invocation.workspace)
    ensures KeepsConnection(invocation, row, Connection(invocation, row) + tail) <==> !Unfinished(invocation, row)
  {
    hide ConnectionsOf, DanglingConnection, CommandTail, Dash;
    if invocation.workspace.Containers? {
      DockerConnectionIsKept(invocation.args, tail);
    } else {
      KubectlConnectionIsKept(invocation.args, row.namespace, tail);
    }
  }

  /** An action is the connection of the displayed argv and the command of the
      action; it projects back to that connection exactly when the displayed
      argv is finished. */
  method Build(invocation: Invocation, row: Row, action: string, operands: seq<string>)
    returns (result: Result<seq<string>, Failure>)
    requires operands == [] || action == "shell" || action == "port-forward"
    ensures result == match ActionTail(invocation, row, action, operands)
                      case Err(e) => Err(e)
                      case Ok(tail) => Ok(Connection(invocation, row) + tail)
    ensures result.Ok? && Named(invocation, row) && OperandsOf(action, operands) ==>
              && (KeepsConnection(invocation, row, result.value) <==> !Unfinished(invocation, row))
              && (invocation.workspace.Kubernetes? && !Unfinished(invocation, row) ==> StaysInNamespace(invocation, row, result.value))
  {
    hide ConnectionsOf, DanglingConnection, KeepsConnection, Unfinished, DockerTail, KubeTail, CommandTail, Dash, StaysInNamespace;
    var tail := ActionTail(invocation, row, action, operands);
    if tail.Err? { return Err(tail.error); }
    var args := Connection(invocation, row);
    args := args + tail.value;
    if Named(invocation, row) && OperandsOf(action, operands) {
      ActionTailIsACommandTail(invocation, row, action, operands);
      TailKeepsConnection(invocation, row, tail.value);
      if invocation.workspace.Kubernetes? && !Unfinished(invocation, row) { KeptNamespace(invocation, row, args); }
    }
    return Ok(args);
  }

  lemma ActionTailIsACommandTail(invocation: Invocation, row: Row, action: string, operands: seq<string>)
    requires ActionTail(invocation, row, action, operands).Ok?
    requires Named(invocation, row) && OperandsOf(action, operands)
    ensures CommandTail(ActionTail(invocation, row, action, operands).value, invocation.workspace)
  {
    if invocation.workspace.Kubernetes? {
      hide KubeTail, OperandsOf, CommandTail, Dash;
      assert row.name.Some? by { KubeTailNeedsAName(invocation.resource.value, row, action, operands); }
      KubeTailIsACommandTail(invocation.resource.value, row, action, operands);
    } else {
      hide KubeTail, OperandsOf, Inert;
    }
  }

  lemma KubeTailNeedsAName(resource: string, row: Row, action: string, operands: seq<string>)
    requires KubeTail(resource, row, action, operands).Ok?
    ensures row.name.Some?
  {}

  // ----- shells, port-forwards and related lists ---------------------------

  /** The argv of an action: the connection and the action's command. */
  function Built(invocation: Invocation, row: Row, action: string, operands: seq<string>): Result<seq<string>, Failure> {
    match ActionTail(invocation, row, action, operands)
    case Err(e) => Err(e)
    case Ok(tail) => Ok(Connection(invocation, row) + tail)
  }

  /** A container is named to kubectl as one word; a Docker container has none
      to choose from. */
  method Shell(invocation: Invocation, row: Row, container: Option<string>) returns (result: Result<seq<string>, Failure>)
    ensures result ==
      if container.None? then Built(invocation, row, "shell", [])
      else if invocation.workspace.Containers? then Err(UnsupportedOperation)
      else Built(invocation, row, "shell", ["--container", container.value])
    ensures result.Ok? && Named(invocation, row) ==>
              (KeepsConnection(invocation, row, result.value) <==> !Unfinished(invocation, row))
  {
    hide KeepsConnection, Unfinished, Named, ActionTail, Connection;
    if invocation.workspace.Containers? && container.Some? { return Err(UnsupportedOperation); }
    var operands := match container case None => [] case Some(name) => ["--container", name];
    result := Build(invocation, row, "shell", operands);
  }

  predicate Digit(c: char) { '0' <= c <= '9' }

  function Number(text: string): (n: nat) {
    if text == "" then 0
    else Number(text[..|text| - 1]) * 10 +
         if Digit(text[|text| - 1]) then text[|text| - 1] as int - '0' as int else 0
  }

  predicate PortNumber(text: string) {
    text != "" && (forall c <- text :: Digit(c)) && Number(text) <= 65535
  }

  predicate PortName(text: string) {
    && 1 <= |text| <= 15
    && (forall c <- text :: 'a' <= c <= 'z' || Digit(c) || c == '-')
    && (exists c <- text :: 'a' <= c <= 'z')
    && text[0] != '-' && text[|text| - 1] != '-'
  }

  function BeforeColon(text: string): string {
    if text == "" || text[0] == ':' then "" else [text[0]] + BeforeColon(text[1..])
  }

  lemma {:induction false} BeforeColonIsAPrefix(text: string)
    ensures BeforeColon(text) <= text && (':' in text ==> |BeforeColon(text)| < |text|)
  {
    if text != "" && text[0] != ':' { BeforeColonIsAPrefix(text[1..]); }
  }

  /** `LOCAL:REMOTE`, `:REMOTE` or a bare port number `REMOTE`. */
  predicate Mapping(text: string) {
    BeforeColonIsAPrefix(text);
    var local := if ':' in text then BeforeColon(text) else "";
    var remote := if ':' in text then text[|local| + 1..] else text;
    && ((PortNumber(remote) && Number(remote) > 0) || PortName(remote))
    && (local == "" || PortNumber(local))
    && (':' in text || PortNumber(remote))
  }

  lemma MappingsAreOperands(text: string)
    requires Mapping(text)
    ensures !Dash(text)
  {
    BeforeColonIsAPrefix(text);
    if ':' in text && text[0] != ':' {
      assert text[0] in BeforeColon(text);
    } else if ':' !in text {
      assert text[0] in text;
    }
  }

  /** `words` are the words typed at the prompt of the port-forward. */
  method PortForward(invocation: Invocation, row: Row, words: seq<string>) returns (result: Result<seq<string>, Failure>)
    ensures result ==
      if words == [] || exists word <- words :: !Mapping(word) then Err(InvalidPorts)
      else Built(invocation, row, "port-forward", words)
    ensures result.Ok? ==> forall word <- words :: !Dash(word)
    ensures result.Ok? && Named(invocation, row) ==>
              (KeepsConnection(invocation, row, result.value) <==> !Unfinished(invocation, row))
  {
    hide KeepsConnection, Unfinished, Named, ActionTail, Connection, Mapping;
    if words == [] || exists word <- words :: !Mapping(word) { return Err(InvalidPorts); }
    forall word <- words ensures !Dash(word) { MappingsAreOperands(word); }
    result := Build(invocation, row, "port-forward", words);
  }

  function RelatedCommand(invocation: Invocation, row: Row, relation: string): Result<seq<string>, Failure> {
    if invocation.workspace.Containers? && invocation.resource == Some("projects") then
      match row.dockerName
      case None => Err(NoSelection)
      case Some(name) => Ok(["ps", "--all", "--filter", "label=com.docker.compose.project=" + name])
    else if relation == "related-events" then
      match row.uid
      case None => Err(NoSelection)
      case Some(uid) => Ok(["get", "events", "--field-selector", "involvedObject.uid=" + uid])
    else if relation == "related-endpoints" then
      match row.name
      case None => Err(NoSelection)
      case Some(name) => Ok(["get", "endpointslices", "--selector", "kubernetes.io/service-name=" + name])
    else if relation == "related-pods" then
      match row.labels
      case Err(e) => Err(e)
      case Ok(labels) => if labels == [] then Err(NoSelector) else Ok(["get", "pods", "--selector", Text.Join(labels, ',')])
    else Err(UnsupportedOperation)
  }

  /** The list that is related to a row, in the displayed connection and the
      row's namespace; a compose project hands none on. Without a selector there
      is no list, rather than one of every Pod. */
  method Related(invocation: Invocation, row: Row, relation: string) returns (result: Result<seq<string>, Failure>)
    ensures result == match RelatedCommand(invocation, row, relation)
                      case Err(e) => Err(e)
                      case Ok(tail) =>
                        var project := invocation.workspace.Containers? && invocation.resource == Some("projects");
                        Ok(ConnectionsOf(invocation.args, invocation.workspace, if project then None else row.namespace) + tail)
    ensures result.Ok? && Named(invocation, row) && invocation.workspace.Kubernetes? ==>
              && (KeepsConnection(invocation, row, result.value) <==> !Unfinished(invocation, row))
              && (!Unfinished(invocation, row) ==> StaysInNamespace(invocation, row, result.value))
    ensures result.Ok? && invocation.workspace.Containers? && (invocation.resource == Some("projects") || row.namespace.None?) ==>
              KeepsConnection(invocation, row, result.value)
  {
    hide KeepsConnection, Unfinished, KubeInert, RelatedCommand, CommandTail, ConnectionsOf, StaysInNamespace;
    var tail := RelatedCommand(invocation, row, relation);
    if tail.Err? { return Err(tail.error); }
    var namespace := row.namespace;
    if invocation.workspace.Containers? && invocation.resource == Some("projects") { namespace := None; }
    var args := ConnectionsOf(invocation.args, invocation.workspace, namespace) + tail.value;
    if Named(invocation, row) {
      RelatedTailIsACommandTail(invocation, row, relation);
      TailKeepsConnection(invocation, row, tail.value);
      if invocation.workspace.Containers? { DockerIsFinished(invocation, row); }
      else if !Unfinished(invocation, row) && KeepsConnection(invocation, row, args) { KeptNamespace(invocation, row, args); }
    }
    return Ok(args);
  }

  lemma DockerIsFinished(invocation: Invocation, row: Row)
    requires invocation.workspace.Containers?
    ensures !Unfinished(invocation, row)
  {
  }

  lemma RelatedTailIsACommandTail(invocation: Invocation, row: Row, relation: string)
    requires RelatedCommand(invocation, row, relation).Ok?
    ensures CommandTail(RelatedCommand(invocation, row, relation).value, invocation.workspace)
  {
    var tail := RelatedCommand(invocation, row, relation).value;
    if invocation.workspace.Kubernetes? {
      assert tail == ["get", tail[1], tail[2], tail[3]];
      hide KubeInert;
      RelatedTail(tail[1], tail[2], tail[3]);
      InertCommand(tail);
    }
  }

  // ----- logs --------------------------------------------------------------

  /** A long option that a projection picks stands in the argv. */
  lemma {:induction false} LongWordsOfInspection(args: seq<string>, g: Grammar, word: string)
    requires WellFormed(g) && Long(word) && word in InspectWith(args, g)
    ensures word in args
  {
    hide SplitFlags, ShortOptions;
    if args != [] && !EndsOptions(args[0], g) {
      if word in Parts(args[0], g) {
        LongPart(args[0], g, word);
      } else if Consumes(args[0], g) && |args| > 1 {
        if word != args[1] { LongWordsOfInspection(args[2..], g, word); }
      } else {
        LongWordsOfInspection(args[1..], g, word);
      }
    }
  }

  lemma LongPart(arg: string, g: Grammar, word: string)
    requires WellFormed(g) && word in Parts(arg, g)
    ensures Long(word) ==> word == arg
  {
    if ShortOptions(arg, g).Some? {
      Inspection.FlagsSplitIntoPieces(arg[1..], g);
      assert Inspection.ShortPiece(word, g);
    }
  }

  lemma {:induction false} ProjectionPicksWords(words: seq<string>, room: nat, v: Vocabulary, g: Grammar, word: string)
    requires word in Project(words, room, v, g, false)
    ensures word in words
  {
    hide ValueOption, FlagOption;
    if v.value(words[0]) {
      if |words| > 1 && word !in words[..2] { ProjectionPicksWords(words[2..], Less(room, 2), v, g, word); }
    } else if ConnectionWord(words[0], v) {
      if word != words[0] { ProjectionPicksWords(words[1..], room - 1, v, g, word); }
    } else if g.takes(words[0]) && |words| > 1 {
      ProjectionPicksWords(words[2..], Less(room, 2), v, g, word);
    } else {
      ProjectionPicksWords(words[1..], room - 1, v, g, word);
    }
  }

  lemma RemovedWordsDoNotComeBack(args: seq<string>, word: string)
    requires Long(word) && word !in args
    ensures word !in ConnectionsOf(args, Kubernetes, None)
  {
    hide VocabularyOf, TakesValueIn, CommandPosition, Project;
    if word in ConnectionsOf(args, Kubernetes, None) {
      var g := RootGrammar(Kubernetes, Command(args, Kubernetes));
      var words := Inspected(args, Kubernetes);
      GrammarsAreWellFormed(Kubernetes, Command(args, Kubernetes));
      ProjectionPicksWords(words, |words|, VocabularyOf(Kubernetes), g, word);
      LongWordsOfInspection(args, g, word);
    }
  }

  function LogOptions(container: Option<string>): seq<string> {
    match container case None => [] case Some(name) => ["--container", name]
  }

  /** The command of a log action behind its connection. */
  function LogCommand(path: string, container: Option<string>, previous: bool): seq<string> {
    if previous then
      ["logs", "--tail=200", "--timestamps", path] + Without(LogOptions(container), "--follow") + ["--previous"]
    else ["logs", "--follow", "--tail=200", "--timestamps", path] + LogOptions(container)
  }

  lemma WithoutOne(a: string, b: string, word: string)
    requires a != word
    ensures Without([a], word) == [a]
    ensures Without([a, b], word) == [a] + (if b == word then [] else [b])
  {
    assert [a, b][1..] == [b] && [a][1..] == [] && [b][1..] == [];
  }

  lemma LogOptionsAreInert(container: Option<string>)
    ensures KubeInert(LogOptions(container), "logs")
    ensures KubeInert(Without(LogOptions(container), "--follow") + ["--previous"], "logs")
  {
    hide KubeInert, Without, Written;
    WrittenValuesAreTaken("logs");
    InertEnd([], "logs");
    assert Written("--previous") && Written("--container") by { WrittenLogOptions(); }
    InertOption("--previous", [], "logs");
    assert ["--previous"] + [] == ["--previous"];
    match container {
      case None =>
        assert Without([], "--follow") + ["--previous"] == ["--previous"];
      case Some(name) =>
        InertPair("--container", name, [], "logs");
        InertPair("--container", name, ["--previous"], "logs");
        InertPair("--container", "--previous", [], "logs");
        WithoutOne("--container", name, "--follow");
        assert ["--container", name] + [] == ["--container", name];
        assert ["--container"] + [] + ["--previous"] == ["--container", "--previous"] + [];
        assert ["--container"] + [name] == ["--container", name];
    }
  }

  lemma WrittenLogOptions() ensures Written("--previous") && Written("--container") {}

  lemma LogCommandIsACommandTail(path: string, container: Option<string>, previous: bool)
    requires !Dash(path)
    ensures CommandTail(LogCommand(path, container, previous), Kubernetes)
  {
    hide KubeInert, Without, LogOptions, CommandTail;
    LogOptionsAreInert(container);
    var more := if previous then Without(LogOptions(container), "--follow") + ["--previous"] else LogOptions(container);
    LogTail(path, more, !previous);
    var tail := LogCommand(path, container, previous);
    assert tail == (if previous then ["logs"] else ["logs", "--follow"]) + ["--tail=200", "--timestamps", path] + more;
    InertCommand(tail);
  }

  lemma LogWordsWithoutFollow(path: string)
    requires !Dash(path)
    ensures Without(["logs", "--follow", "--tail=200", "--timestamps", path], "--follow") ==
            ["logs", "--tail=200", "--timestamps", path]
  {
    hide Without;
    WithoutAppends(["logs", "--follow"], ["--tail=200", "--timestamps", path], "--follow");
    WithoutOne("logs", "--follow", "--follow");
    WithoutAbsent(["--tail=200", "--timestamps", path], "--follow");
    assert ["logs", "--follow"] + ["--tail=200", "--timestamps", path] ==
           ["logs", "--follow", "--tail=200", "--timestamps", path];
    assert ["logs"] + [] + ["--tail=200", "--timestamps", path] == ["logs", "--tail=200", "--timestamps", path];
  }

  lemma WithoutFollow(connection: seq<string>, path: string, container: Option<string>)
    requires !Dash(path) && "--follow" !in connection
    ensures Without(connection + ["logs", "--follow", "--tail=200", "--timestamps", path] + LogOptions(container), "--follow")
              + ["--previous"] == connection + LogCommand(path, container, true)
  {
    hide Without, LogOptions;
    var fixed, options := ["logs", "--follow", "--tail=200", "--timestamps", path], LogOptions(container);
    LogWordsWithoutFollow(path);
    WithoutAppends(connection + fixed, options, "--follow");
    WithoutAppends(connection, fixed, "--follow");
    assert Without(connection, "--follow") == connection by { WithoutAbsent(connection, "--follow"); }
    var kept, left := Without(fixed, "--follow"), Without(options, "--follow");
    Associate(connection, kept, left);
    Associate(connection, kept + left, ["--previous"]);
  }

  /** The argv of kubectl's logs, from the one that follows the pod. */
  function LogArgs(built: seq<string>, container: Option<string>, previous: bool): seq<string> {
    var args := built + LogOptions(container);
    if previous then Without(args, "--follow") + ["--previous"] else args
  }

  /** `--follow` is taken out of the whole argv, and with it a connection value
      of that spelling. */
  predicate LosesFollow(invocation: Invocation, row: Row, previous: bool) {
    invocation.workspace.Kubernetes? && previous && "--follow" in Connection(invocation, row)
  }

  lemma LogArgsKeepConnection(invocation: Invocation, row: Row, container: Option<string>, previous: bool)
    requires invocation.workspace.Kubernetes? && Named(invocation, row)
    requires Built(invocation, row, "logs", []).Ok?
    ensures KeepsConnection(invocation, row, LogArgs(Built(invocation, row, "logs", []).value, container, previous)) <==>
      !Unfinished(invocation, row) && !LosesFollow(invocation, row, previous)
  {
    hide ConnectionsOf, Unfinished, CommandTail, DockerTail;
    var connection := Connection(invocation, row);
    var path := invocation.resource.value + "/" + row.name.value;
    var args := Built(invocation, row, "logs", []).value + LogOptions(container);
    LogCommandIsACommandTail(path, container, previous);
    TailKeepsConnection(invocation, row, LogCommand(path, container, previous));
    if previous && "--follow" in connection {
      RemovedWordsDoNotComeBack(LogArgs(Built(invocation, row, "logs", []).value, container, previous), "--follow");
    } else if previous {
      WithoutFollow(connection, path, container);
    } else {
      Associate(connection, ["logs", "--follow", "--tail=200", "--timestamps", path], LogOptions(container));
    }
  }

  /** The logs of a row. The previous instance is not followed. The connection
      is kept exactly when the displayed argv is finished and no connection
      value is lost with `--follow`. */
  method Logs(invocation: Invocation, row: Row, container: Option<string>, previous: bool)
    returns (result: Result<seq<string>, Failure>)
    ensures result == match Built(invocation, row, "logs", [])
                      case Err(e) => Err(e)
                      case Ok(built) =>
                        Ok(if invocation.workspace.Containers? then built else LogArgs(built, container, previous))
    ensures result.Ok? && Named(invocation, row) ==>
              (KeepsConnection(invocation, row, result.value) <==>
               !Unfinished(invocation, row) && !LosesFollow(invocation, row, previous))
  {
    hide ConnectionsOf, Unfinished, KeepsConnection, Connection, Without, LogOptions, ActionTail, Named;
    result := Build(invocation, row, "logs", []);
    if result.Err? || invocation.workspace.Containers? { return; }
    var args := result.value + LogOptions(container);
    if previous {
      args := Without(args, "--follow");
      args := args + ["--previous"];
    }
    if Named(invocation, row) { LogArgsKeepConnection(invocation, row, container, previous); }
    return Ok(args);
  }

  // ----- a connection value that is lost ------------------------------------

  /** The pods of a displayed argv whose token is spelled `--follow`. */
  function Lossy(): seq<string> { ["get"] + (["pods"] + ["--token", "--follow"]) }

  lemma LossyCommand()
    ensures Command(Lossy(), Kubernetes) == "get"
  {
    assert !Dash("get");
    hide CommandPosition, Command;
    OwnCommand.OperandIsCommand("get", ["pods"] + ["--token", "--follow"], Lossy());
  }

  lemma OperandIsSkipped(word: string, rest: seq<string>, room: nat, v: Vocabulary, g: Grammar)
    requires Compatible(v, g) && !Dash(word)
    ensures Project([word] + rest, 1 + room, v, g, false) == Project(rest, room, v, g, false)
    ensures Dangling([word] + rest, 1 + room, v, g, false) <==> Dangling(rest, room, v, g, false)
  {
    OperandsAreNoOptions(word, v, g);
    assert v.value(word) ==> g.takes(word);
    hide ConnectionWord, Compatible;
    var words := [word] + rest;
    assert words[1..] == rest && words[0] != "--";
  }

  lemma ValueIsProjected(name: string, value: string, v: Vocabulary, g: Grammar)
    requires Compatible(v, g) && v.value(name)
    ensures Project([name, value], 2, v, g, false) == [name, value] && !Dangling([name, value], 2, v, g, false)
  {
    WholeWordIsTheName(name, v);
    ConnectionWordsStandAlone(name, v, g);
    hide ConnectionWord, Compatible;
    assert [name, value][2..] == [] && [name, value][..2] == [name, value];
    assert Project([], 0, v, g, false) == [] && [name, value] + [] == [name, value];
  }

  lemma LossyWords(v: Vocabulary, g: Grammar)
    requires Compatible(v, g) && v.value("--token") && !g.endsAtOperand
    ensures InspectWith(Lossy(), g) == Lossy()
    ensures Project(Lossy(), 4, v, g, false) == ["--token", "--follow"] && !Dangling(Lossy(), 4, v, g, false)
  {
    var pair := ["--token", "--follow"];
    assert !Dash("get") && !Dash("pods") && WellFormed(g);
    OwnCommand.InspectOperand("get", ["pods"] + pair, g);
    OwnCommand.InspectOperand("pods", pair, g);
    InspectOnePair("--token", "--follow", [], v, g);
    OwnCommand.InspectNothing(g);
    assert pair + [] == pair;
    ValueIsProjected("--token", "--follow", v, g);
    hide *;
    OperandIsSkipped("pods", pair, 2, v, g);
    OperandIsSkipped("get", ["pods"] + pair, 3, v, g);
  }

  lemma LossyConnection()
    ensures ConnectionsOf(Lossy(), Kubernetes, None) == ["--token", "--follow"] && !DanglingConnection(Lossy(), Kubernetes, None)
  {
    var v, g := VocabularyOf(Kubernetes), RootGrammar(Kubernetes, "get");
    assert v.value("--token") && !g.endsAtOperand;
    LossyCommand();
    VocabulariesAreCompatible(Kubernetes, "get");
    hide VocabularyOf, TakesValueIn, Project, Dangling, CommandPosition, Command, InspectWith, Compatible;
    LossyWords(v, g);
    assert Inspected(Lossy(), Kubernetes) == Lossy();
    assert |Lossy()| == 4 && ["--token", "--follow"] + [] == ["--token", "--follow"];
  }

  function LossyPods(): Invocation { Invocation(Kubernetes, Lossy(), Some("pods")) }

  lemma LogsAreBuilt(invocation: Invocation, row: Row)
    requires invocation.workspace.Kubernetes? && invocation.resource == Some("pods")
    requires row.name.Some? && !Dash(row.name.value) && row.namespace.None?
    ensures Named(invocation, row) && Built(invocation, row, "logs", []).Ok?
  {
    assert !Dash("pods");
    hide ConnectionsOf, DockerTail;
  }

  lemma LossyPodsLoseFollow(row: Row)
    requires row.namespace.None?
    ensures !Unfinished(LossyPods(), row) && LosesFollow(LossyPods(), row, true)
  {
    LossyConnection();
    assert "--follow" in ["--token", "--follow"];
    hide ConnectionsOf, DanglingConnection, Lossy;
  }

  /** kubectl: the previous logs of a pod lose the token of their connection. */
  lemma LogsLoseAValue(row: Row, container: Option<string>)
    requires row.name.Some? && !Dash(row.name.value) && row.namespace.None?
    ensures Named(LossyPods(), row) && !Unfinished(LossyPods(), row) && LosesFollow(LossyPods(), row, true)
    ensures Built(LossyPods(), row, "logs", []).Ok?
    ensures !KeepsConnection(LossyPods(), row, LogArgs(Built(LossyPods(), row, "logs", []).value, container, true))
  {
    assert LossyPods().workspace.Kubernetes? && LossyPods().resource == Some("pods");
    hide *;
    LogsAreBuilt(LossyPods(), row);
    LossyPodsLoseFollow(row);
    LogArgsKeepConnection(LossyPods(), row, container, true);
  }
}
