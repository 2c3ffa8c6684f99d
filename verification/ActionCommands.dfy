/** Which commands the actions on a row stand for (`build` of
    control/native_actions.rs): what each of them is about, and that only the
    actions that change something build a command that does. */
module ActionCommands {
  import opened Actions
  import opened Common
  import Text

  /** docker's and kubectl's commands that only read. */
  predicate ReadsOnly(tail: seq<string>, workspace: Workspace) {
    if workspace.Containers? then
      |tail| >= 2 && (tail[0] == "logs" || tail[0] == "stats" || (|tail| == 3 && tail[1] == "inspect"))
    else
      |tail| >= 1 && (tail[0] == "get" || tail[0] == "describe" || tail[0] == "logs" || tail[0] == "top")
  }

  predicate Shows(action: string) { action in {"inspect", "describe", "yaml", "json", "logs", "stats"} }

  predicate Changes(action: string) { action in {"start", "stop", "restart", "delete"} }

  predicate Enters(action: string) { action in {"shell", "port-forward"} }

  /** The name by which docker is told which row is meant: its id where it has
      one. */
  predicate NamesRow(name: string, row: Row) {
    if row.dockerID.Some? then name == row.dockerID.value
    else if row.dockerId.Some? then name == row.dockerId.value
    else row.dockerName == Some(name)
  }

  /** docker: a command for the row is either one that only reads, or says the
      change that was asked for; it is about the row and, where the command
      names one, about the list's own kind of resource. */
  lemma DockerCommands(invocation: Invocation, row: Row, action: string, operands: seq<string>)
    requires invocation.workspace.Containers? && ActionTail(invocation, row, action, operands).Ok?
    ensures var tail, resource := ActionTail(invocation, row, action, operands).value, invocation.resource.value;
      && |tail| >= 2
      && (Shows(action) <==> ReadsOnly(tail, Containers))
      && (action in {"start", "stop", "restart"} ==> resource == "containers" && |tail| == 2 && tail[0] == action)
      && (action == "delete" ==> |tail| == 3 && tail[1] == "rm")
      && (action in {"inspect", "describe", "yaml"} ==> |tail| == 3 && tail[1] == "inspect")
      && (action in {"inspect", "describe", "yaml", "delete"} ==> tail[0] + "s" == resource)
      && (action in {"logs", "stats"} ==> resource == "containers" && tail[0] == action)
      && (action == "shell" ==> resource == "containers" && |tail| == 7 && tail[0] == "exec" && NamesRow(tail[3], row))
      && (action != "shell" ==> NamesRow(tail[|tail| - 1], row))
      && (Shows(action) || Changes(action) || Enters(action))
  {
    var tail := ActionTail(invocation, row, action, operands).value;
    assert NamesRow(DockerName(row).value, row);
    if action == "logs" { assert tail[4] == DockerName(row).value && |tail| == 5; }
  }

  /** Which of the actions docker's lists have. */
  lemma DockerSupports(invocation: Invocation, row: Row, action: string, operands: seq<string>)
    requires invocation.workspace.Containers? && invocation.resource.Some? && DockerName(row).Some?
    ensures ActionTail(invocation, row, action, operands).Ok? <==>
      || (invocation.resource.value in {"containers", "images", "volumes", "networks"} &&
          action in {"inspect", "describe", "yaml", "delete"})
      || (invocation.resource.value == "containers" && action in {"shell", "start", "stop", "restart", "logs", "stats"})
  {
  }

  /** kubectl: the same, with the row named by its kind and name. */
  lemma KubeCommands(invocation: Invocation, row: Row, action: string, operands: seq<string>)
    requires invocation.workspace.Kubernetes? && ActionTail(invocation, row, action, operands).Ok?
    ensures row.name.Some?
    ensures var tail, resource := ActionTail(invocation, row, action, operands).value, invocation.resource.value;
      var name := row.name.value;
      && |tail| >= 2
      && (Shows(action) <==> ReadsOnly(tail, Kubernetes))
      && (action in {"inspect", "yaml"} ==> tail == ["get", resource, name, "-o", "yaml"])
      && (action == "json" ==> tail == ["get", resource, name, "-o", "json"])
      && (action == "describe" ==> tail == ["describe", resource, name])
      && (action == "logs" ==> tail[0] == "logs" && tail[|tail| - 1] == resource + "/" + name)
      && (action == "stats" ==> Pods(resource) && tail == ["top", "pod", name])
      && (action == "delete" ==> row.deletion.Ok? && tail == ["delete", "--raw", row.deletion.value])
      && (action == "restart" ==>
            Restartable(resource) && row.restart.Ok? && tail[..3] == ["patch", resource, name] && tail[|tail| - 1] == row.restart.value)
      && (action == "shell" ==> Pods(resource) && tail[0] == "exec" && tail[3] == resource + "/" + name && tail[4..|tail| - 4] == operands)
      && (action == "port-forward" ==>
            Forwardable(resource) && operands != [] && tail[..2] == ["port-forward", resource + "/" + name] && tail[2..] == operands)
      && (Shows(action) || Changes(action) || Enters(action)) && action != "start" && action != "stop"
  {
  }

  /** Which of the actions kubectl's lists have. */
  lemma KubeSupports(invocation: Invocation, row: Row, action: string, operands: seq<string>)
    requires invocation.workspace.Kubernetes? && invocation.resource.Some? && row.name.Some?
    ensures var resource := invocation.resource.value;
      ActionTail(invocation, row, action, operands).Ok? <==>
        || action in {"inspect", "yaml", "json", "describe", "logs"}
        || (action in {"shell", "stats"} && Pods(resource))
        || (action == "port-forward" && Forwardable(resource) && operands != [])
        || (action == "delete" && row.deletion.Ok?)
        || (action == "restart" && Restartable(resource) && row.restart.Ok?)
  {
    hide Pods, Forwardable, Restartable;
  }

  // ----- port mappings -----------------------------------------------------

  /** A port other than 0, in decimal digits. */
  predicate Port(text: string) { PortNumber(text) && Number(text) > 0 }

  ghost predicate Mapped(text: string, local: string, remote: string) {
    && text == local + ":" + remote && ':' !in local
    && (local == "" || PortNumber(local)) && (Port(remote) || PortName(remote))
  }

  lemma {:induction false} BeforeTheFirstColon(local: string, remote: string)
    requires ':' !in local
    ensures BeforeColon(local + ":" + remote) == local
  {
    if local != "" {
      BeforeTheFirstColon(local[1..], remote);
      assert (local + ":" + remote)[1..] == local[1..] + ":" + remote;
    }
  }

  lemma {:induction false} NoColonBefore(text: string)
    ensures ':' !in BeforeColon(text)
    ensures ':' in text ==> |BeforeColon(text)| < |text| && text[|BeforeColon(text)|] == ':'
  {
    if text != "" && text[0] != ':' { NoColonBefore(text[1..]); }
  }

  lemma NamesAreNoNumbers(text: string)
    ensures !(PortNumber(text) && PortName(text))
  {
    hide Number;
    if PortName(text) {
      var c :| c in text && 'a' <= c <= 'z';
    }
  }

  /** A mapping is a bare port, or a local port or none, a colon, and a port or
      its name. */
  lemma MappingForms(text: string)
    ensures Mapping(text) <==> (':' !in text && Port(text)) || exists local, remote :: Mapped(text, local, remote)
  {
    hide PortNumber, PortName, Number;
    BeforeColonIsAPrefix(text);
    NoColonBefore(text);
    NamesAreNoNumbers(text);
    forall local, remote | Mapped(text, local, remote) ensures ':' in text {
      assert text[|local|] == ':';
    }
    if ':' in text {
      var local := BeforeColon(text);
      assert text == local + ":" + text[|local| + 1..];
      if Mapping(text) { assert Mapped(text, local, text[|local| + 1..]); }
      if l, remote :| Mapped(text, l, remote) {
        BeforeTheFirstColon(l, remote);
        assert text[|l| + 1..] == remote;
      }
    }
  }

  lemma {:induction false} NumberOfDecimal(n: nat)
    ensures Number(Text.Decimal(n)) == n && Text.Decimal(n) != "" && forall c <- Text.Decimal(n) :: Digit(c)
  {
    if n >= 10 {
      NumberOfDecimal(n / 10);
      var text := Text.Decimal(n);
      assert text[..|text| - 1] == Text.Decimal(n / 10);
    }
    NumeralIsDigit(n % 10);
  }

  lemma NumeralIsDigit(n: nat)
    requires n < 10
    ensures Digit(Text.Numeral(n)) && Text.Numeral(n) as int - '0' as int == n
    ensures Number([Text.Numeral(n)]) == n
  {
    assert [Text.Numeral(n)][..0] == "";
  }

  /** Every pair of ports may be typed, and the local one left out. */
  lemma PortsMayBeTyped(local: nat, remote: nat)
    requires local <= 65535 && 1 <= remote <= 65535
    ensures Mapping(Text.Decimal(remote)) && Mapping(":" + Text.Decimal(remote))
    ensures Mapping(Text.Decimal(local) + ":" + Text.Decimal(remote))
  {
    var here, there := Text.Decimal(local), Text.Decimal(remote);
    assert ":" + there == "" + ":" + there;
    hide *;
    DecimalIsAPort(local);
    DecimalIsAPort(remote);
    MappingForms(there);
    PairIsMapped("", there);
    PairIsMapped(here, there);
  }

  lemma DecimalIsAPort(n: nat)
    requires n <= 65535
    ensures PortNumber(Text.Decimal(n)) && ':' !in Text.Decimal(n) && (n > 0 ==> Port(Text.Decimal(n)))
  {
    NumberOfDecimal(n);
    hide Number, Text.Decimal;
  }

  lemma PairIsMapped(local: string, remote: string)
    requires ':' !in local && (local == "" || PortNumber(local)) && Port(remote)
    ensures Mapping(local + ":" + remote)
  {
    hide Mapping, PortNumber, Port, PortName;
    MappingForms(local + ":" + remote);
    assert Mapped(local + ":" + remote, local, remote);
  }

  // ----- logs --------------------------------------------------------------

  /** kubectl's logs behind a connection: the running instance is followed, the
      previous one is not, and a container is named where one was chosen. */
  lemma LogsAreAsked(connection: seq<string>, path: string, container: Option<string>, previous: bool)
    requires "--follow" !in connection && path != "--follow" && container != Some("--follow")
    ensures var chosen := match container case None => [] case Some(name) => ["--container", name];
      LogArgs(connection + ["logs", "--follow", "--tail=200", "--timestamps", path], container, previous) ==
        connection + (if previous then ["logs", "--tail=200", "--timestamps", path] + chosen + ["--previous"]
                      else ["logs", "--follow", "--tail=200", "--timestamps", path] + chosen)
  {
    var fixed, chosen := ["logs", "--follow", "--tail=200", "--timestamps", path], LogOptions(container);
    Associate(connection, fixed, chosen);
    if previous {
      WithoutAppends(connection + fixed, chosen, "--follow");
      WithoutAppends(connection, fixed, "--follow");
      WithoutAbsent(connection, "--follow");
      WithoutAbsent(chosen, "--follow");
      FollowIsDropped(path);
      Associate(connection, ["logs", "--tail=200", "--timestamps", path], chosen);
      Associate(connection, ["logs", "--tail=200", "--timestamps", path] + chosen, ["--previous"]);
    }
  }

  lemma FollowIsDropped(path: string)
    requires path != "--follow"
    ensures Without(["logs", "--follow", "--tail=200", "--timestamps", path], "--follow") == ["logs", "--tail=200", "--timestamps", path]
  {
    var before, after := ["logs"], ["--tail=200", "--timestamps", path];
    assert ["logs", "--follow", "--tail=200", "--timestamps", path] == before + (["--follow"] + after);
    WithoutAppends(before, ["--follow"] + after, "--follow");
    WithoutAppends(["--follow"], after, "--follow");
    WithoutAbsent(before, "--follow");
    WithoutAbsent(after, "--follow");
    assert Without(["--follow"], "--follow") == [];
    assert before + ([] + after) == ["logs", "--tail=200", "--timestamps", path];
  }
}
