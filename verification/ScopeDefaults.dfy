/** The connection and scope that Hamn puts in front of a typed command
    (control/native.rs, `parse`, `has` and `kube_all_namespaces`). */
module ScopeDefaults {
  import opened CommandLine
  import opened Common
  import opened Connections
  import Inspection
  import OwnCommand

  /** What the workspace's state and the environment say. */
  datatype Scope = Scope(
    home: string, profile: Option<string>, dockerContext: Option<string>, dockerConfig: Option<string>,
    context: Option<string>, namespace: Option<string>, kubeconfig: Option<string>)

  // ----- presence ----------------------------------------------------------

  predicate Has(args: seq<string>, names: seq<string>, workspace: Workspace) {
    exists option :: option in OptionsOf(args, workspace) && exists name :: name in names && Names(option, name)
  }

  const ALL: string := "--all-namespaces"

  /** The last `--all-namespaces` or `-A` that is an option decides. */
  function AllNamespaces(words: seq<string>, g: Grammar, enabled: bool): bool
    decreases |words|
  {
    if words == [] || words[0] == "--" then enabled
    else if g.takes(words[0]) then if |words| == 1 then enabled else AllNamespaces(words[2..], g, enabled)
    else if words[0] == ALL || words[0] == "-A" then AllNamespaces(words[1..], g, true)
    else if |words[0]| > |ALL| && words[0][..|ALL| + 1] == ALL + "=" then AllNamespaces(words[1..], g, DockerBool(words[0][|ALL| + 1..]))
    else if |words[0]| > 2 && words[0][..3] == "-A=" then AllNamespaces(words[1..], g, DockerBool(words[0][3..]))
    else AllNamespaces(words[1..], g, enabled)
  }

  method KubeAllNamespaces(inspected: seq<string>) returns (enabled: bool)
    ensures enabled == AllNamespaces(inspected, RootGrammar(Kubernetes, Command(inspected, Kubernetes)), false)
  {
    var g := RootGrammar(Kubernetes, Command(inspected, Kubernetes));
    hide TakesValueIn, CommandPosition;
    enabled := false;
    var rest := inspected;
    while rest != []
      invariant AllNamespaces(rest, g, enabled) == AllNamespaces(inspected, g, false)
      decreases |rest|
    {
      var arg := rest[0];
      if arg == "--" { break; }
      if g.takes(arg) {
        if |rest| == 1 { break; }
        rest := rest[2..];
        continue;
      }
      if arg == ALL || arg == "-A" {
        enabled := true;
      } else if |arg| > |ALL| && arg[..|ALL| + 1] == ALL + "=" {
        enabled := DockerBool(arg[|ALL| + 1..]);
      } else if |arg| > 2 && arg[..3] == "-A=" {
        enabled := DockerBool(arg[3..]);
      }
      rest := rest[1..];
    }
  }

  // ----- the defaults ------------------------------------------------------

  function Default(name: string, value: Option<string>): seq<string> {
    match value case None => [] case Some(text) => [name, text]
  }

  function Text(value: Option<string>, otherwise: string): string { match value case None => otherwise case Some(text) => text }

  predicate Configures(args: seq<string>, workspace: Workspace) {
    Command(args, workspace) == (if workspace.Containers? then "context" else "config") && CommandPosition(args, workspace).Some?
  }

  function DockerDefaults(args: seq<string>, scope: Scope): seq<string> {
    if Configures(args, Containers) then []
    else
      var inspected := Inspected(args, Containers);
      var explicit := Has(inspected[..CommandBoundary(inspected, Containers)], ["--context", "-c", "--host", "-H", "--config"], Containers);
      var target :=
        if explicit then []
        else if scope.dockerContext.Some? then ["--context", scope.dockerContext.value]
        else ["--host", "unix://" + scope.home + "/.hamn/" + Text(scope.profile, "default") + "/docker.sock"];
      var config := if Has(args[..CommandBoundary(args, Containers)], ["--config"], Containers) then [] else Default("--config", scope.dockerConfig);
      config + target
  }

  /** Whether a kubectl command leaves its target to the state. */
  predicate Targets(args: seq<string>, plugin: bool) {
    !Configures(args, Kubernetes) && !plugin && !Has(Inspected(args, Kubernetes), ["--context", "--kubeconfig"], Kubernetes)
  }

  predicate NamesNamespace(args: seq<string>) {
    var inspected := Inspected(args, Kubernetes);
    || Has(inspected, ["--namespace", "-n"], Kubernetes)
    || AllNamespaces(inspected, RootGrammar(Kubernetes, Command(inspected, Kubernetes)), false)
  }

  function NamespaceDefault(args: seq<string>, scope: Scope, plugin: bool): seq<string> {
    if Targets(args, plugin) && !NamesNamespace(args) then Default("--namespace", scope.namespace) else []
  }

  /** `plugin` tells whether an installed plugin owns the command. */
  function KubeDefaults(args: seq<string>, scope: Scope, plugin: bool): seq<string> {
    var context := if Targets(args, plugin) then Default("--context", scope.context) else [];
    var config := if plugin || Has(args, ["--kubeconfig"], Kubernetes) then [] else Default("--kubeconfig", scope.kubeconfig);
    context + NamespaceDefault(args, scope, plugin) + config
  }

  function Defaults(args: seq<string>, workspace: Workspace, scope: Scope, plugin: bool): seq<string> {
    if workspace.Containers? then DockerDefaults(args, scope) else KubeDefaults(args, scope, plugin)
  }

  // ----- what they leave as it is ------------------------------------------

  lemma DefaultIsComplete(name: string, value: Option<string>, workspace: Workspace)
    requires VocabularyOf(workspace).value(name)
    ensures Complete(Default(name, value), VocabularyOf(workspace))
  {
    hide VocabularyOf;
    if value.Some? { assert [name, value.value][2..] == []; }
  }

  /** The defaults are connection options with their values, whatever is typed. */
  lemma DefaultsAreComplete(args: seq<string>, workspace: Workspace, scope: Scope, plugin: bool)
    ensures Complete(Defaults(args, workspace, scope, plugin), VocabularyOf(workspace))
  {
    var v := VocabularyOf(workspace);
    hide Has, AllNamespaces, Complete, Inspected, CommandPosition, Configures;
    if workspace.Containers? {
      assert v.value("--context") && v.value("--host") && v.value("--config");
      hide VocabularyOf;
      DefaultIsComplete("--context", scope.dockerContext, Containers);
      DefaultIsComplete("--host", Some("unix://" + scope.home + "/.hamn/" + Text(scope.profile, "default") + "/docker.sock"), Containers);
      DefaultIsComplete("--config", scope.dockerConfig, Containers);
      DefaultIsComplete("--config", None, Containers);
      NothingIsComplete(v);
      var config := if Has(args[..CommandBoundary(args, Containers)], ["--config"], Containers) then [] else Default("--config", scope.dockerConfig);
      if !Configures(args, Containers) {
        var target := DockerDefaults(args, scope)[|config|..];
        assert DockerDefaults(args, scope) == config + target;
        CompleteAppends(config, target, v);
      }
    } else {
      assert v.value("--context") && v.value("--namespace") && v.value("--kubeconfig");
      hide VocabularyOf;
      DefaultIsComplete("--context", scope.context, Kubernetes);
      DefaultIsComplete("--namespace", scope.namespace, Kubernetes);
      DefaultIsComplete("--kubeconfig", scope.kubeconfig, Kubernetes);
      NothingIsComplete(v);
      var context := if Targets(args, plugin) then Default("--context", scope.context) else [];
      var namespace := NamespaceDefault(args, scope, plugin);
      CompleteAppends(context, namespace, v);
      CompleteAppends(context + namespace, KubeDefaults(args, scope, plugin)[|context + namespace|..], v);
    }
  }

  lemma NothingIsComplete(v: Vocabulary)
    ensures Complete([], v)
  {
  }

  lemma CommandStep(args: seq<string>, workspace: Workspace)
    requires args != [] && Dash(args[0])
    ensures var step := Advance(args[0], workspace);
      0 < step <= |args| ==>
        CommandPosition(args, workspace) == Shifted(CommandPosition(args[step..], workspace), step)
  {
    hide Advance;
  }

  /** Behind a complete list of connection options the command of an argv is
      found where it was. */
  lemma {:induction false} CommandBehindConnections(list: seq<string>, rest: seq<string>, workspace: Workspace)
    requires Complete(list, VocabularyOf(workspace))
    ensures CommandPosition(list + rest, workspace) == Shifted(CommandPosition(rest, workspace), |list|)
  {
    hide Advance, VocabularyOf, ConnectionWord, CommandPosition, Dash;
    var all := list + rest;
    if list == [] {
      assert all == rest;
    } else {
      ValuesAreConnectionWords(list[0], VocabularyOf(workspace));
      AdvanceOverConnectionWord(list[0], workspace);
      var k := if VocabularyOf(workspace).value(list[0]) then 2 else 1;
      CommandBehindConnections(list[k..], rest, workspace);
      assert all[0] == list[0] && all[k..] == list[k..] + rest;
      CommandStep(all, workspace);
    }
  }

  lemma ValuesAreConnectionWords(word: string, v: Vocabulary)
    ensures v.value(word) ==> ConnectionWord(word, v)
  {
    WholeWordIsTheName(word, v);
  }

  lemma SameCommand(list: seq<string>, rest: seq<string>, workspace: Workspace)
    requires Complete(list, VocabularyOf(workspace))
    ensures Command(list + rest, workspace) == Command(rest, workspace)
  {
    CommandBehindConnections(list, rest, workspace);
    hide Complete, VocabularyOf, CommandPosition;
    match CommandPosition(rest, workspace) {
      case None =>
      case Some(i) => assert (list + rest)[i + |list|] == rest[i];
    }
  }

  /** The defaults are read word for word in front of what is typed: the same
      command, and the same inspection of everything behind them. */
  lemma DefaultsChangeNothingBehind(args: seq<string>, workspace: Workspace, scope: Scope, plugin: bool)
    ensures var list := Defaults(args, workspace, scope, plugin);
      && CommandPosition(list + args, workspace) == Shifted(CommandPosition(args, workspace), |list|)
      && Inspected(list + args, workspace) == list + Inspected(args, workspace)
  {
    var list := Defaults(args, workspace, scope, plugin);
    hide Complete, VocabularyOf, CommandPosition, Command, Defaults, InspectWith;
    DefaultsAreComplete(args, workspace, scope, plugin);
    CommandBehindConnections(list, args, workspace);
    SameCommand(list, args, workspace);
    VocabulariesAreCompatible(workspace, Command(args, workspace));
    InspectAfterConnections(list, args, VocabularyOf(workspace), RootGrammar(workspace, Command(args, workspace)));
  }

  lemma KubeConnections(args: seq<string>)
    ensures var words := Inspected(args, Kubernetes);
      ConnectionsOf(args, Kubernetes, None)
        == Project(words, |words|, VocabularyOf(Kubernetes), RootGrammar(Kubernetes, Command(args, Kubernetes)), false)
  {
    hide Inspected, Project, VocabularyOf, RootGrammar, Command;
  }

  /** kubectl: the connection of the whole argv is the defaults and then the
      connection that was typed. */
  lemma ConnectionsBehindDefaults(args: seq<string>, scope: Scope, plugin: bool)
    ensures var list := Defaults(args, Kubernetes, scope, plugin);
      ConnectionsOf(list + args, Kubernetes, None) == list + ConnectionsOf(args, Kubernetes, None)
  {
    hide *;
    var list := Defaults(args, Kubernetes, scope, plugin);
    DefaultsAreComplete(args, Kubernetes, scope, plugin);
    DefaultsChangeNothingBehind(args, Kubernetes, scope, plugin);
    SameCommand(list, args, Kubernetes);
    KubeConnections(args);
    KubeConnections(list + args);
    VocabulariesAreCompatible(Kubernetes, Command(args, Kubernetes));
    var words := Inspected(args, Kubernetes);
    ProjectAfterConnections(list, words, |words|, VocabularyOf(Kubernetes), RootGrammar(Kubernetes, Command(args, Kubernetes)));
  }

  // ----- the namespace that was typed wins ---------------------------------

  lemma ValuesAreOptionNames()
    ensures forall n :: VocabularyOf(Kubernetes).value(n) ==> OptionName(n)
  {
    VocabulariesAreCompatible(Kubernetes, "get");
    hide VocabularyOf, RootGrammar, OptionName;
  }

  lemma NamespaceWordsAreNamed(word: string)
    ensures NamespaceWord(word, VocabularyOf(Kubernetes)) <==> Names(word, "--namespace") || Names(word, "-n")
  {
    var v := VocabularyOf(Kubernetes);
    assert v.value("--namespace") && v.value("-n");
    ValuesAreOptionNames();
    hide VocabularyOf, ValueOption, Names, OptionName;
    TheMatchIsUnique(word, "--namespace", v);
    TheMatchIsUnique(word, "-n", v);
  }

  predicate NoneNamesNamespace(options: seq<string>, v: Vocabulary) {
    forall option :: option in options ==> !NamespaceWord(option, v)
  }

  lemma NoneNamesOneMore(word: string, rest: seq<string>, v: Vocabulary)
    ensures NoneNamesNamespace([word] + rest, v) <==> !NamespaceWord(word, v) && NoneNamesNamespace(rest, v)
  {
    hide NamespaceWord;
    var all := [word] + rest;
    assert word in all && forall option :: option in rest ==> option in all;
  }

  /** The projection has no namespace exactly where no option word names one. */
  lemma {:induction false} ProjectedNamespaces(words: seq<string>, room: nat, v: Vocabulary, g: Grammar)
    requires Compatible(v, g) && room >= |words|
    ensures NamespaceOptions(Project(words, room, v, g, false), v) == [] <==>
      NoneNamesNamespace(Inspection.OptionWords(words, g), v)
    decreases |words|
  {
    hide NamespaceWord, ConnectionWord, NoneNamesNamespace, NamespaceOptions;
    NoneOfNothing(v);
    if words != [] && words[0] != "--" {
      var word := words[0];
      ValuesAreConnectionWords(word, v);
      OthersNameNone(word, v);
      if ConnectionWord(word, v) { ConnectionWordsStandAlone(word, v, g); }
      var taken := if g.takes(word) && |words| > 1 then 2 else 1;
      var rest := Inspection.OptionWords(words[taken..], g);
      ProjectedNamespaces(words[taken..], Less(room, taken), v, g);
      NoneNamesOneMore(word, rest, v);
      assert [] + rest == rest;
      if v.value(word) && |words| == 1 {
        LastOption(word, v, g);
        assert words == [word] && rest == [] && [word] + rest == [word];
      } else if ConnectionWord(word, v) {
        PickedOption(words[..taken], Project(words[taken..], Less(room, taken), v, g, false), v);
        assert words[..1] == [word];
      }
    } else {
      OthersNameNone("--", v);
      if ConnectionWord("--", v) { ConnectionWordsStandAlone("--", v, g); }
    }
  }

  lemma NoneOfNothing(v: Vocabulary)
    ensures NoneNamesNamespace([], v) && NamespaceOptions([], v) == []
    ensures !NamespaceWord("--", v) ==> NoneNamesNamespace(["--"], v)
  {
  }

  lemma NoneNames(options: seq<string>, v: Vocabulary)
    ensures NoneNamesNamespace(options, v) <==> !exists option :: option in options && NamespaceWord(option, v)
  {
    hide NamespaceWord;
  }

  lemma OthersNameNone(word: string, v: Vocabulary)
    ensures NamespaceWord(word, v) ==> ConnectionWord(word, v)
  {
  }

  lemma LastOption(word: string, v: Vocabulary, g: Grammar)
    requires v.value(word) && Dash(word) && word != "--"
    ensures NamespaceOptions([word], v) == [] <==> !NamespaceWord(word, v)
    ensures Inspection.OptionWords([word], g) == [word]
  {
    hide NamespaceWord;
    assert [word][1..] == [] && [word][..1] == [word];
  }

  lemma PickedOption(option: seq<string>, rest: seq<string>, v: Vocabulary)
    requires option != [] && (|option| == if v.value(option[0]) then 2 else 1)
    ensures NamespaceOptions(option + rest, v) == (if NamespaceWord(option[0], v) then [option] else []) + NamespaceOptions(rest, v)
  {
    var all := option + rest;
    assert all[|option|..] == rest && all[..|option|] == option && all[0] == option[0];
  }

  lemma OtherDefaultsNameNone(value: Option<string>)
    ensures NamespaceOptions(Default("--context", value), VocabularyOf(Kubernetes)) == []
    ensures NamespaceOptions(Default("--kubeconfig", value), VocabularyOf(Kubernetes)) == []
    ensures NamespaceOptions(Default("--namespace", value), VocabularyOf(Kubernetes))
         == match value case None => [] case Some(name) => [["--namespace", name]]
  {
    var v := VocabularyOf(Kubernetes);
    assert v.value("--context") && v.value("--kubeconfig") && v.value("--namespace");
    NamespaceWordsAreNamed("--context");
    NamespaceWordsAreNamed("--kubeconfig");
    NamespaceWordsAreNamed("--namespace");
    hide VocabularyOf, NamespaceWord;
    if value.Some? {
      PickedOption(["--context", value.value], [], v);
      PickedOption(["--kubeconfig", value.value], [], v);
      var own := ["--namespace", value.value];
      assert ["--context", value.value] + [] == ["--context", value.value];
      assert ["--kubeconfig", value.value] + [] == ["--kubeconfig", value.value];
      assert own[..2] == own && own[2..] == [];
    }
  }

  lemma NamespacesOfDefaults(args: seq<string>, scope: Scope, plugin: bool)
    ensures NamespaceOptions(KubeDefaults(args, scope, plugin), VocabularyOf(Kubernetes))
         == if NamespaceDefault(args, scope, plugin) == [] then [] else [["--namespace", Text(scope.namespace, "")]]
  {
    var context := if Targets(args, plugin) then Default("--context", scope.context) else [];
    var namespace := NamespaceDefault(args, scope, plugin);
    var config := if plugin || Has(args, ["--kubeconfig"], Kubernetes) then [] else Default("--kubeconfig", scope.kubeconfig);
    DefaultNamespace(args, scope, plugin);
    assert KubeDefaults(args, scope, plugin) == context + namespace + config;
    hide *;
    var v := VocabularyOf(Kubernetes);
    NothingIsComplete(v);
    ContextDefaults(scope.context);
    ContextDefaults(scope.kubeconfig);
    CompleteAppends(context, namespace, v);
    NamespaceOptionsAppend(context + namespace, config, v);
    NamespaceOptionsAppend(context, namespace, v);
  }

  lemma ContextDefaults(value: Option<string>)
    ensures var v := VocabularyOf(Kubernetes);
      && Complete(Default("--context", value), v) && NamespaceOptions(Default("--context", value), v) == []
      && Complete(Default("--kubeconfig", value), v) && NamespaceOptions(Default("--kubeconfig", value), v) == []
      && NamespaceOptions([], v) == []
  {
    assert VocabularyOf(Kubernetes).value("--context") && VocabularyOf(Kubernetes).value("--kubeconfig");
    OtherDefaultsNameNone(value);
    hide VocabularyOf, Default, Complete;
    DefaultIsComplete("--context", value, Kubernetes);
    DefaultIsComplete("--kubeconfig", value, Kubernetes);
  }

  lemma DefaultNamespace(args: seq<string>, scope: Scope, plugin: bool)
    ensures var list := NamespaceDefault(args, scope, plugin); var v := VocabularyOf(Kubernetes);
      Complete(list, v) && NamespaceOptions(list, v) == if list == [] then [] else [["--namespace", Text(scope.namespace, "")]]
  {
    assert VocabularyOf(Kubernetes).value("--namespace");
    hide VocabularyOf, Targets, NamesNamespace;
    OtherDefaultsNameNone(scope.namespace);
    DefaultIsComplete("--namespace", scope.namespace, Kubernetes);
  }

  const NAMESPACES := ["--namespace", "-n"]

  lemma HasNamespace(args: seq<string>)
    ensures Has(args, NAMESPACES, Kubernetes) <==>
      exists option :: option in OptionsOf(args, Kubernetes) && NamespaceWord(option, VocabularyOf(Kubernetes))
  {
    hide OptionsOf, NamespaceWord, VocabularyOf, Names;
    assert "--namespace" in NAMESPACES && "-n" in NAMESPACES;
    forall option ensures NamespaceWord(option, VocabularyOf(Kubernetes)) <==> exists name :: name in NAMESPACES && Names(option, name) {
      NamespaceWordsAreNamed(option);
    }
  }

  /** The two scanners agree on what is typed: `has`, asked about the argv
      itself, finds a namespace exactly where `connections` picks one. */
  lemma TypedNamespaces(args: seq<string>)
    ensures NamespaceOptions(ConnectionsOf(args, Kubernetes, None), VocabularyOf(Kubernetes)) != [] <==> Has(args, NAMESPACES, Kubernetes)
  {
    hide *;
    var v, g, words := VocabularyOf(Kubernetes), RootGrammar(Kubernetes, Command(args, Kubernetes)), Inspected(args, Kubernetes);
    HasNamespace(args);
    Inspection.KubectlOptionsAreTheOptionWordsOfInspect(args);
    VocabulariesAreCompatible(Kubernetes, Command(args, Kubernetes));
    ProjectedNamespaces(words, |words|, v, g);
    KubeConnections(args);
    NoneNames(OptionsOf(args, Kubernetes), v);
  }

  /** The namespaces of the whole argv: the default, if it is put in front,
      and the typed ones. */
  lemma NamespacesOfWhole(args: seq<string>, scope: Scope, plugin: bool)
    ensures var v := VocabularyOf(Kubernetes);
      NamespaceOptions(ConnectionsOf(Defaults(args, Kubernetes, scope, plugin) + args, Kubernetes, None), v) ==
        (if NamespaceDefault(args, scope, plugin) == [] then [] else [["--namespace", Text(scope.namespace, "")]])
        + NamespaceOptions(ConnectionsOf(args, Kubernetes, None), v)
  {
    assert Defaults(args, Kubernetes, scope, plugin) == KubeDefaults(args, scope, plugin);
    hide *;
    DefaultsAreComplete(args, Kubernetes, scope, plugin);
    ConnectionsBehindDefaults(args, scope, plugin);
    NamespaceOptionsAppend(Defaults(args, Kubernetes, scope, plugin), ConnectionsOf(args, Kubernetes, None), VocabularyOf(Kubernetes));
    NamespacesOfDefaults(args, scope, plugin);
  }

  /** kubectl: the default namespace is used only where none is typed, and is
      then the only one; otherwise exactly the typed ones are left. */
  ghost predicate TypedScopeWins(args: seq<string>, scope: Scope, plugin: bool) {
    var v := VocabularyOf(Kubernetes);
    NamespaceOptions(ConnectionsOf(Defaults(args, Kubernetes, scope, plugin) + args, Kubernetes, None), v) ==
      if NamespaceDefault(args, scope, plugin) == [] then NamespaceOptions(ConnectionsOf(args, Kubernetes, None), v)
      else [["--namespace", Text(scope.namespace, "")]]
  }

  /** It does exactly where no default is put in front of an argv that has a
      namespace: `parse` asks `has` about the inspected argv, which may be
      read by another command than the argv itself. */
  lemma TypedScopeWinsExactly(args: seq<string>, scope: Scope, plugin: bool)
    ensures TypedScopeWins(args, scope, plugin) <==>
      NamespaceDefault(args, scope, plugin) == [] || !Has(args, NAMESPACES, Kubernetes)
  {
    hide NamespaceDefault, Has, ConnectionsOf, NamespaceOptions, Defaults, VocabularyOf;
    NamespacesOfWhole(args, scope, plugin);
    TypedNamespaces(args);
  }

  /** Where the words before the command are read alike, `has` finds the same
      options in the inspected argv. */
  lemma HasReadsAlike(args: seq<string>, names: seq<string>)
    requires OwnCommand.ReadAlike(args, Command(args, Kubernetes))
    ensures Has(Inspected(args, Kubernetes), names, Kubernetes) <==> Has(args, names, Kubernetes)
  {
    assert OptionsOf(Inspected(args, Kubernetes), Kubernetes) == OptionsOf(args, Kubernetes) by {
      hide *;
      OwnCommand.ReadAlikeIsIdempotent(args);
      Inspection.KubectlOptionsAreTheOptionWordsOfInspect(args);
      Inspection.KubectlOptionsAreTheOptionWordsOfInspect(Inspected(args, Kubernetes));
    }
    hide OptionsOf, Inspected, Names;
  }

  /** So it does for every argv but those of `logs` and `proxy`. */
  lemma TypedNamespaceWins(args: seq<string>, scope: Scope, plugin: bool)
    requires !OwnCommand.RereadsShortOptions(Command(args, Kubernetes))
    ensures TypedScopeWins(args, scope, plugin)
  {
    assert NamespaceDefault(args, scope, plugin) != [] ==> !Has(Inspected(args, Kubernetes), NAMESPACES, Kubernetes) by {
      hide Has, Inspected, Command, CommandPosition, AllNamespaces, Targets;
    }
    hide *;
    OwnCommand.MostCommandsReadAlike(args, Command(args, Kubernetes));
    HasReadsAlike(args, NAMESPACES);
    TypedScopeWinsExactly(args, scope, plugin);
  }

  // ----- a default beside a typed namespace --------------------------------

  lemma OptionBehind(part: string, rest: seq<string>, option: string, g: Grammar)
    requires part != "--" && !g.takes(part) && option in Inspection.OptionWords(rest, g)
    ensures option in Inspection.OptionWords([part] + rest, g)
  {
    Inspection.OptionWordsOfOne(part, rest, g);
  }

  /** By `logs`, the option at the end of the argv is one. */
  lemma GivenIsTyped(given: string, tail: string)
    requires OwnCommand.ScopeName(given)
    ensures given in OptionsOf(OwnCommand.Typed(given, tail), Kubernetes)
  {
    OwnCommand.LettersOfLogs();
    var g := RootGrammar(Kubernetes, "logs");
    assert g.takes("-f") == TakesValueIn("-f", Kubernetes, "logs") && g.takes("-p") == TakesValueIn("-p", Kubernetes, "logs");
    assert g.takes("-A") == TakesValueIn("-A", Kubernetes, "logs");
    GrammarsAreWellFormed(Kubernetes, "logs");
    OperandsTakeNothing("logs", g);
    OperandsTakeNothing("x", g);
    OwnCommand.ScopeNameByLogs(given);
    hide *;
    var pair := [given, tail];
    NamespaceOptionIsFirst(given, tail, g);
    OptionBehind("-p", pair, given, g);
    OptionBehind("x", ["-p"] + pair, given, g);
    OptionBehind("logs", ["x"] + (["-p"] + pair), given, g);
    OwnCommand.BehindStartsWithLogs(given, tail);
    OptionBehind("-p", OwnCommand.Behind(given, tail), given, g);
    OptionBehind("-A", ["-p"] + OwnCommand.Behind(given, tail), given, g);
    OptionBehind("-f", ["-A"] + (["-p"] + OwnCommand.Behind(given, tail)), given, g);
    SplitOneByOne(given, tail);
    OwnCommand.TypedIsReread(given, tail);
    Inspection.KubectlOptionsAreTheOptionWordsOfInspect(OwnCommand.Typed(given, tail));
  }

  lemma NamespaceIsTyped()
    ensures Has(OwnCommand.Typed("-n", "work"), NAMESPACES, Kubernetes)
  {
    assert Names("-n", "-n") && OwnCommand.ScopeName("-n");
    hide *;
    GivenIsTyped("-n", "work");
    NamespaceWordsAreNamed("-n");
    HasNamespace(OwnCommand.Typed("-n", "work"));
  }

  lemma OperandsTakeNothing(word: string, g: Grammar)
    requires WellFormed(g)
    ensures !Dash(word) ==> !g.takes(word)
  {
  }

  lemma NamespaceOptionIsFirst(given: string, tail: string, g: Grammar)
    requires Dash(given) && given != "--"
    ensures given in Inspection.OptionWords([given, tail], g)
  {
    assert [given, tail][0] == given;
  }

  lemma SplitOneByOne(given: string, tail: string)
    ensures OwnCommand.TypedSplit(given, tail) == ["-f"] + (["-A"] + (["-p"] + OwnCommand.Behind(given, tail)))
  {
    hide *;
    OwnCommand.TypedForm(given, tail);
    var rest := OwnCommand.Behind(given, tail);
    assert ["-f"] + (["-A"] + (["-p"] + rest)) == ["-f", "-A", "-p"] + rest;
  }

  lemma OptionsOfPair(name: string, value: string, rest: seq<string>, g: Grammar)
    requires g.takes(name) && Dash(name) && name != "--"
    ensures Inspection.OptionWords([name, value] + rest, g) == [name] + Inspection.OptionWords(rest, g)
    ensures forall enabled :: AllNamespaces([name, value] + rest, g, enabled) == AllNamespaces(rest, g, enabled)
  {
    var words := [name, value] + rest;
    assert words[2..] == rest;
  }

  lemma OptionsOfOperand(word: string, rest: seq<string>, g: Grammar)
    requires !g.takes(word) && !Dash(word)
    ensures Inspection.OptionWords([word] + rest, g) == Inspection.OptionWords(rest, g)
    ensures forall enabled :: AllNamespaces([word] + rest, g, enabled) == AllNamespaces(rest, g, enabled)
  {
    var words := [word] + rest;
    assert words[1..] == rest;
    assert (ALL + "=")[0] == '-' && |word| > |ALL| ==> word[..|ALL| + 1][0] == word[0];
    assert |word| > 2 ==> word[..3][0] == word[0];
  }

  /** By `x`, the options of the split argv are `-f`, `-p` and `-p`. */
  lemma OptionsOfSplit(given: string, tail: string)
    requires OwnCommand.ScopeName(given) && !Dash(tail)
    ensures OptionsOf(OwnCommand.TypedSplit(given, tail), Kubernetes) == ["-f"] + (["-p"] + (["-p"] + []))
    ensures !AllNamespaces(OwnCommand.TypedSplit(given, tail), RootGrammar(Kubernetes, "x"), false)
  {
    var g := RootGrammar(Kubernetes, "x");
    OwnCommand.LettersOf("x");
    assert g.takes("-f") == TakesValueIn("-f", Kubernetes, "x") && g.takes("-p") == TakesValueIn("-p", Kubernetes, "x");
    GrammarsAreWellFormed(Kubernetes, "x");
    OwnCommand.NoOperandEndsOptions("x");
    OperandsTakeNothing("x", g);
    OperandsTakeNothing(tail, g);
    OwnCommand.DashesOfTyped();
    NoOptions(g);
    hide *;
    OwnCommand.InspectOperand(tail, [], g);
    OwnCommand.InspectNothing(g);
    assert [tail] + [] == [tail];
    OwnCommand.TypedIsReread(given, tail);
    OwnCommand.SplitForm(given, tail);
    Inspection.KubectlOptionsAreTheOptionWordsOfInspect(OwnCommand.TypedSplit(given, tail));
    OptionsOfOperand(tail, [], g);
    OptionsOfPair("-p", given, [tail], g);
    OptionsOfOperand("x", ["-p", given] + [tail], g);
    OptionsOfPair("-p", "logs", ["x"] + (["-p", given] + [tail]), g);
    OptionsOfPair("-f", "-A", ["-p", "logs"] + (["x"] + (["-p", given] + [tail])), g);
  }

  lemma NoOptions(g: Grammar)
    ensures Inspection.OptionWords([], g) == [] && !AllNamespaces([], g, false)
  {
  }

  lemma LettersNameNothing(names: seq<string>)
    requires forall name :: name in names ==> |name| >= 2 && name != "-f" && name != "-p"
    ensures forall option :: option in ["-f"] + (["-p"] + (["-p"] + [])) ==> !exists name :: name in names && Names(option, name)
  {
    forall option, name | option in ["-f"] + (["-p"] + (["-p"] + [])) && name in names ensures !Names(option, name) {
      assert option == "-f" || option == "-p";
    }
  }

  lemma SplitHasNone(given: string, tail: string, names: seq<string>)
    requires OwnCommand.ScopeName(given) && !Dash(tail) && forall name :: name in names ==> |name| >= 2 && name != "-f" && name != "-p"
    ensures !Has(OwnCommand.TypedSplit(given, tail), names, Kubernetes)
  {
    hide OptionsOf, Names, AllNamespaces, OwnCommand.TypedSplit;
    OptionsOfSplit(given, tail);
    LettersNameNothing(names);
  }

  /** kubectl: `-fAp logs x -p -n work` is given the default namespace beside
      its own. */
  lemma ADefaultBesideATypedNamespace(scope: Scope)
    requires scope.namespace.Some?
    ensures var args := OwnCommand.Typed("-n", "work");
      && NamespaceDefault(args, scope, false) == ["--namespace", scope.namespace.value]
      && Has(args, NAMESPACES, Kubernetes) && !TypedScopeWins(args, scope, false)
  {
    var args := OwnCommand.Typed("-n", "work");
    assert !Dash("work");
    assert NamespaceDefault(args, scope, false) == ["--namespace", scope.namespace.value] by { DefaultIsTaken(scope); }
    hide *;
    NamespaceIsTyped();
    TypedScopeWinsExactly(args, scope, false);
  }

  /** The argv names no scope of its own to `parse`. */
  lemma TypedIsLeftToTheState(given: string, tail: string)
    requires OwnCommand.ScopeName(given) && !Dash(tail)
    ensures Targets(OwnCommand.Typed(given, tail), false) && !NamesNamespace(OwnCommand.Typed(given, tail))
  {
    SplitNamesNothing(given, tail);
    hide *;
    OwnCommand.TypedIsReread(given, tail);
    LeftToTheState(OwnCommand.Typed(given, tail), OwnCommand.TypedSplit(given, tail), "x");
  }

  lemma DefaultIsTaken(scope: Scope)
    requires scope.namespace.Some?
    ensures NamespaceDefault(OwnCommand.Typed("-n", "work"), scope, false) == ["--namespace", scope.namespace.value]
  {
    assert OwnCommand.ScopeName("-n") && !Dash("work");
    hide *;
    TypedIsLeftToTheState("-n", "work");
    DefaultForm(OwnCommand.Typed("-n", "work"), scope);
  }

  lemma SplitNamesNothing(given: string, tail: string)
    requires OwnCommand.ScopeName(given) && !Dash(tail)
    ensures var split := OwnCommand.TypedSplit(given, tail);
      && !Has(split, ["--context", "--kubeconfig"], Kubernetes) && !Has(split, ["--namespace", "-n"], Kubernetes)
      && !AllNamespaces(split, RootGrammar(Kubernetes, "x"), false)
  {
    hide Has, AllNamespaces, OptionsOf, OwnCommand.TypedSplit, RootGrammar;
    OptionsOfSplit(given, tail);
    SplitHasNone(given, tail, ["--context", "--kubeconfig"]);
    SplitHasNone(given, tail, ["--namespace", "-n"]);
  }

  lemma DefaultForm(args: seq<string>, scope: Scope)
    requires scope.namespace.Some? && Targets(args, false) && !NamesNamespace(args)
    ensures NamespaceDefault(args, scope, false) == ["--namespace", scope.namespace.value]
  {
    hide Targets, NamesNamespace;
  }

  /** The argv is left to the state by what is read of its inspection. */
  lemma LeftToTheState(args: seq<string>, split: seq<string>, command: string)
    requires Inspected(args, Kubernetes) == split && Command(args, Kubernetes) == "logs" && Command(split, Kubernetes) == command
    requires !Has(split, ["--context", "--kubeconfig"], Kubernetes) && !Has(split, ["--namespace", "-n"], Kubernetes)
    requires !AllNamespaces(split, RootGrammar(Kubernetes, command), false)
    ensures Targets(args, false) && !NamesNamespace(args)
  {
    hide Has, AllNamespaces, Inspected, Command, CommandPosition, RootGrammar;
  }
}
