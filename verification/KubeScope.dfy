/** kubectl's default context, namespace and kubeconfig against the connection
    that is typed (`parse` and `has` of control/native.rs, `connections` of
    control/native_actions.rs). */
module KubeScope {
  import opened CommandLine
  import opened Common
  import opened Connections
  import opened DockerScope
  import opened ScopeDefaults
  import Inspection
  import opened ListReading
  import OwnCommand

  /** The connection options that an argv's projection picks. */
  function Picked(args: seq<string>): seq<string> {
    Heads(ConnectionsOf(args, Kubernetes, None), VocabularyOf(Kubernetes))
  }

  lemma HeadsOfLast(word: string, v: Vocabulary)
    ensures Heads([word], v) == [word]
  {
    assert [word][1..] == [];
  }

  /** What `connections` picks of a whole argv and what `has` sees of it are the
      same connection options. */
  lemma {:induction false} HeadsAreOptionWords(words: seq<string>, room: nat, v: Vocabulary, g: Grammar)
    requires Compatible(v, g) && room >= |words|
    ensures SameConnectionOptions(Heads(Project(words, room, v, g, false), v), Inspection.OptionWords(words, g), v)
    decreases |words|
  {
    hide ConnectionWord, SameConnectionOptions, Heads, Parts;
    NothingIsSame(v);
    if words != [] && words[0] != "--" {
      var word := words[0];
      ValuesAreConnectionWords(word, v);
      if ConnectionWord(word, v) { ConnectionWordsStandAlone(word, v, g); }
      var taken := if g.takes(word) && |words| > 1 then 2 else 1;
      var later, rest := Project(words[taken..], Less(room, taken), v, g, false), Inspection.OptionWords(words[taken..], g);
      HeadsAreOptionWords(words[taken..], Less(room, taken), v, g);
      OneMoreOption(word, Heads(later, v), rest, v);
      assert [] + rest == rest;
      if v.value(word) && |words| == 1 {
        HeadsOfLast(word, v);
        assert words == [word] && rest == [] && [word] + rest == [word];
        LastIsSame(word, v);
      } else if ConnectionWord(word, v) {
        HeadsOfOne(word, words[..taken], later, v);
        assert words[..1] == [word];
      }
    } else {
      if ConnectionWord("--", v) { ConnectionWordsStandAlone("--", v, g); }
    }
  }

  lemma NothingIsSame(v: Vocabulary)
    ensures Heads([], v) == [] && SameConnectionOptions([], [], v)
    ensures !ConnectionWord("--", v) ==> SameConnectionOptions([], ["--"], v)
  {
  }

  lemma LastIsSame(word: string, v: Vocabulary)
    ensures SameConnectionOptions([word], [word], v)
  {
  }

  predicate KubeNames(names: seq<string>) { forall name :: name in names ==> KubeConnectionValue(name) }

  lemma SameKubeNames(options: seq<string>, others: seq<string>, names: seq<string>)
    requires KubeNames(names) && SameConnectionOptions(options, others, VocabularyOf(Kubernetes))
    ensures NamesOne(options, names) <==> NamesOne(others, names)
  {
    var v := VocabularyOf(Kubernetes);
    ValuesAreOptionNames();
    assert forall name :: name in names ==> v.value(name);
    hide VocabularyOf, Names, KubeNames;
    forall option, name | name in names && Names(option, name) ensures ConnectionWord(option, v) {
      TheMatchIsUnique(option, name, v);
    }
  }

  /** `has`, asked about the argv itself, finds a connection name exactly where
      `connections` picks an option of that name. */
  lemma PickedOptions(args: seq<string>, names: seq<string>)
    requires KubeNames(names)
    ensures Has(args, names, Kubernetes) <==> NamesOne(Picked(args), names)
  {
    hide *;
    var v, g, words := VocabularyOf(Kubernetes), RootGrammar(Kubernetes, Command(args, Kubernetes)), Inspected(args, Kubernetes);
    Inspection.KubectlOptionsAreTheOptionWordsOfInspect(args);
    VocabulariesAreCompatible(Kubernetes, Command(args, Kubernetes));
    HeadsAreOptionWords(words, |words|, v, g);
    KubeConnections(args);
    PickedForm(args);
    SameKubeNames(Picked(args), OptionsOf(args, Kubernetes), names);
    HasIsNamesOne(args, names);
  }

  lemma PickedForm(args: seq<string>)
    ensures Picked(args) == Heads(ConnectionsOf(args, Kubernetes, None), VocabularyOf(Kubernetes))
  {
  }

  lemma HasIsNamesOne(args: seq<string>, names: seq<string>)
    ensures Has(args, names, Kubernetes) <==> NamesOne(OptionsOf(args, Kubernetes), names)
  {
    hide OptionsOf, Names;
  }

  // ----- the defaults against what is typed --------------------------------

  const TARGET_NAMES := ["--context", "--kubeconfig"]
  const CONFIG_NAMES := ["--kubeconfig"]

  lemma NamesOfKube()
    ensures KubeNames(TARGET_NAMES) && KubeNames(CONFIG_NAMES) && KubeNames(NAMESPACES)
  {
    assert KubeConnectionValue("--context") && KubeConnectionValue("--kubeconfig") && KubeConnectionValue("--namespace");
    assert KubeConnectionValue("-n");
    hide KubeConnectionValue;
  }

  /** Whether the state may decide where a command goes. */
  predicate LeftOpen(args: seq<string>, plugin: bool) { Command(args, Kubernetes) != "config" && !plugin }

  /** kubectl, any argv: the state's kubeconfig is put in front exactly when no
      plugin owns the command and the typed connection names none. */
  lemma TypedKubeconfigWins(args: seq<string>, scope: Scope, plugin: bool)
    ensures var config := if plugin || NamesOne(Picked(args), CONFIG_NAMES) then [] else Default("--kubeconfig", scope.kubeconfig);
      KubeDefaults(args, scope, plugin) ==
        (if Targets(args, plugin) then Default("--context", scope.context) else []) + NamespaceDefault(args, scope, plugin) + config
  {
    NamesOfKube();
    PickedOptions(args, CONFIG_NAMES);
    hide Has, Picked, NamesOne, Targets, NamespaceDefault, Default;
  }

  lemma NamesInInspection(args: seq<string>, names: seq<string>)
    requires OwnCommand.ReadAlike(args, Command(args, Kubernetes)) && KubeNames(names)
    ensures Has(Inspected(args, Kubernetes), names, Kubernetes) <==> NamesOne(Picked(args), names)
  {
    hide *;
    HasReadsAlike(args, names);
    PickedOptions(args, names);
  }

  /** Where the words before the command are read alike, so for every command but
      `logs` and `proxy`: the state's context is put in front exactly when the
      typed connection names neither a context nor a kubeconfig, and its
      namespace when it names no namespace either and not all of them are asked
      for. */
  lemma TypedContextWins(args: seq<string>, scope: Scope, plugin: bool)
    requires OwnCommand.ReadAlike(args, Command(args, Kubernetes))
    ensures var open := LeftOpen(args, plugin) && !NamesOne(Picked(args), TARGET_NAMES);
      var inspected := Inspected(args, Kubernetes);
      var all := AllNamespaces(inspected, RootGrammar(Kubernetes, Command(inspected, Kubernetes)), false);
      && (Targets(args, plugin) <==> open)
      && NamespaceDefault(args, scope, plugin) ==
           if open && !NamesOne(Picked(args), NAMESPACES) && !all then Default("--namespace", scope.namespace) else []
  {
    NamesOfKube();
    NamesInInspection(args, TARGET_NAMES);
    NamesInInspection(args, NAMESPACES);
    hide Has, Picked, NamesOne, Inspected, AllNamespaces, Default, Configures, OwnCommand.ReadAlike;
  }

  /** `-fAp logs x -p --context work` is given the state's context beside its
      own. */
  lemma ADefaultBesideATypedContext(scope: Scope)
    requires scope.context.Some?
    ensures var args := OwnCommand.Typed("--context", "work");
      && NamesOne(Picked(args), TARGET_NAMES) && Targets(args, false)
      && ["--context", scope.context.value] <= KubeDefaults(args, scope, false)
  {
    assert OwnCommand.ScopeName("--context") && !Dash("work") && Names("--context", "--context");
    var args := OwnCommand.Typed("--context", "work");
    assert "--context" in TARGET_NAMES;
    NamesOfKube();
    hide *;
    GivenIsTyped("--context", "work");
    OneIsNamed("--context", OptionsOf(args, Kubernetes), TARGET_NAMES);
    HasIsNamesOne(args, TARGET_NAMES);
    PickedOptions(args, TARGET_NAMES);
    TypedIsLeftToTheState("--context", "work");
    ContextIsFirst(args, scope);
  }

  lemma OneIsNamed(name: string, options: seq<string>, names: seq<string>)
    requires name in options && name in names && Names(name, name)
    ensures NamesOne(options, names)
  {
  }

  lemma ContextIsFirst(args: seq<string>, scope: Scope)
    requires Targets(args, false) && scope.context.Some?
    ensures ["--context", scope.context.value] <= KubeDefaults(args, scope, false)
  {
    hide Targets, Has, NamespaceDefault;
  }

  // ----- all namespaces ----------------------------------------------------

  /** What an option word sets `--all-namespaces` to. */
  predicate SetsAll(word: string, value: bool) {
    || ((word == "--all-namespaces" || word == "-A") && value)
    || ("--all-namespaces=" <= word && value == DockerBool(word[17..]))
    || ("-A=" <= word && value == DockerBool(word[3..]))
  }

  /** The settings among the option words, in their order. */
  function AllSettings(options: seq<string>): seq<bool> {
    if options == [] then []
    else
      (if SetsAll(options[0], true) then [true] else if SetsAll(options[0], false) then [false] else []) + AllSettings(options[1..])
  }

  lemma AllWord(word: string)
    ensures !(SetsAll(word, true) && SetsAll(word, false))
    ensures SetsAll(word, true) || SetsAll(word, false) <==>
      word == ALL || word == "-A" || (|word| > |ALL| && word[..|ALL| + 1] == ALL + "=") || (|word| > 2 && word[..3] == "-A=")
    ensures forall value :: SetsAll(word, value) ==>
      value == if word == ALL || word == "-A" then true
               else if |word| > |ALL| && word[..|ALL| + 1] == ALL + "=" then DockerBool(word[|ALL| + 1..])
               else |word| > 2 && DockerBool(word[3..])
    ensures SetsAll(word, true) || SetsAll(word, false) ==> Dash(word) && word != "--"
  {
    assert ALL + "=" == "--all-namespaces=" && |ALL| == 16;
    if "--all-namespaces=" <= word { assert word[..17] == "--all-namespaces=" && word[1] == word[..17][1]; }
    if "-A=" <= word { assert word[..3] == "-A=" && word[1] == word[..3][1]; }
    assert |word| > |ALL| && word[..|ALL| + 1] == ALL + "=" ==> "--all-namespaces=" <= word;
    assert |word| > 2 && word[..3] == "-A=" ==> "-A=" <= word;
  }

  lemma SettingsOneMore(word: string, options: seq<string>, enabled: bool)
    ensures LastOr(AllSettings([word] + options), enabled)
         == LastOr(AllSettings(options), if SetsAll(word, true) then true else if SetsAll(word, false) then false else enabled)
  {
    hide SetsAll;
    assert ([word] + options)[1..] == options;
  }

  /** The scan of the inspected argv comes to what the last option word that is
      one of `--all-namespaces` and `-A` says. */
  lemma {:induction false} TheLastOptionWordDecides(words: seq<string>, g: Grammar, enabled: bool)
    requires WellFormed(g) && !g.takes("--all-namespaces") && !g.takes("-A")
    ensures AllNamespaces(words, g, enabled) == LastOr(AllSettings(Inspection.OptionWords(words, g)), enabled)
    decreases |words|
  {
    NothingIsSet(enabled);
    if words != [] && words[0] != "--" {
      var word := words[0];
      var taken := if g.takes(word) && |words| > 1 then 2 else 1;
      var rest := Inspection.OptionWords(words[taken..], g);
      var now := if g.takes(word) then enabled else if SetsAll(word, true) then true else if SetsAll(word, false) then false else enabled;
      AllWord(word);
      SettingsOneMore(word, rest, enabled);
      if g.takes(word) { TakersSetNothing(word, g); }
      hide SetsAll, WellFormed;
      TheLastOptionWordDecides(words[taken..], g, now);
      assert [] + rest == rest;
    }
  }

  lemma NothingIsSet(enabled: bool)
    ensures LastOr(AllSettings([]), enabled) == enabled && LastOr(AllSettings(["--"]), enabled) == enabled
  {
    assert ["--"][1..] == [];
  }

  lemma SettersWithValue(word: string)
    ensures (SetsAll(word, true) || SetsAll(word, false)) && word != "--all-namespaces" && word != "-A" ==> '=' in word
  {
    if "--all-namespaces=" <= word { assert word[16] == '='; }
    if "-A=" <= word { assert word[2] == '='; }
  }

  lemma TakersSetNothing(word: string, g: Grammar)
    requires WellFormed(g) && g.takes(word) && word != "--all-namespaces" && word != "-A"
    ensures !SetsAll(word, true) && !SetsAll(word, false)
  {
    assert OptionName(word);
    SettersWithValue(word);
    hide SetsAll;
  }

  /** The same for a typed kubectl command, by the command of its inspection. */
  lemma AllNamespacesAreAsked(inspected: seq<string>)
    ensures var g := RootGrammar(Kubernetes, Command(inspected, Kubernetes));
      AllNamespaces(inspected, g, false) == LastOr(AllSettings(Inspection.OptionWords(inspected, g)), false)
  {
    var command := Command(inspected, Kubernetes);
    GrammarsAreWellFormed(Kubernetes, command);
    OwnCommand.ValuelessFlagsTakeNone("-A", command);
    OwnCommand.ValuelessFlagsTakeNone("--all-namespaces", command);
    hide TakesValueIn, CommandPosition, AllNamespaces, AllSettings, Inspection.OptionWords;
    TheLastOptionWordDecides(inspected, RootGrammar(Kubernetes, command), false);
  }
}
