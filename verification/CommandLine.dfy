/** How Hamn reads the argv of docker and kubectl without rewriting it: which
    token is an option, which is a value that an option consumes, and which is
    the command (control/native_flags.rs and command_index of
    control/native.rs). */
module CommandLine {
  import opened Common

  // ----- vocabularies ------------------------------------------------------

  predicate DockerValue(name: string) {
    name == "--context" || name == "-c" || name == "--host" || name == "-H" || name == "--config" ||
    name == "--log-level" || name == "-l" || name == "--tlscacert" || name == "--tlscert" || name == "--tlskey"
  }

  predicate KubeGlobalValue(name: string) {
    name == "--v" || name == "-v" || name == "--vmodule" || name == "--profile" ||
    name == "--profile-output" || name == "--log-flush-frequency"
  }

  predicate KubeConnectionValue(name: string) {
    name == "--context" || name == "--kubeconfig" || name == "--namespace" || name == "-n" ||
    name == "--cluster" || name == "--user" || name == "--server" || name == "-s" || name == "--token" ||
    name == "--certificate-authority" || name == "--client-certificate" || name == "--client-key" ||
    name == "--request-timeout" || name == "--as" || name == "--as-group" || name == "--as-uid" ||
    name == "--as-user-extra" || name == "--cache-dir" || name == "--tls-server-name" ||
    name == "--username" || name == "--password" || name == "--proxy-url" || name == "--kuberc"
  }

  predicate KubeConnectionFlag(name: string) {
    name == "--insecure-skip-tls-verify" || name == "--disable-compression" ||
    name == "--warnings-as-errors" || name == "--match-server-version"
  }

  predicate KubeReadValue(name: string) {
    name == "--selector" || name == "-l" || name == "--field-selector" || name == "--filename" ||
    name == "-f" || name == "--kustomize" || name == "-k" || name == "--sort-by" || name == "--template" ||
    name == "--chunk-size" || name == "--subresource" || name == "--output" || name == "-o" ||
    name == "--label-columns" || name == "-L"
  }

  // The values of kubectl commands, by the first letter of the option.
  predicate KubeValuesA(name: string) {
    name == "--accept-hosts" || name == "--accept-paths" || name == "--address" ||
    name == "--aggregation-rule" || name == "--allowlist-entry" || name == "--annotation" ||
    name == "--annotations" || name == "--api-group" || name == "--api-prefix" || name == "--api-version" ||
    name == "--appendarg" || name == "--audience" || name == "--auth-provider" || name == "--auth-provider-arg"
  }

  predicate KubeValuesBtoC(name: string) {
    name == "--bound-object-kind" || name == "--bound-object-name" || name == "--bound-object-uid" ||
    name == "--categories" || name == "--cert" || name == "--class" || name == "--cluster-ip" ||
    name == "--clusterip" || name == "--clusterrole" || name == "--command" || name == "--concurrency" ||
    name == "--container" || name == "--containers" || name == "--copy-to" || name == "--cpu" ||
    name == "--current-replicas" || name == "--custom"
  }

  predicate KubeValuesD(name: string) {
    name == "--default-backend" || name == "--description" || name == "--detach-keys" ||
    name == "--docker-email" || name == "--docker-password" || name == "--docker-server" ||
    name == "--docker-username" || name == "--duration"
  }

  predicate KubeValuesEtoF(name: string) {
    name == "--env" || name == "--exec-api-version" || name == "--exec-arg" || name == "--exec-command" ||
    name == "--exec-env" || name == "--exec-interactive-mode" || name == "--external-ip" ||
    name == "--external-name" || name == "--field-manager" || name == "--for" || name == "--from" ||
    name == "--from-env-file" || name == "--from-file" || name == "--from-literal"
  }

  predicate KubeValuesGtoK(name: string) {
    name == "--grace-period" || name == "--group" || name == "--hard" || name == "--helm-api-versions" ||
    name == "--helm-command" || name == "--helm-kube-version" || name == "--image" ||
    name == "--image-pull-policy" || name == "--keepalive" || name == "--key" || name == "--keys"
  }

  predicate KubeValuesLtoM(name: string) {
    name == "--labels" || name == "--limit-bytes" || name == "--limits" || name == "--load-balancer-ip" ||
    name == "--load-restrictor" || name == "--max" || name == "--max-depth" || name == "--max-log-requests" ||
    name == "--max-unavailable" || name == "--memory" || name == "--min" || name == "--min-available" ||
    name == "--mount"
  }

  predicate KubeValuesNtoO(name: string) {
    name == "--name" || name == "--namespaces" || name == "--network-name" || name == "--node-port" ||
    name == "--non-resource-url" || name == "--option" || name == "--output-directory" ||
    name == "--override-type" || name == "--overrides"
  }

  predicate KubeValuesP(name: string) {
    name == "--patch" || name == "--patch-file" || name == "--pod-running-timeout" ||
    name == "--pod-selector" || name == "--policy" || name == "--port" || name == "--preemption-policy" ||
    name == "--prefix" || name == "--prependarg" || name == "--protocol" || name == "--prune-allowlist"
  }

  predicate KubeValuesQtoR(name: string) {
    name == "--raw" || name == "--reject-methods" || name == "--reject-paths" || name == "--replicas" ||
    name == "--requests" || name == "--resource" || name == "--resource-name" ||
    name == "--resource-version" || name == "--restart" || name == "--retries" || name == "--revision" ||
    name == "--role" || name == "--rule"
  }

  predicate KubeValuesS(name: string) {
    name == "--schedule" || name == "--scopes" || name == "--section" || name == "--serviceaccount" ||
    name == "--session-affinity" || name == "--set-image" || name == "--since" || name == "--since-time" ||
    name == "--skip-wait-for-delete-timeout"
  }

  predicate KubeValuesTtoZ(name: string) {
    name == "--tail" || name == "--target" || name == "--target-port" || name == "--tcp" ||
    name == "--timeout" || name == "--to-revision" || name == "--type" || name == "--types" ||
    name == "--unix-socket" || name == "--value" || name == "--verb" || name == "--verbs" || name == "--www" ||
    name == "--www-prefix"
  }

  predicate KubeValuesShort(name: string) {
    name == "-P" || name == "-c" || name == "-e" || name == "-p" || name == "-r" || name == "-u"
  }

  predicate KubeCommandValue(name: string) {
    KubeValuesA(name) || KubeValuesBtoC(name) || KubeValuesD(name) || KubeValuesEtoF(name) ||
    KubeValuesGtoK(name) || KubeValuesLtoM(name) || KubeValuesNtoO(name) || KubeValuesP(name) ||
    KubeValuesQtoR(name) || KubeValuesS(name) || KubeValuesTtoZ(name) || KubeValuesShort(name)
  }

  predicate DockerQueryValue(name: string) {
    name == "--filter" || name == "-f" || name == "--last" || name == "-n" || name == "--format"
  }

  predicate TakesValueIn(name: string, workspace: Workspace, command: string) {
    if workspace.Containers? then DockerValue(name)
    else if (command == "logs" && name in {"-f", "-p", "--prefix"}) ||
            (command == "run" && name == "--command") || (command == "top" && name == "--containers") ||
            (command == "config" && name == "--raw") then false
    else if name == "-w" then command == "proxy"
    else KubeConnectionValue(name) || KubeCommandValue(name) || KubeGlobalValue(name) || KubeReadValue(name)
  }

  // ----- grammars ----------------------------------------------------------

  /** What a scanner needs to know about a command line: the options that take
      a value, the short flags that may be grouped, and whether options end at
      the first operand (docker's root options do, kubectl's do not). */
  datatype Grammar = Grammar(takes: string -> bool, flags: string, endsAtOperand: bool)

  function RootGrammar(workspace: Workspace, command: string): Grammar {
    Grammar(name => TakesValueIn(name, workspace, command),
            if workspace.Containers? then "Dvh" else "ARfhipqtw",
            workspace.Containers?)
  }

  function QueryGrammar(): Grammar {
    Grammar(name => DockerQueryValue(name), "aslqh", false)
  }

  /** The texts that docker and Hamn read as true (`docker_bool`). */
  predicate DockerBool(value: string) {
    value == "1" || value == "t" || value == "T" || value == "true" || value == "TRUE" || value == "True"
  }

  predicate Dash(word: string) { |word| > 0 && word[0] == '-' }

  predicate Long(word: string) { |word| >= 2 && word[0] == '-' && word[1] == '-' }

  /** The shape of an option's name: `-x` or `--name`, never `--` itself and
      never with an inline value. */
  predicate OptionName(name: string) {
    && |name| >= 2 && name[0] == '-' && '=' !in name
    && (if name[1] == '-' then |name| > 2 else |name| == 2)
  }

  /** How the four connection flags begin; no value option does. */
  predicate BeginsLikeFlag(name: string) {
    && |name| >= 20
    && ((name[2] == 'i' && name[3] == 'n' && name[4] == 's') || (name[2] == 'd' && name[3] == 'i' && name[4] == 's') ||
        (name[2] == 'w' && name[3] == 'a' && name[4] == 'r') || (name[2] == 'm' && name[3] == 'a' && name[4] == 't'))
  }

  /** Every vocabulary names options only, and `-` is not a short flag. */
  ghost predicate WellFormed(g: Grammar) {
    && (forall name :: g.takes(name) ==> OptionName(name))
    && '-' !in g.flags
  }

  lemma DockerVocabularyNamesOptions(name: string)
    ensures DockerValue(name) ==> OptionName(name)
  {}

  lemma GlobalVocabularyNamesOptions(name: string)
    ensures KubeGlobalValue(name) ==> OptionName(name) && !BeginsLikeFlag(name)
  {}

  lemma ConnectionFlagsAreOptions(name: string)
    ensures KubeConnectionFlag(name) ==> OptionName(name) && name[1] == '-' && BeginsLikeFlag(name)
  {}

  lemma ReadVocabularyNamesOptions(name: string)
    ensures KubeReadValue(name) ==> OptionName(name) && !BeginsLikeFlag(name)
  {}

  lemma QueryVocabularyNamesOptions(name: string)
    ensures DockerQueryValue(name) ==> OptionName(name)
  {}

  lemma ConnectionVocabularyNamesOptions(name: string)
    ensures KubeConnectionValue(name) ==> OptionName(name)
  {}

  lemma ConnectionValuesAreNoFlags(name: string)
    ensures KubeConnectionValue(name) ==> !BeginsLikeFlag(name)
  {}

  lemma ValuesANameOptions(name: string) ensures KubeValuesA(name) ==> OptionName(name) && !BeginsLikeFlag(name) {}

  lemma ValuesBtoCNameOptions(name: string) ensures KubeValuesBtoC(name) ==> OptionName(name) && !BeginsLikeFlag(name) {}

  lemma ValuesDNameOptions(name: string) ensures KubeValuesD(name) ==> OptionName(name) && !BeginsLikeFlag(name) {}

  lemma ValuesEtoFNameOptions(name: string) ensures KubeValuesEtoF(name) ==> OptionName(name) && !BeginsLikeFlag(name) {}

  lemma ValuesGtoKNameOptions(name: string) ensures KubeValuesGtoK(name) ==> OptionName(name) && !BeginsLikeFlag(name) {}

  lemma ValuesLtoMNameOptions(name: string) ensures KubeValuesLtoM(name) ==> OptionName(name) && !BeginsLikeFlag(name) {}

  lemma ValuesNtoONameOptions(name: string) ensures KubeValuesNtoO(name) ==> OptionName(name) && !BeginsLikeFlag(name) {}

  lemma ValuesPNameOptions(name: string) ensures KubeValuesP(name) ==> OptionName(name) && !BeginsLikeFlag(name) {}

  lemma ValuesQtoRNameOptions(name: string) ensures KubeValuesQtoR(name) ==> OptionName(name) && !BeginsLikeFlag(name) {}

  lemma ValuesSNameOptions(name: string) ensures KubeValuesS(name) ==> OptionName(name) && !BeginsLikeFlag(name) {}

  lemma ValuesTtoZNameOptions(name: string) ensures KubeValuesTtoZ(name) ==> OptionName(name) && !BeginsLikeFlag(name) {}

  lemma ValuesShortNameOptions(name: string) ensures KubeValuesShort(name) ==> OptionName(name) && !BeginsLikeFlag(name) {}

  lemma CommandVocabularyNamesOptions(name: string)
    ensures KubeCommandValue(name) ==> OptionName(name) && !BeginsLikeFlag(name)
  {
    ValuesANameOptions(name);
    ValuesBtoCNameOptions(name);
    ValuesDNameOptions(name);
    ValuesEtoFNameOptions(name);
    ValuesGtoKNameOptions(name);
    ValuesLtoMNameOptions(name);
    ValuesNtoONameOptions(name);
    ValuesPNameOptions(name);
    ValuesQtoRNameOptions(name);
    ValuesSNameOptions(name);
    ValuesTtoZNameOptions(name);
    ValuesShortNameOptions(name);
  }

  lemma GrammarsAreWellFormed(workspace: Workspace, command: string)
    ensures WellFormed(RootGrammar(workspace, command)) && WellFormed(QueryGrammar())
  {
    hide DockerValue, KubeGlobalValue, KubeConnectionValue, KubeReadValue, KubeCommandValue, DockerQueryValue;
    forall name ensures TakesValueIn(name, workspace, command) ==> OptionName(name) {
      DockerVocabularyNamesOptions(name);
      GlobalVocabularyNamesOptions(name);
      ReadVocabularyNamesOptions(name);
      ConnectionVocabularyNamesOptions(name);
      CommandVocabularyNamesOptions(name);
    }
    forall name ensures DockerQueryValue(name) ==> OptionName(name) {
      QueryVocabularyNamesOptions(name);
    }
  }

  // ----- groups of short flags ---------------------------------------------

  /** Splits the flags of a group (the word after its `-`): a value option
      takes the rest of the word, an unknown flag leaves the word whole. */
  function SplitFlags(flags: string, g: Grammar): (parts: Option<seq<string>>)
    ensures parts.Some? && flags != "" ==> parts.value != []
  {
    if flags == "" then Some([])
    else
      var name := ['-', flags[0]];
      var rest := flags[1..];
      if g.takes(name) then Some([name + rest])
      else if flags[0] !in g.flags then None
      else if rest != "" && rest[0] == '=' then Some([name + rest])
      else match SplitFlags(rest, g)
        case None => None
        case Some(parts) => Some([name] + parts)
  }

  function ShortOptions(word: string, g: Grammar): (parts: Option<seq<string>>)
    ensures parts.Some? ==> parts.value != []
  {
    if |word| < 2 || word[0] != '-' || word[1] == '-' then None else SplitFlags(word[1..], g)
  }

  /** The words that a scanner sees in place of `word`. */
  function Parts(word: string, g: Grammar): (parts: seq<string>)
    ensures parts != []
  {
    match ShortOptions(word, g) case None => [word] case Some(parts) => parts
  }

  function Last<T>(s: seq<T>): T requires s != [] { s[|s| - 1] }

  /** Whether `word`, read as an option, takes the next word as its value. */
  predicate Consumes(word: string, g: Grammar) { g.takes(Last(Parts(word, g))) }

  method SplitShortGroup(word: string, g: Grammar) returns (result: Option<seq<string>>)
    ensures result == ShortOptions(word, g)
  {
    if |word| < 2 || word[0] != '-' || word[1] == '-' { return None; }
    var parts: seq<string> := [];
    var offset := 1;
    assert forall more: seq<string> :: parts + more == more;
    while offset < |word|
      invariant 1 <= offset <= |word|
      invariant ShortOptions(word, g) ==
                match SplitFlags(word[offset..], g) case None => None case Some(more) => Some(parts + more)
    {
      var name := ['-', word[offset]];
      var rest := word[offset + 1..];
      assert word[offset..][1..] == rest && word[offset..][0] == word[offset];
      if g.takes(name) { return Some(parts + [name + rest]); }
      if word[offset] !in g.flags { return None; }
      if rest != "" && rest[0] == '=' { return Some(parts + [name + rest]); }
      assert forall more: seq<string> :: parts + ([name] + more) == (parts + [name]) + more;
      parts := parts + [name];
      offset := offset + 1;
    }
    assert word[offset..] == "";
    assert parts + [] == parts;
    return Some(parts);
  }

  // ----- the command -------------------------------------------------------

  predicate RootValue(name: string, workspace: Workspace) {
    if workspace.Containers? then DockerValue(name) else KubeConnectionValue(name) || KubeGlobalValue(name)
  }

  /** A value option of two characters with its value in the same word. */
  predicate InlineRootValue(word: string, workspace: Workspace) {
    && |word| > 2
    && (if workspace.Containers? then DockerValue(word[..2]) else KubeConnectionValue(word[..2]))
  }

  predicate BareRootFlag(word: string) {
    word == "--debug" || word == "-D" || word == "--tls" || word == "--tlsverify" || KubeConnectionFlag(word)
  }

  /** How many words an option before the command takes; 0 for a word whose
      arity is unknown, behind which no command is looked for. */
  function Advance(word: string, workspace: Workspace): (words: nat)
    ensures words <= 2
  {
    if RootValue(word, workspace) then 2
    else if '=' in word || InlineRootValue(word, workspace) || BareRootFlag(word) then 1
    else
      match ShortOptions(word, RootGrammar(workspace, "get"))
      case None => 0
      case Some(parts) => if TakesValueIn(Last(parts), workspace, "get") then 2 else 1
  }

  function Shifted(index: Option<nat>, offset: nat): Option<nat> {
    match index case None => None case Some(i) => Some(i + offset)
  }

  /** The position of the command: the first operand, unless an option of
      unknown arity comes before it. */
  function CommandPosition(args: seq<string>, workspace: Workspace): (index: Option<nat>)
    ensures index.Some? ==> index.value < |args| && !Dash(args[index.value])
  {
    if args == [] then None
    else if !Dash(args[0]) then Some(0)
    else
      var step := Advance(args[0], workspace);
      if step == 0 || step > |args| then None
      else Shifted(CommandPosition(args[step..], workspace), step)
  }

  method CommandIndex(args: seq<string>, workspace: Workspace) returns (index: Option<nat>)
    ensures index == CommandPosition(args, workspace)
  {
    hide Advance;
    var i: nat, rest := 0, args;
    while rest != []
      invariant CommandPosition(args, workspace) == Shifted(CommandPosition(rest, workspace), i)
      decreases |rest|
    {
      if !Dash(rest[0]) { return Some(i); }
      var step := Advance(rest[0], workspace);
      if step == 0 || step > |rest| { return None; }
      i, rest := i + step, rest[step..];
    }
    return None;
  }

  function Command(args: seq<string>, workspace: Workspace): string {
    match CommandPosition(args, workspace) case None => "" case Some(i) => args[i]
  }

  function CommandBoundary(args: seq<string>, workspace: Workspace): nat {
    match CommandPosition(args, workspace) case None => |args| case Some(i) => i
  }

  /** `inspect` and `options` of an argv: both read it by its own command. */
  function Inspected(args: seq<string>, workspace: Workspace): seq<string> {
    InspectWith(args, RootGrammar(workspace, Command(args, workspace)))
  }

  function OptionsOf(args: seq<string>, workspace: Workspace): seq<string> {
    var g := RootGrammar(workspace, Command(args, workspace));
    OptionsWith(args, CommandBoundary(args, workspace), g, if workspace.Containers? then QueryGrammar() else g)
  }

  // ----- inspection --------------------------------------------------------

  /** Whether everything from this word on is copied as it is. */
  predicate EndsOptions(word: string, g: Grammar) {
    word == "--" || (g.endsAtOperand && !Dash(word))
  }

  /** The argv with its groups of short flags split, one word per option;
      consumed values are never split. */
  function InspectWith(args: seq<string>, g: Grammar): seq<string> {
    if args == [] || EndsOptions(args[0], g) then args
    else if Consumes(args[0], g) && |args| > 1 then
      Parts(args[0], g) + [args[1]] + InspectWith(args[2..], g)
    else Parts(args[0], g) + InspectWith(args[1..], g)
  }

  function Earlier(n: nat): nat { if n > 0 then n - 1 else 0 }

  /** The option words that a scanner sees, up to and including the first `--`
      that is not a value. The first `before` words are read by `g`, the
      others by `query`. */
  function OptionsWith(args: seq<string>, before: nat, g: Grammar, query: Grammar): seq<string> {
    if args == [] then []
    else if args[0] == "--" then ["--"]
    else if !Dash(args[0]) then OptionsWith(args[1..], Earlier(before), g, query)
    else
      var here := if before == 0 then query else g;
      if Consumes(args[0], here) && |args| > 1 then
        Parts(args[0], here) + OptionsWith(args[2..], Earlier(Earlier(before)), g, query)
      else Parts(args[0], here) + OptionsWith(args[1..], Earlier(before), g, query)
  }

  method Inspect(args: seq<string>, g: Grammar) returns (result: seq<string>)
    ensures result == InspectWith(args, g)
  {
    hide SplitFlags, ShortOptions;
    result := [];
    var rest := args;
    while rest != []
      invariant result + InspectWith(rest, g) == InspectWith(args, g)
      decreases |rest|
    {
      var arg, was := rest[0], rest;
      rest := rest[1..];
      if EndsOptions(arg, g) {
        return result + [arg] + rest;
      }
      var group := SplitShortGroup(arg, g);
      var parts := if group.Some? then group.value else [arg];
      var consumed := [];
      if g.takes(Last(parts)) && rest != [] {
        consumed, rest := [rest[0]], rest[1..];
        assert rest == was[2..];
      }
      Associate(result, parts + consumed, InspectWith(rest, g));
      assert consumed == [] ==> parts + consumed == parts;
      result := result + (parts + consumed);
    }
    assert result + [] == result;
  }

  method Options(args: seq<string>, boundary: nat, g: Grammar, query: Grammar) returns (options: seq<string>)
    ensures options == OptionsWith(args, boundary, g, query)
  {
    hide SplitFlags, ShortOptions;
    options := [];
    var before, rest := boundary, args;
    while rest != []
      invariant options + OptionsWith(rest, before, g, query) == OptionsWith(args, boundary, g, query)
      decreases |rest|
    {
      var arg, was := rest[0], rest;
      var here := if before == 0 then query else g;
      rest, before := rest[1..], Earlier(before);
      if arg == "--" {
        return options + ["--"];
      }
      if !Dash(arg) { continue; }
      var group := SplitShortGroup(arg, here);
      var parts := if group.Some? then group.value else [arg];
      if here.takes(Last(parts)) && rest != [] {
        rest, before := rest[1..], Earlier(before);
        assert rest == was[2..];
      }
      Associate(options, parts, OptionsWith(rest, before, g, query));
      options := options + parts;
    }
    assert options + [] == options;
  }
}
