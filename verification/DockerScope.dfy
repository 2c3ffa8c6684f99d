/** Docker's default target against the connection that is typed: `parse` and
    `has` of control/native.rs read the words before the command, `connections`
    of control/native_actions.rs projects them. */
module DockerScope {
  import opened CommandLine
  import opened Common
  import opened Connections
  import opened Inspection
  import OwnCommand
  import ScopeDefaults

  /** docker's options before a command are the same for every command. */
  function Root(): Grammar { RootGrammar(Containers, "") }

  // ----- the words before the command --------------------------------------

  lemma RootIsWellFormed()
    ensures WellFormed(Root()) && Root().endsAtOperand && '=' !in Root().flags
    ensures forall name :: Root().takes(name) <==> RootValue(name, Containers)
  {
    GrammarsAreWellFormed(Containers, "");
    hide DockerValue;
  }

  lemma SplitIsNoRootWord(word: string)
    requires ShortOptions(word, Root()).Some? && Parts(word, Root()) != [word]
    ensures !RootValue(word, Containers) && !InlineRootValue(word, Containers) && !BareRootFlag(word)
  {
    RootIsWellFormed();
    hide DockerValue;
    OwnCommand.SplitIsNoTaker(word, Root());
    if BareRootFlag(word) { OwnCommand.BareFlagIsWhole(word, Root()); }
  }

  lemma AdvanceOverGroup(word: string)
    requires ShortOptions(word, Root()).Some?
    requires !RootValue(word, Containers) && !InlineRootValue(word, Containers) && !BareRootFlag(word)
    ensures Advance(word, Containers) == if '=' !in word && Consumes(word, Root()) then 2 else 1
  {
    hide DockerValue, BareRootFlag, InlineRootValue;
    SameSplit(word[1..], Root(), RootGrammar(Containers, "get"));
  }

  /** Where docker's command is looked for, an option takes the words that the
      scanners give it. */
  lemma AdvanceIsConsumption(word: string)
    requires Dash(word) && Advance(word, Containers) != 0
    ensures word != "--" && Advance(word, Containers) == if Consumes(word, Root()) then 2 else 1
  {
    if Parts(word, Root()) == [word] {
      DockerStep(word, "");
    } else {
      hide *;
      RootIsWellFormed();
      SplitHasGroup(word);
      SplitIsNoRootWord(word);
      AdvanceOverGroup(word);
      if '=' in word { OwnCommand.EqualsIsNotConsumed(word, Root()); }
    }
  }

  lemma SplitHasGroup(word: string)
    requires Parts(word, Root()) != [word]
    ensures ShortOptions(word, Root()).Some? && word != "--"
  {
  }

  /** A word before the command that is read by itself. */
  predicate Piece(part: string) {
    && Dash(part) && part != "--" && Parts(part, Root()) == [part]
    && Advance(part, Containers) == if Root().takes(part) then 2 else 1
  }

  lemma PiecesOfOption(word: string)
    requires Dash(word) && Advance(word, Containers) != 0
    ensures var parts := Parts(word, Root());
      && (forall i :: 0 <= i < |parts| ==> Piece(parts[i]))
      && (forall i :: 0 <= i < |parts| - 1 ==> !Root().takes(parts[i]))
  {
    var parts := Parts(word, Root());
    RootIsWellFormed();
    AdvanceIsConsumption(word);
    PartsOfWord(word, Root());
    hide DockerValue, SplitFlags, Advance, Parts, ShortOptions;
    forall i | 0 <= i < |parts| ensures Piece(parts[i]) {
      assert parts[i] in parts;
      if parts != [word] { PieceOfGroup(word, i); }
    }
  }

  lemma PieceOfGroup(word: string, i: nat)
    requires Parts(word, Root()) != [word] && i < |Parts(word, Root())|
    ensures Piece(Parts(word, Root())[i])
  {
    RootIsWellFormed();
    SplitHasGroup(word);
    FlagsSplitIntoPieces(word[1..], Root());
    var part := Parts(word, Root())[i];
    assert ShortPiece(part, Root()) && part[1..] != "";
    PieceAdvances(part);
  }

  lemma PieceAdvances(part: string)
    requires ShortOptions(part, Root()) == Some([part])
    ensures Advance(part, Containers) == if Root().takes(part) then 2 else 1
  {
    hide DockerValue, BareRootFlag;
    SameSplit(part[1..], Root(), RootGrammar(Containers, "get"));
  }

  /** The pieces of one option, in front of a command. */
  lemma {:induction false} CommandBehindPieces(parts: seq<string>, rest: seq<string>)
    requires parts != [] && forall i :: 0 <= i < |parts| ==> Piece(parts[i])
    requires forall i :: 0 <= i < |parts| - 1 ==> !Root().takes(parts[i])
    ensures !Root().takes(Last(parts)) ==>
      CommandPosition(parts + rest, Containers) == Shifted(CommandPosition(rest, Containers), |parts|)
    ensures Root().takes(Last(parts)) && rest != [] ==>
      CommandPosition(parts + rest, Containers) == Shifted(CommandPosition(rest[1..], Containers), |parts| + 1)
  {
    hide Advance, CommandPosition, Root;
    var all, more := parts + rest, parts[1..];
    assert Piece(parts[0]);
    assert all[0] == parts[0] && all[1..] == more + rest;
    ScopeDefaults.CommandStep(all, Containers);
    if more == [] {
      assert more + rest == rest && Last(parts) == parts[0];
      if rest != [] { assert all[2..] == rest[1..]; }
    } else {
      CommandBehindPieces(more, rest);
      assert Last(more) == Last(parts);
    }
  }

  lemma OptionStep(word: string, rest: seq<string>, n: nat, query: Grammar)
    requires Piece(word)
    ensures !Root().takes(word) ==>
      OptionsWith([word] + rest, 1 + n, Root(), query) == [word] + OptionsWith(rest, n, Root(), query)
    ensures Root().takes(word) && rest != [] ==>
      OptionsWith([word] + rest, 2 + n, Root(), query) == [word] + OptionsWith(rest[1..], n, Root(), query)
  {
    hide Root, Parts, Advance;
    var all := [word] + rest;
    assert all[1..] == rest;
    if rest != [] { assert all[2..] == rest[1..]; }
  }

  /** They are options one by one. */
  lemma {:induction false} OptionsBehindPieces(parts: seq<string>, rest: seq<string>, n: nat, query: Grammar)
    requires parts != [] && forall i :: 0 <= i < |parts| ==> Piece(parts[i])
    requires forall i :: 0 <= i < |parts| - 1 ==> !Root().takes(parts[i])
    ensures !Root().takes(Last(parts)) ==>
      OptionsWith(parts + rest, |parts| + n, Root(), query) == parts + OptionsWith(rest, n, Root(), query)
    ensures Root().takes(Last(parts)) && rest != [] ==>
      OptionsWith(parts + rest, |parts| + 1 + n, Root(), query) == parts + OptionsWith(rest[1..], n, Root(), query)
  {
    hide Root, Piece, OptionsWith;
    var more := parts[1..];
    assert parts == [parts[0]] + more && parts + rest == [parts[0]] + (more + rest);
    if more == [] {
      assert more + rest == rest && Last(parts) == parts[0];
      OptionStep(parts[0], rest, n, query);
    } else {
      assert Last(more) == Last(parts);
      OptionsBehindPieces(more, rest, n, query);
      if !Root().takes(Last(parts)) {
        OptionStep(parts[0], more + rest, |more| + n, query);
        Associate([parts[0]], more, OptionsWith(rest, n, Root(), query));
      } else if rest != [] {
        OptionStep(parts[0], more + rest, |more| + 1 + n, query);
        Associate([parts[0]], more, OptionsWith(rest[1..], n, Root(), query));
      }
    }
  }

  // ----- one reading -------------------------------------------------------

  lemma InspectionByRoot(args: seq<string>)
    ensures Inspected(args, Containers) == InspectWith(args, Root())
  {
    var g := RootGrammar(Containers, Command(args, Containers));
    assert OwnCommand.SameReading(g, Root()) by { hide DockerValue; }
    hide *;
    OwnCommand.SameInspection(args, g, Root());
    InspectedForm(args);
  }

  lemma InspectedForm(args: seq<string>)
    ensures Inspected(args, Containers) == InspectWith(args, RootGrammar(Containers, Command(args, Containers)))
  {
    hide InspectWith, RootGrammar, Command;
  }

  /** The words before the command. */
  function Leads(args: seq<string>): seq<string> { args[..CommandBoundary(args, Containers)] }

  function LeadingOptions(args: seq<string>): seq<string> {
    OptionsWith(Leads(args), |Leads(args)|, Root(), QueryGrammar())
  }

  lemma LeadsStep(args: seq<string>)
    requires args != [] && CommandPosition(args, Containers).Some?
    ensures !Dash(args[0]) ==> CommandPosition(args, Containers) == Some(0) && Leads(args) == []
    ensures Dash(args[0]) ==>
      var step := Advance(args[0], Containers);
      && 0 < step <= |args| && CommandPosition(args[step..], Containers).Some?
      && CommandPosition(args, Containers) == Shifted(CommandPosition(args[step..], Containers), step)
      && Leads(args) == args[..step] + Leads(args[step..])
  {
    hide Advance;
    if Dash(args[0]) {
      var step := Advance(args[0], Containers);
      var i := CommandPosition(args[step..], Containers).value;
      assert args[..i + step] == args[..step] + args[step..][..i];
    }
  }

  lemma LeadingStep(args: seq<string>)
    requires args != [] && CommandPosition(args, Containers).Some? && Dash(args[0])
    ensures var step := Advance(args[0], Containers);
      0 < step <= |args| && LeadingOptions(args) == Parts(args[0], Root()) + LeadingOptions(args[step..])
  {
    hide Advance, CommandPosition, Parts, Root, Consumes, Leads;
    LeadsStep(args);
    AdvanceIsConsumption(args[0]);
    var step := Advance(args[0], Containers);
    var later := Leads(args[step..]);
    assert (args[..step] + later)[step..] == later;
  }

  lemma LeadsOf(args: seq<string>, i: nat)
    requires CommandPosition(args, Containers) == Some(i)
    ensures i <= |args| && Leads(args) == args[..i]
  {
    hide CommandPosition;
  }

  lemma LeadingPieces(parts: seq<string>, rest: seq<string>)
    requires parts != [] && CommandPosition(rest, Containers).Some? && !Root().takes(Last(parts))
    requires forall i :: 0 <= i < |parts| ==> Piece(parts[i])
    requires forall i :: 0 <= i < |parts| - 1 ==> !Root().takes(parts[i])
    ensures CommandPosition(parts + rest, Containers).Some?
    ensures LeadingOptions(parts + rest) == parts + LeadingOptions(rest)
  {
    hide CommandPosition, OptionsWith, Root, Piece, Leads;
    var i := CommandPosition(rest, Containers).value;
    CommandBehindPieces(parts, rest);
    LeadsOf(rest, i);
    LeadsOf(parts + rest, i + |parts|);
    assert (parts + rest)[..i + |parts|] == parts + rest[..i];
    OptionsBehindPieces(parts, rest[..i], i, QueryGrammar());
  }

  lemma LeadingPiecesWithValue(parts: seq<string>, value: string, rest: seq<string>)
    requires parts != [] && CommandPosition(rest, Containers).Some? && Root().takes(Last(parts))
    requires forall i :: 0 <= i < |parts| ==> Piece(parts[i])
    requires forall i :: 0 <= i < |parts| - 1 ==> !Root().takes(parts[i])
    ensures CommandPosition(parts + ([value] + rest), Containers).Some?
    ensures LeadingOptions(parts + ([value] + rest)) == parts + LeadingOptions(rest)
  {
    hide CommandPosition, OptionsWith, Root, Piece, Leads;
    var i, all := CommandPosition(rest, Containers).value, parts + ([value] + rest);
    assert ([value] + rest)[1..] == rest && ([value] + rest[..i])[1..] == rest[..i];
    CommandBehindPieces(parts, [value] + rest);
    LeadsOf(rest, i);
    LeadsOf(all, i + (|parts| + 1));
    assert all[..i + (|parts| + 1)] == parts + ([value] + rest[..i]);
    OptionsBehindPieces(parts, [value] + rest[..i], i, QueryGrammar());
  }

  lemma OptionIsInspected(args: seq<string>)
    requires args != [] && Dash(args[0]) && args[0] != "--"
    ensures var parts := Parts(args[0], Root());
      InspectWith(args, Root()) ==
        if Consumes(args[0], Root()) && |args| > 1 then parts + ([args[1]] + InspectWith(args[2..], Root()))
        else parts + InspectWith(args[1..], Root())
  {
    assert !EndsOptions(args[0], Root());
    hide Root;
    OwnCommand.InspectOption(args, Root());
  }

  /** Splitting the groups before the command leaves the command, and the
      options before it, where they are. */
  lemma {:induction false} InspectionKeepsLeads(args: seq<string>)
    requires CommandPosition(args, Containers).Some?
    ensures CommandPosition(InspectWith(args, Root()), Containers).Some?
    ensures LeadingOptions(InspectWith(args, Root())) == LeadingOptions(args)
    decreases |args|
  {
    hide Advance, CommandPosition, LeadingOptions, InspectWith, Parts, Root, Piece;
    LeadsStep(args);
    if !Dash(args[0]) {
      CommandEndsInspection(args);
    } else {
      var step := Advance(args[0], Containers);
      InspectionKeepsLeads(args[step..]);
      LeadingStep(args);
      AdvanceIsConsumption(args[0]);
      PiecesOfOption(args[0]);
      OptionIsInspected(args);
      var parts, rest := Parts(args[0], Root()), InspectWith(args[step..], Root());
      if step == 2 { LeadingPiecesWithValue(parts, args[1], rest); } else { LeadingPieces(parts, rest); }
    }
  }

  lemma CommandEndsInspection(args: seq<string>)
    requires args != [] && !Dash(args[0])
    ensures InspectWith(args, Root()) == args
  {
    RootIsWellFormed();
  }

  lemma {:induction false} LeadsHaveNoCommand(args: seq<string>)
    requires CommandPosition(args, Containers).Some?
    ensures CommandPosition(Leads(args), Containers) == None
    decreases |args|
  {
    hide Advance, CommandPosition, Leads;
    LeadsStep(args);
    if !Dash(args[0]) {
      NoCommandInNothing();
    } else {
      var step := Advance(args[0], Containers);
      LeadsHaveNoCommand(args[step..]);
      var leads := args[..step] + Leads(args[step..]);
      assert leads[step..] == Leads(args[step..]);
      ScopeDefaults.CommandStep(leads, Containers);
    }
  }

  lemma NoCommandInNothing()
    ensures CommandPosition([], Containers) == None
  {
  }

  /** `has`, asked about the words before the command. */
  lemma OptionsOfLeads(args: seq<string>)
    requires CommandPosition(args, Containers).Some?
    ensures OptionsOf(Leads(args), Containers) == LeadingOptions(args)
  {
    hide CommandPosition, Leads, OptionsWith, QueryGrammar, RootGrammar;
    LeadsHaveNoCommand(args);
  }

  // ----- the projection ----------------------------------------------------

  /** The options of a connection, without their values. */
  function Heads(list: seq<string>, v: Vocabulary): seq<string> {
    if list == [] then []
    else [list[0]] + Heads(list[if v.value(list[0]) && |list| > 1 then 2 else 1..], v)
  }

  ghost predicate SameConnectionOptions(options: seq<string>, others: seq<string>, v: Vocabulary) {
    forall option :: ConnectionWord(option, v) ==> (option in options <==> option in others)
  }

  lemma OneMoreOption(word: string, options: seq<string>, others: seq<string>, v: Vocabulary)
    requires SameConnectionOptions(options, others, v)
    ensures SameConnectionOptions([word] + options, [word] + others, v)
    ensures !ConnectionWord(word, v) ==> SameConnectionOptions(options, [word] + others, v)
  {
    hide ConnectionWord;
  }

  lemma HeadsOfOne(word: string, taken: seq<string>, rest: seq<string>, v: Vocabulary)
    requires if v.value(word) then |taken| == 2 else |taken| == 1
    requires taken[0] == word
    ensures Heads(taken + rest, v) == [word] + Heads(rest, v)
  {
    assert (taken + rest)[|taken|..] == rest;
  }

  /** What `connections` picks and what `has` sees before the command are the
      same connection options. */
  lemma {:induction false} HeadsAreLeadingOptions(words: seq<string>, v: Vocabulary, g: Grammar)
    requires CommandPosition(words, Containers).Some? && Settled(words, Root())
    requires Compatible(v, g) && forall name :: g.takes(name) <==> Root().takes(name)
    ensures SameConnectionOptions(
      Heads(Project(words, CommandPosition(words, Containers).value, v, g, false), v), LeadingOptions(words), v)
    decreases |words|
  {
    hide Advance, CommandPosition, Leads, OptionsWith, Parts, Root, ConnectionWord;
    LeadsStep(words);
    if Dash(words[0]) {
      var word, step, i := words[0], Advance(words[0], Containers), CommandPosition(words, Containers).value;
      AdvanceIsConsumption(word);
      assert Parts(word, Root()) == [word];
      LeadingStep(words);
      HeadsAreLeadingOptions(words[step..], v, g);
      var later := Project(words[step..], i - step, v, g, false);
      OneMoreOption(word, Heads(later, v), LeadingOptions(words[step..]), v);
      if ConnectionWord(word, v) {
        ConnectionWordsStandAlone(word, v, g);
        HeadsOfOne(word, words[..step], later, v);
        assert Project(words, i, v, g, false) == words[..step] + later;
      } else {
        ScopeDefaults.ValuesAreConnectionWords(word, v);
        assert Project(words, i, v, g, false) == later;
      }
    } else {
      NothingLeads(v);
    }
  }

  lemma NothingLeads(v: Vocabulary)
    ensures OptionsWith([], 0, Root(), QueryGrammar()) == [] && Heads([], v) == []
  {
  }

  // ----- the default against what is typed ---------------------------------

  predicate NamesOne(options: seq<string>, names: seq<string>) {
    exists option :: option in options && exists name :: name in names && Names(option, name)
  }

  /** The connection options that an argv's projection picks. */
  function Typed(args: seq<string>): seq<string> {
    Heads(ConnectionsOf(args, Containers, None), VocabularyOf(Containers))
  }

  predicate ConnectionNames(names: seq<string>) { forall name :: name in names ==> DockerConnectionValue(name) }

  lemma SameNames(options: seq<string>, others: seq<string>, names: seq<string>)
    requires ConnectionNames(names) && SameConnectionOptions(options, others, VocabularyOf(Containers))
    ensures NamesOne(options, names) <==> NamesOne(others, names)
  {
    var v := VocabularyOf(Containers);
    VocabulariesAreCompatible(Containers, "");
    forall name ensures v.value(name) ==> OptionName(name) { assert v.value(name) ==> Root().takes(name); }
    assert forall name :: name in names ==> v.value(name);
    hide VocabularyOf, Root, Names, ConnectionNames;
    forall option, name | name in names && Names(option, name) ensures ConnectionWord(option, v) {
      TheMatchIsUnique(option, name, v);
    }
  }

  lemma DockerConnections(args: seq<string>)
    requires CommandPosition(Inspected(args, Containers), Containers).Some?
    ensures var words := Inspected(args, Containers);
      ConnectionsOf(args, Containers, None) == Project(words, CommandPosition(words, Containers).value,
        VocabularyOf(Containers), RootGrammar(Containers, Command(args, Containers)), false)
  {
    hide Inspected, Project, VocabularyOf, RootGrammar, Command, CommandPosition;
  }

  lemma TypedAreLeadingOptions(args: seq<string>)
    requires CommandPosition(args, Containers).Some?
    ensures CommandPosition(Inspected(args, Containers), Containers).Some?
    ensures SameConnectionOptions(Typed(args), LeadingOptions(args), VocabularyOf(Containers))
    ensures LeadingOptions(Inspected(args, Containers)) == LeadingOptions(args)
  {
    RootIsWellFormed();
    var g := RootGrammar(Containers, Command(args, Containers));
    assert forall name :: g.takes(name) <==> Root().takes(name) by { hide DockerValue; }
    hide CommandPosition, Command, Project, ConnectionsOf, VocabularyOf, Root, LeadingOptions, SameConnectionOptions, Heads;
    VocabulariesAreCompatible(Containers, Command(args, Containers));
    InspectionByRoot(args);
    InspectionSettles(args, Root());
    InspectionKeepsLeads(args);
    DockerConnections(args);
    HeadsAreLeadingOptions(Inspected(args, Containers), VocabularyOf(Containers), g);
  }

  /** `has`, asked about the words before the command, inspected or not, finds
      a name exactly where `connections` picks an option of that name. */
  lemma TypedOptions(args: seq<string>, names: seq<string>)
    requires CommandPosition(args, Containers).Some? && ConnectionNames(names)
    ensures ScopeDefaults.Has(Leads(args), names, Containers) <==> NamesOne(Typed(args), names)
    ensures ScopeDefaults.Has(Leads(Inspected(args, Containers)), names, Containers) <==> NamesOne(Typed(args), names)
  {
    hide *;
    TypedAreLeadingOptions(args);
    OptionsOfLeads(args);
    OptionsOfLeads(Inspected(args, Containers));
    SameNames(Typed(args), LeadingOptions(args), names);
    HasNamesOne(Leads(args), names);
    HasNamesOne(Leads(Inspected(args, Containers)), names);
  }

  lemma HasNamesOne(args: seq<string>, names: seq<string>)
    ensures ScopeDefaults.Has(args, names, Containers) <==> NamesOne(OptionsOf(args, Containers), names)
  {
    hide OptionsOf, Names;
  }

  const TARGETS := ["--context", "-c", "--host", "-H", "--config"]

  function DefaultTarget(scope: ScopeDefaults.Scope): seq<string> {
    if scope.dockerContext.Some? then ["--context", scope.dockerContext.value]
    else ["--host", "unix://" + scope.home + "/.hamn/" + ScopeDefaults.Text(scope.profile, "default") + "/docker.sock"]
  }

  /** docker: the state's target is put in front of a command other than
      `context` exactly when the connection that is typed names no context, host
      or configuration, and the state's configuration exactly when it names
      none. */
  lemma TypedTargetWins(args: seq<string>, scope: ScopeDefaults.Scope)
    requires CommandPosition(args, Containers).Some?
    ensures ScopeDefaults.DockerDefaults(args, scope) ==
      if Command(args, Containers) == "context" then []
      else
        (if NamesOne(Typed(args), ["--config"]) then [] else ScopeDefaults.Default("--config", scope.dockerConfig)) +
        (if NamesOne(Typed(args), TARGETS) then [] else DefaultTarget(scope))
  {
    TypedOptions(args, TARGETS);
    TypedOptions(args, ["--config"]);
    hide ScopeDefaults.Has, CommandPosition, Typed, NamesOne, Inspected, Command;
  }

  /** The connection of the whole argv is the defaults and then what was typed. */
  lemma ConnectionsBehindDefaults(args: seq<string>, scope: ScopeDefaults.Scope)
    requires CommandPosition(args, Containers).Some?
    ensures var list := ScopeDefaults.Defaults(args, Containers, scope, false);
      ConnectionsOf(list + args, Containers, None) == list + ConnectionsOf(args, Containers, None)
  {
    hide *;
    var list, words := ScopeDefaults.Defaults(args, Containers, scope, false), Inspected(args, Containers);
    var v, g := VocabularyOf(Containers), RootGrammar(Containers, Command(args, Containers));
    ScopeDefaults.DefaultsAreComplete(args, Containers, scope, false);
    ScopeDefaults.DefaultsChangeNothingBehind(args, Containers, scope, false);
    ScopeDefaults.SameCommand(list, args, Containers);
    ScopeDefaults.CommandBehindConnections(list, words, Containers);
    TypedAreLeadingOptions(args);
    ShiftedIsSome(CommandPosition(words, Containers), |list|);
    DockerConnections(args);
    DockerConnections(list + args);
    VocabulariesAreCompatible(Containers, Command(args, Containers));
    ProjectAfterConnections(list, words, CommandPosition(words, Containers).value, v, g);
  }

  lemma ShiftedIsSome(index: Option<nat>, offset: nat)
    requires index.Some?
    ensures Shifted(index, offset) == Some(index.value + offset)
  {
  }
}
