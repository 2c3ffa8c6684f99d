/** `inspect` reads an argv by the argv's own command, which splitting the
    groups in front of it may change (control/native_flags.rs and command_index
    of control/native.rs). */
module OwnCommand {
  import opened Common
  import opened CommandLine
  import opened Inspection
  import Connections

  const GET := "get"

  // ----- one reading -------------------------------------------------------

  /** Grammars that read every word alike. */
  ghost predicate SameReading(g: Grammar, h: Grammar) {
    g.flags == h.flags && g.endsAtOperand == h.endsAtOperand && forall name :: g.takes(name) <==> h.takes(name)
  }

  lemma {:induction false} SameInspection(args: seq<string>, g: Grammar, h: Grammar)
    requires SameReading(g, h)
    ensures InspectWith(args, g) == InspectWith(args, h)
  {
    if args != [] {
      if |args[0]| > 0 { SameSplit(args[0][1..], g, h); }
      assert Parts(args[0], g) == Parts(args[0], h);
      hide SplitFlags, ShortOptions, Parts;
      if |args| > 1 { SameInspection(args[2..], g, h); }
      SameInspection(args[1..], g, h);
    }
  }

  /** docker's root options do not depend on the command, so inspecting an
      inspected argv never changes anything. */
  lemma DockerInspectionIsIdempotent(args: seq<string>)
    ensures Inspected(Inspected(args, Containers), Containers) == Inspected(args, Containers)
  {
    var once := Inspected(args, Containers);
    var g, h := RootGrammar(Containers, Command(args, Containers)), RootGrammar(Containers, Command(once, Containers));
    hide DockerValue, InspectWith, CommandPosition;
    GrammarsAreWellFormed(Containers, Command(args, Containers));
    assert SameReading(g, h);
    SameInspection(once, h, g);
    InspectIsIdempotent(args, g);
  }

  /** An argv that its grammar leaves as it is has no group left to split. */
  lemma {:induction false} FixedIsSettled(words: seq<string>, g: Grammar)
    requires InspectWith(words, g) == words
    ensures Settled(words, g)
  {
    hide SplitFlags, ShortOptions, Parts;
    if words != [] && !EndsOptions(words[0], g) {
      var parts := Parts(words[0], g);
      if Consumes(words[0], g) && |words| > 1 {
        var rest := InspectWith(words[2..], g);
        InspectionIsNotShorter(words[2..], g);
        assert |parts| == 1 && parts[0] == words[0];
        assert parts == [words[0]] && (parts + [words[1]] + rest)[2..] == rest;
        FixedIsSettled(words[2..], g);
      } else {
        var rest := InspectWith(words[1..], g);
        InspectionIsNotShorter(words[1..], g);
        assert |parts| == 1 && parts[0] == words[0];
        assert parts == [words[0]] && (parts + rest)[1..] == rest;
        FixedIsSettled(words[1..], g);
      }
    }
  }

  lemma {:induction false} InspectionIsNotShorter(args: seq<string>, g: Grammar)
    ensures |InspectWith(args, g)| >= |args|
  {
    hide SplitFlags, ShortOptions, Parts;
    if args != [] {
      if |args| > 1 { InspectionIsNotShorter(args[2..], g); }
      InspectionIsNotShorter(args[1..], g);
    }
  }

  /** Inspecting twice changes nothing exactly when the grammar of the
      inspected argv's command finds no group in it. */
  lemma IdempotentExactlyWhenSettled(args: seq<string>, workspace: Workspace)
    ensures var once := Inspected(args, workspace); var g := RootGrammar(workspace, Command(once, workspace));
      Inspected(once, workspace) == once <==> Settled(once, g)
  {
    var once := Inspected(args, workspace);
    var g := RootGrammar(workspace, Command(once, workspace));
    hide InspectWith, CommandPosition, Settled, TakesValueIn;
    GrammarsAreWellFormed(workspace, Command(once, workspace));
    if Inspected(once, workspace) == once { FixedIsSettled(once, g); }
    if Settled(once, g) { SettledIsFixed(once, g); }
  }

  // ----- the words before the command --------------------------------------

  /** The command is looked for by the options of `get`. A word before it is
      read alike when the command's own grammar splits it and lets it take a
      value in the same way. */
  predicate WordReadAlike(word: string, command: string) {
    var g := RootGrammar(Kubernetes, command);
    && Parts(word, g) == Parts(word, RootGrammar(Kubernetes, GET))
    && (Advance(word, Kubernetes) != 0 ==> (Consumes(word, g) <==> Advance(word, Kubernetes) == 2))
  }

  predicate ReadAlike(args: seq<string>, command: string)
    decreases |args|
  {
    if args == [] || !Dash(args[0]) || args[0] == "--" then true
    else
      var step := Advance(args[0], Kubernetes);
      && WordReadAlike(args[0], command)
      && (0 < step <= |args| ==> ReadAlike(args[step..], command))
  }

  lemma CommandReads(args: seq<string>, workspace: Workspace)
    ensures args == [] ==> Command(args, workspace) == ""
    ensures args != [] && !Dash(args[0]) ==> Command(args, workspace) == args[0]
    ensures args != [] && Dash(args[0]) ==>
      var step := Advance(args[0], workspace);
      Command(args, workspace) == if 0 < step <= |args| then Command(args[step..], workspace) else ""
  {
    hide Advance;
  }

  lemma BareFlagsTakeNone(word: string, command: string)
    requires BareRootFlag(word)
    ensures !TakesValueIn(word, Kubernetes, command)
  {
    hide KubeConnectionFlag, TakesValueIn;
    if KubeConnectionFlag(word) { Connections.KubeConnectionFlagsTakeNone(word, command); } else { ValuelessFlagsTakeNone(word, command); }
  }

  /** docker's flags before a command and kubectl's `-A`: no table of values
      holds them. */
  predicate ValuelessFlag(word: string) {
    word == "--debug" || word == "-D" || word == "--tls" || word == "--tlsverify" || word == "-A" || word == "--all-namespaces"
  }

  lemma NotInValuesA(word: string) requires ValuelessFlag(word) ensures !KubeValuesA(word) {}

  lemma NotInValuesBtoC(word: string) requires ValuelessFlag(word) ensures !KubeValuesBtoC(word) {}

  lemma NotInValuesD(word: string) requires ValuelessFlag(word) ensures !KubeValuesD(word) {}

  lemma NotInValuesEtoF(word: string) requires ValuelessFlag(word) ensures !KubeValuesEtoF(word) {}

  lemma NotInValuesGtoK(word: string) requires ValuelessFlag(word) ensures !KubeValuesGtoK(word) {}

  lemma NotInValuesLtoM(word: string) requires ValuelessFlag(word) ensures !KubeValuesLtoM(word) {}

  lemma NotInValuesNtoO(word: string) requires ValuelessFlag(word) ensures !KubeValuesNtoO(word) {}

  lemma NotInValuesP(word: string) requires ValuelessFlag(word) ensures !KubeValuesP(word) {}

  lemma NotInValuesQtoR(word: string) requires ValuelessFlag(word) ensures !KubeValuesQtoR(word) {}

  lemma NotInValuesS(word: string) requires ValuelessFlag(word) ensures !KubeValuesS(word) {}

  lemma NotInValuesTtoZ(word: string) requires ValuelessFlag(word) ensures !KubeValuesTtoZ(word) {}

  lemma NotInValuesShort(word: string) requires ValuelessFlag(word) ensures !KubeValuesShort(word) {}

  lemma NotInConnectionValue(word: string) requires ValuelessFlag(word) ensures !KubeConnectionValue(word) {}

  lemma NotInGlobalValue(word: string) requires ValuelessFlag(word) ensures !KubeGlobalValue(word) {}

  lemma NotInReadValue(word: string) requires ValuelessFlag(word) ensures !KubeReadValue(word) {}

  lemma ValuelessFlagsTakeNone(word: string, command: string)
    requires ValuelessFlag(word)
    ensures !TakesValueIn(word, Kubernetes, command) && word != "-w"
  {
    NotInValuesA(word);
    NotInValuesBtoC(word);
    NotInValuesD(word);
    NotInValuesEtoF(word);
    NotInValuesGtoK(word);
    NotInValuesLtoM(word);
    NotInValuesNtoO(word);
    NotInValuesP(word);
    NotInValuesQtoR(word);
    NotInValuesS(word);
    NotInValuesTtoZ(word);
    NotInValuesShort(word);
    NotInConnectionValue(word);
    NotInGlobalValue(word);
    NotInReadValue(word);
    hide KubeValuesA, KubeValuesBtoC, KubeValuesD, KubeValuesEtoF, KubeValuesGtoK, KubeValuesLtoM, KubeValuesNtoO, KubeValuesP,
      KubeValuesQtoR, KubeValuesS, KubeValuesTtoZ, KubeValuesShort, KubeConnectionValue, KubeGlobalValue, KubeReadValue;
  }

  /** A piece that splits no further moves past itself, and past its value. */
  lemma PieceAdvance(part: string)
    requires ShortOptions(part, RootGrammar(Kubernetes, GET)) == Some([part])
    ensures Advance(part, Kubernetes) == if TakesValueIn(part, Kubernetes, GET) then 2 else 1
  {
    if BareRootFlag(part) { BareFlagsTakeNone(part, GET); }
    if TakesValueIn(part, Kubernetes, GET) {
      GrammarsAreWellFormed(Kubernetes, GET);
      assert RootGrammar(Kubernetes, GET).takes(part);
      hide TakesValueIn;
      assert OptionName(part);
    } else {
      RootValuesAreTaken(part, GET);
      hide TakesValueIn, KubeConnectionValue, KubeGlobalValue;
    }
  }

  lemma RootValuesAreTaken(name: string, command: string)
    ensures RootValue(name, Kubernetes) ==> TakesValueIn(name, Kubernetes, command)
  {
    hide KubeCommandValue, KubeReadValue;
  }

  /** The pieces of a group, one after the other, move past themselves, and the
      last one past its value. */
  lemma {:induction false} CommandBehindPieces(parts: seq<string>, rest: seq<string>)
    requires parts != [] && forall i :: 0 <= i < |parts| ==> Piece(parts[i])
    requires forall i :: 0 <= i < |parts| - 1 ==> !TakesValueIn(parts[i], Kubernetes, GET)
    ensures Command(parts + rest, Kubernetes) ==
      if !TakesValueIn(Last(parts), Kubernetes, GET) then Command(rest, Kubernetes)
      else if rest == [] then "" else Command(rest[1..], Kubernetes)
  {
    hide Advance, TakesValueIn, CommandPosition, Command;
    var all, more := parts + rest, parts[1..];
    assert Piece(parts[0]);
    CommandReads(all, Kubernetes);
    assert all[0] == parts[0] && all[1..] == more + rest;
    if more == [] {
      assert more + rest == rest && Last(parts) == parts[0];
      if rest != [] { assert all[2..] == rest[1..]; }
    } else {
      CommandBehindPieces(more, rest);
      assert Last(more) == Last(parts);
    }
  }

  /** A word that is read by itself before the command. */
  predicate Piece(part: string) {
    Dash(part) && part != "--" && Advance(part, Kubernetes) == if TakesValueIn(part, Kubernetes, GET) then 2 else 1
  }

  /** What the words of one option stand for, split, is read as the option is. */
  lemma GroupReadAlike(word: string, rest: seq<string>)
    requires Dash(word) && word != "--"
    ensures var g := RootGrammar(Kubernetes, GET);
      && (Advance(word, Kubernetes) == 0 ==> Parts(word, g) == [word])
      && (Advance(word, Kubernetes) != 0 ==>
           Command(Parts(word, g) + rest, Kubernetes) ==
             if Advance(word, Kubernetes) == 1 then Command(rest, Kubernetes)
             else if rest == [] then "" else Command(rest[1..], Kubernetes))
  {
    var g := RootGrammar(Kubernetes, GET);
    var parts := Parts(word, g);
    if Advance(word, Kubernetes) != 0 {
      if parts == [word] {
        hide Advance, TakesValueIn, CommandPosition, Command;
        var all := [word] + rest;
        CommandReads(all, Kubernetes);
        assert all[1..] == rest;
        if rest != [] { assert all[2..] == rest[1..]; }
      } else {
        SplitGroup(word, rest);
      }
    }
  }

  lemma SplitGroup(word: string, rest: seq<string>)
    requires ShortOptions(word, RootGrammar(Kubernetes, GET)).Some? && Parts(word, RootGrammar(Kubernetes, GET)) != [word]
    requires Advance(word, Kubernetes) != 0
    ensures Command(Parts(word, RootGrammar(Kubernetes, GET)) + rest, Kubernetes) ==
      if Advance(word, Kubernetes) == 1 then Command(rest, Kubernetes)
      else if rest == [] then "" else Command(rest[1..], Kubernetes)
  {
    var g := RootGrammar(Kubernetes, GET);
    var parts := Parts(word, g);
    GrammarsAreWellFormed(Kubernetes, GET);
    FlagsSplitIntoPieces(word[1..], g);
    assert g.takes(Last(parts)) == TakesValueIn(Last(parts), Kubernetes, GET);
    SplitWordAdvance(word);
    forall i | 0 <= i < |parts| ensures Piece(parts[i]) {
      assert ShortPiece(parts[i], g);
      PieceAdvance(parts[i]);
    }
    forall i | 0 <= i < |parts| - 1 ensures !TakesValueIn(parts[i], Kubernetes, GET) {
      assert !g.takes(parts[i]);
    }
    hide Advance, TakesValueIn, CommandPosition, Command, Parts, Piece;
    CommandBehindPieces(parts, rest);
  }

  lemma {:induction false} EqualsIsInTheLast(flags: string, g: Grammar)
    requires WellFormed(g) && '=' !in g.flags && '=' in flags && SplitFlags(flags, g).Some?
    ensures '=' in Last(SplitFlags(flags, g).value)
  {
    var name, rest := ['-', flags[0]], flags[1..];
    assert name[1] == flags[0];
    assert g.takes(name) ==> '=' !in name;
    assert '=' in rest;
    if !g.takes(name) && flags[0] in g.flags && rest[0] != '=' { EqualsIsInTheLast(rest, g); }
  }

  /** A group that is really split is no root option by itself. */
  lemma SplitWordAdvance(word: string)
    requires ShortOptions(word, RootGrammar(Kubernetes, GET)).Some? && Parts(word, RootGrammar(Kubernetes, GET)) != [word]
    ensures Advance(word, Kubernetes) == if Consumes(word, RootGrammar(Kubernetes, GET)) then 2 else 1
  {
    hide *;
    var g := RootGrammar(Kubernetes, GET);
    GrammarsAreWellFormed(Kubernetes, GET);
    GetGroupsNoEquals();
    SplitIsNoTaker(word, g);
    NoTakerIsNoRootValue(word);
    if BareRootFlag(word) { BareFlagIsWhole(word, g); }
    if '=' in word { EqualsIsNotConsumed(word, g); }
    AdvanceOfGroup(word);
  }

  lemma GetGroupsNoEquals()
    ensures '=' !in RootGrammar(Kubernetes, GET).flags
  {
  }

  lemma AdvanceOfGroup(word: string)
    requires ShortOptions(word, RootGrammar(Kubernetes, GET)).Some?
    requires !RootValue(word, Kubernetes) && !InlineRootValue(word, Kubernetes) && !BareRootFlag(word)
    requires '=' in word ==> !Consumes(word, RootGrammar(Kubernetes, GET))
    ensures Advance(word, Kubernetes) == if Consumes(word, RootGrammar(Kubernetes, GET)) then 2 else 1
  {
    hide RootValue, InlineRootValue, BareRootFlag, SplitFlags, TakesValueIn;
  }

  lemma NoTakerIsNoRootValue(word: string)
    requires |word| > 2 && !RootGrammar(Kubernetes, GET).takes(word) && !RootGrammar(Kubernetes, GET).takes(word[..2])
    ensures !RootValue(word, Kubernetes) && !InlineRootValue(word, Kubernetes)
  {
    RootValuesAreTaken(word, GET);
    RootValuesAreTaken(word[..2], GET);
    hide TakesValueIn, KubeConnectionValue, KubeGlobalValue;
  }

  lemma EqualsIsNotConsumed(word: string, g: Grammar)
    requires WellFormed(g) && '=' !in g.flags && '=' in word && ShortOptions(word, g).Some?
    ensures !Consumes(word, g)
  {
    EqualsIsInTheLast(word[1..], g);
    var last := Last(Parts(word, g));
    assert g.takes(last) ==> '=' !in last;
  }

  lemma SplitIsNoTaker(word: string, g: Grammar)
    requires WellFormed(g) && ShortOptions(word, g).Some? && Parts(word, g) != [word]
    ensures !g.takes(word) && |word| > 2 && !g.takes(word[..2])
  {
    var flags := word[1..];
    assert ['-', flags[0]] == word[..2] && ['-', flags[0]] + flags[1..] == word;
    if |word| == 2 { OneLetterIsWhole(word, g); }
  }

  lemma OneLetterIsWhole(word: string, g: Grammar)
    requires |word| == 2 && ShortOptions(word, g).Some?
    ensures Parts(word, g) == [word]
  {
    var flags := word[1..];
    assert flags == [word[1]] && ['-', flags[0]] == word && flags[1..] == "";
    if g.takes(word) {
      assert word + "" == word;
    } else {
      OneFlag(word[1], g);
    }
  }

  lemma BareFlagIsWhole(word: string, g: Grammar)
    requires BareRootFlag(word) && ShortOptions(word, g).Some?
    ensures |word| <= 2
  {
    hide KubeConnectionFlag;
    if KubeConnectionFlag(word) { ConnectionFlagsAreOptions(word); }
  }

  /** Where the words before the command are read alike, splitting their groups
      leaves the command where it is found. */
  lemma {:induction false} InspectionKeepsCommand(args: seq<string>, command: string)
    requires ReadAlike(args, command)
    ensures Command(InspectWith(args, RootGrammar(Kubernetes, command)), Kubernetes) == Command(args, Kubernetes)
    decreases |args|
  {
    var g := RootGrammar(Kubernetes, command);
    hide Advance, Parts, TakesValueIn, CommandPosition, Command;
    CommandReads(args, Kubernetes);
    if args != [] && args[0] != "--" {
      if !Dash(args[0]) {
        OperandIsCopied(args, command);
      } else {
        var step := Advance(args[0], Kubernetes);
        OptionIsSplit(args, command);
        if 0 < step <= |args| { InspectionKeepsCommand(args[step..], command); }
      }
    }
  }

  lemma OperandIsCopied(args: seq<string>, command: string)
    requires args != [] && !Dash(args[0])
    ensures Command(InspectWith(args, RootGrammar(Kubernetes, command)), Kubernetes) == args[0]
  {
    var g := RootGrammar(Kubernetes, command);
    GrammarsAreWellFormed(Kubernetes, command);
    NoOperandEndsOptions(command);
    hide *;
    OperandIsFirst(args, g);
    CommandReads(InspectWith(args, g), Kubernetes);
  }

  lemma OperandIsFirst(args: seq<string>, g: Grammar)
    requires args != [] && !Dash(args[0]) && WellFormed(g) && !g.endsAtOperand
    ensures InspectWith(args, g) != [] && InspectWith(args, g)[0] == args[0]
  {
    assert Parts(args[0], g) == [args[0]] && !g.takes(args[0]);
  }

  lemma OptionIsSplit(args: seq<string>, command: string)
    requires args != [] && Dash(args[0]) && args[0] != "--" && WordReadAlike(args[0], command)
    ensures var step := Advance(args[0], Kubernetes); var g := RootGrammar(Kubernetes, command);
      Command(InspectWith(args, g), Kubernetes) ==
        if 0 < step <= |args| then Command(InspectWith(args[step..], g), Kubernetes) else ""
  {
    var g, step := RootGrammar(Kubernetes, command), Advance(args[0], Kubernetes);
    OptionInspected(args, command);
    hide Advance, Parts, TakesValueIn, CommandPosition, Command, InspectWith, WordReadAlike;
    if step == 0 {
      GroupReadAlike(args[0], []);
      CommandReads(InspectWith(args, g), Kubernetes);
    } else if step == 2 && |args| > 1 {
      var rest := [args[1]] + InspectWith(args[2..], g);
      GroupReadAlike(args[0], rest);
      assert rest[1..] == InspectWith(args[2..], g);
    } else {
      GroupReadAlike(args[0], InspectWith(args[1..], g));
      if step == 2 { assert args[1..] == []; }
    }
  }

  lemma OptionInspected(args: seq<string>, command: string)
    requires args != [] && Dash(args[0]) && args[0] != "--" && WordReadAlike(args[0], command)
    ensures var step := Advance(args[0], Kubernetes);
      var g := RootGrammar(Kubernetes, command); var parts := Parts(args[0], RootGrammar(Kubernetes, GET));
      && (step == 0 ==> InspectWith(args, g) != [] && InspectWith(args, g)[0] == args[0])
      && (step == 2 && |args| > 1 ==> InspectWith(args, g) == parts + ([args[1]] + InspectWith(args[2..], g)))
      && (step == 1 || (step == 2 && |args| == 1) ==> InspectWith(args, g) == parts + InspectWith(args[1..], g))
  {
    var g := RootGrammar(Kubernetes, command);
    var parts := Parts(args[0], g);
    assert !EndsOptions(args[0], g);
    GroupReadAlike(args[0], []);
    InspectOption(args, g);
    hide Advance, Parts, TakesValueIn, InspectWith, Command, CommandPosition;
  }

  lemma InspectOption(args: seq<string>, g: Grammar)
    requires args != [] && !EndsOptions(args[0], g)
    ensures InspectWith(args, g) ==
      if Consumes(args[0], g) && |args| > 1 then Parts(args[0], g) + ([args[1]] + InspectWith(args[2..], g))
      else Parts(args[0], g) + InspectWith(args[1..], g)
  {
    hide Parts;
    if |args| > 1 { Associate(Parts(args[0], g), [args[1]], InspectWith(args[2..], g)); }
  }

  // ----- which commands read them alike ------------------------------------

  /** The two commands whose own options of one letter differ from those of
      `get`: `-f` and `-p` of `logs` take no value, `-w` of `proxy` takes one. */
  predicate RereadsShortOptions(command: string) { command == "logs" || command == "proxy" }

  lemma ShortOptionsAreAlike(c: char, command: string)
    requires !RereadsShortOptions(command)
    ensures TakesValueIn(['-', c], Kubernetes, command) <==> TakesValueIn(['-', c], Kubernetes, GET)
  {
    hide KubeConnectionValue, KubeCommandValue, KubeGlobalValue, KubeReadValue;
  }

  lemma ShortWordIsAlike(word: string, command: string)
    requires ShortOptions(word, RootGrammar(Kubernetes, GET)).Some? && !RereadsShortOptions(command)
    requires Parts(word, RootGrammar(Kubernetes, command)) == Parts(word, RootGrammar(Kubernetes, GET))
    ensures Consumes(word, RootGrammar(Kubernetes, command)) <==> Advance(word, Kubernetes) == 2
  {
    var g, h := RootGrammar(Kubernetes, command), RootGrammar(Kubernetes, GET);
    GrammarsAreWellFormed(Kubernetes, command);
    GrammarsAreWellFormed(Kubernetes, GET);
    FlagsSplitIntoPieces(word[1..], h);
    var last := Last(Parts(word, h));
    assert ShortPiece(last, h);
    ShortOptionsAreAlike(last[1], command);
    assert |last| == 2 ==> last == ['-', last[1]];
    assert g.takes(last) <==> h.takes(last) by {
      assert g.takes(last) ==> OptionName(last);
      assert h.takes(last) ==> OptionName(last);
      hide TakesValueIn;
    }
    if Parts(word, h) == [word] { PieceAdvance(word); } else { SplitWordAdvance(word); }
  }

  lemma LongAdvance(word: string)
    requires ShortOptions(word, RootGrammar(Kubernetes, GET)).None? && Advance(word, Kubernetes) != 0
    ensures Advance(word, Kubernetes) == 2 <==> RootValue(word, Kubernetes)
    ensures RootValue(word, Kubernetes) || '=' in word || InlineRootValue(word, Kubernetes) || BareRootFlag(word)
  {
    hide RootValue, InlineRootValue, BareRootFlag, ShortOptions, TakesValueIn;
  }

  lemma InlineIsShort(word: string)
    requires InlineRootValue(word, Kubernetes)
    ensures ShortOptions(word, RootGrammar(Kubernetes, GET)).Some?
  {
    var name, g := word[..2], RootGrammar(Kubernetes, GET);
    ConnectionVocabularyNamesOptions(name);
    assert g.takes(name) by { hide KubeConnectionValue, KubeCommandValue, KubeGlobalValue, KubeReadValue; }
    hide TakesValueIn, KubeConnectionValue;
    assert OptionName(name) && name[1] == word[1] && ['-', word[1..][0]] == name;
  }

  lemma LongWordIsAlike(word: string, command: string)
    requires Dash(word) && word != "--" && Advance(word, Kubernetes) != 0
    requires ShortOptions(word, RootGrammar(Kubernetes, GET)).None? && Parts(word, RootGrammar(Kubernetes, command)) == [word]
    ensures Consumes(word, RootGrammar(Kubernetes, command)) <==> Advance(word, Kubernetes) == 2
  {
    var g := RootGrammar(Kubernetes, command);
    GrammarsAreWellFormed(Kubernetes, command);
    assert g.takes(word) ==> OptionName(word);
    assert g.takes(word) == TakesValueIn(word, Kubernetes, command);
    hide TakesValueIn, ShortOptions, RootValue, InlineRootValue, Advance, WellFormed, BareRootFlag;
    LongAdvance(word);
    RootValuesAreTaken(word, command);
    if InlineRootValue(word, Kubernetes) { InlineIsShort(word); }
    if BareRootFlag(word) { BareFlagsTakeNone(word, command); }
  }

  lemma WordsAreReadAlike(word: string, command: string)
    requires Dash(word) && word != "--" && !RereadsShortOptions(command)
    ensures WordReadAlike(word, command)
  {
    var g, h := RootGrammar(Kubernetes, command), RootGrammar(Kubernetes, GET);
    forall c: char ensures g.takes(['-', c]) <==> h.takes(['-', c]) { ShortOptionsAreAlike(c, command); }
    SameSplit(word[1..], g, h);
    assert Parts(word, g) == Parts(word, h);
    if Advance(word, Kubernetes) != 0 {
      if ShortOptions(word, h).Some? { ShortWordIsAlike(word, command); } else { LongWordIsAlike(word, command); }
    }
  }

  /** Every command but `logs` and `proxy` reads every argv as `get` does, as
      far as its command is concerned. */
  lemma {:induction false} MostCommandsReadAlike(args: seq<string>, command: string)
    requires !RereadsShortOptions(command)
    ensures ReadAlike(args, command)
    decreases |args|
  {
    hide Advance, WordReadAlike;
    if args != [] && Dash(args[0]) && args[0] != "--" {
      var step := Advance(args[0], Kubernetes);
      WordsAreReadAlike(args[0], command);
      if 0 < step <= |args| { MostCommandsReadAlike(args[step..], command); }
    }
  }

  // ----- inspecting by the argv's own command ------------------------------

  /** An argv that keeps its command is inspected once for all. */
  lemma SameCommandIsIdempotent(args: seq<string>, workspace: Workspace)
    requires Command(Inspected(args, workspace), workspace) == Command(args, workspace)
    ensures Inspected(Inspected(args, workspace), workspace) == Inspected(args, workspace)
  {
    hide SplitFlags, ShortOptions, TakesValueIn, CommandPosition;
    GrammarsAreWellFormed(workspace, Command(args, workspace));
    InspectIsIdempotent(args, RootGrammar(workspace, Command(args, workspace)));
  }

  /** Where the words before its command are read alike, an argv keeps its
      command. */
  lemma ReadAlikeIsIdempotent(args: seq<string>)
    requires ReadAlike(args, Command(args, Kubernetes))
    ensures Command(Inspected(args, Kubernetes), Kubernetes) == Command(args, Kubernetes)
    ensures Inspected(Inspected(args, Kubernetes), Kubernetes) == Inspected(args, Kubernetes)
  {
    hide ReadAlike, CommandPosition, Command, TakesValueIn, InspectWith;
    InspectionKeepsCommand(args, Command(args, Kubernetes));
    SameCommandIsIdempotent(args, Kubernetes);
  }

  /** So every argv but those of `logs` and `proxy`. */
  lemma OwnInspectionIsIdempotent(args: seq<string>)
    requires !RereadsShortOptions(Command(args, Kubernetes))
    ensures Command(Inspected(args, Kubernetes), Kubernetes) == Command(args, Kubernetes)
    ensures Inspected(Inspected(args, Kubernetes), Kubernetes) == Inspected(args, Kubernetes)
  {
    hide *;
    MostCommandsReadAlike(args, Command(args, Kubernetes));
    ReadAlikeIsIdempotent(args);
  }

  // ----- an argv that is not ------------------------------------------------

  /** The letters of the argvs below, for a command that is read as `get` is
      and for `logs`. */
  lemma LettersOf(command: string)
    requires !RereadsShortOptions(command)
    ensures TakesValueIn("-f", Kubernetes, command) && TakesValueIn("-p", Kubernetes, command)
    ensures TakesValueIn("-n", Kubernetes, command)
    ensures !TakesValueIn("-A", Kubernetes, command) && !TakesValueIn("-w", Kubernetes, command)
  {
    ValuelessFlagsTakeNone("-A", command);
  }

  lemma LettersOfLogs()
    ensures !TakesValueIn("-f", Kubernetes, "logs") && !TakesValueIn("-p", Kubernetes, "logs")
    ensures TakesValueIn("-n", Kubernetes, "logs") && !TakesValueIn("-A", Kubernetes, "logs")
  {
    ValuelessFlagsTakeNone("-A", "logs");
  }

  /** A group of `logs` in front of the command: what is typed, and how it is
      read once it is split. `name` is a
      connection option at its end, `tail` what stands behind it. */
  function Typed(name: string, tail: string): seq<string> { ["-fAp", "logs", "x", "-p", name, tail] }

  function TypedSplit(name: string, tail: string): seq<string> { ["-f", "-A", "-p", "logs", "x", "-p", name, tail] }

  /** The connection options that the argvs below end with. */
  predicate ScopeName(name: string) { name == "-n" || name == "--context" }

  lemma ScopeNameByLogs(name: string)
    requires ScopeName(name)
    ensures RootGrammar(Kubernetes, "logs").takes(name) && Parts(name, RootGrammar(Kubernetes, "logs")) == [name]
    ensures Dash(name) && name != "--"
  {
    var g := RootGrammar(Kubernetes, "logs");
    assert KubeConnectionValue("-n") && KubeConnectionValue("--context");
    RootValuesAreTaken(name, "logs");
    assert g.takes("-n") == TakesValueIn("-n", Kubernetes, "logs") && g.takes(name) == TakesValueIn(name, Kubernetes, "logs");
    hide TakesValueIn, KubeConnectionValue;
    if name == "-n" { OneLetter('n', g); }
  }

  lemma SplitByLogs()
    ensures Parts("-fAp", RootGrammar(Kubernetes, "logs")) == ["-f", "-A", "-p"]
    ensures Parts("-p", RootGrammar(Kubernetes, "logs")) == ["-p"]
  {
    LettersOfLogs();
    var g := RootGrammar(Kubernetes, "logs");
    assert g.takes("-f") == TakesValueIn("-f", Kubernetes, "logs") && g.takes("-p") == TakesValueIn("-p", Kubernetes, "logs");
    assert g.takes("-A") == TakesValueIn("-A", Kubernetes, "logs");
    assert 'f' in g.flags && 'A' in g.flags && 'p' in g.flags;
    hide TakesValueIn, RootGrammar, Parts;
    ThreeFlags('f', 'A', 'p', g);
    OneLetter('p', g);
  }

  lemma OneLetter(c: char, g: Grammar)
    requires c != '-' && (g.takes(['-', c]) || c in g.flags)
    ensures Parts(['-', c], g) == [['-', c]]
  {
    var word, flags := ['-', c], [c];
    assert word[1..] == flags && flags[1..] == "" && word + "" == word;
    if !g.takes(word) { OneFlag(c, g); }
  }

  lemma ThreeFlags(a: char, b: char, c: char, g: Grammar)
    requires a in g.flags && b in g.flags && c in g.flags && b != '=' && c != '=' && a != '-'
    requires !g.takes(['-', a]) && !g.takes(['-', b]) && !g.takes(['-', c])
    ensures Parts(['-', a, b, c], g) == [['-', a], ['-', b], ['-', c]]
  {
    var flags := [a, b, c];
    OneFlag(c, g);
    assert ['-', a, b, c][1..] == flags && flags[1..] == [b, c] && [b, c][1..] == [c];
    assert SplitFlags([b, c], g) == Some([['-', b]] + [['-', c]]);
    assert SplitFlags(flags, g) == Some([['-', a]] + ([['-', b]] + [['-', c]]));
  }

  lemma InspectOperand(word: string, rest: seq<string>, g: Grammar)
    requires WellFormed(g) && !g.endsAtOperand && !Dash(word)
    ensures InspectWith([word] + rest, g) == [word] + InspectWith(rest, g)
  {
    assert Parts(word, g) == [word] && !g.takes(word);
    InspectOption([word] + rest, g);
    hide Parts;
    assert ([word] + rest)[1..] == rest;
  }

  lemma InspectFlags(word: string, rest: seq<string>, g: Grammar)
    requires word != "--" && !g.takes(Last(Parts(word, g))) && !g.endsAtOperand
    ensures InspectWith([word] + rest, g) == Parts(word, g) + InspectWith(rest, g)
  {
    InspectOption([word] + rest, g);
    hide Parts;
    assert ([word] + rest)[1..] == rest;
  }

  lemma InspectPair(word: string, value: string, rest: seq<string>, g: Grammar)
    requires word != "--" && Parts(word, g) == [word] && g.takes(word) && !g.endsAtOperand
    ensures InspectWith([word, value] + rest, g) == [word, value] + InspectWith(rest, g)
  {
    InspectOption([word, value] + rest, g);
    hide Parts;
    assert ([word, value] + rest)[2..] == rest;
    assert [word] + ([value] + InspectWith(rest, g)) == [word, value] + InspectWith(rest, g);
  }

  lemma InspectNothing(g: Grammar)
    ensures InspectWith([], g) == []
  {
  }

  /** What stands behind the group, as single words and as options with values. */
  function Behind(name: string, tail: string): seq<string> { ["logs"] + (["x"] + (["-p"] + [name, tail])) }

  lemma TypedForm(name: string, tail: string)
    ensures Typed(name, tail) == ["-fAp"] + Behind(name, tail) && TypedSplit(name, tail) == ["-f", "-A", "-p"] + Behind(name, tail)
  {
  }

  lemma SplitForm(name: string, tail: string)
    ensures TypedSplit(name, tail) == ["-f", "-A"] + (["-p", "logs"] + (["x"] + (["-p", name] + [tail])))
  {
  }

  lemma InspectedByLogs(name: string, tail: string)
    requires ScopeName(name)
    ensures InspectWith(Typed(name, tail), RootGrammar(Kubernetes, "logs")) == TypedSplit(name, tail)
  {
    var g := RootGrammar(Kubernetes, "logs");
    SplitByLogs();
    LettersOfLogs();
    assert g.takes("-p") == TakesValueIn("-p", Kubernetes, "logs");
    GrammarsAreWellFormed(Kubernetes, "logs");
    NoOperandEndsOptions("logs");
    ScopeNameByLogs(name);
    hide *;
    TypedForm(name, tail);
    LastOf("-f", "-A", "-p");
    InspectFlags("-fAp", Behind(name, tail), g);
    InspectBehind(name, tail, g);
  }

  lemma LastOf(a: string, b: string, c: string)
    ensures Last([a, b, c]) == c && Last([c]) == c
  {
  }

  lemma NoOperandEndsOptions(command: string)
    ensures !RootGrammar(Kubernetes, command).endsAtOperand
  {
  }

  lemma InspectBehind(name: string, tail: string, g: Grammar)
    requires WellFormed(g) && !g.endsAtOperand && Parts("-p", g) == ["-p"] && Parts(name, g) == [name]
    requires !g.takes("-p") && g.takes(name) && name != "--"
    ensures InspectWith(Behind(name, tail), g) == Behind(name, tail)
  {
    hide InspectWith, Parts, WellFormed;
    var pair := [name, tail];
    InspectOperand("logs", ["x"] + (["-p"] + pair), g);
    InspectOperand("x", ["-p"] + pair, g);
    InspectFlags("-p", pair, g);
    InspectPair(name, tail, [], g);
    InspectNothing(g);
    assert pair + [] == pair;
  }

  /** Behind the command `x` the split words are an option with the value `-A`,
      one with the value `logs`, and one with the value `-n`. */
  lemma InspectedByX(name: string, tail: string)
    ensures InspectWith(TypedSplit(name, tail), RootGrammar(Kubernetes, "x"))
         == ["-f", "-A"] + (["-p", "logs"] + (["x"] + (["-p", name] + InspectWith([tail], RootGrammar(Kubernetes, "x")))))
  {
    var g := RootGrammar(Kubernetes, "x");
    LettersOf("x");
    assert g.takes("-p") == TakesValueIn("-p", Kubernetes, "x") && g.takes("-f") == TakesValueIn("-f", Kubernetes, "x");
    GrammarsAreWellFormed(Kubernetes, "x");
    NoOperandEndsOptions("x");
    OneLetter('p', g);
    OneLetter('f', g);
    assert ['-', 'p'] == "-p" && ['-', 'f'] == "-f";
    assert !Dash("x");
    hide *;
    SplitForm(name, tail);
    InspectPair("-f", "-A", ["-p", "logs"] + (["x"] + (["-p", name] + [tail])), g);
    InspectPair("-p", "logs", ["x"] + (["-p", name] + [tail]), g);
    InspectOperand("x", ["-p", name] + [tail], g);
    InspectPair("-p", name, [tail], g);
  }

  lemma CommandsOfTyped(name: string, tail: string)
    ensures Command(Typed(name, tail), Kubernetes) == "logs" && Command(TypedSplit(name, tail), Kubernetes) == "x"
  {
    AdvancesOfTyped();
    DashesOfTyped();
    hide *;
    TypedForm(name, tail);
    SplitForm(name, tail);
    CommandBehind("-fAp", [], Behind(name, tail));
    BehindStartsWithLogs(name, tail);
    OperandIsCommand("logs", ["x"] + (["-p"] + [name, tail]), Behind(name, tail));
    var last := ["x"] + (["-p", name] + [tail]);
    CommandBehind("-f", ["-A"], ["-p", "logs"] + last);
    CommandBehind("-p", ["logs"], last);
    OperandIsCommand("x", ["-p", name] + [tail], last);
    PairOf("-f", "-A");
    PairOf("-p", "logs");
    assert ["-fAp"] + [] == ["-fAp"];
  }

  lemma PairOf(a: string, b: string)
    ensures [a] + [b] == [a, b]
  {
  }

  lemma DashesOfTyped()
    ensures Dash("-fAp") && Dash("-f") && Dash("-p") && !Dash("logs") && !Dash("x")
  {
  }

  lemma BehindStartsWithLogs(name: string, tail: string)
    ensures Behind(name, tail) == ["logs"] + (["x"] + (["-p"] + [name, tail]))
  {
  }

  lemma CommandBehind(option: string, value: seq<string>, rest: seq<string>)
    requires Dash(option) && Advance(option, Kubernetes) == 1 + |value|
    ensures Command([option] + value + rest, Kubernetes) == Command(rest, Kubernetes)
  {
    hide Advance, CommandPosition, Command;
    var args := [option] + value + rest;
    CommandReads(args, Kubernetes);
    assert args[1 + |value|..] == rest;
  }

  lemma OperandIsCommand(word: string, rest: seq<string>, args: seq<string>)
    requires !Dash(word) && args == [word] + rest
    ensures Command(args, Kubernetes) == word
  {
    hide CommandPosition, Command;
    CommandReads(args, Kubernetes);
  }

  lemma AdvancesOfTyped()
    ensures Advance("-fAp", Kubernetes) == 1 && Advance("-f", Kubernetes) == 2 && Advance("-p", Kubernetes) == 2
  {
    var g := RootGrammar(Kubernetes, GET);
    LettersOf(GET);
    assert g.takes("-p") == TakesValueIn("-p", Kubernetes, GET) && g.takes("-f") == TakesValueIn("-f", Kubernetes, GET);
    hide TakesValueIn, Advance, RootGrammar;
    assert ['-', 'p'] == "-p" && ['-', 'f'] == "-f";
    GroupIsOneWord(g);
    LetterSplits('f', g);
    LetterSplits('p', g);
    WholeGroupAdvances();
    PieceAdvance("-f");
    PieceAdvance("-p");
  }

  lemma LetterSplits(c: char, g: Grammar)
    requires c != '-' && (g.takes(['-', c]) || c in g.flags)
    ensures ShortOptions(['-', c], g) == Some([['-', c]])
  {
    var word, flags := ['-', c], [c];
    assert word[1..] == flags && flags[1..] == "" && word + "" == word;
    if !g.takes(word) { OneFlag(c, g); }
  }

  lemma GroupIsOneWord(g: Grammar)
    requires g.takes("-f")
    ensures ShortOptions("-fAp", g) == Some(["-fAp"])
  {
    assert "-fAp"[1..] == "fAp" && "fAp"[1..] == "Ap" && ['-', 'f'] == "-f" && "-f" + "Ap" == "-fAp";
  }

  lemma WholeGroupAdvances()
    requires ShortOptions("-fAp", RootGrammar(Kubernetes, GET)) == Some(["-fAp"])
    ensures Advance("-fAp", Kubernetes) == 1
  {
    PieceAdvance("-fAp");
    GrammarsAreWellFormed(Kubernetes, GET);
    assert RootGrammar(Kubernetes, GET).takes("-fAp") == TakesValueIn("-fAp", Kubernetes, GET);
    hide TakesValueIn, Advance;
  }

  lemma InspectedIs(args: seq<string>, command: string)
    requires Command(args, Kubernetes) == command
    ensures Inspected(args, Kubernetes) == InspectWith(args, RootGrammar(Kubernetes, command))
  {
    hide InspectWith, CommandPosition, Command;
  }

  /** The argv is read by `logs`, and once it is split by `x`. */
  lemma TypedIsReread(name: string, tail: string)
    requires ScopeName(name)
    ensures Command(Typed(name, tail), Kubernetes) == "logs" && Inspected(Typed(name, tail), Kubernetes) == TypedSplit(name, tail)
    ensures Command(TypedSplit(name, tail), Kubernetes) == "x"
    ensures Inspected(TypedSplit(name, tail), Kubernetes)
         == ["-f", "-A"] + (["-p", "logs"] + (["x"] + (["-p", name] + InspectWith([tail], RootGrammar(Kubernetes, "x")))))
  {
    hide *;
    CommandsOfTyped(name, tail);
    InspectedIs(Typed(name, tail), "logs");
    InspectedByLogs(name, tail);
    InspectedIs(TypedSplit(name, tail), "x");
    InspectedByX(name, tail);
  }

  lemma ATailThatSplits()
    ensures InspectWith(["-Aw"], RootGrammar(Kubernetes, "x")) == ["-A", "-w"]
  {
    var g := RootGrammar(Kubernetes, "x");
    LettersOf("x");
    assert g.takes("-A") == TakesValueIn("-A", Kubernetes, "x") && g.takes("-w") == TakesValueIn("-w", Kubernetes, "x");
    assert 'A' in g.flags && 'w' in g.flags;
    NoOperandEndsOptions("x");
    assert ['-', 'A', 'w'] == "-Aw" && ['-', 'A'] == "-A" && ['-', 'w'] == "-w";
    TwoFlags('A', 'w', g);
    assert Last(["-A", "-w"]) == "-w";
    hide *;
    InspectFlags("-Aw", [], g);
    InspectNothing(g);
    assert ["-Aw"] + [] == ["-Aw"] && ["-A", "-w"] + [] == ["-A", "-w"];
  }

  /** kubectl: an argv of `logs` whose inspection has another command and is
      split once more by it. */
  lemma ARereadArgv()
    ensures var args := Typed("-n", "-Aw"); var once := Inspected(args, Kubernetes);
      && Command(args, Kubernetes) == "logs" && Command(once, Kubernetes) == "x"
      && Inspected(once, Kubernetes) != once
  {
    assert ScopeName("-n");
    assert ScopeName("-n");
    hide *;
    TypedIsReread("-n", "-Aw");
    ATailThatSplits();
    SplitForm("-n", "-Aw");
    LongerByOne(["-f", "-A"], ["-p", "logs"], ["x"], ["-p", "-n"], ["-A", "-w"], ["-Aw"]);
  }

  lemma LongerByOne(a: seq<string>, b: seq<string>, c: seq<string>, d: seq<string>, e: seq<string>, f: seq<string>)
    requires |e| != |f|
    ensures a + (b + (c + (d + e))) != a + (b + (c + (d + f)))
  {
    assert |a + (b + (c + (d + e)))| != |a + (b + (c + (d + f)))|;
  }

  lemma TwoFlags(a: char, b: char, g: Grammar)
    requires a in g.flags && b in g.flags && a != '-' && b != '='
    requires !g.takes(['-', a]) && !g.takes(['-', b])
    ensures Parts(['-', a, b], g) == [['-', a], ['-', b]]
  {
    var flags := [a, b];
    OneFlag(b, g);
    assert ['-', a, b][1..] == flags && flags[1..] == [b];
    assert SplitFlags(flags, g) == Some([['-', a]] + [['-', b]]);
  }
}
