/** What splitting groups of short flags keeps (control/native_flags.rs):
    nothing is lost, inspecting again changes nothing, and the options that
    presence checks see are the option words of the inspected argv. */
module Inspection {
  import opened Common
  import opened CommandLine

  // ----- groups ------------------------------------------------------------

  /** The pieces of a word without their leading `-`, one after the other. */
  function Tails(parts: seq<string>): string {
    if parts == [] then ""
    else if parts[0] == "" then Tails(parts[1..])
    else parts[0][1..] + Tails(parts[1..])
  }

  /** Puts the pieces of a group back into one word. */
  function Glue(parts: seq<string>): string
    requires parts != []
  {
    if |parts| == 1 then parts[0] else "-" + Tails(parts)
  }

  /** What a group is split into: short options that split no further. */
  ghost predicate ShortPiece(part: string, g: Grammar) {
    |part| >= 2 && part[0] == '-' && part[1] != '-' && SplitFlags(part[1..], g) == Some([part])
  }

  /** How a group splits depends on the options of one letter only. */
  lemma {:induction false} SameSplit(flags: string, g: Grammar, h: Grammar)
    requires g.flags == h.flags && forall c: char :: g.takes(['-', c]) <==> h.takes(['-', c])
    ensures SplitFlags(flags, g) == SplitFlags(flags, h)
  {
    if flags != "" { SameSplit(flags[1..], g, h); }
  }

  lemma OneFlag(flag: char, g: Grammar)
    requires !g.takes(['-', flag]) && flag in g.flags
    ensures SplitFlags([flag], g) == Some([['-', flag]])
  {
    assert [flag][1..] == "";
    assert [['-', flag]] + [] == [['-', flag]];
  }

  lemma {:induction false} FlagsSplitIntoPieces(flags: string, g: Grammar)
    requires WellFormed(g) && flags != "" && SplitFlags(flags, g).Some?
    ensures var parts := SplitFlags(flags, g).value;
            && Tails(parts) == flags
            && (forall part <- parts :: ShortPiece(part, g))
            && (forall i :: 0 <= i < |parts| - 1 ==> !g.takes(parts[i]))
  {
    var name := ['-', flags[0]];
    var rest := flags[1..];
    var parts := SplitFlags(flags, g).value;
    assert name[1] == flags[0];
    if g.takes(name) || (rest != "" && rest[0] == '=') {
      var part := name + rest;
      assert part[1..] == flags && parts == [part];
    } else {
      OneFlag(flags[0], g);
      assert name[1..] == [flags[0]];
      if rest != "" {
        FlagsSplitIntoPieces(rest, g);
        assert parts[1..] == SplitFlags(rest, g).value;
      }
      assert name[1..] + Tails(parts[1..]) == flags;
    }
  }

  /** Gluing undoes splitting; every piece is final, and only the last one can
      take a value. */
  lemma PartsOfWord(word: string, g: Grammar)
    requires WellFormed(g)
    ensures var parts := Parts(word, g);
            && Glue(parts) == word
            && (forall part <- parts :: Parts(part, g) == [part])
            && (forall i :: 0 <= i < |parts| - 1 ==> !g.takes(parts[i]))
            && (!EndsOptions(word, g) ==> forall part <- parts :: !EndsOptions(part, g))
            && (Dash(word) <==> forall part <- parts :: Dash(part))
            && (word == "--" <==> parts == ["--"])
  {
    if ShortOptions(word, g).Some? {
      FlagsSplitIntoPieces(word[1..], g);
      var parts := Parts(word, g);
      forall part <- parts ensures Parts(part, g) == [part] && !EndsOptions(part, g) && Dash(part) {
        assert ShortPiece(part, g);
      }
    }
  }

  // ----- inspection --------------------------------------------------------

  /** Inspecting a word that stands alone only moves past it. */
  lemma InspectPiece(part: string, rest: seq<string>, g: Grammar)
    requires Parts(part, g) == [part] && !EndsOptions(part, g)
    ensures !g.takes(part) ==> InspectWith([part] + rest, g) == [part] + InspectWith(rest, g)
    ensures g.takes(part) && rest == [] ==> InspectWith([part] + rest, g) == [part]
    ensures g.takes(part) && rest != [] ==>
              InspectWith([part] + rest, g) == [part] + [rest[0]] + InspectWith(rest[1..], g)
  {
    var args := [part] + rest;
    assert args[1..] == rest;
    if rest != [] { assert args[2..] == rest[1..]; }
  }

  /** An argv without a group that is left to split. */
  predicate Settled(words: seq<string>, g: Grammar) {
    words == [] || EndsOptions(words[0], g) ||
    (Parts(words[0], g) == [words[0]] &&
     (if g.takes(words[0]) && |words| > 1 then Settled(words[2..], g) else Settled(words[1..], g)))
  }

  lemma SettledPiece(part: string, rest: seq<string>, g: Grammar)
    requires Parts(part, g) == [part] && !EndsOptions(part, g)
    ensures !g.takes(part) && Settled(rest, g) ==> Settled([part] + rest, g)
    ensures g.takes(part) && rest == [] ==> Settled([part] + rest, g)
    ensures g.takes(part) && rest != [] && Settled(rest[1..], g) ==> Settled([part] + rest, g)
  {
    var words := [part] + rest;
    assert words[1..] == rest;
    if rest != [] { assert words[2..] == rest[1..]; }
  }

  lemma {:induction false} SettledPieces(parts: seq<string>, rest: seq<string>, g: Grammar)
    requires parts != []
    requires forall part <- parts :: Parts(part, g) == [part] && !EndsOptions(part, g)
    requires forall i :: 0 <= i < |parts| - 1 ==> !g.takes(parts[i])
    ensures !g.takes(Last(parts)) && Settled(rest, g) ==> Settled(parts + rest, g)
    ensures g.takes(Last(parts)) && rest == [] ==> Settled(parts + rest, g)
    ensures g.takes(Last(parts)) && rest != [] && Settled(rest[1..], g) ==> Settled(parts + rest, g)
  {
    hide Settled, SplitFlags, ShortOptions;
    var more := parts[1..];
    assert parts + rest == [parts[0]] + (more + rest);
    SettledPiece(parts[0], more + rest, g);
    if more != [] {
      SettledPieces(more, rest, g);
      assert Last(more) == Last(parts);
    } else {
      assert more + rest == rest && parts == [parts[0]];
    }
  }

  lemma {:induction false} InspectionSettles(args: seq<string>, g: Grammar)
    requires WellFormed(g)
    ensures Settled(InspectWith(args, g), g)
  {
    hide SplitFlags, ShortOptions;
    if args != [] && !EndsOptions(args[0], g) {
      var parts := Parts(args[0], g);
      PartsOfWord(args[0], g);
      if Consumes(args[0], g) && |args| > 1 {
        var later := InspectWith(args[2..], g);
        InspectionSettles(args[2..], g);
        SettledPieces(parts, [args[1]] + later, g);
        Associate(parts, [args[1]], later);
        assert ([args[1]] + later)[1..] == later;
      } else {
        InspectionSettles(args[1..], g);
        SettledPieces(parts, InspectWith(args[1..], g), g);
      }
    }
  }

  lemma {:induction false} SettledIsFixed(words: seq<string>, g: Grammar)
    requires Settled(words, g)
    ensures InspectWith(words, g) == words
  {
    if words != [] && !EndsOptions(words[0], g) {
      if g.takes(words[0]) && |words| > 1 {
        SettledIsFixed(words[2..], g);
        assert [words[0]] + [words[1]] + words[2..] == words;
      } else {
        SettledIsFixed(words[1..], g);
        assert [words[0]] + words[1..] == words;
      }
    }
  }

  /** Inspecting an inspected argv by the same command changes nothing. */
  lemma InspectIsIdempotent(args: seq<string>, g: Grammar)
    requires WellFormed(g)
    ensures InspectWith(InspectWith(args, g), g) == InspectWith(args, g)
  {
    InspectionSettles(args, g);
    SettledIsFixed(InspectWith(args, g), g);
  }

  function Groups(args: seq<string>, g: Grammar): (groups: seq<seq<string>>)
    ensures |groups| == |args| && forall i :: 0 <= i < |groups| ==> groups[i] != []
  {
    if args == [] then []
    else if EndsOptions(args[0], g) then seq(|args|, i requires 0 <= i < |args| => [args[i]])
    else if Consumes(args[0], g) && |args| > 1 then
      [Parts(args[0], g), [args[1]]] + Groups(args[2..], g)
    else [Parts(args[0], g)] + Groups(args[1..], g)
  }

  function Flat(groups: seq<seq<string>>): seq<string> {
    if groups == [] then [] else groups[0] + Flat(groups[1..])
  }

  lemma {:induction false} FlatOfSingles(args: seq<string>)
    ensures Flat(seq(|args|, i requires 0 <= i < |args| => [args[i]])) == args
  {
    if args != [] {
      var singles := seq(|args|, i requires 0 <= i < |args| => [args[i]]);
      assert singles[1..] == seq(|args[1..]|, i requires 0 <= i < |args[1..]| => [args[1..][i]]);
      FlatOfSingles(args[1..]);
      assert [args[0]] + args[1..] == args;
    }
  }

  /** The inspected argv is the original one with every word replaced by the
      pieces of its group; gluing each group restores the original argv. */
  lemma {:induction false} InspectionIsLossless(args: seq<string>, g: Grammar)
    requires WellFormed(g)
    ensures Flat(Groups(args, g)) == InspectWith(args, g)
    ensures forall i :: 0 <= i < |args| ==> Glue(Groups(args, g)[i]) == args[i]
  {
    hide SplitFlags, ShortOptions, Tails;
    if args == [] {
    } else if EndsOptions(args[0], g) {
      FlatOfSingles(args);
    } else if Consumes(args[0], g) && |args| > 1 {
      PartsOfWord(args[0], g);
      InspectionIsLossless(args[2..], g);
      var groups := Groups(args, g);
      assert groups[2..] == Groups(args[2..], g) && groups[1..] == [[args[1]]] + groups[2..];
      Associate(Parts(args[0], g), [args[1]], InspectWith(args[2..], g));
    } else {
      PartsOfWord(args[0], g);
      InspectionIsLossless(args[1..], g);
      assert Groups(args, g)[1..] == Groups(args[1..], g);
    }
  }

  // ----- options -----------------------------------------------------------

  /** The option words of an inspected argv that no option consumes, up to and
      including the first `--` that is not a value. */
  function OptionWords(words: seq<string>, g: Grammar): seq<string> {
    if words == [] then []
    else if words[0] == "--" then ["--"]
    else
      (if Dash(words[0]) then [words[0]] else []) +
      (if g.takes(words[0]) && |words| > 1 then OptionWords(words[2..], g) else OptionWords(words[1..], g))
  }

  lemma OptionWordsOfOne(part: string, rest: seq<string>, g: Grammar)
    requires part != "--"
    ensures !g.takes(part) ==>
              OptionWords([part] + rest, g) == (if Dash(part) then [part] else []) + OptionWords(rest, g)
    ensures g.takes(part) && rest != [] ==>
              OptionWords([part] + rest, g) == (if Dash(part) then [part] else []) + OptionWords(rest[1..], g)
    ensures g.takes(part) && rest == [] ==> OptionWords([part] + rest, g) == (if Dash(part) then [part] else [])
  {
    var words := [part] + rest;
    assert words[1..] == rest;
    if rest != [] { assert words[2..] == rest[1..]; }
  }

  lemma {:induction false} OptionWordsOfPieces(parts: seq<string>, rest: seq<string>, g: Grammar)
    requires parts != [] && forall part <- parts :: Dash(part) && part != "--"
    requires forall i :: 0 <= i < |parts| - 1 ==> !g.takes(parts[i])
    ensures !g.takes(Last(parts)) ==> OptionWords(parts + rest, g) == parts + OptionWords(rest, g)
    ensures g.takes(Last(parts)) && rest != [] ==> OptionWords(parts + rest, g) == parts + OptionWords(rest[1..], g)
    ensures g.takes(Last(parts)) && rest == [] ==> OptionWords(parts + rest, g) == parts
  {
    hide OptionWords;
    assert parts[0] in parts;
    var more := parts[1..];
    assert parts + rest == [parts[0]] + (more + rest);
    OptionWordsOfOne(parts[0], more + rest, g);
    if more != [] {
      OptionWordsOfPieces(more, rest, g);
      assert [parts[0]] + more == parts && Last(more) == Last(parts);
    } else {
      assert more + rest == rest && parts == [parts[0]];
    }
  }

  /** `options` of a kubectl argv is exactly the option words of its
      inspection: both scanners agree on what is a consumed value. */
  lemma {:induction false} OptionsAreTheOptionWordsOfInspect(args: seq<string>, before: nat, g: Grammar)
    requires WellFormed(g) && !g.endsAtOperand
    ensures OptionsWith(args, before, g, g) == OptionWords(InspectWith(args, g), g)
  {
    hide SplitFlags, ShortOptions;
    if args != [] && args[0] != "--" {
      var parts := Parts(args[0], g);
      PartsOfWord(args[0], g);
      if !Dash(args[0]) {
        assert parts == [args[0]];
        assert !Consumes(args[0], g);
        OptionsAreTheOptionWordsOfInspect(args[1..], Earlier(before), g);
        OptionWordsOfOne(args[0], InspectWith(args[1..], g), g);
      } else if Consumes(args[0], g) && |args| > 1 {
        var later := InspectWith(args[2..], g);
        OptionsAreTheOptionWordsOfInspect(args[2..], Earlier(Earlier(before)), g);
        OptionWordsOfPieces(parts, [args[1]] + later, g);
        Associate(parts, [args[1]], later);
        assert ([args[1]] + later)[1..] == later;
      } else {
        OptionsAreTheOptionWordsOfInspect(args[1..], Earlier(before), g);
        OptionWordsOfPieces(parts, InspectWith(args[1..], g), g);
      }
    }
  }

  /** The same for the grammar that an argv's own command selects. */
  lemma KubectlOptionsAreTheOptionWordsOfInspect(args: seq<string>)
    ensures var g := RootGrammar(Kubernetes, Command(args, Kubernetes));
            OptionsOf(args, Kubernetes) == OptionWords(Inspected(args, Kubernetes), g)
  {
    hide SplitFlags, ShortOptions, TakesValueIn;
    var g := RootGrammar(Kubernetes, Command(args, Kubernetes));
    GrammarsAreWellFormed(Kubernetes, Command(args, Kubernetes));
    OptionsAreTheOptionWordsOfInspect(args, CommandBoundary(args, Kubernetes), g);
  }

  // ----- what a group stands for -------------------------------------------

  /** Flags of one letter each that take nothing. */
  predicate Flags(letters: string, g: Grammar) {
    forall i :: 0 <= i < |letters| ==> letters[i] in g.flags && !g.takes(['-', letters[i]])
  }

  function Letters(letters: string): seq<string> { if letters == "" then [] else [['-', letters[0]]] + Letters(letters[1..]) }

  /** A group is split into its flags, one word each, and an option with its
      value, whatever that is, at the end. */
  lemma {:induction false} GroupsAreSplit(letters: string, option: char, value: string, g: Grammar)
    requires WellFormed(g) && letters != "" && Flags(letters, g) && '=' !in letters
    ensures Parts(['-'] + letters, g) == Letters(letters)
    ensures g.takes(['-', option]) ==> Parts(['-'] + letters + [option] + value, g) == Letters(letters) + [['-', option] + value]
  {
    FlagsAreSplit(letters, g);
    assert letters[0] in g.flags && letters[0] != '-';
    assert (['-'] + letters)[1..] == letters;
    if g.takes(['-', option]) {
      OptionIsSplit(letters, option, value, g);
      assert (['-'] + letters + [option] + value)[1..] == letters + [option] + value;
    }
  }

  lemma {:induction false} FlagsAreSplit(letters: string, g: Grammar)
    requires Flags(letters, g) && '=' !in letters
    ensures SplitFlags(letters, g) == Some(Letters(letters))
  {
    if letters != "" { FlagsAreSplit(letters[1..], g); }
  }

  lemma {:induction false} OptionIsSplit(letters: string, option: char, value: string, g: Grammar)
    requires WellFormed(g) && Flags(letters, g) && '=' !in letters && g.takes(['-', option])
    ensures SplitFlags(letters + [option] + value, g) == Some(Letters(letters) + [['-', option] + value])
  {
    assert OptionName(['-', option]) && ['-', option][1] == option && option != '=';
    var all := letters + [option] + value;
    if letters == "" {
      assert all[0] == option && all[1..] == value;
      assert [] + [['-', option] + value] == [['-', option] + value];
    } else {
      OptionIsSplit(letters[1..], option, value, g);
      assert all[1..] == letters[1..] + [option] + value;
      assert all[1] != '=' by {
        if |letters| == 1 { assert all[1] == option; } else { assert all[1] == letters[1] && letters[1] in letters; }
      }
      assert all[0] == letters[0];
      Associate([['-', letters[0]]], Letters(letters[1..]), [['-', option] + value]);
    }
  }

  /** Behind an option of unknown arity no command is looked for, and none is
      behind one whose value is missing. */
  lemma UnknownOptionsHideTheCommand(word: string, rest: seq<string>, workspace: Workspace)
    requires Long(word) && '=' !in word && !RootValue(word, workspace) && !BareRootFlag(word)
    ensures CommandPosition([word] + rest, workspace) == None
  {
    hide RootValue, BareRootFlag, TakesValueIn;
    LongIsNoInlineValue(word, workspace);
  }

  lemma LongIsNoInlineValue(word: string, workspace: Workspace)
    requires Long(word)
    ensures !InlineRootValue(word, workspace)
  {
    hide DockerValue, KubeConnectionValue;
    if |word| > 2 {
      DockerVocabularyNamesOptions(word[..2]);
      ConnectionVocabularyNamesOptions(word[..2]);
      assert word[..2] == "--" && !OptionName(word[..2]);
    }
  }
}
