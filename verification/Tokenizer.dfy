/** The tokenizer of typed commands (control/tui_state.rs, `split_command`):
    shell quotes without expansions. */
module Tokenizer {
  import opened Common

  datatype Failure = Unfinished

  /** The variables of the scan, after some characters. */
  datatype Scanner = Scanner(words: seq<string>, word: string, quote: Option<char>, escaped: bool, started: bool)

  const FRESH := Scanner([], "", None, false, false)

  predicate Blank(c: char) { c == ' ' || c == '\t' || c == '\n' }

  predicate Quote(c: char) { c == '\'' || c == '"' }

  /** What a backslash quotes inside double quotes, besides a newline. */
  predicate Expands(c: char) { c == '$' || c == '`' || c == '"' || c == '\\' }

  function Next(s: Scanner, c: char): Scanner {
    if s.escaped then
      if c == '\n' then s.(escaped := false)
      else
        var kept := if s.quote == Some('"') && !Expands(c) then s.word + "\\" else s.word;
        s.(word := kept + [c], started := true, escaped := false)
    else if c == '\\' && s.quote != Some('\'') then s.(escaped := true)
    else if s.quote == Some(c) then s.(quote := None)
    else if s.quote.None? && Quote(c) then s.(quote := Some(c), started := true)
    else if s.quote.None? && Blank(c) then
      if s.started then s.(words := s.words + [s.word], word := "", started := false) else s
    else s.(word := s.word + [c], started := true)
  }

  function Scan(s: Scanner, text: string): Scanner
    decreases |text|
  {
    if text == "" then s else Scan(Next(s, text[0]), text[1..])
  }

  function End(s: Scanner): Result<seq<string>, Failure> {
    if s.escaped || s.quote.Some? then Err(Unfinished)
    else Ok(if s.started then s.words + [s.word] else s.words)
  }

  function Split(text: string): Result<seq<string>, Failure> { End(Scan(FRESH, text)) }

  method SplitCommand(command: string) returns (result: Result<seq<string>, Failure>)
    ensures result == Split(command)
  {
    var words: seq<string> := [];
    var word := "";
    var quote: Option<char> := None;
    var escaped, started := false, false;
    var rest := command;
    while rest != ""
      invariant Scan(Scanner(words, word, quote, escaped, started), rest) == Scan(FRESH, command)
      decreases |rest|
    {
      var c := rest[0];
      if escaped {
        if c != '\n' {
          if quote == Some('"') && !Expands(c) { word := word + "\\"; }
          word := word + [c];
          started := true;
        }
        escaped := false;
      } else if c == '\\' && quote != Some('\'') {
        escaped := true;
      } else if quote == Some(c) {
        quote := None;
      } else if quote == None && Quote(c) {
        quote := Some(c);
        started := true;
      } else if quote == None && Blank(c) {
        if started {
          words := words + [word];
          word := "";
          started := false;
        }
      } else {
        word := word + [c];
        started := true;
      }
      rest := rest[1..];
    }
    if escaped || quote.Some? { return Err(Unfinished); }
    if started { words := words + [word]; }
    return Ok(words);
  }

  // ----- what each character does ------------------------------------------

  lemma ScanOne(s: Scanner, c: char, rest: string)
    ensures Scan(s, [c] + rest) == Scan(Next(s, c), rest) && Scan(s, "") == s
  {
    assert ([c] + rest)[1..] == rest;
  }

  /** Outside quotes: blanks separate words, quotes open, a backslash quotes the
      character behind it, and everything else is part of a word. */
  lemma CharacterBetween(c: char)
    ensures Split(['a', c, 'b']) ==
      if c == ' ' || c == '\t' || c == '\n' then Ok(["a", "b"])
      else if c == '\'' || c == '"' then Err(Unfinished)
      else if c == '\\' then Ok(["ab"])
      else Ok([['a', c, 'b']])
  {
    assert ['a', c, 'b'] == ['a'] + ([c] + (['b'] + ""));
    var a := Next(FRESH, 'a');
    hide Scan;
    ScanOne(FRESH, 'a', [c] + (['b'] + ""));
    ScanOne(a, c, ['b'] + "");
    ScanOne(Next(a, c), 'b', "");
    ScanOne(Next(Next(a, c), 'b'), 'b', "");
    assert a == Scanner([], "a", None, false, true);
    var last := Next(Next(a, c), 'b');
    assert Split(['a', c, 'b']) == End(last);
    if Blank(c) {
      assert last == Scanner(["a"], "b", None, false, true) && ["a"] + ["b"] == ["a", "b"];
    } else if c == '\\' {
      assert last == Scanner([], "ab", None, false, true) && [] + ["ab"] == ["ab"];
    } else if !Quote(c) {
      assert last == Scanner([], ['a', c, 'b'], None, false, true) && [] + [['a', c, 'b']] == [['a', c, 'b']];
    }
  }

  /** Inside double quotes a backslash quotes `$`, a backtick, `"` and itself, and
      vanishes with a newline; in front of any other character it stands for
      itself. Inside single quotes it always does. */
  lemma BackslashInQuotes(s: Scanner, c: char)
    requires !s.escaped && s.quote.Some?
    ensures s.quote == Some('"') ==>
      Scan(s, ['\\', c]) ==
        if c == '\n' then s
        else if c == '$' || c == '`' || c == '"' || c == '\\' then s.(word := s.word + [c], started := true)
        else s.(word := s.word + ['\\', c], started := true)
    ensures s.quote == Some('\'') && c != '\'' ==> Scan(s, ['\\', c]) == s.(word := s.word + ['\\', c], started := true)
  {
    assert ['\\', c] == ['\\'] + ([c] + "");
    ScanOne(s, '\\', [c] + "");
    ScanOne(Next(s, '\\'), c, "");
    ScanOne(Next(Next(s, '\\'), c), c, "");
    hide Scan;
    assert s.word + ['\\'] + [c] == s.word + ['\\', c];
  }

  /** Every other character inside quotes is kept as it is, but the one that
      closes them. */
  lemma CharacterInQuotes(s: Scanner, c: char)
    requires !s.escaped && s.quote.Some? && (c != '\\' || s.quote == Some('\''))
    ensures Scan(s, [c]) == if s.quote == Some(c) then s.(quote := None) else s.(word := s.word + [c], started := true)
  {
    assert [c] == [c] + "";
    ScanOne(s, c, "");
    ScanOne(Next(s, c), c, "");
  }

  // ----- when a command is refused -----------------------------------------

  /** Every quote that is opened is closed, and no backslash is last. */
  predicate Closed(text: string, quote: Option<char>)
    decreases |text|
  {
    if text == "" then quote.None?
    else if text[0] == '\\' && quote != Some('\'') then |text| > 1 && Closed(text[2..], quote)
    else if quote == Some(text[0]) then Closed(text[1..], None)
    else if quote.None? && Quote(text[0]) then Closed(text[1..], Some(text[0]))
    else Closed(text[1..], quote)
  }

  lemma {:induction false} EndsOkWhenClosed(s: Scanner, text: string)
    requires !s.escaped
    ensures End(Scan(s, text)).Ok? <==> Closed(text, s.quote)
    decreases |text|
  {
    if text != "" {
      if text[0] == '\\' && s.quote != Some('\'') {
        if |text| > 1 {
          assert text[1..][1..] == text[2..];
          assert Scan(s, text) == Scan(Next(Next(s, text[0]), text[1]), text[2..]);
          EndsOkWhenClosed(Next(Next(s, text[0]), text[1]), text[2..]);
        } else {
          assert Scan(s, text) == Scan(Next(s, text[0]), "");
        }
      } else {
        EndsOkWhenClosed(Next(s, text[0]), text[1..]);
      }
    }
  }

  /** A command is refused exactly when a quote or an escape is left open. */
  lemma RefusedWhenOpen(text: string)
    ensures Split(text).Ok? <==> Closed(text, None)
  {
    EndsOkWhenClosed(FRESH, text);
  }

  // ----- two commands in one text ------------------------------------------

  lemma {:induction false} ScanAppends(s: Scanner, a: string, b: string)
    ensures Scan(s, a + b) == Scan(Scan(s, a), b)
    decreases |a|
  {
    if a == "" {
      assert a + b == b;
    } else {
      assert (a + b)[0] == a[0] && (a + b)[1..] == a[1..] + b;
      ScanAppends(Next(s, a[0]), a[1..], b);
    }
  }

  /** Words already found stay in front and change nothing else. */
  lemma {:induction false} EarlierWordsStay(s: Scanner, words: seq<string>, text: string)
    ensures Scan(s.(words := words + s.words), text)
         == Scan(s, text).(words := words + Scan(s, text).words)
    decreases |text|
  {
    if text != "" {
      var next := Next(s, text[0]);
      assert words + (s.words + [s.word]) == (words + s.words) + [s.word];
      assert Next(s.(words := words + s.words), text[0]) == next.(words := words + next.words);
      EarlierWordsStay(next, words, text[1..]);
    }
  }

  /** A word that has not started is empty. */
  lemma {:induction false} UnstartedWordsAreEmpty(s: Scanner, text: string)
    requires !s.started ==> s.word == ""
    ensures !Scan(s, text).started ==> Scan(s, text).word == ""
    decreases |text|
  {
    if text != "" { UnstartedWordsAreEmpty(Next(s, text[0]), text[1..]); }
  }

  /** After a command that splits and a blank, a second command adds its own
      words, and the whole fails exactly when the second one fails. */
  lemma SplitConcatenates(a: string, blank: char, b: string)
    requires Split(a).Ok? && Blank(blank)
    ensures Split(a + [blank] + b) ==
      match Split(b) case Ok(words) => Ok(Split(a).value + words) case Err(error) => Err(error)
  {
    var s := Scan(FRESH, a);
    ScanAppends(FRESH, a + [blank], b);
    ScanAppends(FRESH, a, [blank]);
    UnstartedWordsAreEmpty(FRESH, a);
    var found := Split(a).value;
    assert Scan(s, [blank]) == Next(s, blank) == FRESH.(words := found + FRESH.words);
    EarlierWordsStay(FRESH, found, b);
    var later := Scan(FRESH, b);
    assert (found + later.words) + [later.word] == found + (later.words + [later.word]);
  }

  // ----- quoting -----------------------------------------------------------

  /** A part of a word as a shell user writes it: plain characters, a text
      in single quotes, in double quotes with or without the backslashes that
      may be left out, or one character after a backslash. */
  datatype Piece =
    | Plain(text: string)
    | Single(text: string)
    | Double(text: string)
    | Loose(text: string)
    | Backslash(c: char)

  predicate Ordinary(c: char) { !Quote(c) && !Blank(c) && c != '\\' }

  predicate Writable(piece: Piece) {
    match piece
    case Plain(text) => text != "" && forall c :: c in text ==> Ordinary(c)
    case Single(text) => '\'' !in text
    case Double(_) => true
    case Loose(_) => true
    case Backslash(c) => c != '\n'
  }

  predicate AllWritable(pieces: seq<Piece>) { forall i :: 0 <= i < |pieces| ==> Writable(pieces[i]) }

  predicate WritableWords(words: seq<seq<Piece>>) {
    forall i :: 0 <= i < |words| ==> words[i] != [] && AllWritable(words[i])
  }

  function Escape(text: string): string {
    if text == "" then ""
    else (if Expands(text[0]) then ['\\', text[0]] else [text[0]]) + Escape(text[1..])
  }

  /** The same with a backslash only where a shell needs it: one that stands
      for itself is doubled only in front of what it would quote. */
  function EscapeLess(text: string): string
    decreases |text|
  {
    if text == "" then ""
    else if text[0] == '\\' && |text| > 1 && !Expands(text[1]) && text[1] != '\n' then
      ['\\', text[1]] + EscapeLess(text[2..])
    else (if Expands(text[0]) then ['\\', text[0]] else [text[0]]) + EscapeLess(text[1..])
  }

  function Written(piece: Piece): string {
    match piece
    case Plain(text) => text
    case Single(text) => "'" + text + "'"
    case Double(text) => "\"" + Escape(text) + "\""
    case Loose(text) => "\"" + EscapeLess(text) + "\""
    case Backslash(c) => ['\\', c]
  }

  function Value(piece: Piece): string { if piece.Backslash? then [piece.c] else piece.text }

  function WrittenAll(pieces: seq<Piece>): string {
    if pieces == [] then "" else Written(pieces[0]) + WrittenAll(pieces[1..])
  }

  function ValueAll(pieces: seq<Piece>): string {
    if pieces == [] then "" else Value(pieces[0]) + ValueAll(pieces[1..])
  }

  /** Inside single quotes, or among ordinary characters outside any, every
      character stands for itself. */
  lemma {:induction false} ScanLiterally(s: Scanner, text: string)
    requires !s.escaped
    requires (s.quote == Some('\'') && '\'' !in text) || (s.quote.None? && forall c :: c in text ==> Ordinary(c))
    ensures Scan(s, text) == s.(word := s.word + text, started := s.started || text != "")
    decreases |text|
  {
    if text == "" {
      assert s.word + text == s.word;
    } else {
      assert text[0] in text;
      assert Next(s, text[0]) == s.(word := s.word + [text[0]], started := true);
      ScanLiterally(Next(s, text[0]), text[1..]);
      assert (s.word + [text[0]]) + text[1..] == s.word + text;
    }
  }

  lemma ScanTwo(s: Scanner, a: char, b: char)
    ensures Scan(s, [a, b]) == Next(Next(s, a), b)
  {
    assert [a, b][1..] == [b];
    assert Scan(s, [a, b]) == Scan(Next(s, a), [b]) == Scan(Next(Next(s, a), b), "");
  }

  /** One quoted character and what follows it in the same quotes. */
  lemma ScanOneEscaped(s: Scanner, c: char, rest: string)
    requires !s.escaped && s.quote == Some('"') && s.started
    ensures Scan(s, (if Expands(c) then ['\\', c] else [c]) + rest) == Scan(s.(word := s.word + [c]), rest)
  {
    if Expands(c) {
      ScanAppends(s, ['\\', c], rest);
      ScanTwo(s, '\\', c);
    } else {
      ScanAppends(s, [c], rest);
    }
  }

  /** In double quotes a backslash in front of any other character stands for
      itself. */
  lemma ScanLiteralBackslash(s: Scanner, c: char, rest: string)
    requires !s.escaped && s.quote == Some('"') && s.started && !Expands(c) && c != '\n'
    ensures Scan(s, ['\\', c] + rest) == Scan(s.(word := s.word + ['\\', c]), rest)
  {
    ScanAppends(s, ['\\', c], rest);
    ScanTwo(s, '\\', c);
    assert s.word + "\\" + [c] == s.word + ['\\', c];
  }

  lemma {:induction false} ScanEscaped(s: Scanner, text: string)
    requires !s.escaped && s.quote == Some('"') && s.started
    ensures Scan(s, Escape(text)) == s.(word := s.word + text)
    decreases |text|
  {
    if text == "" {
      assert s.word + text == s.word;
    } else {
      ScanOneEscaped(s, text[0], Escape(text[1..]));
      ScanEscaped(s.(word := s.word + [text[0]]), text[1..]);
      assert (s.word + [text[0]]) + text[1..] == s.word + text;
    }
  }

  lemma {:induction false} ScanEscapedLess(s: Scanner, text: string)
    requires !s.escaped && s.quote == Some('"') && s.started
    ensures Scan(s, EscapeLess(text)) == s.(word := s.word + text)
    decreases |text|
  {
    hide Next;
    if text == "" {
      assert s.word + text == s.word;
    } else if text[0] == '\\' && |text| > 1 && !Expands(text[1]) && text[1] != '\n' {
      ScanLiteralBackslash(s, text[1], EscapeLess(text[2..]));
      ScanEscapedLess(s.(word := s.word + ['\\', text[1]]), text[2..]);
      assert (s.word + ['\\', text[1]]) + text[2..] == s.word + text;
    } else {
      ScanOneEscaped(s, text[0], EscapeLess(text[1..]));
      ScanEscapedLess(s.(word := s.word + [text[0]]), text[1..]);
      assert (s.word + [text[0]]) + text[1..] == s.word + text;
    }
  }

  /** A backslash at the end of a line continues it, except in single quotes. */
  lemma LineContinues(s: Scanner, rest: string)
    requires !s.escaped && s.quote != Some('\'')
    ensures Scan(s, "\\\n" + rest) == Scan(s, rest)
  {
    ScanAppends(s, "\\\n", rest);
    ScanTwo(s, '\\', '\n');
    assert "\\\n" == ['\\', '\n'];
  }

  lemma ScanPiece(s: Scanner, piece: Piece)
    requires !s.escaped && s.quote.None? && Writable(piece)
    ensures Scan(s, Written(piece)) == s.(word := s.word + Value(piece), started := true)
  {
    match piece {
      case Plain(text) => ScanLiterally(s, text);
      case Single(text) =>
        ScanAppends(s, "'" + text, "'");
        ScanAppends(s, "'", text);
        ScanLiterally(Next(s, '\''), text);
      case Double(text) =>
        ScanAppends(s, "\"" + Escape(text), "\"");
        ScanAppends(s, "\"", Escape(text));
        ScanEscaped(Next(s, '"'), text);
      case Loose(text) =>
        ScanAppends(s, "\"" + EscapeLess(text), "\"");
        ScanAppends(s, "\"", EscapeLess(text));
        ScanEscapedLess(Next(s, '"'), text);
      case Backslash(c) =>
        ScanTwo(s, '\\', c);
    }
  }

  lemma ScanPieceThen(s: Scanner, piece: Piece, rest: string)
    requires !s.escaped && s.quote.None? && Writable(piece)
    ensures Scan(s, Written(piece) + rest) == Scan(s.(word := s.word + Value(piece), started := true), rest)
  {
    ScanAppends(s, Written(piece), rest);
    ScanPiece(s, piece);
  }

  lemma {:induction false} ScanPieces(s: Scanner, pieces: seq<Piece>)
    requires !s.escaped && s.quote.None? && AllWritable(pieces)
    ensures Scan(s, WrittenAll(pieces)) == s.(word := s.word + ValueAll(pieces), started := s.started || pieces != [])
    decreases |pieces|
  {
    assert pieces == [] ==> Scan(s, "") == s;
    hide Next, Scan, Written, Value;
    if pieces == [] {
      assert s.word + "" == s.word;
    } else {
      var piece, rest := pieces[0], pieces[1..];
      var next := s.(word := s.word + Value(piece), started := true);
      ScanPieceThen(s, piece, WrittenAll(rest));
      ScanPieces(next, rest);
      Associate(s.word, Value(piece), ValueAll(rest));
    }
  }

  predicate Blanks(gap: string) { forall c :: c in gap ==> Blank(c) }

  /** The blanks before each word; only in front of the first word they may
      be missing. */
  predicate Apart(gaps: seq<string>, started: bool)
    decreases |gaps|
  {
    gaps == [] || (Blanks(gaps[0]) && (started ==> gaps[0] != "") && Apart(gaps[1..], true))
  }

  /** A command line: words, each in some way of writing it, the blanks before
      them and the blanks at the end. */
  function Line(words: seq<seq<Piece>>, gaps: seq<string>, end: string): string
    requires |gaps| == |words|
  {
    if words == [] then end else gaps[0] + WrittenAll(words[0]) + Line(words[1..], gaps[1..], end)
  }

  function Values(words: seq<seq<Piece>>): seq<string> {
    if words == [] then [] else [ValueAll(words[0])] + Values(words[1..])
  }

  lemma {:induction false} ScanGap(s: Scanner, gap: string)
    requires !s.escaped && s.quote.None? && Blanks(gap) && gap != "" && (!s.started ==> s.word == "")
    ensures Scan(s, gap) == s.(words := if s.started then s.words + [s.word] else s.words, word := "", started := false)
    decreases |gap|
  {
    assert gap[0] in gap && Blank(gap[0]);
    var next := Next(s, gap[0]);
    if |gap| > 1 { ScanGap(next, gap[1..]); }
  }

  lemma ScanEnd(s: Scanner, end: string)
    requires !s.escaped && s.quote.None? && Blanks(end) && (!s.started ==> s.word == "")
    ensures End(Scan(s, end)) == End(s)
  {
    if end != "" { ScanGap(s, end); }
  }

  lemma {:induction false} ScanLine(s: Scanner, words: seq<seq<Piece>>, gaps: seq<string>, end: string)
    requires |gaps| == |words| && Apart(gaps, s.started) && Blanks(end)
    requires WritableWords(words)
    requires !s.escaped && s.quote.None? && (!s.started ==> s.word == "")
    ensures End(Scan(s, Line(words, gaps, end))) == Ok(End(s).value + Values(words))
    decreases |words|
  {
    if words == [] {
      ScanEnd(s, end);
      assert End(s).value + [] == End(s).value;
    } else {
      var rest := Line(words[1..], gaps[1..], end);
      var next := Scanner(End(s).value, ValueAll(words[0]), None, false, true);
      ScanWord(s, gaps[0], words[0], rest);
      ScanLine(next, words[1..], gaps[1..], end);
      Associate(End(s).value, [ValueAll(words[0])], Values(words[1..]));
    }
  }

  lemma ScanWord(s: Scanner, gap: string, word: seq<Piece>, rest: string)
    requires !s.escaped && s.quote.None? && (!s.started ==> s.word == "")
    requires Blanks(gap) && (s.started ==> gap != "") && word != [] && AllWritable(word)
    ensures Scan(s, gap + WrittenAll(word) + rest)
         == Scan(Scanner(End(s).value, ValueAll(word), None, false, true), rest)
  {
    var apart := Scanner(End(s).value, "", None, false, false);
    ScanAppends(s, gap + WrittenAll(word), rest);
    ScanAppends(s, gap, WrittenAll(word));
    if gap != "" { ScanGap(s, gap); }
    assert Scan(s, gap) == apart;
    ScanPieces(apart, word);
    assert "" + ValueAll(word) == ValueAll(word);
  }

  /** Splitting undoes every way of writing a list of words. */
  lemma SplitUndoesWriting(words: seq<seq<Piece>>, gaps: seq<string>, end: string)
    requires |gaps| == |words| && Apart(gaps, false) && Blanks(end)
    requires WritableWords(words)
    ensures Split(Line(words, gaps, end)) == Ok(Values(words))
  {
    ScanLine(FRESH, words, gaps, end);
    assert End(FRESH) == Ok([]) && [] + Values(words) == Values(words);
  }

  /** A word in single quotes, with `'\''` for each single quote in it. */
  function SingleQuoted(word: string): (pieces: seq<Piece>)
    ensures pieces != [] && pieces[0].Single? && AllWritable(pieces)
  {
    if word == "" then [Single("")]
    else
      var rest := SingleQuoted(word[1..]);
      if word[0] == '\'' then [Single(""), Backslash('\'')] + rest
      else [Single([word[0]] + rest[0].text)] + rest[1..]
  }

  lemma ValueAfterTwo(a: Piece, b: Piece, rest: seq<Piece>)
    ensures ValueAll([a, b] + rest) == Value(a) + Value(b) + ValueAll(rest)
  {
    var pieces := [a, b] + rest;
    assert pieces[1..] == [b] + rest && pieces[1..][1..] == rest;
    assert ValueAll(pieces) == Value(a) + ValueAll(pieces[1..]);
    Associate(Value(a), Value(b), ValueAll(rest));
  }

  lemma {:induction false} SingleQuotedValue(word: string)
    ensures ValueAll(SingleQuoted(word)) == word
  {
    if word != "" {
      SingleQuotedValue(word[1..]);
      var rest := SingleQuoted(word[1..]);
      assert word == [word[0]] + word[1..];
      if word[0] == '\'' {
        ValueAfterTwo(Single(""), Backslash('\''), rest);
        assert "" + "'" + word[1..] == word;
      } else {
        assert SingleQuoted(word)[1..] == rest[1..];
        Associate([word[0]], rest[0].text, ValueAll(rest[1..]));
      }
    }
  }

  function DoubleQuoted(word: string): seq<Piece> { [Double(word)] }

  lemma DoubleQuotedValue(word: string)
    ensures ValueAll(DoubleQuoted(word)) == word
  {
    assert ValueAll(DoubleQuoted(word)) == word + ValueAll(DoubleQuoted(word)[1..]) == word + "";
  }

  function Spaces(n: nat): (gaps: seq<string>)
    ensures |gaps| == n && Apart(gaps, true)
  {
    if n == 0 then [] else [" "] + Spaces(n - 1)
  }

  function QuotedWord(word: string, single: bool): (pieces: seq<Piece>)
    ensures pieces != [] && AllWritable(pieces)
  {
    if single then SingleQuoted(word) else DoubleQuoted(word)
  }

  function Quoted(words: seq<string>, single: seq<bool>): (pieces: seq<seq<Piece>>)
    requires |single| == |words|
    ensures |pieces| == |words|
    ensures WritableWords(pieces)
  {
    if words == [] then []
    else
      [QuotedWord(words[0], single[0])] + Quoted(words[1..], single[1..])
  }

  lemma QuotedWordValue(word: string, single: bool)
    ensures ValueAll(QuotedWord(word, single)) == word
  {
    SingleQuotedValue(word);
    DoubleQuotedValue(word);
  }

  lemma {:induction false} QuotedValues(words: seq<string>, single: seq<bool>)
    requires |single| == |words|
    ensures Values(Quoted(words, single)) == words
  {
    if words != [] {
      hide QuotedWord, ValueAll;
      QuotedWordValue(words[0], single[0]);
      QuotedValues(words[1..], single[1..]);
      assert words == [words[0]] + words[1..];
    }
  }

  /** The words one after the other with a single space between them. */
  function Joined(words: seq<seq<Piece>>): string {
    if words == [] then "" else if |words| == 1 then WrittenAll(words[0])
    else WrittenAll(words[0]) + " " + Joined(words[1..])
  }

  lemma {:induction false} JoinedIsALine(words: seq<seq<Piece>>)
    requires words != []
    ensures Joined(words) == Line(words, [""] + Spaces(|words| - 1), "")
  {
    var gaps := [""] + Spaces(|words| - 1);
    assert gaps[1..] == Spaces(|words| - 1);
    if |words| == 1 {
      assert Line(words[1..], gaps[1..], "") == "";
      assert "" + WrittenAll(words[0]) + "" == WrittenAll(words[0]);
    } else {
      JoinedIsALine(words[1..]);
      var later := Spaces(|words| - 2);
      assert gaps[1..] == [" "] + later;
      FirstGap(words[1..], later);
      assert "" + WrittenAll(words[0]) == WrittenAll(words[0]);
      Associate(WrittenAll(words[0]), " ", Joined(words[1..]));
    }
  }

  lemma FirstGap(words: seq<seq<Piece>>, gaps: seq<string>)
    requires words != [] && |gaps| == |words| - 1
    ensures Line(words, [" "] + gaps, "") == " " + Line(words, [""] + gaps, "")
  {
    assert ([" "] + gaps)[1..] == gaps && ([""] + gaps)[1..] == gaps;
    var rest := Line(words[1..], gaps, "");
    Associate(" ", WrittenAll(words[0]), rest);
    assert "" + WrittenAll(words[0]) + rest == WrittenAll(words[0]) + rest;
  }

  /** Every list of words comes back, whichever words are in single quotes
      and whichever in double quotes. */
  lemma SplitUndoesQuoting(words: seq<string>, single: seq<bool>)
    requires |single| == |words|
    ensures Split(Joined(Quoted(words, single))) == Ok(words)
  {
    var quoted := Quoted(words, single);
    QuotedValues(words, single);
    if words == [] {
      assert Split("") == Ok([]);
    } else {
      JoinedIsALine(quoted);
      var gaps := [""] + Spaces(|words| - 1);
      assert gaps[1..] == Spaces(|words| - 1);
      SplitUndoesWriting(quoted, gaps, "");
    }
  }
}
