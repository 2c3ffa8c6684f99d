/** Wrapping styled text at spaces (control/tui_state.rs, `wrap_words`). */
module WordWrap {
  import opened Common

  /** A character on the screen and its style. */
  datatype Cell<S> = Cell(c: char, style: S)

  datatype Span<S> = Span(text: string, style: S)

  /** One row of the text: its first cell and the cell behind its last. */
  datatype Row = Row(from: nat, to: nat)

  // ----- the cells of a line -----------------------------------------------

  predicate Control(c: char) { c < ' ' || '\U{7F}' <= c <= '\U{9F}' }

  function CellsOfText<S>(text: string, style: S): seq<Cell<S>> {
    if text == "" then []
    else [Cell(if Control(text[0]) then ' ' else text[0], style)] + CellsOfText(text[1..], style)
  }

  function Cells<S>(line: seq<Span<S>>): seq<Cell<S>> {
    if line == [] then [] else CellsOfText(line[0].text, line[0].style) + Cells(line[1..])
  }

  /** The width of some cells; `size` is the width of a character. */
  function Sum<S>(cells: seq<Cell<S>>, from: nat, to: nat, size: char -> nat): nat
    requires from <= to <= |cells|
    decreases |cells| - from
  {
    if from == to then 0 else size(cells[from].c) + Sum(cells, from + 1, to, size)
  }

  // ----- one row -----------------------------------------------------------

  /** The first cell that no longer fits behind `used` columns. */
  function Fill<S>(cells: seq<Cell<S>>, at: nat, used: nat, width: nat, size: char -> nat): (end: nat)
    requires at <= |cells|
    ensures at <= end <= |cells|
    decreases |cells| - at
  {
    if at < |cells| && used + size(cells[at].c) <= width then Fill(cells, at + 1, used + size(cells[at].c), width, size)
    else at
  }

  /** The last space in a range of cells. */
  function LastSpace<S>(cells: seq<Cell<S>>, low: nat, high: nat): (space: Option<nat>)
    requires high < |cells|
    ensures space.Some? ==> low <= space.value <= high && cells[space.value].c == ' '
    ensures forall i :: low <= i <= high && (space.Some? ==> i > space.value) ==> cells[i].c != ' '
    decreases high
  {
    if high < low then None
    else if cells[high].c == ' ' then Some(high)
    else if high == 0 then None else LastSpace(cells, low, high - 1)
  }

  /** The row that starts here, and where the next one starts: behind the
      space at which the row was broken, or right behind the row. */
  function NextRow<S>(cells: seq<Cell<S>>, start: nat, width: nat, size: char -> nat): (r: (nat, nat))
    requires start < |cells|
    ensures start < r.0 <= r.1 <= |cells| && (r.1 == r.0 || (r.1 == r.0 + 1 && cells[r.0].c == ' '))
  {
    var end := Fill(cells, start, 0, width, size);
    if end == |cells| then (end, end)
    else
      match LastSpace(cells, start + 1, end)
      case Some(space) => (space, space + 1)
      case None => if end > start then (end, end) else (start + 1, start + 1)
  }

  function RowsFrom<S>(cells: seq<Cell<S>>, start: nat, width: nat, size: char -> nat): seq<Row>
    requires start <= |cells|
    decreases |cells| - start
  {
    if start == |cells| then []
    else
      var (to, next) := NextRow(cells, start, width, size);
      [Row(start, to)] + RowsFrom(cells, next, width, size)
  }

  // ----- rows of spans -----------------------------------------------------

  /** What `Spans` does with one more cell. */
  function Added<S(==)>(spans: seq<Span<S>>, cell: Cell<S>): seq<Span<S>> {
    if spans != [] && spans[|spans| - 1].style == cell.style then
      spans[..|spans| - 1] + [Span(spans[|spans| - 1].text + [cell.c], cell.style)]
    else spans + [Span([cell.c], cell.style)]
  }

  /** The spans of a row: neighbours of one style share a span. */
  function Spans<S(==)>(row: seq<Cell<S>>): seq<Span<S>> {
    if row == [] then []
    else
      Added(Spans(row[..|row| - 1]), row[|row| - 1])
  }

  function SpansOf<S(==)>(cells: seq<Cell<S>>, rows: seq<Row>): seq<seq<Span<S>>>
    requires forall i :: 0 <= i < |rows| ==> rows[i].from <= rows[i].to <= |cells|
  {
    if rows == [] then [] else [Spans(cells[rows[0].from..rows[0].to])] + SpansOf(cells, rows[1..])
  }

  lemma {:induction false} RowsAreInside<S>(cells: seq<Cell<S>>, start: nat, width: nat, size: char -> nat)
    requires start <= |cells|
    ensures forall i :: 0 <= i < |RowsFrom(cells, start, width, size)| ==>
      var row := RowsFrom(cells, start, width, size)[i]; row.from < row.to <= |cells|
    decreases |cells| - start
  {
    if start < |cells| { RowsAreInside(cells, NextRow(cells, start, width, size).1, width, size); }
  }

  /** Spans hold exactly the characters and styles of the row, and no span is
      empty or of the style of its neighbour. */
  predicate Merged<S(==)>(spans: seq<Span<S>>) {
    && (forall i :: 0 <= i < |spans| ==> spans[i].text != "")
    && (forall i :: 0 < i < |spans| ==> spans[i - 1].style != spans[i].style)
  }

  function Plain<S>(text: string, style: S): seq<Cell<S>> {
    if text == "" then [] else Plain(text[..|text| - 1], style) + [Cell(text[|text| - 1], style)]
  }

  function CellsOfSpans<S>(spans: seq<Span<S>>): seq<Cell<S>> {
    if spans == [] then []
    else CellsOfSpans(spans[..|spans| - 1]) + Plain(spans[|spans| - 1].text, spans[|spans| - 1].style)
  }

  lemma AddedKeepsCells<S>(spans: seq<Span<S>>, cell: Cell<S>)
    requires Merged(spans)
    ensures CellsOfSpans(Added(spans, cell)) == CellsOfSpans(spans) + [cell] && Merged(Added(spans, cell))
  {
    var after := Added(spans, cell);
    var last := after[|after| - 1];
    assert last.text[|last.text| - 1] == cell.c;
    if spans != [] && spans[|spans| - 1].style == cell.style {
      var was := spans[|spans| - 1];
      assert after[..|after| - 1] == spans[..|spans| - 1] && last.text[..|last.text| - 1] == was.text;
      assert Plain(last.text, cell.style) == Plain(was.text, cell.style) + [cell];
      Associate(CellsOfSpans(spans[..|spans| - 1]), Plain(was.text, cell.style), [cell]);
    } else {
      assert after[..|after| - 1] == spans && last.text[..0] == "";
      assert Plain(last.text, cell.style) == [] + [cell] == [cell];
    }
  }

  /** The spans of a row are its characters in their styles. */
  lemma {:induction false} SpansKeepCells<S>(row: seq<Cell<S>>)
    ensures CellsOfSpans(Spans(row)) == row && Merged(Spans(row))
  {
    if row != [] {
      hide Merged, CellsOfSpans, Added;
      SpansKeepCells(row[..|row| - 1]);
      AddedKeepsCells(Spans(row[..|row| - 1]), row[|row| - 1]);
      assert row == row[..|row| - 1] + [row[|row| - 1]];
    } else {
      assert CellsOfSpans<S>([]) == [];
    }
  }

  lemma RowsStep<S>(cells: seq<Cell<S>>, start: nat, width: nat, size: char -> nat)
    requires start < |cells|
    ensures var end := Fill(cells, start, 0, width, size);
      var space := if end < |cells| then LastSpace(cells, start + 1, end) else None;
      RowsFrom(cells, start, width, size) ==
        if space.Some? then [Row(start, space.value)] + RowsFrom(cells, space.value + 1, width, size)
        else if end == start then [Row(start, start + 1)] + RowsFrom(cells, start + 1, width, size)
        else [Row(start, end)] + RowsFrom(cells, end, width, size)
  {
    hide Fill, LastSpace;
  }

  method BreakRows<S>(cells: seq<Cell<S>>, width: nat, size: char -> nat) returns (rows: seq<Row>)
    ensures rows == RowsFrom(cells, 0, width, size)
  {
    hide Fill, LastSpace, RowsFrom, NextRow;
    ghost var all := RowsFrom(cells, 0, width, size);
    assert [] + all == all;
    rows := [];
    var start: nat := 0;
    while start < |cells|
      invariant 0 <= start <= |cells|
      invariant rows + RowsFrom(cells, start, width, size) == all
      decreases |cells| - start
    {
      RowsStep(cells, start, width, size);
      var end: nat, used: nat := start, 0;
      while end < |cells| && used + size(cells[end].c) <= width
        invariant start <= end <= |cells|
        invariant Fill(cells, end, used, width, size) == Fill(cells, start, 0, width, size)
      {
        FillStep(cells, end, used, width, size);
        used := used + size(cells[end].c);
        end := end + 1;
      }
      FillStep(cells, end, used, width, size);
      if end < |cells| {
        var space := LastSpace(cells, start + 1, end);
        if space.Some? {
          Associate(rows, [Row(start, space.value)], RowsFrom(cells, space.value + 1, width, size));
          rows := rows + [Row(start, space.value)];
          start := space.value + 1;
          continue;
        }
        if end == start { end := start + 1; }
      }
      Associate(rows, [Row(start, end)], RowsFrom(cells, end, width, size));
      rows := rows + [Row(start, end)];
      start := end;
    }
    NoRowsLeft(cells, width, size);
    assert rows + [] == rows;
  }

  lemma NoRowsLeft<S>(cells: seq<Cell<S>>, width: nat, size: char -> nat)
    ensures RowsFrom(cells, |cells|, width, size) == []
  {
  }

  /** The wrapped line; an empty one is one empty row. */
  method WrapWords<S(==)>(line: seq<Span<S>>, width: nat, size: char -> nat) returns (wrapped: seq<seq<Span<S>>>)
    ensures var cells := Cells(line); var rows := RowsFrom(cells, 0, if width > 1 then width else 1, size);
      && (forall i :: 0 <= i < |rows| ==> rows[i].from <= rows[i].to <= |cells|)
      && wrapped == if rows == [] then [[]] else SpansOf(cells, rows)
  {
    var columns := if width > 1 then width else 1;
    var cells := Cells(line);
    RowsAreInside(cells, 0, columns, size);
    hide *;
    var rows := BreakRows(cells, columns, size);
    if rows == [] { return [[]]; }
    wrapped := SpansOfRows(cells, rows);
  }

  method SpansOfRows<S(==)>(cells: seq<Cell<S>>, rows: seq<Row>) returns (wrapped: seq<seq<Span<S>>>)
    requires forall i :: 0 <= i < |rows| ==> rows[i].from <= rows[i].to <= |cells|
    ensures wrapped == SpansOf(cells, rows)
  {
    hide Spans;
    wrapped := [];
    var i := 0;
    assert rows[0..] == rows && [] + SpansOf(cells, rows) == SpansOf(cells, rows);
    while i < |rows|
      invariant 0 <= i <= |rows|
      invariant wrapped + SpansOf(cells, rows[i..]) == SpansOf(cells, rows)
    {
      var row := SpansOfRow(cells[rows[i].from..rows[i].to]);
      assert rows[i..][1..] == rows[i + 1..];
      Associate(wrapped, [row], SpansOf(cells, rows[i + 1..]));
      wrapped := wrapped + [row];
      i := i + 1;
    }
    assert wrapped + [] == wrapped;
  }

  lemma FillStep<S>(cells: seq<Cell<S>>, at: nat, used: nat, width: nat, size: char -> nat)
    requires at <= |cells|
    ensures Fill(cells, at, used, width, size) ==
      if at < |cells| && used + size(cells[at].c) <= width then Fill(cells, at + 1, used + size(cells[at].c), width, size) else at
  {
  }

  lemma SpansOneMore<S>(row: seq<Cell<S>>, i: nat)
    requires i < |row|
    ensures Spans(row[..i + 1]) == Added(Spans(row[..i]), row[i]) && Spans<S>([]) == []
  {
    assert row[..i + 1][..i] == row[..i] && row[..i + 1][i] == row[i];
  }

  method SpansOfRow<S(==)>(row: seq<Cell<S>>) returns (spans: seq<Span<S>>)
    ensures spans == Spans(row)
  {
    spans := [];
    var i := 0;
    while i < |row|
      invariant 0 <= i <= |row| && spans == Spans(row[..i])
    {
      var cell := row[i];
      SpansOneMore(row, i);
      hide Spans;
      if spans != [] && spans[|spans| - 1].style == cell.style {
        spans := spans[..|spans| - 1] + [Span(spans[|spans| - 1].text + [cell.c], cell.style)];
      } else {
        spans := spans + [Span([cell.c], cell.style)];
      }
      i := i + 1;
    }
    assert row[..i] == row;
  }

  // ----- sums --------------------------------------------------------------

  lemma {:induction false} SumSplits<S>(cells: seq<Cell<S>>, from: nat, middle: nat, to: nat, size: char -> nat)
    requires from <= middle <= to <= |cells|
    ensures Sum(cells, from, to, size) == Sum(cells, from, middle, size) + Sum(cells, middle, to, size)
    decreases middle - from
  {
    if from < middle { SumSplits(cells, from + 1, middle, to, size); }
  }

  lemma SumOfOne<S>(cells: seq<Cell<S>>, i: nat, size: char -> nat)
    requires i < |cells|
    ensures Sum(cells, i, i + 1, size) == size(cells[i].c)
  {
    assert Sum(cells, i + 1, i + 1, size) == 0;
  }

  lemma WiderRange<S>(cells: seq<Cell<S>>, from: nat, a: nat, b: nat, to: nat, size: char -> nat)
    requires from <= a <= b <= to <= |cells|
    ensures Sum(cells, a, b, size) <= Sum(cells, from, to, size)
  {
    SumSplits(cells, from, a, to, size);
    SumSplits(cells, a, b, to, size);
  }

  lemma {:induction false} Filled<S>(cells: seq<Cell<S>>, at: nat, used: nat, width: nat, size: char -> nat)
    requires at <= |cells| && used <= width
    ensures var end := Fill(cells, at, used, width, size);
      && used + Sum(cells, at, end, size) <= width
      && (end < |cells| ==> used + Sum(cells, at, end + 1, size) > width)
    decreases |cells| - at
  {
    if at < |cells| && used + size(cells[at].c) <= width {
      Filled(cells, at + 1, used + size(cells[at].c), width, size);
    } else if at < |cells| {
      assert Sum(cells, at, at + 1, size) == size(cells[at].c) + Sum(cells, at + 1, at + 1, size);
    }
  }

  // ----- no row is too wide, and nothing is lost ---------------------------

  predicate Fits<S>(cells: seq<Cell<S>>, row: Row, width: nat, size: char -> nat)
    requires row.from <= row.to <= |cells|
  {
    || Sum(cells, row.from, row.to, size) <= width
    || (row.to == row.from + 1 && size(cells[row.from].c) > width)
  }

  lemma RowFits<S>(cells: seq<Cell<S>>, start: nat, width: nat, size: char -> nat)
    requires start < |cells|
    ensures Fits(cells, Row(start, NextRow(cells, start, width, size).0), width, size)
  {
    var end, to := Fill(cells, start, 0, width, size), NextRow(cells, start, width, size).0;
    Filled(cells, start, 0, width, size);
    if to <= end {
      WiderRange(cells, start, start, to, end, size);
    } else {
      assert Sum(cells, start, start + 1, size) == size(cells[start].c) + Sum(cells, start + 1, start + 1, size);
    }
  }

  predicate AllFit<S>(cells: seq<Cell<S>>, rows: seq<Row>, width: nat, size: char -> nat) {
    forall row :: row in rows ==> row.from < row.to <= |cells| && Fits(cells, row, width, size)
  }

  /** Every row fits the width unless it is one character that does not. */
  lemma {:induction false} RowsFit<S>(cells: seq<Cell<S>>, start: nat, width: nat, size: char -> nat)
    requires start <= |cells|
    ensures AllFit(cells, RowsFrom(cells, start, width, size), width, size)
    decreases |cells| - start
  {
    if start < |cells| {
      hide Fits, NextRow;
      var (to, next) := NextRow(cells, start, width, size);
      RowFits(cells, start, width, size);
      RowsFit(cells, next, width, size);
      var rest, rows := RowsFrom(cells, next, width, size), RowsFrom(cells, start, width, size);
      assert rows == [Row(start, to)] + rest;
    }
  }

  /** The rows follow each other; between two of them, or behind the last one,
      at most one space is dropped. */
  predicate Tiles<S>(cells: seq<Cell<S>>, start: nat, rows: seq<Row>)
    decreases |rows|
  {
    if rows == [] then start == |cells|
    else
      && rows[0].from == start < rows[0].to <= |cells|
      && var dropped := rows[0].to < |cells| && (if |rows| > 1 then rows[1].from == rows[0].to + 1 else true);
      && (dropped ==> cells[rows[0].to].c == ' ')
      && Tiles(cells, if dropped then rows[0].to + 1 else rows[0].to, rows[1..])
  }

  lemma {:induction false} RowsTile<S>(cells: seq<Cell<S>>, start: nat, width: nat, size: char -> nat)
    requires start <= |cells|
    ensures Tiles(cells, start, RowsFrom(cells, start, width, size))
    decreases |cells| - start
  {
    if start < |cells| {
      hide Fill, LastSpace;
      var (to, next) := NextRow(cells, start, width, size);
      RowsTile(cells, next, width, size);
      var rows := RowsFrom(cells, start, width, size);
      assert rows[1..] == RowsFrom(cells, next, width, size);
      if |rows| > 1 { assert rows[1] == RowsFrom(cells, next, width, size)[0]; }
    }
  }

  // ----- words that are broken inside --------------------------------------

  predicate Space<S>(cells: seq<Cell<S>>, i: nat) { i < |cells| && cells[i].c == ' ' }

  /** No space leads the text, and no two follow each other. */
  ghost predicate Neat<S>(cells: seq<Cell<S>>) {
    !Space(cells, 0) && forall i: nat :: Space(cells, i) ==> !Space(cells, i + 1)
  }

  ghost predicate Word<S>(cells: seq<Cell<S>>, a: nat, b: nat) {
    && a < b <= |cells| && (a > 0 ==> Space(cells, a - 1)) && (b < |cells| ==> Space(cells, b))
    && forall i: nat :: a <= i < b ==> !Space(cells, i)
  }

  /** Whether a row starts at `at`, for the rows from `from` on. */
  predicate Starts<S>(cells: seq<Cell<S>>, from: nat, at: nat, width: nat, size: char -> nat)
    decreases if from < |cells| then |cells| - from else 0
  {
    from == at || (from < |cells| && Starts(cells, NextRow(cells, from, width, size).1, at, width, size))
  }

  /** A row ends at `e` inside the text without dropping a space. */
  ghost predicate CutAt<S>(cells: seq<Cell<S>>, e: nat, width: nat, size: char -> nat) {
    exists s: nat :: s < |cells| && Starts(cells, 0, s, width, size) && NextRow(cells, s, width, size) == (e, e)
  }

  /** A word that would fit a row of its own is broken between two rows. */
  ghost predicate FittingWordIsCut<S>(cells: seq<Cell<S>>, a: nat, b: nat, e: nat, width: nat, size: char -> nat) {
    Word(cells, a, b) && a < e < b && Sum(cells, a, b, size) <= width && CutAt(cells, e, width, size)
  }

  /** A character wider than a row, a space, and a word that fills a row
      exactly but leaves room for the space and its own first character. */
  ghost predicate Trap<S>(cells: seq<Cell<S>>, p: nat, q: nat, width: nat, size: char -> nat) {
    && p + 2 < q <= |cells| && size(cells[p].c) > width && Space(cells, p + 1) && Word(cells, p + 2, q)
    && Sum(cells, p + 2, q, size) == width && 1 + size(cells[p + 2].c) <= width
  }

  /** A row starts with a word, or behind a character that is too wide. */
  predicate CleanStart<S>(cells: seq<Cell<S>>, s: nat, width: nat, size: char -> nat) {
    s < |cells| ==> !Space(cells, s) || (s > 0 && size(cells[s - 1].c) > width)
  }

  lemma NextStartIsClean<S>(cells: seq<Cell<S>>, s: nat, width: nat, size: char -> nat)
    requires Neat(cells) && s < |cells| && width >= 1
    ensures CleanStart(cells, NextRow(cells, s, width, size).1, width, size)
  {
    var (to, next) := NextRow(cells, s, width, size);
    Filled(cells, s, 0, width, size);
    if next == to + 1 {
      assert Space(cells, to);
    } else if next < |cells| && Fill(cells, s, 0, width, size) == s {
      assert Sum(cells, s, s + 1, size) == size(cells[s].c) + Sum(cells, s + 1, s + 1, size);
    }
  }

  lemma {:induction false} StartsAreClean<S>(cells: seq<Cell<S>>, from: nat, at: nat, width: nat, size: char -> nat)
    requires Neat(cells) && width >= 1 && CleanStart(cells, from, width, size) && Starts(cells, from, at, width, size)
    ensures CleanStart(cells, at, width, size)
    decreases if from < |cells| then |cells| - from else 0
  {
    if from != at {
      hide NextRow, CleanStart, Neat;
      NextStartIsClean(cells, from, width, size);
      StartsAreClean(cells, NextRow(cells, from, width, size).1, at, width, size);
    }
  }

  /** What a cut says of its row: no space after its first cell, and too wide
      with the next cell. */
  lemma CutRow<S>(cells: seq<Cell<S>>, s: nat, e: nat, width: nat, size: char -> nat)
    requires s < |cells| && e < |cells| && NextRow(cells, s, width, size) == (e, e)
    ensures Sum(cells, s, e + 1, size) > width && (Sum(cells, s, e, size) <= width || e == s + 1)
    ensures Sum(cells, s, e, size) <= width ==> forall i: nat :: s < i <= e ==> !Space(cells, i)
  {
    var end := Fill(cells, s, 0, width, size);
    Filled(cells, s, 0, width, size);
    if end == s {
      assert Sum(cells, s, s + 1, size) == size(cells[s].c) + Sum(cells, s + 1, s + 1, size);
      WiderRange(cells, s, s, s + 1, e + 1, size);
    }
  }

  /** A row that starts with a word is cut only inside a word that is wider
      than a row. */
  lemma WordStartCut<S>(cells: seq<Cell<S>>, a: nat, b: nat, s: nat, e: nat, width: nat, size: char -> nat)
    requires s < e < |cells| && !Space(cells, s) && NextRow(cells, s, width, size) == (e, e)
    requires Word(cells, a, b) && a < e < b
    ensures Sum(cells, a, b, size) > width
  {
    hide NextRow;
    CutRow(cells, s, e, width, size);
    if a <= s { WiderRange(cells, a, s, e + 1, b, size); }
  }

  /** Behind a space at the start of a row, the word that is cut is the first. */
  lemma SpaceStartCut<S>(cells: seq<Cell<S>>, a: nat, b: nat, s: nat, e: nat, width: nat, size: char -> nat)
    requires s < e < |cells| && Space(cells, s) && NextRow(cells, s, width, size) == (e, e)
    requires Word(cells, a, b) && a < e < b && width >= 1 && size(' ') == 1
    ensures a == s + 1 && 1 + Sum(cells, a, b, size) > width && 1 + size(cells[a].c) <= width
  {
    hide NextRow;
    CutRow(cells, s, e, width, size);
    assert !Space(cells, e - 1);
    assert e > s + 1;
    assert a == s + 1 by {
      assert a > s by { assert a <= s < b ==> !Space(cells, s); }
      assert Space(cells, a - 1);
    }
    WiderRange(cells, a, a, e + 1, b, size);
    WiderRange(cells, s + 1, s + 1, s + 2, e, size);
    SumOfOne(cells, s + 1, size);
  }

  lemma CutNeedsTrap<S>(cells: seq<Cell<S>>, a: nat, b: nat, s: nat, e: nat, width: nat, size: char -> nat)
    requires width >= 1 && size(' ') == 1
    requires Word(cells, a, b) && a < e < b && Sum(cells, a, b, size) <= width
    requires s < |cells| && CleanStart(cells, s, width, size) && NextRow(cells, s, width, size) == (e, e)
    ensures s > 0 && Trap(cells, s - 1, b, width, size)
  {
    if !Space(cells, s) {
      WordStartCut(cells, a, b, s, e, width, size);
    } else {
      hide NextRow;
      SpaceStartCut(cells, a, b, s, e, width, size);
    }
  }

  // ----- every trap springs ------------------------------------------------

  /** A character that is too wide always starts a row. */
  lemma {:induction false} WideStarts<S>(cells: seq<Cell<S>>, from: nat, p: nat, width: nat, size: char -> nat)
    requires from <= p < |cells| && size(cells[p].c) > width >= size(' ')
    ensures Starts(cells, from, p, width, size)
    decreases p - from
  {
    if from < p {
      var (to, next) := NextRow(cells, from, width, size);
      NextIsNotBeyond(cells, from, p, width, size);
      hide NextRow;
      WideStarts(cells, next, p, width, size);
    }
  }

  lemma NextIsNotBeyond<S>(cells: seq<Cell<S>>, from: nat, p: nat, width: nat, size: char -> nat)
    requires from < p < |cells| && size(cells[p].c) > width >= size(' ')
    ensures NextRow(cells, from, width, size).1 <= p
  {
    Filled(cells, from, 0, width, size);
    SumOfOne(cells, p, size);
    var end := Fill(cells, from, 0, width, size);
    if end > p { WiderRange(cells, from, p, p + 1, end, size); }
  }

  lemma {:induction false} StartsThenNext<S>(cells: seq<Cell<S>>, from: nat, s: nat, width: nat, size: char -> nat)
    requires Starts(cells, from, s, width, size) && s < |cells|
    ensures Starts(cells, from, NextRow(cells, s, width, size).1, width, size)
    decreases if from < |cells| then |cells| - from else 0
  {
    if from != s {
      hide NextRow;
      StartsThenNext(cells, NextRow(cells, from, width, size).1, s, width, size);
    }
  }

  lemma TrapSprings<S>(cells: seq<Cell<S>>, p: nat, q: nat, width: nat, size: char -> nat) returns (e: nat)
    requires width >= 1 && size(' ') == 1 && Trap(cells, p, q, width, size)
    ensures FittingWordIsCut(cells, p + 2, q, e, width, size)
  {
    WideStarts(cells, 0, p, width, size);
    WideRow(cells, p, width, size);
    StartsThenNext(cells, 0, p, width, size);
    e := TrapRow(cells, p, q, width, size);
    assert CutAt(cells, e, width, size);
  }

  lemma WideRow<S>(cells: seq<Cell<S>>, p: nat, width: nat, size: char -> nat)
    requires p < |cells| && size(cells[p].c) > width
    ensures NextRow(cells, p, width, size) == (p + 1, p + 1)
  {
  }

  lemma TrapRow<S>(cells: seq<Cell<S>>, p: nat, q: nat, width: nat, size: char -> nat) returns (e: nat)
    requires width >= 1 && size(' ') == 1 && Trap(cells, p, q, width, size)
    ensures p + 2 < e < q && NextRow(cells, p + 1, width, size) == (e, e)
  {
    var s := p + 1;
    e := Fill(cells, s, 0, width, size);
    Filled(cells, s, 0, width, size);
    assert Sum(cells, s, q, size) == 1 + Sum(cells, s + 1, q, size);
    if e >= q { WiderRange(cells, s, s, q, e, size); }
    FillStep(cells, s, 0, width, size);
    FillStep(cells, s + 1, 1, width, size);
    assert forall i: nat :: s + 1 <= i <= e ==> !Space(cells, i);
    var space := LastSpace(cells, s + 1, e);
    assert space.Some? ==> Space(cells, space.value);
  }

  /** In text without leading or doubled spaces, a word that fits a row is
      broken exactly when it stands in a trap. Without a character wider than
      the row there is none. */
  lemma WordsAreBrokenOnlyInTraps<S>(cells: seq<Cell<S>>, width: nat, size: char -> nat)
    requires Neat(cells) && width >= 1 && size(' ') == 1
    ensures (exists a: nat, b: nat, e: nat :: FittingWordIsCut(cells, a, b, e, width, size))
       <==> (exists p: nat, q: nat :: Trap(cells, p, q, width, size))
  {
    hide Trap, Neat, Word;
    if a: nat, b: nat, e: nat :| FittingWordIsCut(cells, a, b, e, width, size) {
      var s: nat :| s < |cells| && Starts(cells, 0, s, width, size) && NextRow(cells, s, width, size) == (e, e);
      assert CleanStart(cells, 0, width, size) by { FirstStartIsClean(cells, width, size); }
      StartsAreClean(cells, 0, s, width, size);
      CutNeedsTrap(cells, a, b, s, e, width, size);
    }
    if p: nat, q: nat :| Trap(cells, p, q, width, size) {
      var e := TrapSprings(cells, p, q, width, size);
    }
  }

  lemma FirstStartIsClean<S>(cells: seq<Cell<S>>, width: nat, size: char -> nat)
    requires Neat(cells)
    ensures CleanStart(cells, 0, width, size)
  {
  }

  /** With characters of at most the row's width, every word that fits a row
      stays whole. */
  lemma WordsStayWhole<S>(cells: seq<Cell<S>>, a: nat, b: nat, e: nat, width: nat, size: char -> nat)
    requires Neat(cells) && width >= 1 && size(' ') == 1
    requires forall i :: 0 <= i < |cells| ==> size(cells[i].c) <= width
    ensures !FittingWordIsCut(cells, a, b, e, width, size)
  {
    WordsAreBrokenOnlyInTraps(cells, width, size);
    forall p: nat, q: nat ensures !Trap(cells, p, q, width, size) { }
  }

  /** A row starts where one of the rows does. */
  lemma {:induction false} StartsAreRows<S>(cells: seq<Cell<S>>, from: nat, at: nat, width: nat, size: char -> nat)
    requires from <= |cells| && at < |cells|
    ensures Starts(cells, from, at, width, size) <==>
      exists to: nat :: Row(at, to) in RowsFrom(cells, from, width, size)
    ensures Starts(cells, from, at, width, size) ==>
      Row(at, NextRow(cells, at, width, size).0) in RowsFrom(cells, from, width, size)
    decreases |cells| - from
  {
    if from < |cells| {
      hide NextRow;
      var (to, next) := NextRow(cells, from, width, size);
      StartsAreRows(cells, next, at, width, size);
      assert RowsFrom(cells, from, width, size) == [Row(from, to)] + RowsFrom(cells, next, width, size);
    }
  }

  function Unstyled(text: string): seq<Cell<bool>> { seq(|text|, i requires 0 <= i < |text| => Cell(text[i], false)) }

  /** A character of two columns, a space, and an `a` under a combining accent
      that is typed before it: in rows of one column the word is cut behind the
      accent, although it fits a row. */
  lemma AFittingWordIsBroken(size: char -> nat) returns (e: nat)
    requires size('\U{4E16}') == 2 && size(' ') == 1 && size('\U{301}') == 0 && size('a') == 1
    ensures Neat(Unstyled("\U{4E16} \U{301}a")) && FittingWordIsCut(Unstyled("\U{4E16} \U{301}a"), 2, 4, e, 1, size)
  {
    var cells := Unstyled("\U{4E16} \U{301}a");
    assert Space(cells, 1) && !Space(cells, 0) && !Space(cells, 2) && !Space(cells, 3);
    assert Sum(cells, 4, 4, size) == 0 && Sum(cells, 3, 4, size) == 1 && Sum(cells, 2, 4, size) == 1;
    assert Trap(cells, 0, 4, 1, size);
    e := TrapSprings(cells, 0, 4, 1, size);
  }

  // ----- rows are as full as they can be -----------------------------------

  /** A row ends with the text, or no later space is in reach; where it is
      broken inside a word, no space and no further character is, or its one
      character is itself too wide. */
  predicate Full<S>(cells: seq<Cell<S>>, row: Row, next: nat, width: nat, size: char -> nat)
    requires row.from <= row.to <= next <= |cells|
  {
    row.to == |cells| ||
    (&& Sum(cells, row.from, |cells|, size) > width
     && (forall space :: row.to < space < |cells| && cells[space].c == ' ' ==> Sum(cells, row.from, space, size) > width)
     && (if next > row.to then cells[row.to].c == ' '
         else
           || (row.to == row.from + 1 && Sum(cells, row.from, row.to, size) > width)
           || ((forall i :: row.from < i <= row.to ==> cells[i].c != ' ') && Sum(cells, row.from, row.to + 1, size) > width)))
  }

  lemma RowIsFull<S>(cells: seq<Cell<S>>, start: nat, width: nat, size: char -> nat)
    requires start < |cells|
    ensures var (to, next) := NextRow(cells, start, width, size); Full(cells, Row(start, to), next, width, size)
  {
    var end := Fill(cells, start, 0, width, size);
    var (to, next) := NextRow(cells, start, width, size);
    Filled(cells, start, 0, width, size);
    hide Fill, Sum, LastSpace;
    if end < |cells| {
      WiderRange(cells, start, start, end + 1, |cells|, size);
      forall space | end < space < |cells| && cells[space].c == ' ' ensures Sum(cells, start, space, size) > width {
        WiderRange(cells, start, start, end + 1, space, size);
      }
    }
  }

  /** Where the row behind a row starts. */
  function Behind<S>(cells: seq<Cell<S>>, rows: seq<Row>, i: nat): nat {
    if i + 1 < |rows| then rows[i + 1].from else |cells|
  }

  predicate FullAt<S>(cells: seq<Cell<S>>, rows: seq<Row>, i: nat, width: nat, size: char -> nat) {
    && i < |rows| && rows[i].from <= rows[i].to <= Behind(cells, rows, i) <= |cells|
    && Full(cells, rows[i], Behind(cells, rows, i), width, size)
  }

  /** Every row of a text is as full as it can be. */
  lemma {:induction false} RowsAreFull<S>(cells: seq<Cell<S>>, start: nat, width: nat, size: char -> nat)
    requires start <= |cells|
    ensures var rows := RowsFrom(cells, start, width, size);
      forall i :: 0 <= i < |rows| ==> FullAt(cells, rows, i, width, size)
    decreases |cells| - start
  {
    hide Full, NextRow, FullAt;
    if start < |cells| {
      var (to, next) := NextRow(cells, start, width, size);
      RowIsFull(cells, start, width, size);
      RowsAreFull(cells, next, width, size);
      var rest, rows := RowsFrom(cells, next, width, size), RowsFrom(cells, start, width, size);
      assert rows == [Row(start, to)] + rest;
      FirstRowStart(cells, next, width, size);
      forall i | 0 <= i < |rows| ensures FullAt(cells, rows, i, width, size) {
        if i > 0 { LaterIsFull(cells, Row(start, to), rest, i - 1, width, size); }
        else { FirstIsFull(cells, Row(start, to), rest, next, width, size); }
      }
    }
  }

  lemma LaterIsFull<S>(cells: seq<Cell<S>>, row: Row, rest: seq<Row>, i: nat, width: nat, size: char -> nat)
    requires FullAt(cells, rest, i, width, size)
    ensures FullAt(cells, [row] + rest, i + 1, width, size)
  {
    hide Full;
    var rows := [row] + rest;
    assert rows[i + 1] == rest[i];
    if i + 1 < |rest| { assert rows[i + 2] == rest[i + 1]; }
    assert Behind(cells, rows, i + 1) == Behind(cells, rest, i);
  }

  lemma FirstIsFull<S>(cells: seq<Cell<S>>, row: Row, rest: seq<Row>, next: nat, width: nat, size: char -> nat)
    requires row.from <= row.to <= next <= |cells| && Full(cells, row, next, width, size)
    requires if rest == [] then next == |cells| else rest[0].from == next
    ensures FullAt(cells, [row] + rest, 0, width, size)
  {
    hide Full;
    if rest != [] { assert ([row] + rest)[1] == rest[0]; }
    assert Behind(cells, [row] + rest, 0) == next;
  }

  lemma FirstRowStart<S>(cells: seq<Cell<S>>, start: nat, width: nat, size: char -> nat)
    requires start <= |cells|
    ensures var rows := RowsFrom(cells, start, width, size); if rows == [] then start == |cells| else rows[0].from == start
  {
  }

  // ----- the cells of the text ---------------------------------------------

  /** A line's text, one style per character. */
  function TextOf<S>(line: seq<Span<S>>): string { if line == [] then "" else line[0].text + TextOf(line[1..]) }

  function StylesOf<S>(line: seq<Span<S>>): seq<S> {
    if line == [] then [] else seq(|line[0].text|, _ => line[0].style) + StylesOf(line[1..])
  }

  /** The cells are the characters of the text in their styles, but a space for
      each control character. */
  predicate ShowsText<S(==)>(cells: seq<Cell<S>>, text: string, styles: seq<S>) {
    && |cells| == |text| == |styles|
    && forall i :: 0 <= i < |cells| ==>
         cells[i] == Cell(if text[i] < ' ' || ('\U{7F}' <= text[i] && text[i] <= '\U{9F}') then ' ' else text[i], styles[i])
  }

  lemma {:induction false} CellsOfOneStyle<S>(text: string, style: S)
    ensures ShowsText(CellsOfText(text, style), text, seq(|text|, _ => style))
  {
    if text != "" { CellsOfOneStyle(text[1..], style); }
  }

  lemma {:induction false} CellsShowText<S>(line: seq<Span<S>>)
    ensures ShowsText(Cells(line), TextOf(line), StylesOf(line))
  {
    if line != [] {
      CellsOfOneStyle(line[0].text, line[0].style);
      CellsShowText(line[1..]);
    }
  }
}
