/** Splitting text at a separator, as `str::split` does, joining it again, and
    numbers as text. */
module Text {

  /** What `Split` does with one more character in front. */
  function Prepended(c: char, parts: seq<string>, separator: char): seq<string>
    requires parts != []
  {
    if c == separator then [""] + parts else [[c] + parts[0]] + parts[1..]
  }

  /** The parts between separators: one more than there are separators. */
  function Split(text: string, separator: char): (parts: seq<string>)
    ensures |parts| > 0
  {
    if text == "" then [""]
    else
      Prepended(text[0], Split(text[1..], separator), separator)
  }

  function Join(parts: seq<string>, separator: char): string {
    if parts == [] then "" else if |parts| == 1 then parts[0]
    else parts[0] + [separator] + Join(parts[1..], separator)
  }

  lemma {:induction false} JoinPrepends(c: char, parts: seq<string>, separator: char)
    requires parts != []
    ensures Join([[c] + parts[0]] + parts[1..], separator) == [c] + Join(parts, separator)
  {
    var longer := [[c] + parts[0]] + parts[1..];
    assert longer[1..] == parts[1..];
    if |parts| > 1 {
      var rest := Join(parts[1..], separator);
      assert [c] + (parts[0] + [separator] + rest) == ([c] + parts[0]) + [separator] + rest;
    }
  }

  lemma {:induction false} JoinUndoesSplit(text: string, separator: char)
    ensures Join(Split(text, separator), separator) == text
  {
    if text != "" {
      JoinUndoesSplit(text[1..], separator);
      var rest := Split(text[1..], separator);
      if text[0] == separator {
        assert ([""] + rest)[1..] == rest;
      } else {
        JoinPrepends(text[0], rest, separator);
      }
    }
  }

  lemma {:induction false} PartsHaveNoSeparator(text: string, separator: char)
    ensures forall part :: part in Split(text, separator) ==> separator !in part
  {
    if text != "" { PartsHaveNoSeparator(text[1..], separator); }
  }

  lemma {:induction false} SplitWhole(part: string, separator: char)
    requires separator !in part
    ensures Split(part, separator) == [part]
  {
    if part != "" {
      SplitWhole(part[1..], separator);
      assert part == [part[0]] + part[1..] && [part[1..]][1..] == [];
    }
  }

  /** A separator between two texts separates their parts. */
  lemma {:induction false} SplitAtSeparator(a: string, b: string, separator: char)
    ensures Split(a + [separator] + b, separator) == Split(a, separator) + Split(b, separator)
  {
    var all, later := a + [separator] + b, Split(b, separator);
    if a == "" {
      assert all[1..] == b;
    } else {
      SplitAtSeparator(a[1..], b, separator);
      assert all[1..] == a[1..] + [separator] + b && all[0] == a[0];
      PrependInto(a[0], Split(a[1..], separator), later, separator);
    }
  }

  lemma PrependInto(c: char, parts: seq<string>, later: seq<string>, separator: char)
    requires parts != []
    ensures Prepended(c, parts + later, separator) == Prepended(c, parts, separator) + later
  {
  }

  lemma {:induction false} SplitUndoesJoin(parts: seq<string>, separator: char)
    requires parts != [] && forall part :: part in parts ==> separator !in part
    ensures Split(Join(parts, separator), separator) == parts
  {
    if |parts| == 1 {
      SplitWhole(parts[0], separator);
    } else {
      SplitWhole(parts[0], separator);
      SplitUndoesJoin(parts[1..], separator);
      SplitAtSeparator(parts[0], Join(parts[1..], separator), separator);
      assert parts == [parts[0]] + parts[1..];
    }
  }

  // ----- numbers -----------------------------------------------------------

  function Numeral(n: nat): char
    requires n < 10
  {
    "0123456789"[n]
  }

  function Decimal(n: nat): string { if n < 10 then [Numeral(n)] else Decimal(n / 10) + [Numeral(n % 10)] }
}
