/** Cutting a log stream into lines (`TextStream` of control/stream.rs). */
module Stream {
  import opened Common

  newtype byte = x: int | 0 <= x < 256

  type Bytes = seq<byte>

  const NEWLINE: byte := 10
  const LINE_LIMIT: nat := 1024 * 1024

  datatype Failure = ResponseTooLarge | Cancelled

  /** The events that a consumer takes. It disconnects after `patience` of
      them; every later event is refused. */
  class Events {
    var taken: seq<Bytes>
    const patience: nat

    constructor (patience: nat)
      ensures taken == [] && this.patience == patience
    {
      taken, this.patience := [], patience;
    }

    method Emit(line: Bytes) returns (ok: bool)
      modifies this
      ensures ok <==> |old(taken)| < patience
      ensures taken == if ok then old(taken) + [line] else old(taken)
    {
      ok := |taken| < patience;
      if ok { taken := taken + [line]; }
    }
  }

  // ----- one call ----------------------------------------------------------

  /** The bytes up to and including the first newline, or all of them. */
  function FirstPart(bytes: Bytes): (part: Bytes)
    ensures |part| <= |bytes| && (bytes != [] ==> |part| > 0)
  {
    if bytes == [] then []
    else if bytes[0] == NEWLINE then [NEWLINE]
    else [bytes[0]] + FirstPart(bytes[1..])
  }

  /** A part ends in the only newline it has; without one it is everything. */
  lemma {:induction false} FirstPartEndsAtTheNewline(bytes: Bytes)
    ensures var part := FirstPart(bytes);
            && part + bytes[|part|..] == bytes
            && (EndsLine(part) <==> NEWLINE in bytes)
            && (NEWLINE !in bytes ==> part == bytes)
            && (EndsLine(part) ==> NEWLINE !in part[..|part| - 1])
  {
    if bytes != [] && bytes[0] != NEWLINE {
      var rest := FirstPart(bytes[1..]);
      FirstPartEndsAtTheNewline(bytes[1..]);
      if EndsLine(rest) { assert ([bytes[0]] + rest)[..|rest|] == [bytes[0]] + rest[..|rest| - 1]; }
    }
  }

  predicate EndsLine(part: Bytes) { part != [] && part[|part| - 1] == NEWLINE }

  /** What is left after some bytes: the pending start of a line, the lines
      emitted so far, and why it stopped. */
  datatype Outcome = Outcome(pending: Bytes, lines: seq<Bytes>, failure: Option<Failure>)

  /** `feed`: whole parts are taken one after the other. */
  function Feed(pending: Bytes, lines: seq<Bytes>, bytes: Bytes, patience: nat): Outcome
    requires |pending| <= LINE_LIMIT
    decreases |bytes|
  {
    if bytes == [] then Outcome(pending, lines, None)
    else
      var part := FirstPart(bytes);
      if |part| > LINE_LIMIT - |pending| then Outcome(pending, lines, Some(ResponseTooLarge))
      else if !EndsLine(part) then Feed(pending + part, lines, bytes[|part|..], patience)
      else if |lines| >= patience then Outcome([], lines, Some(Cancelled))
      else Feed([], lines + [pending + part], bytes[|part|..], patience)
  }

  class TextStream {
    var pending: Bytes

    ghost predicate Valid() reads this { |pending| <= LINE_LIMIT && NEWLINE !in pending }

    constructor ()
      ensures Valid() && pending == []
    {
      pending := [];
    }

    method FeedBytes(bytes: Bytes, events: Events) returns (failure: Option<Failure>)
      requires Valid()
      modifies this, events
      ensures Valid()
      ensures Outcome(pending, events.taken, failure) ==
              Feed(old(pending), old(events.taken), bytes, events.patience)
    {
      var rest := bytes;
      while rest != []
        invariant Valid()
        invariant Feed(pending, events.taken, rest, events.patience) ==
                  Feed(old(pending), old(events.taken), bytes, events.patience)
        decreases |rest|
      {
        var part := FirstPart(rest);
        FirstPartEndsAtTheNewline(rest);
        if |part| > LINE_LIMIT - |pending| { return Some(ResponseTooLarge); }
        pending := pending + part;
        rest := rest[|part|..];
        if part[|part| - 1] == NEWLINE {
          var line := pending;
          pending := [];
          var ok := events.Emit(line);
          if !ok { return Some(Cancelled); }
        }
      }
      return None;
    }

    /** The end of the stream is the end of its last line. */
    method Finish(events: Events) returns (failure: Option<Failure>)
      requires Valid()
      modifies events
      ensures pending == [] ==> events.taken == old(events.taken) && failure == None
      ensures pending != [] && |old(events.taken)| < events.patience ==>
                events.taken == old(events.taken) + [pending] && failure == None
      ensures pending != [] && |old(events.taken)| >= events.patience ==>
                events.taken == old(events.taken) && failure == Some(Cancelled)
    {
      failure := None;
      if pending != [] {
        var ok := events.Emit(pending);
        if !ok { failure := Some(Cancelled); }
      }
    }
  }

  // ----- any cutting -------------------------------------------------------

  function Flat(chunks: seq<Bytes>): Bytes {
    if chunks == [] then [] else chunks[0] + Flat(chunks[1..])
  }

  lemma {:induction false} FeedKeepsTheLimit(pending: Bytes, lines: seq<Bytes>, bytes: Bytes, patience: nat)
    requires |pending| <= LINE_LIMIT && NEWLINE !in pending
    ensures var o := Feed(pending, lines, bytes, patience); |o.pending| <= LINE_LIMIT && NEWLINE !in o.pending
    decreases |bytes|
  {
    if bytes != [] {
      var part := FirstPart(bytes);
      FirstPartEndsAtTheNewline(bytes);
      if |part| <= LINE_LIMIT - |pending| {
        if !EndsLine(part) {
          FeedKeepsTheLimit(pending + part, lines, bytes[|part|..], patience);
        } else if |lines| < patience {
          FeedKeepsTheLimit([], lines + [pending + part], bytes[|part|..], patience);
        }
      }
    }
  }

  /** A stream that stops at its first failure. */
  function FeedAll(pending: Bytes, lines: seq<Bytes>, chunks: seq<Bytes>, patience: nat): Outcome
    requires |pending| <= LINE_LIMIT && NEWLINE !in pending
    decreases |chunks|
  {
    if chunks == [] then Outcome(pending, lines, None)
    else
      FeedKeepsTheLimit(pending, lines, chunks[0], patience);
      var o := Feed(pending, lines, chunks[0], patience);
      if o.failure.Some? then o else FeedAll(o.pending, o.lines, chunks[1..], patience)
  }

  /** The same events and the same end; after a failure the pending bytes are
      never used again. */
  predicate Same(a: Outcome, b: Outcome) {
    a.lines == b.lines && a.failure == b.failure && (a.failure.None? ==> a.pending == b.pending)
  }

  lemma {:induction false} FirstPartBehind(pending: Bytes, bytes: Bytes)
    requires NEWLINE !in pending
    ensures FirstPart(pending + bytes) == pending + FirstPart(bytes)
  {
    if pending == [] {
      assert pending + bytes == bytes;
    } else {
      var all, rest := pending + bytes, pending[1..];
      FirstPartBehind(rest, bytes);
      assert all[1..] == rest + bytes && all[0] == pending[0];
      assert [pending[0]] + (rest + FirstPart(bytes)) == pending + FirstPart(bytes);
    }
  }

  /** Reading one part, whatever is pending. */
  lemma FeedPart(pending: Bytes, lines: seq<Bytes>, part: Bytes, rest: Bytes, patience: nat)
    requires |pending| <= LINE_LIMIT && part != [] && FirstPart(part + rest) == part
    ensures Feed(pending, lines, part + rest, patience) ==
            if |part| > LINE_LIMIT - |pending| then Outcome(pending, lines, Some(ResponseTooLarge))
            else if !EndsLine(part) then Feed(pending + part, lines, rest, patience)
            else if |lines| >= patience then Outcome([], lines, Some(Cancelled))
            else Feed([], lines + [pending + part], rest, patience)
  {
    assert (part + rest)[|part|..] == rest;
  }

  /** Pending bytes are as good as not yet fed. */
  lemma PendingIsUnread(pending: Bytes, lines: seq<Bytes>, bytes: Bytes, patience: nat)
    requires |pending| <= LINE_LIMIT && NEWLINE !in pending
    ensures Same(Feed(pending, lines, bytes, patience), Feed([], lines, pending + bytes, patience))
  {
    hide Feed, FirstPart;
    var part := FirstPart(bytes);
    var rest := bytes[|part|..];
    FirstPartBehind(pending, bytes);
    FirstPartEndsAtTheNewline(bytes);
    FirstPartEndsAtTheNewline(pending);
    Split(pending, part, rest);
    if bytes != [] {
      PendingPart(pending, lines, part, rest, patience);
    } else {
      FeedNothing(pending, lines, patience);
      assert pending + [] == pending && [] + pending == pending;
      if pending != [] {
        FeedPart([], lines, pending, [], patience);
        FeedNothing(pending, lines, patience);
      }
    }
  }

  lemma Split(a: Bytes, b: Bytes, c: Bytes)
    ensures a + b + c == a + (b + c)
  {}

  lemma PendingPart(pending: Bytes, lines: seq<Bytes>, part: Bytes, rest: Bytes, patience: nat)
    requires |pending| <= LINE_LIMIT && part != [] && (EndsLine(part) || rest == [])
    requires FirstPart(part + rest) == part && FirstPart(pending + part + rest) == pending + part
    ensures Same(Feed(pending, lines, part + rest, patience), Feed([], lines, pending + part + rest, patience))
  {
    hide Feed, FirstPart;
    var whole := pending + part;
    assert [] + whole == whole;
    FeedPart(pending, lines, part, rest, patience);
    FeedPart([], lines, whole, rest, patience);
  }

  lemma FeedNothing(pending: Bytes, lines: seq<Bytes>, patience: nat)
    requires |pending| <= LINE_LIMIT
    ensures Feed(pending, lines, [], patience) == Outcome(pending, lines, None)
  {}

  lemma {:induction false} FirstPartBefore(a: Bytes, b: Bytes)
    requires NEWLINE in a
    ensures FirstPart(a + b) == FirstPart(a)
  {
    if a[0] != NEWLINE {
      FirstPartBefore(a[1..], b);
      assert (a + b)[1..] == a[1..] + b;
    }
  }

  /** Feeding two pieces is feeding them as one. */
  lemma {:induction false} TwoPieces(pending: Bytes, lines: seq<Bytes>, a: Bytes, b: Bytes, patience: nat)
    requires |pending| <= LINE_LIMIT && NEWLINE !in pending
    ensures var o := Feed(pending, lines, a, patience);
            |o.pending| <= LINE_LIMIT &&
            Same(Feed(pending, lines, a + b, patience),
                 if o.failure.Some? then o else Feed(o.pending, o.lines, b, patience))
    decreases |a|
  {
    hide Feed;
    FeedKeepsTheLimit(pending, lines, a, patience);
    FirstPartEndsAtTheNewline(a);
    var part := FirstPart(a);
    var rest := a[|part|..];
    if a == [] {
      assert a + b == b;
      FeedNothing(pending, lines, patience);
    } else if NEWLINE in a {
      FirstPartBefore(a, b);
      assert a + b == part + (rest + b);
      FeedPart(pending, lines, part, rest, patience);
      FeedPart(pending, lines, part, rest + b, patience);
      if |part| <= LINE_LIMIT - |pending| && |lines| < patience {
        TwoPieces([], lines + [pending + part], rest, b, patience);
      }
    } else {
      LastPiece(pending, lines, a, b, patience);
    }
  }

  lemma LastPiece(pending: Bytes, lines: seq<Bytes>, a: Bytes, b: Bytes, patience: nat)
    requires |pending| <= LINE_LIMIT && NEWLINE !in pending && NEWLINE !in a && a != []
    ensures var o := Feed(pending, lines, a, patience);
            |o.pending| <= LINE_LIMIT &&
            Same(Feed(pending, lines, a + b, patience),
                 if o.failure.Some? then o else Feed(o.pending, o.lines, b, patience))
  {
    hide Feed;
    FirstPartEndsAtTheNewline(a);
    FirstPartEndsAtTheNewline(a + b);
    FirstPartBehind(a, b);
    assert a + [] == a;
    FeedPart(pending, lines, a, [], patience);
    if |a| <= LINE_LIMIT - |pending| {
      FeedNothing(pending + a, lines, patience);
      PendingIsUnread(pending, lines, a + b, patience);
      PendingIsUnread(pending + a, lines, b, patience);
      assert pending + (a + b) == pending + a + b;
    } else {
      var part := FirstPart(a + b);
      FeedPart(pending, lines, part, (a + b)[|part|..], patience);
    }
  }

  lemma {:induction false} AnyCuttingIsOnePiece(pending: Bytes, lines: seq<Bytes>, chunks: seq<Bytes>, patience: nat)
    requires |pending| <= LINE_LIMIT && NEWLINE !in pending
    ensures Same(FeedAll(pending, lines, chunks, patience), Feed(pending, lines, Flat(chunks), patience))
    decreases |chunks|
  {
    hide Feed;
    if chunks == [] {
      FeedNothing(pending, lines, patience);
    } else {
      TwoPieces(pending, lines, chunks[0], Flat(chunks[1..]), patience);
      FeedKeepsTheLimit(pending, lines, chunks[0], patience);
      var o := Feed(pending, lines, chunks[0], patience);
      if o.failure.None? {
        AnyCuttingIsOnePiece(o.pending, o.lines, chunks[1..], patience);
      }
    }
  }

  /** Two cuttings of the same bytes emit the same lines and either keep the
      same pending start of a line or fail in the same way at the same line. */
  lemma ChunkingIsInvisible(first: seq<Bytes>, second: seq<Bytes>, patience: nat)
    requires Flat(first) == Flat(second)
    ensures Same(FeedAll([], [], first, patience), FeedAll([], [], second, patience))
  {
    AnyCuttingIsOnePiece([], [], first, patience);
    AnyCuttingIsOnePiece([], [], second, patience);
  }

  // ----- what is emitted ---------------------------------------------------

  /** The lines of a text: each part but the last ends in its only newline. */
  function Lines(bytes: Bytes): seq<Bytes>
    decreases |bytes|
  {
    if bytes == [] then [] else [FirstPart(bytes)] + Lines(bytes[|FirstPart(bytes)|..])
  }

  /** The outcome in terms of the whole text: the lines before the one that is
      too long or that the consumer no longer takes. */
  ghost predicate Emits(parts: seq<Bytes>, o: Outcome, emitted: nat, patience: nat)
    requires emitted <= |o.lines|
  {
    var k := |o.lines| - emitted;
    && k <= |parts| && o.lines[emitted..] == parts[..k]
    && (forall i :: 0 <= i < k ==> EndsLine(parts[i]) && |parts[i]| <= LINE_LIMIT)
    && match o.failure
       case None => parts[k..] == (if o.pending == [] then [] else [o.pending]) && !EndsLine(o.pending)
       case Some(ResponseTooLarge) => k < |parts| && |parts[k]| > LINE_LIMIT
       case Some(Cancelled) => k < |parts| && |parts[k]| <= LINE_LIMIT && EndsLine(parts[k]) && |o.lines| >= patience
  }

  lemma {:induction false} FeedEmitsTheLines(lines: seq<Bytes>, bytes: Bytes, patience: nat)
    ensures var o := Feed([], lines, bytes, patience);
            |lines| <= |o.lines| && o.lines[..|lines|] == lines &&
            Emits(Lines(bytes), o, |lines|, patience)
    decreases |bytes|
  {
    hide Feed, FirstPart, Emits;
    var o := Feed([], lines, bytes, patience);
    if bytes == [] {
      FeedNothing([], lines, patience);
      EmitsNothing([], o, patience);
    } else {
      var part := FirstPart(bytes);
      var rest := bytes[|part|..];
      FirstPartEndsAtTheNewline(bytes);
      FeedPart([], lines, part, rest, patience);
      assert [] + part == part;
      if |part| <= LINE_LIMIT {
        if !EndsLine(part) {
          FeedNothing(part, lines, patience);
          assert rest == [] && Lines(bytes) == [part];
          EmitsNothing([part], o, patience);
        } else if |lines| >= patience {
          EmitsNothing(Lines(bytes), o, patience);
        } else {
          FeedEmitsTheLines(lines + [part], rest, patience);
          EmitsOneMore(lines, part, Lines(rest), o, patience);
        }
      } else {
        EmitsNothing(Lines(bytes), o, patience);
      }
    }
  }

  lemma EmitsNothing(parts: seq<Bytes>, o: Outcome, patience: nat)
    requires match o.failure
             case None => parts == (if o.pending == [] then [] else [o.pending]) && !EndsLine(o.pending)
             case Some(ResponseTooLarge) => parts != [] && |parts[0]| > LINE_LIMIT
             case Some(Cancelled) => parts != [] && |parts[0]| <= LINE_LIMIT && EndsLine(parts[0]) && |o.lines| >= patience
    ensures Emits(parts, o, |o.lines|, patience)
  {}

  lemma EmitsOneMore(lines: seq<Bytes>, part: Bytes, parts: seq<Bytes>, o: Outcome, patience: nat)
    requires EndsLine(part) && |part| <= LINE_LIMIT
    requires |lines| + 1 <= |o.lines| && o.lines[..|lines| + 1] == lines + [part]
    requires Emits(parts, o, |lines| + 1, patience)
    ensures o.lines[..|lines|] == lines && Emits([part] + parts, o, |lines|, patience)
  {
    var k := |o.lines| - |lines|;
    var all := [part] + parts;
    assert o.lines[..|lines|] == o.lines[..|lines| + 1][..|lines|];
    assert o.lines[|lines|] == o.lines[..|lines| + 1][|lines|];
    assert o.lines[|lines|..] == [part] + o.lines[|lines| + 1..];
    assert all[..k] == [part] + parts[..k - 1];
    assert all[k..] == parts[k - 1..];
  }

  lemma {:induction false} LinesAreTheText(bytes: Bytes)
    ensures Flat(Lines(bytes)) == bytes
    decreases |bytes|
  {
    if bytes != [] {
      var part := FirstPart(bytes);
      FirstPartEndsAtTheNewline(bytes);
      LinesAreTheText(bytes[|part|..]);
      assert Lines(bytes)[1..] == Lines(bytes[|part|..]);
    }
  }

  /** However the text is cut: while nothing fails, the emitted lines and the
      pending bytes are the text, and a stream fails exactly at the first line
      that is too long or that is not taken. */
  lemma StreamEmitsTheLines(chunks: seq<Bytes>, patience: nat)
    ensures var o := FeedAll([], [], chunks, patience);
            && Emits(Lines(Flat(chunks)), o, 0, patience)
            && (o.failure.None? ==> Flat(o.lines) + o.pending == Flat(chunks))
  {
    var text := Flat(chunks);
    var o, one := FeedAll([], [], chunks, patience), Feed([], [], text, patience);
    AnyCuttingIsOnePiece([], [], chunks, patience);
    FeedEmitsTheLines([], text, patience);
    LinesAreTheText(text);
    assert o.lines[0..] == o.lines && one.lines[0..] == one.lines;
    if o.failure.None? {
      var tail := if o.pending == [] then [] else [o.pending];
      assert Lines(text) == o.lines + tail;
      FlatAppends(o.lines, tail);
      assert tail != [] ==> tail[1..] == [] && Flat(tail) == o.pending + [];
    }
  }

  lemma {:induction false} FlatAppends(a: seq<Bytes>, b: seq<Bytes>)
    ensures Flat(a + b) == Flat(a) + Flat(b)
  {
    if a == [] {
      assert a + b == b;
    } else {
      var all := a + b;
      FlatAppends(a[1..], b);
      assert all[1..] == a[1..] + b && all[0] == a[0];
      assert a[0] + (Flat(a[1..]) + Flat(b)) == a[0] + Flat(a[1..]) + Flat(b);
    }
  }
}
