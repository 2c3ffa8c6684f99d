/** The input queue of a CLI session in a PTY (`Session` and `flush_input` of
    control/terminal_session.rs). */
module TerminalInput {
  import opened Common

  newtype byte = x: int | 0 <= x < 256

  type Bytes = seq<byte>

  const INPUT_LIMIT: nat := 4 * 1024 * 1024
  const CHUNK: nat := 8192

  /** What the session tells the user about input that did not arrive. */
  datatype Report =
    | Undelivered(writeFailed: bool, count: nat)
    | Refused(closed: bool, count: nat)
    | Interrupted(signalled: bool, flushed: bool, count: nat)

  /** One attempt to write to the terminal. */
  datatype Attempt = Wrote(count: nat) | WroteNothing | Failed | NotReady

  datatype Op =
    | Write(bytes: Bytes)
    | Flush(attempt: Attempt)
    | Exit
    | Interrupt(signalled: bool, flushed: bool)

  /** What became of accepted bytes, in the order in which they left. */
  datatype Fate = Sent(bytes: Bytes) | Dropped(bytes: Bytes, report: Report)

  datatype Pty = Pty(queue: Bytes, closed: bool, error: Option<Report>, accepted: Bytes, fates: seq<Fate>)

  const OPENED := Pty([], false, None, [], [])

  // ----- steps -------------------------------------------------------------

  function Min(a: nat, b: nat): nat { if a < b then a else b }

  /** A write takes between one byte and a whole chunk. */
  function Taken(queue: Bytes, count: nat): (n: nat)
    requires queue != []
    ensures 1 <= n <= Min(CHUNK, |queue|)
  {
    if count == 0 then 1 else Min(count, Min(CHUNK, |queue|))
  }

  function Close(s: Pty, writeFailed: bool): Pty {
    if s.queue == [] then s.(closed := true)
    else
      var report := Undelivered(writeFailed, |s.queue|);
      s.(queue := [], closed := true, error := Some(report), fates := s.fates + [Dropped(s.queue, report)])
  }

  predicate Accepts(s: Pty, bytes: Bytes) {
    !s.closed && |bytes| <= (if |s.queue| < INPUT_LIMIT then INPUT_LIMIT - |s.queue| else 0)
  }

  function Step(s: Pty, op: Op): Pty {
    match op
    case Write(bytes) =>
      if Accepts(s, bytes) then s.(queue := s.queue + bytes, accepted := s.accepted + bytes)
      else s.(error := Some(Refused(s.closed, |bytes|)))
    case Flush(attempt) =>
      if s.queue == [] || s.closed then s
      else (
        match attempt
        case NotReady => s
        case Wrote(count) =>
          var n := Taken(s.queue, count);
          s.(queue := s.queue[n..], fates := s.fates + [Sent(s.queue[..n])])
        case _ => Close(s, true))
    case Exit => Close(s, false)
    case Interrupt(signalled, flushed) =>
      var report := Interrupted(signalled, flushed, |s.queue|);
      s.(queue := [], error := Some(report), fates := s.fates + [Dropped(s.queue, report)])
  }

  /** The session with its history: what was accepted and what became of it. */
  class Session {
    var input: Bytes
    var inputClosed: bool
    var inputError: Option<Report>
    ghost var accepted: Bytes
    ghost var fates: seq<Fate>

    ghost function State(): Pty
      reads this
    {
      Pty(input, inputClosed, inputError, accepted, fates)
    }

    constructor ()
      ensures State() == OPENED
    {
      input, inputClosed, inputError, accepted, fates := [], false, None, [], [];
    }

    method WriteInput(bytes: Bytes) returns (ok: bool)
      modifies this
      ensures ok <==> old(Accepts(State(), bytes))
      ensures State() == Step(old(State()), Write(bytes))
    {
      var room := if |input| < INPUT_LIMIT then INPUT_LIMIT - |input| else 0;
      if inputClosed || |bytes| > room {
        inputError := Some(Refused(inputClosed, |bytes|));
        return false;
      }
      input := input + bytes;
      accepted := accepted + bytes;
      return true;
    }

    method CloseInput(writeFailed: bool)
      modifies this
      ensures State() == Close(old(State()), writeFailed)
    {
      if input != [] {
        inputError := Some(Undelivered(writeFailed, |input|));
        fates := fates + [Dropped(input, inputError.value)];
      }
      input := [];
      inputClosed := true;
    }

    method FlushInput(attempt: Attempt)
      modifies this
      ensures State() == Step(old(State()), Flush(attempt))
    {
      if input == [] || inputClosed { return; }
      match attempt {
        case NotReady =>
        case Wrote(count) =>
          var n := Taken(input, count);
          fates := fates + [Sent(input[..n])];
          input := input[n..];
        case _ => CloseInput(true);
      }
    }

    method InterruptInput(signalled: bool, flushed: bool)
      modifies this
      ensures State() == Step(old(State()), Interrupt(signalled, flushed))
    {
      var pending := |input|;
      fates := fates + [Dropped(input, Interrupted(signalled, flushed, pending))];
      input := [];
      inputError := Some(Interrupted(signalled, flushed, pending));
    }
  }

  // ----- runs --------------------------------------------------------------

  function Run(s: Pty, ops: seq<Op>): Pty
    decreases |ops|
  {
    if ops == [] then s else Run(Step(s, ops[0]), ops[1..])
  }

  function Left(fates: seq<Fate>): Bytes {
    if fates == [] then [] else Left(fates[..|fates| - 1]) + fates[|fates| - 1].bytes
  }

  function OnTheWire(fates: seq<Fate>): Bytes {
    if fates == [] then []
    else
      OnTheWire(fates[..|fates| - 1]) +
      match fates[|fates| - 1] case Sent(bytes) => bytes case Dropped(_, _) => []
  }

  /** Every accepted byte is, in order, sent, in a discard with its exact
      count, or still queued. */
  ghost predicate Conserved(s: Pty) {
    && s.accepted == Left(s.fates) + s.queue
    && |s.queue| <= INPUT_LIMIT
    && (s.closed ==> s.queue == [])
    && (forall fate <- s.fates :: fate.Dropped? ==> !fate.report.Refused? && fate.report.count == |fate.bytes|)
  }

  lemma LeftOneMore(fates: seq<Fate>, fate: Fate)
    ensures Left(fates + [fate]) == Left(fates) + fate.bytes
  {
    assert (fates + [fate])[..|fates|] == fates;
  }

  lemma Rejoin(left: Bytes, queue: Bytes, n: nat)
    requires n <= |queue|
    ensures left + queue[..n] + queue[n..] == left + queue
  {}

  lemma SentConserves(s: Pty, n: nat)
    requires Conserved(s) && !s.closed && n <= |s.queue|
    ensures Conserved(s.(queue := s.queue[n..], fates := s.fates + [Sent(s.queue[..n])]))
  {
    hide Left;
    LeftOneMore(s.fates, Sent(s.queue[..n]));
    Rejoin(Left(s.fates), s.queue, n);
  }

  lemma DropConserves(s: Pty, report: Report)
    requires Conserved(s) && !report.Refused? && report.count == |s.queue|
    ensures Conserved(s.(queue := [], error := Some(report), fates := s.fates + [Dropped(s.queue, report)]))
  {
    hide Left;
    LeftOneMore(s.fates, Dropped(s.queue, report));
    assert Left(s.fates) + s.queue + [] == Left(s.fates) + s.queue;
  }

  lemma CloseConserves(s: Pty, writeFailed: bool)
    requires Conserved(s)
    ensures Conserved(Close(s, writeFailed))
  {
    hide Left;
    if s.queue != [] { DropConserves(s, Undelivered(writeFailed, |s.queue|)); }
  }

  lemma StepConserves(s: Pty, op: Op)
    requires Conserved(s)
    ensures Conserved(Step(s, op))
  {
    match op {
      case Write(bytes) => Associate(Left(s.fates), s.queue, bytes);
      case Flush(attempt) =>
        if s.queue != [] && !s.closed && attempt.Wrote? { SentConserves(s, Taken(s.queue, attempt.count)); }
        else { CloseConserves(s, true); }
      case Exit => CloseConserves(s, false);
      case Interrupt(signalled, flushed) => DropConserves(s, Interrupted(signalled, flushed, |s.queue|));
    }
  }

  lemma {:induction false} RunConserves(s: Pty, ops: seq<Op>)
    requires Conserved(s)
    ensures Conserved(Run(s, ops))
    decreases |ops|
  {
    if ops != [] {
      StepConserves(s, ops[0]);
      RunConserves(Step(s, ops[0]), ops[1..]);
    }
  }

  /** Over every run of a session. */
  lemma InputIsConserved(ops: seq<Op>)
    ensures Conserved(Run(OPENED, ops))
  {
    RunConserves(OPENED, ops);
  }

  /** Nothing is accepted after closing, and nothing more is sent. */
  lemma {:induction false} ClosingIsFinal(s: Pty, ops: seq<Op>)
    requires Conserved(s) && s.closed
    ensures var after := Run(s, ops);
            after.closed && after.accepted == s.accepted && OnTheWire(after.fates) == OnTheWire(s.fates)
    decreases |ops|
  {
    if ops != [] {
      var next := Step(s, ops[0]);
      StepConserves(s, ops[0]);
      if next.fates != s.fates { assert next.fates[..|s.fates|] == s.fates; }
      ClosingIsFinal(next, ops[1..]);
    }
  }

  // ----- what a run loses ---------------------------------------------------

  /** The bytes that the reports of the losses name. */
  function Lost(fates: seq<Fate>): nat {
    if fates == [] then 0
    else
      Lost(fates[..|fates| - 1]) +
      match fates[|fates| - 1] case Sent(_) => 0 case Dropped(_, report) => report.count
  }

  lemma {:induction false} FatesAddUp(fates: seq<Fate>)
    requires forall fate <- fates :: fate.Dropped? ==> fate.report.count == |fate.bytes|
    ensures |Left(fates)| == |OnTheWire(fates)| + Lost(fates)
    ensures Lost(fates) == 0 ==> Left(fates) == OnTheWire(fates)
  {
    if fates != [] { FatesAddUp(fates[..|fates| - 1]); }
  }

  /** Over every run: the accepted bytes that were neither sent nor are queued
      are as many as the reports say, and the terminal reads exactly what was
      accepted when they say none. */
  lemma LossesAddUp(ops: seq<Op>)
    ensures var after := Run(OPENED, ops);
      && |after.accepted| == |OnTheWire(after.fates)| + Lost(after.fates) + |after.queue|
      && (after.accepted == OnTheWire(after.fates) + after.queue <==> Lost(after.fates) == 0)
  {
    var after := Run(OPENED, ops);
    InputIsConserved(ops);
    hide Run, Step;
    FatesAddUp(after.fates);
  }

  lemma {:induction false} RunOneMore(s: Pty, ops: seq<Op>)
    requires ops != []
    ensures Run(s, ops) == Step(Run(s, ops[..|ops| - 1]), ops[|ops| - 1])
    decreases |ops|
  {
    if |ops| == 1 {
      assert ops[1..] == [] && ops[..0] == [];
    } else {
      RunOneMore(Step(s, ops[0]), ops[1..]);
      assert ops[..|ops| - 1][1..] == ops[1..][..|ops| - 2];
    }
  }

  lemma StepReports(s: Pty, op: Op)
    ensures var after := Step(s, op);
      && s.fates <= after.fates && |after.fates| <= |s.fates| + 1
      && (after.fates != s.fates && after.fates[|s.fates|].Dropped? ==> after.error == Some(after.fates[|s.fates|].report))
  {}

  /** Over every run: each loss was the reported error right after the step
      that caused it. */
  lemma {:induction false} EveryLossIsReported(ops: seq<Op>, k: nat) returns (i: nat)
    requires var fates := Run(OPENED, ops).fates; k < |fates| && fates[k].Dropped?
    ensures 0 < i <= |ops|
    ensures Run(OPENED, ops[..i]).error == Some(Run(OPENED, ops).fates[k].report)
    ensures |Run(OPENED, ops[..i - 1]).fates| == k && |Run(OPENED, ops[..i]).fates| == k + 1
  {
    var earlier := ops[..|ops| - 1];
    RunOneMore(OPENED, ops);
    var before := Run(OPENED, earlier);
    StepReports(before, ops[|ops| - 1]);
    hide Run, Step;
    if k < |before.fates| {
      assert before.fates[k] == Run(OPENED, ops).fates[k];
      i := EveryLossIsReported(earlier, k);
      assert earlier[..i] == ops[..i] && earlier[..i - 1] == ops[..i - 1];
    } else {
      i := |ops|;
      assert ops[..i] == ops;
    }
  }

  // ----- what every operation does over a run ------------------------------

  /** In every run: a write is accepted exactly when the session is open and the
      queue stays within 4 MiB. */
  lemma WritesAreAcceptedWhole(ops: seq<Op>, bytes: Bytes)
    requires bytes != []
    ensures var s, after := Run(OPENED, ops), Run(OPENED, ops + [Write(bytes)]);
      if !s.closed && |s.queue| + |bytes| <= 4 * 1024 * 1024 then
        after.accepted == s.accepted + bytes && after.queue == s.queue + bytes && after.error == s.error
      else
        after.accepted == s.accepted && after.queue == s.queue && after.error == Some(Refused(s.closed, |bytes|))
  {
    InputIsConserved(ops);
    RunOneMore(OPENED, ops + [Write(bytes)]);
    assert (ops + [Write(bytes)])[..|ops|] == ops;
    hide Run;
  }

  /** And it is closed exactly by an exit or by a write of queued bytes that
      fails, or was closed before. */
  lemma ClosesExactly(ops: seq<Op>, op: Op)
    ensures var s, after := Run(OPENED, ops), Run(OPENED, ops + [op]);
      && (after.closed <==>
            || s.closed || op.Exit?
            || (op.Flush? && s.queue != [] && (op.attempt.Failed? || op.attempt.WroteNothing?)))
      && (after.closed || op.Interrupt? ==> after.queue == [])
  {
    InputIsConserved(ops);
    InputIsConserved(ops + [op]);
    RunOneMore(OPENED, ops + [op]);
    assert (ops + [op])[..|ops|] == ops;
    hide Run;
  }

  function Flushes(n: nat, count: nat): seq<Op> { if n == 0 then [] else [Flush(Wrote(count))] + Flushes(n - 1, count) }

  /** An open session whose terminal takes writes sends everything queued. */
  lemma {:induction false} FlushesEmptyTheQueue(s: Pty, n: nat, count: nat)
    requires !s.closed && n >= |s.queue|
    ensures var after := Run(s, Flushes(n, count));
      && after.queue == [] && !after.closed && after.accepted == s.accepted
      && OnTheWire(after.fates) == OnTheWire(s.fates) + s.queue && Lost(after.fates) == Lost(s.fates)
    decreases n
  {
    if n == 0 {
      assert OnTheWire(s.fates) + [] == OnTheWire(s.fates);
    } else {
      var op, rest := Flush(Wrote(count)), Flushes(n - 1, count);
      var next := Step(s, op);
      assert ([op] + rest)[1..] == rest;
      FlushSends(s, count);
      FlushesEmptyTheQueue(next, n - 1, count);
      assert Run(s, [op] + rest) == Run(next, rest);
    }
  }

  lemma FlushSends(s: Pty, count: nat)
    requires !s.closed
    ensures var next := Step(s, Flush(Wrote(count)));
      && !next.closed && next.accepted == s.accepted && Lost(next.fates) == Lost(s.fates)
      && (s.queue != [] ==> |next.queue| < |s.queue|) && (s.queue == [] ==> next == s)
      && OnTheWire(next.fates) + next.queue == OnTheWire(s.fates) + s.queue
  {
    if s.queue != [] {
      var n := Taken(s.queue, count);
      assert (s.fates + [Sent(s.queue[..n])])[..|s.fates|] == s.fates;
      Rejoin(OnTheWire(s.fates), s.queue, n);
    }
  }
}
