/** Reading the output of the core worker (`live_error` and `capture` of
    control/core.rs). */
module WorkerStderr {
  import opened Common

  newtype byte = x: int | 0 <= x < 256

  type Bytes = seq<byte>

  const BUFFER: nat := 4096
  const SAVED: nat := 8192

  datatype Failure = ReadFailed | ResponseTooLarge

  function Min(a: nat, b: nat): nat { if a < b then a else b }

  /** The end of some bytes, at most `limit` of them. */
  function Tail(bytes: Bytes, limit: nat): Bytes { bytes[|bytes| - Min(limit, |bytes|)..] }

  // ----- the environment ---------------------------------------------------

  /** What the world does before one poll of the pipe: the bytes that any
      process wrote to it, whether its last writer is gone, how much a read
      would return, and whether the system call fails. */
  datatype Poll = Poll(written: Bytes, closed: bool, amount: nat, fault: bool)

  type World = nat -> Poll

  /** Nobody writes to a pipe whose last writer is gone. */
  ghost predicate Possible(world: World) {
    forall i: nat, j: nat :: i < j && world(i).closed ==> world(j).closed && world(j).written == []
  }

  /** Everything written before poll `i`. */
  function Written(world: World, i: nat): Bytes {
    if i == 0 then [] else Written(world, i - 1) + world(i - 1).written
  }

  function Flat(chunks: seq<Bytes>): Bytes {
    if chunks == [] then [] else Flat(chunks[..|chunks| - 1]) + chunks[|chunks| - 1]
  }

  lemma FlatOneMore(chunks: seq<Bytes>, chunk: Bytes)
    ensures Flat(chunks + [chunk]) == Flat(chunks) + chunk
  {
    assert (chunks + [chunk])[..|chunks|] == chunks;
  }

  /** What one read returns: never nothing while something is queued. */
  function ReadSize(queue: Bytes, capacity: nat, amount: nat): (n: nat)
    requires queue != [] && capacity > 0
    ensures 1 <= n <= Min(capacity, |queue|)
  {
    if amount == 0 then 1 else Min(amount, Min(capacity, |queue|))
  }

  // ----- the drain ---------------------------------------------------------

  /** Reads the worker's stderr until the worker, reaped at poll `reaped`, has
      no byte left that was queued by then. Other processes may hold the pipe
      and write to it for as long as they like.

      Every byte queued before the worker is reaped is handed on once and in
      order, and not one byte more is read; the saved text is the end of what
      was read; and the number of polls is bounded by what was queued, however
      much is written later. */
  method LiveError(world: World, reaped: nat, sink: bool)
    returns (result: Result<Bytes, Failure>, read: Bytes, handed: seq<Bytes>, polls: nat)
    requires Possible(world)
    ensures result.Ok? ==> Drained(world, reaped, sink, result.value, read, handed)
    ensures result.Ok? && polls <= reaped ==> polls > 0 && world(polls - 1).closed
    ensures result.Err? ==> polls > 0 && world(polls - 1).fault
    ensures polls <= reaped + 1 + |Written(world, reaped + 1)|
  {
    hide Written, Taken, Possible;
    var remaining: Option<nat> := None;
    var saved: Bytes := [];
    read, handed, polls := [], [], 0;
    NothingYet(world, read, saved, handed, sink);
    while true
      invariant remaining.None? ==> polls <= reaped && read <= Written(world, polls)
      invariant remaining.Some? ==> polls > reaped && Ahead(world, reaped + 1, read, remaining.value)
      invariant remaining.Some? ==> polls <= reaped + 1 + |read|
      invariant Taken(read, saved, handed, sink)
      decreases if remaining.None? then 1 else 0, if remaining.None? then reaped - polls else remaining.value
    {
      if remaining == Some(0) { return Ok(saved), read, handed, polls; }
      var poll := world(polls);
      Grows(world, polls, polls + 1);
      polls := polls + 1;
      if poll.fault { return Err(ReadFailed), read, handed, polls; }
      var all := Written(world, polls);
      if remaining.None? && polls > reaped {
        remaining := Some(|all| - |read|);
        continue;
      }
      if remaining.Some? { Grows(world, reaped + 1, polls); }
      var queue := all[|read|..];
      if queue == [] {
        if poll.closed {
          assert read == all;
          WrittenIsOver(world, polls, reaped + 1);
          return Ok(saved), read, handed, polls;
        }
        continue;
      }
      var n := ReadSize(queue, Capacity(remaining), poll.amount);
      ReadOn(all, all, read, n);
      if remaining.Some? {
        ReadOn(Written(world, reaped + 1), all, read, n);
        remaining := Some(remaining.value - n);
      }
      saved, handed := Keep(read, saved, handed, queue[..n], sink);
      read := read + queue[..n];
    }
  }

  function Capacity(remaining: Option<nat>): (n: nat)
    requires remaining != Some(0)
    ensures 1 <= n <= BUFFER && (remaining.Some? ==> n <= remaining.value)
  {
    match remaining case None => BUFFER case Some(left) => Min(left, BUFFER)
  }

  /** `left` bytes of what was written before poll `i` are still unread. */
  ghost predicate Ahead(world: World, i: nat, read: Bytes, left: nat) {
    read <= Written(world, i) && |read| + left == |Written(world, i)|
  }

  lemma {:induction false} Grows(world: World, i: nat, j: nat)
    requires i <= j
    ensures Written(world, i) <= Written(world, j)
  {
    if i < j { Grows(world, i, j - 1); }
  }

  lemma ReadOn(goal: Bytes, all: Bytes, read: Bytes, n: nat)
    requires goal <= all && read <= goal && |read| + n <= |goal|
    ensures |read| + n <= |all| && read + all[|read|..][..n] <= goal
  {}

  /** What the reader keeps of everything it read: the end of it for a
      diagnostic, and the chunks handed to the sink, if there is one. */
  ghost predicate Taken(read: Bytes, saved: Bytes, handed: seq<Bytes>, sink: bool) {
    && saved == Tail(read, SAVED)
    && Flat(handed) == (if sink then read else [])
    && (forall chunk <- handed :: 1 <= |chunk| <= BUFFER)
  }

  /** What a successful drain is: everything queued by the time the worker was
      reaped was read, and nothing else. */
  ghost predicate Drained(world: World, reaped: nat, sink: bool, saved: Bytes, read: Bytes, handed: seq<Bytes>) {
    read == Written(world, reaped + 1) && Taken(read, saved, handed, sink)
  }

  method Keep(ghost read: Bytes, saved: Bytes, handed: seq<Bytes>, chunk: Bytes, sink: bool)
    returns (nowSaved: Bytes, nowHanded: seq<Bytes>)
    requires Taken(read, saved, handed, sink) && 1 <= |chunk| <= BUFFER
    ensures Taken(read + chunk, nowSaved, nowHanded, sink)
  {
    hide Tail, Flat, Min;
    TailAppends(read, chunk);
    FlatOneMore(handed, chunk);
    nowSaved, nowHanded := saved + chunk, handed;
    if |nowSaved| > SAVED { nowSaved := nowSaved[|nowSaved| - SAVED..]; }
    if sink { nowHanded := nowHanded + [chunk]; }
  }

  /** Keeping only the end as one goes gives the end of everything. */
  lemma TailAppends(read: Bytes, chunk: Bytes)
    ensures var kept := Tail(read, SAVED) + chunk;
            (if |kept| > SAVED then kept[|kept| - SAVED..] else kept) == Tail(read + chunk, SAVED)
  {}

  lemma NothingYet(world: World, read: Bytes, saved: Bytes, handed: seq<Bytes>, sink: bool)
    requires read == saved == [] && handed == []
    ensures Taken(read, saved, handed, sink) && read <= Written(world, 0)
  {}

  /** Once the last writer is gone, everything has been written. */
  lemma {:induction false} WrittenIsOver(world: World, from: nat, later: nat)
    requires Possible(world) && from > 0 && world(from - 1).closed
    ensures later >= from ==> Written(world, later) == Written(world, from)
  {
    if later > from {
      WrittenIsOver(world, from, later - 1);
      assert world(later - 1).written == [];
    }
  }

  lemma {:induction false} WrittenAlike(world: World, other: World, polls: nat)
    requires forall i: nat :: i < polls ==> world(i).written == other(i).written
    ensures Written(world, polls) == Written(other, polls)
  {
    if polls > 0 { WrittenAlike(world, other, polls - 1); }
  }

  /** Two successful drains save and hand on the same bytes when the same was
      written until the worker was reaped, whatever is written later, however
      the reads are cut and whenever each drain ended. */
  lemma LaterWritersAreNotHeard(world: World, other: World, reaped: nat, sink: bool,
                                saved: Bytes, read: Bytes, handed: seq<Bytes>,
                                otherSaved: Bytes, otherRead: Bytes, otherHanded: seq<Bytes>)
    requires forall i: nat :: i <= reaped ==> world(i).written == other(i).written
    requires Drained(world, reaped, sink, saved, read, handed)
    requires Drained(other, reaped, sink, otherSaved, otherRead, otherHanded)
    ensures read == otherRead && saved == otherSaved && Flat(handed) == Flat(otherHanded)
  {
    WrittenAlike(world, other, reaped + 1);
  }

  // ----- bounded capture ---------------------------------------------------

  /** Reads a stream to its end, in reads of whatever sizes the system
      chooses. A truncating capture keeps the first `limit` bytes; any other
      fails exactly when there are more. */
  method Capture(stream: Bytes, sizes: nat -> nat, limit: nat, truncate: bool) returns (result: Result<Bytes, Failure>)
    ensures truncate || |stream| <= limit ==> result == Ok(stream[..Min(limit, |stream|)])
    ensures !truncate && |stream| > limit ==> result == Err(ResponseTooLarge)
  {
    var kept: Bytes := [];
    var at, turn: nat := 0, 0;
    while at < |stream|
      invariant at <= |stream|
      invariant kept == stream[..Min(limit, at)]
      invariant truncate || at <= limit
    {
      var count := ReadSize(stream[at..], BUFFER, sizes(turn));
      var available := if limit > |kept| then limit - |kept| else 0;
      kept := kept + stream[at..at + Min(count, available)];
      if count > available && !truncate { return Err(ResponseTooLarge); }
      at, turn := at + count, turn + 1;
    }
    return Ok(kept);
  }
}
