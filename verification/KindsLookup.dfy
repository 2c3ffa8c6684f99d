/** The lookups of cluster kinds around their record (control/tui.rs, `KindsLookup`
    and the arm of the event loop that takes their results): one task at a time,
    whose abort may come too late to stop its message. */
module KindsLookup {
  import opened Common
  import opened ClusterKinds

  const CAPACITY: nat := 4

  /** Where a lookup is: its task has not sent, its message is queued, its
      message was taken off the queue, or its task ended without sending. */
  datatype Stage = InTask | Queued | Delivered | Stopped

  datatype Lookup = Lookup(target: Target, found: Option<Listing>, stage: Stage)

  /** `task` is the handle of the last task that was not aborted, `queue` the
      channel of results and `taken` the tickets that `finish` accepted. The
      lookups are indexed by ticket. */
  datatype System = System(
    record: Record, task: Option<nat>, lookups: map<nat, Lookup>, queue: seq<nat>, taken: seq<nat>)

  datatype Action =
    | Open(target: Target)
    | Move(target: Target)
    | Find(ticket: nat, listing: Listing)
    | Send(ticket: nat)
    | Die(ticket: nat)
    | Deliver

  function Start(): System { System(Record(None, Idle, 0), None, map[], [], []) }

  /** `Open` starts a lookup when one is wanted; `Move` retargets the record;
      `Find` and `Send` are steps of any task, aborted or not; `Die` ends an
      aborted task; `Deliver` takes the next result. */
  function Step(s: System, action: Action): System {
    match action
    case Open(target) =>
      if !Wanted(s.record, target) then s
      else
        var record := Begun(s.record, target);
        s.(record := record, task := Some(record.tickets),
           lookups := s.lookups[record.tickets := Lookup(target, None, InTask)])
    case Move(target) =>
      var dropped := s.record.target != Some(target) && s.record.status.Running?;
      s.(record := Retargeted(s.record, target), task := if dropped then None else s.task)
    case Find(ticket, listing) =>
      if ticket in s.lookups && s.lookups[ticket].stage.InTask? && s.lookups[ticket].found.None? then
        s.(lookups := s.lookups[ticket := s.lookups[ticket].(found := Some(listing))])
      else s
    case Send(ticket) =>
      if ticket in s.lookups && s.lookups[ticket].stage.InTask? && s.lookups[ticket].found.Some? && |s.queue| < CAPACITY then
        s.(lookups := s.lookups[ticket := s.lookups[ticket].(stage := Queued)], queue := s.queue + [ticket])
      else s
    case Die(ticket) =>
      if ticket in s.lookups && s.lookups[ticket].stage.InTask? && s.task != Some(ticket) then
        s.(lookups := s.lookups[ticket := s.lookups[ticket].(stage := Stopped)])
      else s
    case Deliver =>
      if s.queue == [] || s.queue[0] !in s.lookups || s.lookups[s.queue[0]].found.None? then s
      else
        var ticket := s.queue[0];
        s.(record := Taken(s.record, ticket, s.lookups[ticket].found.value),
           queue := s.queue[1..],
           lookups := s.lookups[ticket := s.lookups[ticket].(stage := Delivered)],
           taken := if Awaits(s.record, ticket) then s.taken + [ticket] else s.taken)
  }

  function Run(actions: seq<Action>): System {
    if actions == [] then Start() else Step(Run(actions[..|actions| - 1]), actions[|actions| - 1])
  }

  // ----- safety over every run ---------------------------------------------

  /** The listing is what the lookup of some ticket, issued for the target, found. */
  predicate FoundFor(s: System, target: Target, listing: Listing) {
    exists ticket :: ticket in s.lookups && s.lookups[ticket].target == target && s.lookups[ticket].found == Some(listing)
  }

  /** Messages and lookups agree. */
  predicate Queues(s: System) {
    && (forall t :: t in s.queue ==> t in s.lookups && s.lookups[t].stage.Queued? && s.lookups[t].found.Some?)
    && (forall t :: t in s.lookups && s.lookups[t].stage.Queued? ==> t in s.queue)
    && Distinct(s.queue) && |s.queue| <= CAPACITY
  }

  predicate Tickets(s: System) {
    && (forall t :: t in s.lookups ==> 1 <= t <= s.record.tickets)
    && (s.task.Some? ==> s.task.value in s.lookups)
    && (forall t :: t in s.taken ==> t in s.lookups && s.lookups[t].stage.Delivered?)
    && Distinct(s.taken)
  }

  /** A lookup that the record waits for is the last one, for the target of
      the record, and is either in its task, not aborted, or queued. */
  predicate Progresses(s: System) {
    s.record.status.Running? ==>
      var t := s.record.status.ticket;
      && t == s.record.tickets && t in s.lookups
      && s.record.target == Some(s.lookups[t].target)
      && (s.lookups[t].stage.Queued? || (s.lookups[t].stage.InTask? && s.task == Some(t)))
  }

  predicate Sources(s: System) {
    && (s.record.status.Idle? <==> s.record.target.None?)
    && (s.record.target.Some? && Listed(s.record, s.record.target.value).Some? ==>
          FoundFor(s, s.record.target.value, Listed(s.record, s.record.target.value).value))
    && (s.record.status.Running? && s.record.status.previous.Some? ==> s.record.status.previous.value.failure.Some?)
  }

  predicate Invariant(s: System) { Queues(s) && Tickets(s) && Progresses(s) && Sources(s) }

  /** A listing stays found when lookups only gain results. */
  lemma FoundStays(s: System, after: System, target: Target, listing: Listing)
    requires FoundFor(s, target, listing)
    requires forall t :: t in s.lookups ==> t in after.lookups && after.lookups[t].target == s.lookups[t].target
    requires forall t :: t in s.lookups && s.lookups[t].found.Some? ==> after.lookups[t].found == s.lookups[t].found
    ensures FoundFor(after, target, listing)
  {
  }

  lemma AddedIsDistinct(tickets: seq<nat>, t: nat)
    requires Distinct(tickets) && t !in tickets
    ensures Distinct(tickets + [t])
  {
  }

  lemma QueuesStay(s: System, action: Action)
    requires Invariant(s)
    ensures Queues(Step(s, action))
  {
    hide FoundFor;
    match action {
      case Open(target) => OpenKeepsQueues(s, target);
      case Send(ticket) => SendKeepsQueues(s, ticket);
      case Deliver => DeliverKeepsQueues(s);
      case _ => hide Progresses, Sources;
    }
  }

  lemma OpenKeepsQueues(s: System, target: Target)
    requires Queues(s) && Tickets(s)
    ensures Queues(Step(s, Open(target)))
  {
  }

  lemma SendKeepsQueues(s: System, ticket: nat)
    requires Queues(s)
    ensures Queues(Step(s, Send(ticket)))
  {
    if Step(s, Send(ticket)) != s { AddedIsDistinct(s.queue, ticket); }
  }

  lemma DeliverKeepsQueues(s: System)
    requires Queues(s)
    ensures Queues(Step(s, Deliver))
  {
    var after := Step(s, Deliver);
    if after != s {
      assert s.queue == [s.queue[0]] + after.queue;
      assert forall t :: t in after.queue ==> t in s.queue && t != s.queue[0];
    }
  }

  lemma TicketsStay(s: System, action: Action)
    requires Invariant(s)
    ensures Tickets(Step(s, action)) && Progresses(Step(s, action))
  {
    hide FoundFor;
    if action.Deliver? && s.queue != [] && Awaits(s.record, s.queue[0]) {
      AddedIsDistinct(s.taken, s.queue[0]);
    }
  }

  lemma SourcesStay(s: System, action: Action)
    requires Invariant(s)
    ensures Sources(Step(s, action))
  {
    var after := Step(s, action);
    if s.record.target.Some? {
      var target := s.record.target.value;
      var listed := Listed(s.record, target);
      if listed.Some? && after.record.target == Some(target) {
        FoundStays(s, after, target, listed.value);
      }
      hide FoundFor;
      if action.Deliver? && s.queue != [] && Awaits(s.record, s.queue[0]) {
        DeliveredIsFound(s);
      }
    }
  }

  lemma DeliveredIsFound(s: System)
    requires Invariant(s) && s.queue != [] && Awaits(s.record, s.queue[0])
    ensures var after := Step(s, Deliver);
      FoundFor(after, s.record.target.value, s.lookups[s.queue[0]].found.value)
  {
    var t := s.queue[0];
    var after := Step(s, Deliver);
    assert t in after.lookups && after.lookups[t].found == s.lookups[t].found;
  }

  lemma StepKeepsInvariant(s: System, action: Action)
    requires Invariant(s)
    ensures Invariant(Step(s, action))
  {
    hide Queues, Tickets, Progresses, Sources;
    QueuesStay(s, action);
    TicketsStay(s, action);
    SourcesStay(s, action);
  }

  lemma {:induction false} EveryRunKeepsInvariant(actions: seq<Action>)
    ensures Invariant(Run(actions))
  {
    if actions != [] {
      EveryRunKeepsInvariant(actions[..|actions| - 1]);
      hide Invariant, Step;
      StepKeepsInvariant(Run(actions[..|actions| - 1]), actions[|actions| - 1]);
    }
  }

  /** What is offered or reported for a target was found by a lookup of that
      target, whatever was started, aborted and delivered in between. */
  lemma OfferedKindsAreTheTargetsOwn(actions: seq<Action>, target: Target)
    ensures var s := Run(actions);
      && (Listed(s.record, target).Some? ==> FoundFor(s, target, Listed(s.record, target).value))
      && (s.record.status.Idle? <==> s.record.target.None?)
      && (s.record.status.Running? && s.record.status.previous.Some? ==> s.record.status.previous.value.failure.Some?)
  {
    EveryRunKeepsInvariant(actions);
  }

  /** A ticket succeeds at most once, and a delivery succeeds exactly when its
      ticket is the one the record waits for. */
  lemma ATicketSucceedsOnce(actions: seq<Action>)
    ensures Distinct(Run(actions).taken)
    ensures var s := Run(actions); var after := Step(s, Deliver);
      s.queue != [] ==>
        && (after.taken == s.taken + [s.queue[0]] <==> Awaits(s.record, s.queue[0]))
        && (!Awaits(s.record, s.queue[0]) ==> after.taken == s.taken && after.record == s.record)
  {
    EveryRunKeepsInvariant(actions);
    var s := Run(actions);
    assert |s.taken + [0]| == |s.taken| + 1;
  }

  function Deliveries(n: nat): seq<Action> { if n == 0 then [] else [Deliver] + Deliveries(n - 1) }

  function RunFrom(s: System, actions: seq<Action>): System
    decreases |actions|
  {
    if actions == [] then s else RunFrom(Step(s, actions[0]), actions[1..])
  }

  /** A running lookup is never lost: its task is live or its message queued,
      and once queued, taking the messages ahead of it finishes the lookup
      with exactly what it found. */
  lemma {:induction false} QueuedLookupFinishes(s: System, i: nat)
    requires Invariant(s) && s.record.status.Running?
    requires i < |s.queue| && s.queue[i] == s.record.status.ticket
    ensures RunFrom(s, Deliveries(i + 1)).record
         == s.record.(status := Finished(s.lookups[s.queue[i]].found.value))
    decreases i
  {
    var after := Step(s, Deliver);
    var rest := Deliveries(i);
    assert ([Deliver] + rest)[1..] == rest;
    assert RunFrom(s, Deliveries(i + 1)) == RunFrom(after, rest);
    if i > 0 {
      StepKeepsInvariant(s, Deliver);
      assert s.queue[0] != s.queue[i] && after.queue[i - 1] == s.queue[i];
      QueuedLookupFinishes(after, i - 1);
    }
  }

  lemma ARunningLookupIsNeverLost(actions: seq<Action>)
    ensures var s := Run(actions);
      s.record.status.Running? ==>
        var t := s.record.status.ticket;
        && t in s.lookups
        && (t in s.queue || (s.task == Some(t) && s.lookups[t].stage.InTask?))
  {
    EveryRunKeepsInvariant(actions);
  }

  /** Lookups and deliveries of any target, but nothing that turns to another. */
  predicate StaysAt(action: Action, target: Target) {
    (action.Open? ==> action.target == target) && (action.Move? ==> action.target == target)
  }

  lemma {:induction false} StayingAtATarget(s: System, target: Target, later: seq<Action>)
    requires Invariant(s) && (s.record.target.None? || s.record.target == Some(target))
    requires forall action <- later :: StaysAt(action, target)
    ensures var after := RunFrom(s, later);
      Invariant(after) && (after.record.target.None? || after.record.target == Some(target))
    decreases |later|
  {
    if later != [] {
      hide Invariant;
      StepKeepsInvariant(s, later[0]);
      assert StaysAt(later[0], target);
      StayingAtATarget(Step(s, later[0]), target, later[1..]);
    }
  }

  /** After any run and the move to a target, and until the next target: nothing
      of another target is running, offered or reported, whichever of its tasks
      were aborted too late and still send and are delivered. */
  lemma NothingOfAnotherTarget(actions: seq<Action>, target: Target, later: seq<Action>, another: Target)
    requires another != target && forall action <- later :: StaysAt(action, target)
    ensures var after := RunFrom(Step(Run(actions), Move(target)), later);
      && Listed(after.record, another) == None
      && (after.record.status.Running? ==>
            after.record.status.ticket in after.lookups && after.lookups[after.record.status.ticket].target == target)
  {
    EveryRunKeepsInvariant(actions);
    var moved := Step(Run(actions), Move(target));
    StepKeepsInvariant(Run(actions), Move(target));
    assert moved.record.target.None? || moved.record.target == Some(target);
    hide Run, RunFrom, Step;
    StayingAtATarget(moved, target, later);
  }

  /** Moving within a target changes nothing; moving to another one forgets what
      was listed and lets a running lookup's task go. */
  lemma MovingForgets(s: System, target: Target)
    requires Invariant(s)
    ensures var after := Step(s, Move(target));
      if s.record.target == Some(target) then after == s
      else
        && after.record.status.Idle? && after.record.target == None && after.record.tickets == s.record.tickets
        && after.task == (if s.record.status.Running? then None else s.task)
        && after.queue == s.queue && after.lookups == s.lookups
  {
  }

  /** Opening the completion for a target leaves its lookup running, unless a
      complete listing of it is there already; what was listed of the target
      goes on being listed. */
  lemma OpeningLooksUp(s: System, target: Target)
    requires Invariant(s)
    ensures var after := Step(s, Open(target));
      && after.record.target == Some(target)
      && Listed(after.record, target) == Listed(s.record, target)
      && (if Listed(s.record, target).Some? && s.record.status.Finished? && Listed(s.record, target).value.failure.None? then after == s
          else
            && after.record.status.Running? && after.record.status.ticket in after.lookups
            && after.lookups[after.record.status.ticket].target == target)
  {
    hide FoundFor;
  }
}
