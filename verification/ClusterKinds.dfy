/** What is known about the kinds that a cluster serves (control/cluster_kinds.rs):
    the ticketed record of one lookup at a time. */
module ClusterKinds {
  import opened Common

  datatype Target = Target(kubeconfig: Option<string>, context: Option<string>)

  datatype Failure = Failure(code: string, message: string)

  /** What a lookup found, and why kinds may be missing from it, if any may. */
  datatype Listing = Listing(words: seq<string>, failure: Option<Failure>)

  datatype Status =
    | Idle
    | Running(ticket: nat, previous: Option<Listing>)
    | Finished(listing: Listing)

  /** The record as a value: what `status` is about, and the last ticket. */
  datatype Record = Record(target: Option<Target>, status: Status, tickets: nat)

  // ----- what each operation does to the record ----------------------------

  predicate Wanted(r: Record, target: Target) {
    || r.target != Some(target)
    || r.status.Idle?
    || (r.status.Finished? && r.status.listing.failure.Some?)
  }

  /** The listing that a new lookup of the target keeps showing. */
  function Retried(r: Record, target: Target): Option<Listing> {
    if r.target != Some(target) then None
    else match r.status
      case Idle => None
      case Running(_, previous) => previous
      case Finished(listing) => if listing.failure.Some? then Some(listing) else None
  }

  function Begun(r: Record, target: Target): Record {
    Record(Some(target), Running(r.tickets + 1, Retried(r, target)), r.tickets + 1)
  }

  predicate Awaits(r: Record, ticket: nat) { r.status.Running? && r.status.ticket == ticket }

  function Taken(r: Record, ticket: nat, listing: Listing): Record {
    if Awaits(r, ticket) then r.(status := Finished(listing)) else r
  }

  function Retargeted(r: Record, target: Target): Record {
    if r.target == Some(target) then r else r.(target := None, status := Idle)
  }

  /** The last listing of a target: the finished one, or the one that is retried. */
  function Listed(r: Record, target: Target): Option<Listing> {
    if r.target != Some(target) then None
    else match r.status
      case Idle => None
      case Running(_, previous) => previous
      case Finished(listing) => Some(listing)
  }

  // ----- the object --------------------------------------------------------

  class Kinds {
    var target: Option<Target>
    var status: Status
    var tickets: nat

    constructor ()
      ensures Value() == Record(None, Idle, 0)
    {
      target, status, tickets := None, Idle, 0;
    }

    function Value(): Record
      reads this
    {
      Record(target, status, tickets)
    }

    method IsWanted(of: Target) returns (wanted: bool)
      ensures wanted == Wanted(Value(), of)
    {
      if target != Some(of) { return true; }
      match status {
        case Idle => return true;
        case Running(_, _) => return false;
        case Finished(listing) => return listing.failure.Some?;
      }
    }

    method Begin(of: Target) returns (ticket: nat)
      modifies this
      ensures Value() == Begun(old(Value()), of) && ticket == tickets == old(tickets) + 1
      ensures Awaits(Value(), ticket) && Listed(Value(), of) == Retried(old(Value()), of)
    {
      var same := target == Some(of);
      var previous := None;
      match status {
        case Finished(listing) => if same && listing.failure.Some? { previous := Some(listing); }
        case Running(_, kept) => if same { previous := kept; }
        case Idle =>
      }
      tickets := tickets + 1;
      target := Some(of);
      status := Running(tickets, previous);
      ticket := tickets;
    }

    method Finish(ticket: nat, listing: Listing) returns (taken: bool)
      modifies `status
      ensures Value() == Taken(old(Value()), ticket, listing) && taken == Awaits(old(Value()), ticket)
      ensures taken ==> !Awaits(Value(), ticket)
    {
      if !(status.Running? && status.ticket == ticket) { return false; }
      status := Finished(listing);
      taken := true;
    }

    method Retarget(to: Target) returns (dropped: bool)
      modifies `target, `status
      ensures Value() == Retargeted(old(Value()), to)
      ensures dropped == (old(target) != Some(to) && old(status).Running?)
      ensures target == None || target == Some(to)
    {
      if target == Some(to) { return false; }
      dropped := status.Running?;
      target, status := None, Idle;
    }

    method Offered(of: Target) returns (words: seq<string>)
      ensures words == match Listed(Value(), of) case None => [] case Some(listing) => listing.words
    {
      if target != Some(of) { return []; }
      match status {
        case Finished(listing) => return listing.words;
        case Running(_, previous) => return if previous.Some? then previous.value.words else [];
        case Idle => return [];
      }
    }
  }
}
