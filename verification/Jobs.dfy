/** The jobs of the TUI (control/tui.rs, `Job`): reads tagged by generation that
    can be aborted, and one change at a time that cannot. */
module Jobs {
  import opened Common

  /** `changes` is what the request's operation decides: whether it mutates. */
  datatype Request = Request(words: seq<string>, changes: bool)

  datatype Outcome = Done | Failed(code: string, message: string)

  predicate Unknown(outcome: Outcome) { outcome.Failed? && outcome.code == "outcomeUnknown" }

  /** A change that may have happened, and why that is not known. */
  datatype Doubt = Doubt(request: Request, error: Outcome)

  datatype Status = Quiet | InProgress(request: Request) | Cancelling | Ended(outcome: Outcome)

  /** The part of a workspace's state that jobs change. */
  datatype View = View(
    workspace: Workspace, loading: bool, refreshing: bool, pending: Option<Request>,
    log: string, status: Status, uncertain: seq<Doubt>, asking: bool)

  /** A job: `task` and `reload` are the handles of what it may abort. */
  datatype JobView = JobView(generation: nat, mutation: Option<Request>, task: Option<nat>, reload: Option<nat>, cancelled: bool)

  const LOG_LIMIT: nat := 0x10_0000

  // ----- what each operation does ------------------------------------------

  /** The workspace that a change belongs to, whichever is displayed. */
  function Owner(request: Request): Workspace {
    if request.words != [] && request.words[0] == "k8s" then Kubernetes else Containers
  }

  function Stopped(j: JobView): JobView {
    if j.mutation.Some? then j
    else j.(generation := j.generation + 1, task := None, reload := None, cancelled := true)
  }

  function Idle(j: JobView, v: View): View {
    if j.mutation.Some? then v else v.(loading := false, refreshing := false)
  }

  function StartedJob(j: JobView, request: Request, handle: nat): JobView {
    if j.mutation.Some? then j
    else JobView(j.generation + 2, if request.changes then Some(request) else None, Some(handle), None, false)
  }

  function StartedView(j: JobView, v: View, request: Request): View {
    if j.mutation.Some? || request.changes then v else v.(loading := true, refreshing := false)
  }

  function QueriedJob(j: JobView, handle: nat): JobView { Stopped(j).(task := Some(handle), cancelled := false) }

  function ReloadedJob(j: JobView, handle: nat): JobView { Stopped(j).(reload := Some(handle)) }

  function Shortened(log: string): string { if |log| > LOG_LIMIT then log[|log| - LOG_LIMIT..] else log }

  function Reported(v: View, request: Request, outcome: Outcome): View {
    v.(uncertain := if Unknown(outcome) then v.uncertain + [Doubt(request, outcome)] else v.uncertain,
       log := v.log + Line(outcome), status := Ended(outcome))
  }

  function Line(outcome: Outcome): string {
    match outcome
    case Done => "\nOperation completed\n"
    case Failed(code, message) => "\n" + code + ": " + message + "\n"
  }

  /** A report goes to the view of the owner, be it displayed or not. */
  function FinishedIn(j: JobView, v: View, outcome: Outcome): View {
    if j.mutation.Some? && Owner(j.mutation.value) == v.workspace then Reported(v, j.mutation.value, outcome) else v
  }

  // ----- the objects -------------------------------------------------------

  class State {
    const workspace: Workspace
    var loading: bool
    var refreshing: bool
    var pending: Option<Request>
    var log: string
    var status: Status
    var uncertain: seq<Doubt>
    /** `quit_confirmation`. */
    var asking: bool

    constructor (of: Workspace)
      ensures Value() == View(of, false, false, None, "", Quiet, [], false)
    {
      workspace := of;
      loading, refreshing, pending, log, status, uncertain, asking := false, false, None, "", Quiet, [], false;
    }

    function Value(): View
      reads this
    {
      View(workspace, loading, refreshing, pending, log, status, uncertain, asking)
    }
  }

  class Job {
    var generation: nat
    var mutation: Option<Request>
    var task: Option<nat>
    var reload: Option<nat>
    var cancelled: bool

    constructor ()
      ensures Value() == JobView(0, None, None, None, false)
    {
      generation, mutation, task, reload, cancelled := 0, None, None, None, false;
    }

    function Value(): JobView
      reads this
    {
      JobView(generation, mutation, task, reload, cancelled)
    }

    /** `mutation_progress`: the state that shows a change's progress. */
    method Progress(request: Request, state: State, other: State) returns (owner: State)
      ensures owner == if state.workspace == Owner(request) then state else other
    {
      var workspace := if request.words != [] && request.words[0] == "k8s" then Kubernetes else Containers;
      owner := if state.workspace == workspace then state else other;
    }

    method FinishMutation(outcome: Outcome, state: State, other: State)
      requires state.workspace != other.workspace
      modifies this, state, other
      ensures Value() == old(Value()).(mutation := None)
      ensures state.Value() == FinishedIn(old(Value()), old(state.Value()), outcome)
      ensures other.Value() == FinishedIn(old(Value()), old(other.Value()), outcome)
    {
      if mutation == None { return; }
      var request := mutation.value;
      mutation := None;
      var progress := Progress(request, state, other);
      if Unknown(outcome) { progress.uncertain := progress.uncertain + [Doubt(request, outcome)]; }
      progress.log := progress.log + Line(outcome);
      progress.status := Ended(outcome);
    }

    method Cancel(state: State)
      modifies this, state
      ensures Value() == Stopped(old(Value())) && state.Value() == Idle(old(Value()), old(state.Value()))
    {
      if mutation.Some? { return; }
      Stop();
      state.loading := false;
      state.refreshing := false;
    }

    method Stop()
      modifies this
      ensures Value() == Stopped(old(Value()))
    {
      if mutation.Some? { return; }
      cancelled := true;
      reload := None;
      task := None;
      generation := generation + 1;
    }

    /** `handle` is what the spawned read or change is known by, if one is. */
    method Start(request: Request, state: State, handle: nat)
      modifies this, state
      ensures Value() == StartedJob(old(Value()), request, handle)
      ensures state.Value() == StartedView(old(Value()), old(state.Value()), request)
    {
      if mutation.Some? { return; }
      if request.changes { Stop(); } else { Cancel(state); }
      mutation := if request.changes then Some(request) else None;
      cancelled := false;
      generation := generation + 1;
      if !request.changes { state.loading := true; }
      task := Some(handle);
    }

    method StartQuery(state: State, handle: nat)
      modifies this, state
      ensures Value() == QueriedJob(old(Value()), handle)
      ensures state.Value() == Idle(old(Value()), old(state.Value())).(loading := true)
    {
      Cancel(state);
      cancelled := false;
      state.loading := true;
      task := Some(handle);
    }

    method StartReload(state: State, handle: nat)
      modifies this, state
      ensures Value() == ReloadedJob(old(Value()), handle)
      ensures state.Value() == Idle(old(Value()), old(state.Value())).(loading := true)
    {
      Cancel(state);
      state.loading := true;
      reload := Some(handle);
    }

    method RefreshInBackground(request: Option<Request>, state: State, handle: nat)
      requires mutation == None && (request.Some? ==> !request.value.changes)
      modifies this, state
      ensures Value() == if request.Some? then StartedJob(old(Value()), request.value, handle) else QueriedJob(old(Value()), handle)
      ensures state.Value() == old(state.Value()).(loading := false, refreshing := true)
    {
      if request.Some? { Start(request.value, state, handle); } else { StartQuery(state, handle); }
      state.refreshing := state.loading;
      state.loading := false;
    }

    /** A change waits for its confirmation and a read starts; of a command
        that is no request, only the failure is noted. */
    method Dispatch(request: Result<Request, Outcome>, state: State, handle: nat) returns (noted: Option<Outcome>)
      modifies this, state
      ensures noted == if request.Err? then Some(request.error) else None
      ensures Value() == if request.Err? || request.value.changes then old(Value())
                         else StartedJob(old(Value()), request.value, handle)
      ensures state.Value() == if request.Err? then old(state.Value())
                               else if request.value.changes then old(state.Value()).(pending := Some(request.value))
                               else StartedView(old(Value()), old(state.Value()), request.value)
    {
      match request {
        case Err(error) => return Some(error);
        case Ok(request) =>
          if request.changes { state.pending := Some(request); } else { Start(request, state, handle); }
          return None;
      }
    }
  }
}
