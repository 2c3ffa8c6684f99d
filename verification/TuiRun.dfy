/** The event loop of the TUI as a transition system (control/tui.rs, `run`):
    two workspace states that swap places, the reads of the displayed one, one
    change beside them, and the messages in flight between tasks and loop. */
module TuiRun {
  import opened Jobs
  import opened Common

  const ANSWERS: nat := 16
  const PROGRESS: nat := 64

  /** A spawned task, indexed by its handle. Aborting one does not stop it
      from sending: the abort may come too late. */
  datatype Task =
    | ReadTask(generation: nat, workspace: Workspace)
    | ReloadTask(workspace: Workspace)
    | ChangeTask(generation: nat, change: nat, ended: bool)

  datatype Message = Message(task: nat, generation: nat, finished: bool, outcome: Outcome, text: string)

  datatype Phase = Running | Draining | Exited

  /** A result that reached the displayed state, what was then the latest read
      that was not cancelled, and the workspace that was displayed. */
  datatype Acceptance = Acceptance(task: nat, latest: Option<nat>, displayed: Workspace)

  /** The report of a change, and the workspace whose state took it. */
  datatype Report = Report(change: int, workspace: Workspace, outcome: Outcome)

  datatype World = World(
    shown: View, other: View, reader: JobView, changer: JobView,
    tasks: seq<Task>, answers: seq<Message>, progress: seq<Message>,
    phase: Phase, quitting: bool,
    latest: Option<nat>, accepted: seq<Acceptance>, started: seq<Request>, reports: seq<Report>)

  datatype Action =
    // keys and ticks
    | Refresh(query: bool, background: bool)
    | Cancel
    | Tab(query: bool)
    | CommandInOtherWorkspace
    | ChooseOther(query: bool)
    | Dispatch(request: Request)
    | Reload
    | Confirm
    | Decline
    | AskToQuit
    | ConfirmQuit
    | KeepRunning
    | Terminate
    | Break
    // tasks
    | ReadSends(task: nat, finished: bool)
    | ReloadEnds(ok: bool, query: bool)
    | ChangeSends(text: string)
    | ChangeEnds(outcome: Outcome)
    // messages
    | DeliverAnswer
    | DeliverProgress(query: bool)
    | Drain

  function Fresh(workspace: Workspace): View { View(workspace, false, false, None, "", Quiet, [], false) }

  function Init(workspace: Workspace): World {
    var idle := JobView(0, None, None, None, false);
    World(Fresh(workspace), Fresh(if workspace.Containers? then Kubernetes else Containers), idle, idle,
          [], [], [], Running, false, None, [], [], [])
  }

  // ----- steps of the loop -------------------------------------------------

  /** `Job::cancel` on the reads of the displayed state. */
  function Cancelled(w: World): World {
    w.(reader := Stopped(w.reader), shown := Idle(w.reader, w.shown), latest := None)
  }

  function Swapped(w: World): World { w.(shown := w.other, other := w.shown) }

  /** `Job::refresh`: a new read of the displayed state. */
  function Refreshed(w: World, query: bool): World {
    var handle := |w.tasks|;
    var request := Request([], false);
    var reader := if query then QueriedJob(w.reader, handle) else StartedJob(w.reader, request, handle);
    var shown := if query then Idle(w.reader, w.shown).(loading := true) else StartedView(w.reader, w.shown, request);
    w.(reader := reader, shown := shown, latest := Some(handle),
       tasks := w.tasks + [ReadTask(reader.generation, w.shown.workspace)])
  }

  function InBackground(v: View): View { v.(refreshing := v.loading, loading := false) }

  function StartedReload(w: World): World {
    var handle := |w.tasks|;
    w.(reader := ReloadedJob(w.reader, handle), shown := Idle(w.reader, w.shown).(loading := true),
       latest := Some(handle), tasks := w.tasks + [ReloadTask(w.shown.workspace)])
  }

  /** `y` at the confirmation of a change. */
  function Confirmed(w: World): World {
    if w.shown.pending.None? then w
    else
      var request := w.shown.pending.value;
      var answered := w.(shown := w.shown.(pending := None));
      if w.changer.mutation.Some? then answered
      else
        var handle := |w.tasks|;
        var changer := StartedJob(w.changer, request, handle);
        answered.(
          shown := StartedView(w.changer, answered.shown.(log := "", status := InProgress(request)), request),
          changer := changer,
          tasks := w.tasks + [ChangeTask(changer.generation, |w.started|, false)],
          started := w.started + [request])
  }

  /** `finish_mutation` on both states. */
  function Finished(w: World, outcome: Outcome): World {
    if w.changer.mutation.None? then w
    else
      w.(shown := FinishedIn(w.changer, w.shown, outcome),
         other := FinishedIn(w.changer, w.other, outcome),
         changer := w.changer.(mutation := None),
         reports := w.reports + [Report(|w.started| - 1, Owner(w.changer.mutation.value), outcome)])
  }

  function ProgressIn(w: World, v: View, text: string): View {
    if w.changer.mutation.Some? && Owner(w.changer.mutation.value) == v.workspace then v.(log := Shortened(v.log + text))
    else v
  }

  /** Leaving the loop cancels the reads; a change that runs is waited for. */
  function Left(w: World): World { Cancelled(w).(phase := Draining) }

  function Accepted(w: World, task: nat): World {
    w.(accepted := w.accepted + [Acceptance(task, w.latest, w.shown.workspace)])
  }

  function AnswerDelivered(w: World): World {
    if w.answers == [] then w
    else
      var message, rest := w.answers[0], w.(answers := w.answers[1..]);
      if message.generation != w.reader.generation then rest
      else
        var taken := Accepted(rest, message.task);
        if message.finished then taken.(shown := taken.shown.(loading := false, refreshing := false)) else taken
  }

  function ProgressDelivered(w: World, query: bool): World {
    if w.progress == [] then w
    else
      var message, rest := w.progress[0], w.(progress := w.progress[1..]);
      if message.generation != w.changer.generation then rest
      else if message.finished then
        var done := Finished(rest, message.outcome);
        var reaped := done.(changer := done.changer.(task := None), shown := done.shown.(asking := false));
        if w.quitting then Left(reaped)
        else if w.reader.reload.None? then Refreshed(reaped, query)
        else reaped
      else rest.(shown := ProgressIn(w, w.shown, message.text), other := ProgressIn(w, w.other, message.text))
  }

  /** The drain takes the result whatever its generation. */
  function Drained(w: World): World {
    if w.changer.mutation.None? then w.(phase := Exited)
    else if w.progress == [] then w
    else
      var message, rest := w.progress[0], w.(progress := w.progress[1..]);
      if message.finished then Finished(rest, message.outcome) else rest
  }

  /** The task of the running change. */
  predicate ChangeRuns(w: World) {
    && w.changer.mutation.Some? && w.changer.task.Some? && w.changer.task.value < |w.tasks|
    && w.tasks[w.changer.task.value].ChangeTask? && !w.tasks[w.changer.task.value].ended
  }

  function ChangeSent(w: World, finished: bool, outcome: Outcome, text: string): World
    requires ChangeRuns(w)
  {
    var handle := w.changer.task.value;
    var task := w.tasks[handle];
    w.(progress := w.progress + [Message(handle, task.generation, finished, outcome, text)],
       tasks := w.tasks[handle := task.(ended := finished)])
  }

  function Step(w: World, action: Action): World {
    match action
    case ReadSends(task, finished) =>
      if task < |w.tasks| && w.tasks[task].ReadTask? && |w.answers| < ANSWERS then
        w.(answers := w.answers + [Message(task, w.tasks[task].generation, finished, Done, "")])
      else w
    case ChangeSends(text) =>
      if ChangeRuns(w) && |w.progress| < PROGRESS then ChangeSent(w, false, Done, text) else w
    case ChangeEnds(outcome) =>
      if ChangeRuns(w) && |w.progress| < PROGRESS then ChangeSent(w, true, outcome, "") else w
    case Drain => if w.phase.Draining? then Drained(w) else w
    case _ => if w.phase.Running? && !(w.quitting && Key(action)) then LoopStep(w, action) else w
  }

  /** The keys that are ignored once quitting waits for the change. */
  predicate Key(action: Action) {
    action.Cancel? || action.Tab? || action.CommandInOtherWorkspace? || action.ChooseOther? || action.Dispatch? ||
    action.Confirm? || action.Decline? || action.AskToQuit? || action.ConfirmQuit? || action.KeepRunning?
  }

  /** What one event of the loop does. */
  function LoopStep(w: World, action: Action): World {
    match action
    case Refresh(query, background) =>
      var next := Refreshed(w, query);
      if background then next.(shown := InBackground(next.shown)) else next
    case Cancel => Cancelled(w)
    case Tab(query) => Refreshed(Swapped(Cancelled(w)), query)
    case CommandInOtherWorkspace => Swapped(Cancelled(w))
    case ChooseOther(query) => Refreshed(Swapped(w), query)
    case Dispatch(request) => if request.changes then w.(shown := w.shown.(pending := Some(request))) else Refreshed(w, false)
    case Reload => StartedReload(w)
    case Confirm => Confirmed(w)
    case Decline => w.(shown := w.shown.(pending := None))
    case AskToQuit => if w.changer.mutation.None? then Left(w) else w.(shown := w.shown.(asking := true))
    case ConfirmQuit =>
      if w.shown.asking then w.(quitting := true, shown := w.shown.(asking := false, status := Cancelling)) else w
    case KeepRunning => w.(shown := w.shown.(asking := false))
    case Terminate => if w.changer.mutation.None? then Left(w) else w.(quitting := true)
    case Break => Left(w)
    case ReloadEnds(ok, query) =>
      if w.reader.reload.None? then w
      else
        var ended := w.(reader := w.reader.(reload := None));
        if ok then Refreshed(ended, query)
        else
          var taken := Accepted(ended, w.reader.reload.value);
          taken.(shown := taken.shown.(loading := false, refreshing := false))
    case DeliverAnswer => AnswerDelivered(w)
    case DeliverProgress(query) => ProgressDelivered(w, query)
    case _ => w
  }

  function Run(workspace: Workspace, actions: seq<Action>): World {
    if actions == [] then Init(workspace)
    else Step(Run(workspace, actions[..|actions| - 1]), actions[|actions| - 1])
  }

  function RunFrom(w: World, actions: seq<Action>): World
    decreases |actions|
  {
    if actions == [] then w else RunFrom(Step(w, actions[0]), actions[1..])
  }

  // ----- no stale read is accepted -----------------------------------------

  predicate Fresher(task: Task, t: nat, generation: nat, latest: Option<nat>) {
    task.ReadTask? ==> task.generation <= generation && (task.generation == generation ==> latest == Some(t))
  }

  predicate Current(task: Task, generation: nat) { task.ReadTask? ==> task.generation == generation }

  predicate ShownRead(tasks: seq<Task>, t: nat, workspace: Workspace) {
    t < |tasks| &&
    match tasks[t]
    case ReadTask(_, of) => of == workspace
    case ReloadTask(of) => of == workspace
    case ChangeTask(_, _, _) => false
  }

  /** Only messages of the latest read carry the reader's generation, and they
      all do. */
  predicate ReadsTagged(w: World) {
    && w.reader.mutation.None?
    && (forall t :: 0 <= t < |w.tasks| ==> Fresher(w.tasks[t], t, w.reader.generation, w.latest))
    && (w.latest.Some? ==> w.latest.value < |w.tasks| && Current(w.tasks[w.latest.value], w.reader.generation))
    && (w.reader.reload.Some? ==> w.latest == w.reader.reload)
    && (forall m :: m in w.answers ==> Tagged(w.tasks, m))
  }

  predicate Tagged(tasks: seq<Task>, m: Message) {
    m.task < |tasks| && tasks[m.task].ReadTask? && m.generation == tasks[m.task].generation
  }

  /** The latest read is of the displayed workspace. */
  predicate LatestIsShown(w: World) { w.latest.Some? ==> ShownRead(w.tasks, w.latest.value, w.shown.workspace) }

  predicate FromLatest(tasks: seq<Task>, a: Acceptance) { a.latest == Some(a.task) && ShownRead(tasks, a.task, a.displayed) }

  predicate AcceptedInOrder(w: World) { forall a :: a in w.accepted ==> FromLatest(w.tasks, a) }

  predicate ReadsInOrder(w: World) { ReadsTagged(w) && LatestIsShown(w) && AcceptedInOrder(w) }

  lemma CancelKeepsReads(w: World)
    requires ReadsTagged(w) && AcceptedInOrder(w)
    ensures ReadsInOrder(Cancelled(w)) && Cancelled(w).latest == None
  {
  }

  lemma SwapKeepsReads(w: World)
    requires ReadsTagged(w) && AcceptedInOrder(w)
    ensures ReadsTagged(Swapped(w)) && AcceptedInOrder(Swapped(w)) && (w.latest.None? ==> LatestIsShown(Swapped(w)))
  {
  }

  /** A new read is the latest, of the workspace displayed now. */
  lemma RefreshKeepsReads(w: World, query: bool)
    requires ReadsTagged(w) && AcceptedInOrder(w)
    ensures ReadsInOrder(Refreshed(w, query))
  {
  }

  /** While it is new, it is marked: as loading, or in the background as
      refreshing only. */
  lemma RefreshIsMarked(w: World, query: bool, background: bool)
    requires ReadsTagged(w) && w.phase.Running?
    ensures var after := Step(w, Refresh(query, background));
      && after.latest == Some(|w.tasks|) && after.reader.task == Some(|w.tasks|)
      && after.shown.loading == !background && after.shown.refreshing == background
  {
  }

  /** Cancelling and leaving stop every read: nothing is marked, nothing may be
      aborted any more, and no message in flight is of the reader's generation. */
  lemma CancelStopsReads(w: World, action: Action)
    requires ReadsInOrder(w) && w.phase.Running? && !w.quitting && (action.Cancel? || action.Break?)
    ensures var after := Step(w, action);
      && after.latest == None && after.reader.task == None && after.reader.reload == None && after.reader.cancelled
      && !after.shown.loading && !after.shown.refreshing && after.phase == (if action.Break? then Draining else Running)
      && forall m :: m in after.answers ==> m.generation != after.reader.generation
  {
    forall m | m in w.answers ensures m.generation < w.reader.generation + 1 {
      assert Tagged(w.tasks, m) && Fresher(w.tasks[m.task], m.task, w.reader.generation, w.latest);
    }
  }

  /** Quitting waits for a running change, after a question, and for nothing
      else. */
  lemma QuittingWaits(w: World)
    requires w.phase.Running? && !w.quitting
    ensures w.changer.mutation.None? ==> Step(w, AskToQuit).phase.Draining? && Step(w, Terminate).phase.Draining?
    ensures w.changer.mutation.Some? ==> Step(w, AskToQuit) == w.(shown := w.shown.(asking := true))
    ensures w.changer.mutation.Some? ==> Step(w, Terminate) == w.(quitting := true)
    ensures Step(w, ConfirmQuit).quitting <==> w.shown.asking
  {
  }

  lemma ReloadKeepsReads(w: World)
    requires ReadsTagged(w) && AcceptedInOrder(w)
    ensures ReadsInOrder(StartedReload(w))
  {
  }

  lemma AcceptKeepsReads(w: World, task: nat)
    requires ReadsInOrder(w) && w.latest == Some(task)
    ensures ReadsInOrder(Accepted(w, task))
  {
  }

  /** Steps that touch neither the reads nor which workspace is displayed. */
  predicate SameReads(w: World, after: World) {
    && after.reader == w.reader && after.latest == w.latest && after.accepted == w.accepted
    && after.shown.workspace == w.shown.workspace && |after.tasks| >= |w.tasks|
    && (forall t :: 0 <= t < |w.tasks| ==>
          after.tasks[t] == w.tasks[t] || (w.tasks[t].ChangeTask? && after.tasks[t].ChangeTask?))
    && (forall t :: |w.tasks| <= t < |after.tasks| ==> after.tasks[t].ChangeTask?)
    && (forall m :: m in after.answers ==> m in w.answers)
  }

  lemma SameReadsKeep(w: World, after: World)
    requires SameReads(w, after)
    ensures ReadsTagged(w) ==> ReadsTagged(after)
    ensures LatestIsShown(w) ==> LatestIsShown(after)
    ensures AcceptedInOrder(w) ==> AcceptedInOrder(after)
  {
    if ReadsTagged(w) {
      forall m | m in after.answers ensures Tagged(after.tasks, m) { assert Tagged(w.tasks, m); }
    }
    if AcceptedInOrder(w) {
      forall a | a in after.accepted ensures FromLatest(after.tasks, a) { assert FromLatest(w.tasks, a); }
    }
  }

  lemma AnswerKeepsReads(w: World)
    requires ReadsInOrder(w)
    ensures ReadsInOrder(AnswerDelivered(w))
  {
    if w.answers != [] {
      var message, rest := w.answers[0], w.(answers := w.answers[1..]);
      assert message in w.answers && Tagged(w.tasks, message);
      assert forall m :: m in rest.answers ==> m in w.answers;
      SameReadsKeep(w, rest);
      if message.generation == w.reader.generation {
        AcceptKeepsReads(rest, message.task);
        SameReadsKeep(Accepted(rest, message.task), AnswerDelivered(w));
      }
    }
  }

  lemma ProgressKeepsReads(w: World, query: bool)
    requires ReadsInOrder(w)
    ensures ReadsInOrder(ProgressDelivered(w, query))
  {
    if w.progress != [] {
      var message, rest := w.progress[0], w.(progress := w.progress[1..]);
      if message.generation == w.changer.generation && message.finished {
        var done := Finished(rest, message.outcome);
        var reaped := done.(changer := done.changer.(task := None), shown := done.shown.(asking := false));
        SameReadsKeep(w, reaped);
        if w.quitting {
          CancelKeepsReads(reaped);
          SameReadsKeep(Cancelled(reaped), Left(reaped));
        } else if w.reader.reload.None? {
          RefreshKeepsReads(reaped, query);
        }
      } else {
        SameReadsKeep(w, ProgressDelivered(w, query));
      }
    }
  }

  lemma LoopKeepsReads(w: World, action: Action)
    requires ReadsInOrder(w)
    ensures ReadsInOrder(LoopStep(w, action))
  {
    hide ReadsTagged, LatestIsShown, AcceptedInOrder, AnswerDelivered, ProgressDelivered, Refreshed, StartedReload;
    var after := LoopStep(w, action);
    match action {
      case Refresh(query, background) =>
        RefreshKeepsReads(w, query);
        SameReadsKeep(Refreshed(w, query), after);
      case Cancel => CancelKeepsReads(w);
      case Tab(query) =>
        CancelKeepsReads(w);
        SwapKeepsReads(Cancelled(w));
        RefreshKeepsReads(Swapped(Cancelled(w)), query);
      case CommandInOtherWorkspace =>
        CancelKeepsReads(w);
        SwapKeepsReads(Cancelled(w));
      case ChooseOther(query) =>
        SwapKeepsReads(w);
        RefreshKeepsReads(Swapped(w), query);
      case Dispatch(request) => if request.changes { SameReadsKeep(w, after); } else { RefreshKeepsReads(w, false); }
      case Reload => ReloadKeepsReads(w);
      case ReloadEnds(ok, query) => ReloadEndKeepsReads(w, ok, query);
      case DeliverAnswer => AnswerKeepsReads(w);
      case DeliverProgress(query) => ProgressKeepsReads(w, query);
      case AskToQuit => LeftKeepsReads(w); SameReadsKeep(w, w.(shown := w.shown.(asking := true)));
      case Terminate => LeftKeepsReads(w); SameReadsKeep(w, w.(quitting := true));
      case Break => LeftKeepsReads(w);
      case _ => SameReadsKeep(w, after);
    }
  }

  lemma LeftKeepsReads(w: World)
    requires ReadsInOrder(w)
    ensures ReadsInOrder(Left(w))
  {
    CancelKeepsReads(w);
    SameReadsKeep(Cancelled(w), Left(w));
  }

  lemma ReloadEndKeepsReads(w: World, ok: bool, query: bool)
    requires ReadsInOrder(w)
    ensures ReadsInOrder(LoopStep(w, ReloadEnds(ok, query)))
  {
    if w.reader.reload.Some? {
      var ended := w.(reader := w.reader.(reload := None));
      assert ReadsInOrder(ended);
      if ok {
        RefreshKeepsReads(ended, query);
      } else {
        AcceptKeepsReads(ended, w.reader.reload.value);
        SameReadsKeep(Accepted(ended, w.reader.reload.value), LoopStep(w, ReloadEnds(ok, query)));
      }
    }
  }

  lemma StepKeepsReads(w: World, action: Action)
    requires ReadsInOrder(w)
    ensures ReadsInOrder(Step(w, action))
  {
    hide LoopStep, Drained;
    match action {
      case ReadSends(task, finished) => SendKeepsReads(w, task, finished);
      case ChangeSends(_) => SameReadsKeep(w, Step(w, action));
      case ChangeEnds(_) => SameReadsKeep(w, Step(w, action));
      case Drain => DrainKeepsReads(w);
      case _ => if w.phase.Running? && !(w.quitting && Key(action)) { LoopKeepsReads(w, action); }
    }
  }

  lemma DrainKeepsReads(w: World)
    requires ReadsInOrder(w)
    ensures ReadsInOrder(Drained(w))
  {
    SameReadsKeep(w, Drained(w));
  }

  lemma SendKeepsReads(w: World, task: nat, finished: bool)
    requires ReadsInOrder(w)
    ensures ReadsInOrder(Step(w, ReadSends(task, finished)))
  {
    var after := Step(w, ReadSends(task, finished));
    forall m | m in after.answers ensures Tagged(after.tasks, m) {
      if m in w.answers { assert Tagged(w.tasks, m); }
    }
    forall a | a in after.accepted ensures FromLatest(after.tasks, a) { assert FromLatest(w.tasks, a); }
  }

  /** Whatever is aborted too late or still queued: every result that is
      accepted comes from the latest read that was not cancelled, and that
      read is of the workspace displayed when it is accepted. */
  lemma {:induction false} NoStaleReadIsAccepted(workspace: Workspace, actions: seq<Action>)
    ensures ReadsInOrder(Run(workspace, actions))
    ensures forall a :: a in Run(workspace, actions).accepted ==>
      a.latest == Some(a.task) && ShownRead(Run(workspace, actions).tasks, a.task, a.displayed)
  {
    if actions != [] {
      hide Step, ReadsTagged, LatestIsShown;
      NoStaleReadIsAccepted(workspace, actions[..|actions| - 1]);
      StepKeepsReads(Run(workspace, actions[..|actions| - 1]), actions[|actions| - 1]);
    }
    var w := Run(workspace, actions);
    assert AcceptedInOrder(w) ==> forall a :: a in w.accepted ==> FromLatest(w.tasks, a);
  }

  // ----- the latest read is heard ------------------------------------------

  /** A delivered answer is accepted exactly when it is of the latest read; its
      last one clears the loading marks. */
  lemma LatestReadIsHeard(w: World)
    requires ReadsInOrder(w) && w.phase.Running? && w.answers != []
    ensures var m, after := w.answers[0], Step(w, DeliverAnswer);
      if w.latest == Some(m.task) then
        && after.accepted == w.accepted + [Acceptance(m.task, w.latest, w.shown.workspace)]
        && (m.finished ==> !after.shown.loading && !after.shown.refreshing)
      else after == w.(answers := w.answers[1..])
  {
    assert Tagged(w.tasks, w.answers[0]);
    assert Fresher(w.tasks[w.answers[0].task], w.answers[0].task, w.reader.generation, w.latest);
  }

  function Deliveries(n: nat): seq<Action> { if n == 0 then [] else [DeliverAnswer] + Deliveries(n - 1) }

  lemma DeliveryStep(w: World)
    requires ReadsInOrder(w) && w.phase.Running? && w.answers != []
    ensures var after := Step(w, DeliverAnswer);
      && ReadsInOrder(after) && after.phase.Running? && after.answers == w.answers[1..] && after.latest == w.latest
  {
    AnswerKeepsReads(w);
  }

  /** Once the last message of the latest read is queued, delivering the queue
      up to it accepts it and clears the loading marks. */
  lemma {:induction false} LatestReadFinishes(w: World, i: nat)
    requires ReadsInOrder(w) && w.phase.Running?
    requires i < |w.answers| && w.latest == Some(w.answers[i].task) && w.answers[i].finished
    ensures var after := RunFrom(w, Deliveries(i + 1));
      && !after.shown.loading && !after.shown.refreshing
      && after.accepted != [] && after.accepted[|after.accepted| - 1].task == w.answers[i].task
    decreases i
  {
    var after, rest := Step(w, DeliverAnswer), Deliveries(i);
    assert ([DeliverAnswer] + rest)[1..] == rest;
    assert RunFrom(w, Deliveries(i + 1)) == RunFrom(after, rest);
    DeliveryStep(w);
    LatestReadIsHeard(w);
    hide Step, ReadsTagged, LatestIsShown, AcceptedInOrder;
    if i > 0 { LatestReadFinishes(after, i - 1); }
  }

  // ----- every change is reported once -------------------------------------

  /** The changes of a workspace whose outcome was reported as unknown. */
  function Doubts(started: seq<Request>, reports: seq<Report>, workspace: Workspace): seq<Doubt>
    requires |reports| <= |started|
  {
    if reports == [] then []
    else
      var k := |reports| - 1;
      Doubts(started, reports[..k], workspace) +
        if Owner(started[k]) == workspace && Unknown(reports[k].outcome) then [Doubt(started[k], reports[k].outcome)] else []
  }

  predicate ReportOf(started: seq<Request>, k: nat, report: Report) {
    k < |started| && report.change == k && report.workspace == Owner(started[k])
  }

  /** Every started change but the running one has its report, in order, in
      the workspace of its owner. */
  predicate Accounted(w: World) {
    && |w.started| == |w.reports| + (if w.changer.mutation.Some? then 1 else 0)
    && (w.changer.mutation.Some? ==> w.changer.mutation.value == w.started[|w.started| - 1])
    && (forall k :: 0 <= k < |w.reports| ==> ReportOf(w.started, k, w.reports[k]))
    && w.shown.workspace != w.other.workspace
    && w.shown.uncertain == Doubts(w.started, w.reports, w.shown.workspace)
    && w.other.uncertain == Doubts(w.started, w.reports, w.other.workspace)
    && (w.shown.pending.Some? ==> w.shown.pending.value.changes)
    && (w.other.pending.Some? ==> w.other.pending.value.changes)
    && (w.phase.Exited? ==> w.changer.mutation.None?)
  }

  /** What the queue of a change holds: messages of the running change only,
      its result last and once. */
  predicate InFlight(w: World) {
    if w.changer.mutation.None? then w.progress == []
    else
      && w.changer.task.Some? && w.changer.task.value < |w.tasks|
      && var h := w.changer.task.value;
      && w.tasks[h].ChangeTask? && w.tasks[h].change == |w.started| - 1 && w.tasks[h].generation == w.changer.generation
      && (forall i :: 0 <= i < |w.progress| ==>
            w.progress[i].task == h && w.progress[i].generation == w.changer.generation
            && (w.progress[i].finished <==> i == |w.progress| - 1 && w.tasks[h].ended))
      && (w.tasks[h].ended ==> w.progress != [])
  }

  predicate ChangesInOrder(w: World) { Accounted(w) && InFlight(w) }

  /** Steps that touch neither changes nor what is known of them. */
  predicate SameChanges(w: World, after: World) {
    && after.changer == w.changer && after.progress == w.progress
    && after.started == w.started && after.reports == w.reports && (after.phase == w.phase || after.phase.Draining?)
    && ((SameKnown(w.shown, after.shown) && SameKnown(w.other, after.other)) ||
        (SameKnown(w.shown, after.other) && SameKnown(w.other, after.shown)))
    && |after.tasks| >= |w.tasks| && after.tasks[..|w.tasks|] == w.tasks
  }

  predicate SameKnown(v: View, after: View) {
    after.workspace == v.workspace && after.uncertain == v.uncertain && (after.pending == v.pending || after.pending.None? || after.pending.value.changes)
  }

  lemma SameChangesKeep(w: World, after: World)
    requires ChangesInOrder(w) && SameChanges(w, after)
    ensures ChangesInOrder(after)
  {
    hide Doubts;
    if w.changer.mutation.Some? { assert after.tasks[..|w.tasks|][w.changer.task.value] == w.tasks[w.changer.task.value]; }
  }

  lemma ConfirmKeepsChanges(w: World)
    requires ChangesInOrder(w) && !w.phase.Exited?
    ensures ChangesInOrder(Confirmed(w))
  {
    var after := Confirmed(w);
    if w.shown.pending.Some? && w.changer.mutation.None? {
      DoubtsIgnoreLater(w.started, [w.shown.pending.value], w.reports, w.shown.workspace);
      DoubtsIgnoreLater(w.started, [w.shown.pending.value], w.reports, w.other.workspace);
      hide Doubts;
      forall k | 0 <= k < |after.reports| ensures ReportOf(after.started, k, after.reports[k]) {
        assert ReportOf(w.started, k, w.reports[k]);
      }
    }
  }

  lemma {:induction false} DoubtsIgnoreLater(started: seq<Request>, later: seq<Request>, reports: seq<Report>, workspace: Workspace)
    requires |reports| <= |started|
    ensures Doubts(started + later, reports, workspace) == Doubts(started, reports, workspace)
  {
    if reports != [] { DoubtsIgnoreLater(started, later, reports[..|reports| - 1], workspace); }
  }

  /** The one report of the running change. */
  lemma FinishKeepsAccounts(w: World, outcome: Outcome)
    requires Accounted(w) && w.changer.mutation.Some?
    ensures Accounted(Finished(w, outcome)) && Finished(w, outcome).changer.mutation.None?
    ensures var after := Finished(w, outcome);
      && after.reports == w.reports + [Report(|w.started| - 1, Owner(w.changer.mutation.value), outcome)]
      && after.progress == w.progress
  {
    var after := Finished(w, outcome);
    var k := |w.reports|;
    assert after.reports[..k] == w.reports;
    assert Doubts(after.started, after.reports, w.shown.workspace) == after.shown.uncertain;
    assert Doubts(after.started, after.reports, w.other.workspace) == after.other.uncertain;
    forall i | 0 <= i < |after.reports| ensures ReportOf(after.started, i, after.reports[i]) {
      if i < k { assert ReportOf(w.started, i, w.reports[i]); }
    }
  }

  /** The head of the queue, taken off it. */
  lemma TakeKeepsChanges(w: World)
    requires ChangesInOrder(w) && w.progress != []
    ensures w.changer.mutation.Some? && w.progress[0].generation == w.changer.generation
    ensures var rest := w.(progress := w.progress[1..]);
      && Accounted(rest) && (if w.progress[0].finished then rest.progress == [] else InFlight(rest))
  {
  }

  lemma FinishKeepsChanges(w: World, outcome: Outcome)
    requires Accounted(w) && w.changer.mutation.Some? && w.progress == []
    ensures ChangesInOrder(Finished(w, outcome))
  {
    FinishKeepsAccounts(w, outcome);
  }

  lemma ProgressKeepsChanges(w: World, query: bool)
    requires ChangesInOrder(w)
    ensures ChangesInOrder(ProgressDelivered(w, query))
  {
    if w.progress != [] {
      TakeKeepsChanges(w);
      var message, rest := w.progress[0], w.(progress := w.progress[1..]);
      assert ChangesInOrder(rest) || message.finished;
      assert message.finished ==> Accounted(rest) && rest.progress == [];
      assert rest.changer == w.changer;
      hide *;
      if message.finished {
        FinishKeepsChanges(rest, message.outcome);
        EndedDelivery(w, query);
        FinishKeepsAccounts(rest, message.outcome);
        ReapKeepsChanges(Finished(rest, message.outcome), query);
      } else {
        TextDelivery(w, query);
        SameChangesKeep(rest, ProgressDelivered(w, query));
      }
    }
  }

  lemma EndedDelivery(w: World, query: bool)
    requires w.progress != [] && w.progress[0].generation == w.changer.generation && w.progress[0].finished
    ensures var done := Finished(w.(progress := w.progress[1..]), w.progress[0].outcome);
      var reaped := done.(changer := done.changer.(task := None), shown := done.shown.(asking := false));
      var after := ProgressDelivered(w, query);
      after == Left(reaped) || after == Refreshed(reaped, query) || after == reaped
  {
    hide Finished, Refreshed, Left;
  }

  lemma TextDelivery(w: World, query: bool)
    requires w.progress != [] && w.progress[0].generation == w.changer.generation && !w.progress[0].finished
    ensures SameChanges(w.(progress := w.progress[1..]), ProgressDelivered(w, query))
  {
  }

  lemma ReapKeepsChanges(done: World, query: bool)
    requires ChangesInOrder(done) && done.changer.mutation.None?
    ensures var reaped := done.(changer := done.changer.(task := None), shown := done.shown.(asking := false));
      ChangesInOrder(reaped) && ChangesInOrder(Left(reaped)) && ChangesInOrder(Refreshed(reaped, query))
  {
    var reaped := done.(changer := done.changer.(task := None), shown := done.shown.(asking := false));
    hide Doubts;
    assert ChangesInOrder(reaped);
    SameChangesKeep(reaped, Left(reaped));
    SameChangesKeep(reaped, Refreshed(reaped, query));
  }

  lemma DrainKeepsChanges(w: World)
    requires ChangesInOrder(w)
    ensures ChangesInOrder(Drained(w))
  {
    if w.changer.mutation.Some? && w.progress != [] {
      TakeKeepsChanges(w);
      hide Doubts;
      var message, rest := w.progress[0], w.(progress := w.progress[1..]);
      if message.finished { FinishKeepsChanges(rest, message.outcome); }
    }
  }

  lemma SendKeepsChanges(w: World, finished: bool, outcome: Outcome, text: string)
    requires ChangesInOrder(w) && ChangeRuns(w)
    ensures ChangesInOrder(ChangeSent(w, finished, outcome, text))
  {
    hide Doubts;
  }

  lemma LoopKeepsChanges(w: World, action: Action)
    requires ChangesInOrder(w) && w.phase.Running?
    ensures ChangesInOrder(LoopStep(w, action))
  {
    hide ChangesInOrder, Refreshed, Confirmed, ProgressDelivered;
    match action {
      case Confirm => ConfirmKeepsChanges(w);
      case DeliverProgress(query) => ProgressKeepsChanges(w, query);
      case Refresh(query, background) =>
        RefreshKeepsChanges(w, query);
        SameChangesKeep(Refreshed(w, query), LoopStep(w, action));
      case Tab(query) =>
        SwapKeepsChanges(w);
        RefreshKeepsChanges(Swapped(Cancelled(w)), query);
      case CommandInOtherWorkspace => SwapKeepsChanges(w);
      case ChooseOther(query) =>
        SwapKeepsChanges(w);
        RefreshKeepsChanges(Swapped(w), query);
      case Dispatch(request) =>
        if request.changes { SameChangesKeep(w, LoopStep(w, action)); } else { RefreshKeepsChanges(w, false); }
      case ReloadEnds(ok, query) => ReloadEndKeepsChanges(w, ok, query);
      case _ => SameChangesKeep(w, LoopStep(w, action));
    }
  }

  lemma RefreshKeepsChanges(w: World, query: bool)
    requires ChangesInOrder(w)
    ensures ChangesInOrder(Refreshed(w, query))
  {
    hide ChangesInOrder;
    SameChangesKeep(w, Refreshed(w, query));
  }

  lemma SwapKeepsChanges(w: World)
    requires ChangesInOrder(w)
    ensures ChangesInOrder(Swapped(w)) && ChangesInOrder(Swapped(Cancelled(w)))
  {
    hide ChangesInOrder;
    SameChangesKeep(w, Swapped(w));
    SameChangesKeep(w, Swapped(Cancelled(w)));
  }

  lemma ReloadEndKeepsChanges(w: World, ok: bool, query: bool)
    requires ChangesInOrder(w)
    ensures ChangesInOrder(LoopStep(w, ReloadEnds(ok, query)))
  {
    hide ChangesInOrder;
    if w.reader.reload.Some? {
      var ended := w.(reader := w.reader.(reload := None));
      SameChangesKeep(w, ended);
      RefreshKeepsChanges(ended, query);
      if !ok { SameChangesKeep(w, LoopStep(w, ReloadEnds(ok, query))); }
    }
  }

  lemma StepKeepsChanges(w: World, action: Action)
    requires ChangesInOrder(w)
    ensures ChangesInOrder(Step(w, action))
  {
    hide LoopStep, Drained, Accounted, InFlight, ChangeSent, ChangeRuns;
    match action {
      case ReadSends(task, finished) => ReadSendSame(w, task, finished); SameChangesKeep(w, Step(w, action));
      case ChangeSends(text) => if ChangeRuns(w) { SendKeepsChanges(w, false, Done, text); }
      case ChangeEnds(outcome) => if ChangeRuns(w) { SendKeepsChanges(w, true, outcome, ""); }
      case Drain => DrainKeepsChanges(w);
      case _ => if w.phase.Running? && !(w.quitting && Key(action)) { LoopKeepsChanges(w, action); }
    }
  }

  lemma ReadSendSame(w: World, task: nat, finished: bool)
    ensures SameChanges(w, Step(w, ReadSends(task, finished)))
  {
    assert w.tasks[..|w.tasks|] == w.tasks;
  }

  /** Over every run, the started changes are the reported ones and the one in
      flight; each report is in the workspace that owns its request, whichever
      is displayed, and the two lists hold exactly the changes whose outcome
      was unknown. After the drain at exit none is in flight. */
  lemma {:induction false} EveryChangeIsReportedOnce(workspace: Workspace, actions: seq<Action>)
    ensures ChangesInOrder(Run(workspace, actions))
    ensures var w := Run(workspace, actions);
      && |w.started| == |w.reports| + (if w.changer.mutation.Some? then 1 else 0)
      && (forall k :: 0 <= k < |w.reports| ==> ReportOf(w.started, k, w.reports[k]))
      && w.shown.uncertain == Doubts(w.started, w.reports, w.shown.workspace)
      && w.other.uncertain == Doubts(w.started, w.reports, w.other.workspace)
      && (w.phase.Exited? ==> |w.started| == |w.reports|)
  {
    if actions != [] {
      EveryChangeIsReportedOnce(workspace, actions[..|actions| - 1]);
      var before := Run(workspace, actions[..|actions| - 1]);
      assert ChangesInOrder(Run(workspace, actions)) by {
        hide ChangesInOrder, Step;
        StepKeepsChanges(before, actions[|actions| - 1]);
      }
    }
    hide Doubts, Step;
  }

  function Drains(n: nat): seq<Action> { if n == 0 then [] else [Drain] + Drains(n - 1) }

  /** Once the change has sent its result, the drain ends: it takes every
      message that is queued, and one more step leaves. */
  lemma {:induction false} TheDrainEnds(w: World)
    requires ChangesInOrder(w) && w.phase.Draining?
    requires w.changer.mutation.Some? ==> w.tasks[w.changer.task.value].ended
    ensures RunFrom(w, Drains(|w.progress| + 1)).phase.Exited?
    decreases |w.progress|
  {
    var after, rest := Step(w, Drain), Drains(|w.progress|);
    assert ([Drain] + rest)[1..] == rest;
    assert RunFrom(w, Drains(|w.progress| + 1)) == RunFrom(after, rest);
    if w.progress != [] {
      TakeKeepsChanges(w);
      StepKeepsChanges(w, Drain);
      TheDrainEnds(after);
    }
  }
}
