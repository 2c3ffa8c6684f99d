/** What the user sees of a change, over whole runs of the event loop
    (control/tui.rs): which changes start, what their progress and their end
    leave in the views of the two workspaces. */
module ChangeReports {
  import opened Common
  import opened Jobs
  import opened TuiRun

  /** The view of a workspace, displayed or not. */
  function ViewOf(w: World, workspace: Workspace): View {
    if w.shown.workspace == workspace then w.shown else w.other
  }

  function Another(workspace: Workspace): Workspace {
    if workspace.Containers? then Kubernetes else Containers
  }

  /** The workspace that a request is about, by its first word. */
  function About(words: seq<string>): Workspace {
    if |words| >= 1 && words[0] == "k8s" then Kubernetes else Containers
  }

  /** The part of a view that reports are shown in. */
  datatype Shown = Shown(log: string, status: Status, uncertain: seq<Doubt>)

  function ShownIn(w: World, workspace: Workspace): Shown {
    var v := ViewOf(w, workspace);
    Shown(v.log, v.status, v.uncertain)
  }

  // ----- which changes start -----------------------------------------------

  /** A change starts exactly when it waits for its confirmation, is confirmed,
      and no other one runs; it is then the running one, with a task of its
      own, and its workspace shows that it is in progress. */
  lemma AChangeStartsWhenConfirmed(workspace: Workspace, actions: seq<Action>, action: Action)
    ensures var w, after := Run(workspace, actions), Run(workspace, actions + [action]);
      var starts := action.Confirm? && w.phase.Running? && !w.quitting && w.shown.pending.Some? && w.changer.mutation.None?;
      && after.started == (if starts then w.started + [w.shown.pending.value] else w.started)
      && (starts ==>
            && after.changer.mutation == w.shown.pending
            && after.changer.task == Some(|w.tasks|) && |after.tasks| == |w.tasks| + 1
            && after.tasks[|w.tasks|] == ChangeTask(after.changer.generation, |w.started|, false)
            && after.shown.pending == None && after.shown.log == ""
            && after.shown.status == InProgress(w.shown.pending.value))
  {
    EveryChangeIsReportedOnce(workspace, actions);
    RunOneMore(workspace, actions, action);
    hide Run, Doubts, InFlight;
    var w := Run(workspace, actions);
    if action.Confirm? { ConfirmStarts(w); } else { OthersStartNothing(w, action); }
  }

  lemma RunOneMore(workspace: Workspace, actions: seq<Action>, action: Action)
    ensures Run(workspace, actions + [action]) == Step(Run(workspace, actions), action)
  {
    assert (actions + [action])[..|actions|] == actions;
  }

  lemma ConfirmStarts(w: World)
    requires w.shown.pending.Some? ==> w.shown.pending.value.changes
    ensures var after := Step(w, Confirm);
      var starts := w.phase.Running? && !w.quitting && w.shown.pending.Some? && w.changer.mutation.None?;
      && after.started == (if starts then w.started + [w.shown.pending.value] else w.started)
      && (starts ==>
            && after.changer.mutation == w.shown.pending
            && after.changer.task == Some(|w.tasks|) && |after.tasks| == |w.tasks| + 1
            && after.tasks[|w.tasks|] == ChangeTask(after.changer.generation, |w.started|, false)
            && after.shown.pending == None && after.shown.log == ""
            && after.shown.status == InProgress(w.shown.pending.value))
  {
  }

  lemma OthersStartNothing(w: World, action: Action)
    requires !action.Confirm?
    ensures Step(w, action).started == w.started
  {
  }

  // ----- a change is one that was asked for --------------------------------

  predicate Asked(request: Request, actions: seq<Action>) { request.changes && Dispatch(request) in actions }

  predicate OnlyAsked(w: World, actions: seq<Action>) {
    && (w.shown.pending.Some? ==> Asked(w.shown.pending.value, actions))
    && (w.other.pending.Some? ==> Asked(w.other.pending.value, actions))
    && (forall k :: 0 <= k < |w.started| ==> Asked(w.started[k], actions))
  }

  lemma StepAsks(w: World, before: seq<Action>, action: Action)
    requires OnlyAsked(w, before)
    ensures OnlyAsked(Step(w, action), before + [action])
  {
    assert forall r :: Asked(r, before) ==> Asked(r, before + [action]);
    assert action in before + [action];
    PendingComesFrom(w, action);
    hide Step, Asked;
    if action.Confirm? { Starts(w); } else { OthersStartNothing(w, action); }
  }

  lemma Starts(w: World)
    ensures var started := Step(w, Confirm).started;
      started == w.started || (w.shown.pending.Some? && started == w.started + [w.shown.pending.value])
  {
  }

  predicate ComesFrom(pending: Option<Request>, w: World, action: Action) {
    || pending.None? || pending == w.shown.pending || pending == w.other.pending
    || (pending.value.changes && action == Dispatch(pending.value))
  }

  lemma ViewsKeepPending(w: World, query: bool, outcome: Outcome)
    ensures Refreshed(w, query).shown.pending == w.shown.pending && Refreshed(w, query).other == w.other
    ensures Cancelled(w).shown.pending == w.shown.pending && Cancelled(w).other == w.other
    ensures Finished(w, outcome).shown.pending == w.shown.pending && Finished(w, outcome).other.pending == w.other.pending
  {
  }

  lemma DeliveryKeepsPending(w: World, query: bool)
    ensures ProgressDelivered(w, query).shown.pending == w.shown.pending
    ensures ProgressDelivered(w, query).other.pending == w.other.pending
  {
    if w.progress != [] {
      var message, rest := w.progress[0], w.(progress := w.progress[1..]);
      var done := Finished(rest, message.outcome);
      var reaped := done.(changer := done.changer.(task := None), shown := done.shown.(asking := false));
      ViewsKeepPending(rest, query, message.outcome);
      ViewsKeepPending(reaped, query, message.outcome);
      hide Finished, Refreshed, Cancelled;
    }
  }

  lemma PendingComesFrom(w: World, action: Action)
    ensures ComesFrom(Step(w, action).shown.pending, w, action) && ComesFrom(Step(w, action).other.pending, w, action)
  {
    hide LoopStep, Finished, ChangeSent, ChangeRuns;
    LoopPending(w, action);
    if w.progress != [] { ViewsKeepPending(w.(progress := w.progress[1..]), false, w.progress[0].outcome); }
    if ChangeRuns(w) { SendingKeepsPending(w); }
  }

  lemma SendingKeepsPending(w: World)
    requires ChangeRuns(w)
    ensures forall f, o, t :: ChangeSent(w, f, o, t).shown == w.shown && ChangeSent(w, f, o, t).other == w.other
  {
  }

  lemma LoopPending(w: World, action: Action)
    ensures ComesFrom(LoopStep(w, action).shown.pending, w, action) && ComesFrom(LoopStep(w, action).other.pending, w, action)
  {
    hide Refreshed, Cancelled, Confirmed, ProgressDelivered, AnswerDelivered, StartedReload;
    match action {
      case DeliverProgress(query) => DeliveryKeepsPending(w, query);
      case Refresh(query, _) => ViewsKeepPending(w, query, Done);
      case Tab(_) => SwitchingPending(w, action);
      case CommandInOtherWorkspace => SwitchingPending(w, action);
      case ChooseOther(_) => SwitchingPending(w, action);
      case ReloadEnds(_, query) => ViewsKeepPending(w.(reader := w.reader.(reload := None)), query, Done);
      case Reload => PendingOfReload(w);
      case Confirm => PendingOfConfirm(w);
      case DeliverAnswer => PendingOfAnswer(w);
      case _ => KeysAndPending(w, action);
    }
  }

  lemma SwitchingPending(w: World, action: Action)
    requires action.Tab? || action.CommandInOtherWorkspace? || action.ChooseOther?
    ensures LoopStep(w, action).shown.pending == w.other.pending && LoopStep(w, action).other.pending == w.shown.pending
  {
    var query := !action.CommandInOtherWorkspace? && action.query;
    ViewsKeepPending(w, query, Done);
    ViewsKeepPending(Swapped(Cancelled(w)), query, Done);
    ViewsKeepPending(Swapped(w), query, Done);
    hide Refreshed, Cancelled;
  }

  lemma KeysAndPending(w: World, action: Action)
    requires !action.DeliverProgress? && !action.Refresh? && !action.Tab? && !action.CommandInOtherWorkspace?
    requires !action.ChooseOther? && !action.ReloadEnds? && !action.Reload? && !action.Confirm? && !action.DeliverAnswer?
    ensures ComesFrom(LoopStep(w, action).shown.pending, w, action) && ComesFrom(LoopStep(w, action).other.pending, w, action)
  {
    ViewsKeepPending(w, false, Done);
    hide Refreshed, Cancelled;
  }

  lemma PendingOfReload(w: World)
    ensures StartedReload(w).shown.pending == w.shown.pending && StartedReload(w).other == w.other
  {
  }

  lemma PendingOfAnswer(w: World)
    ensures AnswerDelivered(w).shown.pending == w.shown.pending && AnswerDelivered(w).other == w.other
  {
  }

  lemma PendingOfConfirm(w: World)
    ensures Confirmed(w).shown.pending.None? && Confirmed(w).other == w.other
  {
  }

  lemma NothingIsAsked(workspace: Workspace)
    ensures OnlyAsked(Run(workspace, []), [])
  {
  }

  /** Over every run: whatever starts is a change that was dispatched before,
      never a read. */
  lemma {:induction false} OnlyDispatchedChangesStart(workspace: Workspace, actions: seq<Action>)
    ensures OnlyAsked(Run(workspace, actions), actions)
  {
    if actions == [] {
      NothingIsAsked(workspace);
    } else {
      hide *;
      var n := |actions| - 1;
      OnlyDispatchedChangesStart(workspace, actions[..n]);
      assert actions[..n] + [actions[n]] == actions;
      RunOneMore(workspace, actions[..n], actions[n]);
      StepAsks(Run(workspace, actions[..n]), actions[..n], actions[n]);
    }
  }

  // ----- what is shown of a change -----------------------------------------

  /** The delivery that ends the running change, in the loop or in the drain. */
  predicate Ends(w: World, action: Action) {
    && w.progress != [] && w.progress[0].finished
    && ((action.DeliverProgress? && w.phase.Running?) || (action.Drain? && w.phase.Draining?))
  }

  /** The delivery of its progress; the drain drops it. */
  predicate Progresses(w: World, action: Action) {
    w.progress != [] && !w.progress[0].finished && action.DeliverProgress? && w.phase.Running?
  }

  /** The last 1 MiB of a log. */
  function Recent(log: string): string { if |log| > 1024 * 1024 then log[|log| - 1024 * 1024..] else log }

  /** What an end adds to the log of its owner. */
  function EndLine(outcome: Outcome): string {
    match outcome
    case Done => "\nOperation completed\n"
    case Failed(code, message) => "\n" + code + ": " + message + "\n"
  }

  ghost predicate EndIsShown(w: World, after: World) {
    w.changer.mutation.Some? && w.progress != [] && w.started != [] &&
    var request, outcome := w.changer.mutation.value, w.progress[0].outcome;
    var owner := About(request.words);
    var before := ShownIn(w, owner);
    && after.changer.mutation == None && request == w.started[|w.started| - 1]
    && after.reports == w.reports + [Report(|w.started| - 1, owner, outcome)]
    && ShownIn(after, owner).status == Ended(outcome)
    && ShownIn(after, owner).log == before.log + EndLine(outcome)
    && ShownIn(after, owner).uncertain == before.uncertain + (
         if outcome.Failed? && outcome.code == "outcomeUnknown" then [Doubt(request, outcome)] else [])
    && ShownIn(after, Another(owner)) == ShownIn(w, Another(owner))
  }

  ghost predicate ProgressIsShown(w: World, after: World) {
    w.changer.mutation.Some? && w.progress != [] &&
    var owner := About(w.changer.mutation.value.words);
    && after.reports == w.reports
    && ShownIn(after, owner) == ShownIn(w, owner).(log := Recent(ShownIn(w, owner).log + w.progress[0].text))
    && ShownIn(after, Another(owner)) == ShownIn(w, Another(owner))
  }

  lemma OwnerShowsTheEnd(j: JobView, v: View, outcome: Outcome)
    requires j.mutation.Some?
    ensures var u := FinishedIn(j, v, outcome);
      if v.workspace == About(j.mutation.value.words) then
        && u.workspace == v.workspace && u.status == Ended(outcome) && u.log == v.log + EndLine(outcome)
        && u.uncertain == v.uncertain +
             (if outcome.Failed? && outcome.code == "outcomeUnknown" then [Doubt(j.mutation.value, outcome)] else [])
      else u == v
  {
    assert v.uncertain + [] == v.uncertain;
  }

  lemma FinishedViews(w: World, outcome: Outcome, workspace: Workspace)
    requires w.changer.mutation.Some? && w.shown.workspace != w.other.workspace
    ensures ViewOf(Finished(w, outcome), workspace) == FinishedIn(w.changer, ViewOf(w, workspace), outcome)
    ensures ViewOf(w, workspace).workspace == workspace
  {
    OwnerShowsTheEnd(w.changer, w.shown, outcome);
    OwnerShowsTheEnd(w.changer, w.other, outcome);
    hide FinishedIn, EndLine, About;
  }

  lemma FinishShows(w: World)
    requires w.changer.mutation.Some? && w.shown.workspace != w.other.workspace
    requires |w.started| > 0 && w.changer.mutation.value == w.started[|w.started| - 1]
    requires w.progress != []
    ensures EndIsShown(w, Finished(w, w.progress[0].outcome))
  {
    var request, outcome := w.changer.mutation.value, w.progress[0].outcome;
    var owner := About(request.words);
    assert Owner(request) == owner && Another(owner) != owner;
    hide FinishedIn, EndLine, About, Owner, ViewOf, Another;
    FinishedViews(w, outcome, owner);
    FinishedViews(w, outcome, Another(owner));
    OwnerShowsTheEnd(w.changer, ViewOf(w, owner), outcome);
    OwnerShowsTheEnd(w.changer, ViewOf(w, Another(owner)), outcome);
  }

  /** Worlds whose views show the same of the changes. */
  predicate SameShown(w: World, after: World) {
    && ShownIn(after, Containers) == ShownIn(w, Containers) && ShownIn(after, Kubernetes) == ShownIn(w, Kubernetes)
    && after.reports == w.reports && after.changer.mutation == w.changer.mutation
  }

  lemma ReadsShowNothing(w: World, query: bool)
    requires w.shown.workspace != w.other.workspace
    ensures SameShown(w, Refreshed(w, query)) && SameShown(w, Cancelled(w)) && SameShown(w, StartedReload(w))
    ensures SameShown(w, Swapped(w)) && SameShown(w, AnswerDelivered(w)) && SameShown(w, Left(w))
  {
    hide *;
    RefreshShowsNothing(w, query);
    ReloadShowsNothing(w);
    AnswerShowsNothing(w);
    CancelShowsNothing(w);
    SwapShowsNothing(w);
  }

  lemma RefreshShowsNothing(w: World, query: bool)
    ensures SameShown(w, Refreshed(w, query))
  {
  }

  lemma ReloadShowsNothing(w: World)
    ensures SameShown(w, StartedReload(w))
  {
  }

  lemma AnswerShowsNothing(w: World)
    ensures SameShown(w, AnswerDelivered(w))
  {
  }

  lemma CancelShowsNothing(w: World)
    ensures SameShown(w, Cancelled(w)) && SameShown(w, Left(w))
  {
  }

  lemma SwapShowsNothing(w: World)
    requires w.shown.workspace != w.other.workspace
    ensures SameShown(w, Swapped(w))
  {
  }

  lemma EndIsShownStays(w: World, done: World, after: World)
    requires EndIsShown(w, done) && SameShown(done, after)
    ensures EndIsShown(w, after)
  {
    hide ViewOf, EndLine;
  }

  /** Over every run: when the result of a change is delivered, in the loop or
      in the drain, its one report is added, and the view of the workspace that
      its first word names says how it ended, as its status and on a line of
      its log, whichever workspace is displayed; the other view shows the same
      as before. */
  lemma EveryEndIsShown(workspace: Workspace, actions: seq<Action>, action: Action)
    ensures var w, after := Run(workspace, actions), Run(workspace, actions + [action]);
      if Ends(w, action) then EndIsShown(w, after) else after.reports == w.reports
  {
    EveryChangeIsReportedOnce(workspace, actions);
    RunOneMore(workspace, actions, action);
    var w := Run(workspace, actions);
    hide Run, Doubts;
    if Ends(w, action) { TheEndIsShown(w, action); } else { NoEndNoReport(w, action); }
  }

  function Reaped(done: World): World { done.(changer := done.changer.(task := None), shown := done.shown.(asking := false)) }

  /** What follows the end of a change. */
  lemma StepsOfAnEnd(w: World, action: Action)
    requires Ends(w, action) && w.changer.mutation.Some? && w.progress[0].generation == w.changer.generation
    ensures var done := Finished(w.(progress := w.progress[1..]), w.progress[0].outcome);
      var after := Step(w, action);
      if action.Drain? then after == done
      else after == Left(Reaped(done)) || after == Refreshed(Reaped(done), action.query) || after == Reaped(done)
  {
    hide Finished, Left, Refreshed, ProgressDelivered;
    if action.DeliverProgress? { EndedDelivery(w, action.query); }
  }

  lemma TakingShowsTheSame(w: World, outcome: Outcome)
    requires w.progress != []
    ensures SameShown(Finished(w, outcome), Finished(w.(progress := w.progress[1..]), outcome))
    ensures var done := Finished(w.(progress := w.progress[1..]), outcome);
      done.shown.workspace == w.shown.workspace && done.other.workspace == w.other.workspace
  {
  }

  lemma NothingChanges(w: World)
    ensures SameShown(w, w)
  {
  }

  lemma TheEndIsShown(w: World, action: Action)
    requires ChangesInOrder(w) && Ends(w, action)
    ensures EndIsShown(w, Step(w, action))
  {
    TakeKeepsChanges(w);
    assert w.started != [] && w.changer.mutation.value == w.started[|w.started| - 1];
    assert w.shown.workspace != w.other.workspace;
    var ended, done := Finished(w, w.progress[0].outcome), Finished(w.(progress := w.progress[1..]), w.progress[0].outcome);
    StepsOfAnEnd(w, action);
    hide *;
    FinishShows(w);
    TakingShowsTheSame(w, w.progress[0].outcome);
    EndIsShownStays(w, ended, done);
    if action.DeliverProgress? {
      ReadsShowNothing(done, action.query);
      ReapedShows(done);
      ReadsShowNothing(Reaped(done), action.query);
      EndIsShownStays(w, done, Reaped(done));
      NothingChanges(Reaped(done));
      EndIsShownStays(w, Reaped(done), Step(w, action));
    }
  }

  lemma ReapedShows(done: World)
    requires done.shown.workspace != done.other.workspace
    ensures SameShown(done, Reaped(done)) && Reaped(done).shown.workspace != Reaped(done).other.workspace
  {
  }

  lemma NoEndNoReport(w: World, action: Action)
    requires ChangesInOrder(w) && !Ends(w, action)
    ensures Step(w, action).reports == w.reports
  {
    hide Doubts;
  }

  lemma TextOfTheOwner(w: World, v: View, text: string)
    requires w.changer.mutation.Some?
    ensures ProgressIn(w, v, text) ==
      if v.workspace == About(w.changer.mutation.value.words) then v.(log := Recent(v.log + text)) else v
  {
  }

  lemma TheProgressIsShown(w: World, action: Action)
    requires ChangesInOrder(w) && Progresses(w, action)
    ensures ProgressIsShown(w, Step(w, action))
  {
    TakeKeepsChanges(w);
    TextOfTheOwner(w, w.shown, w.progress[0].text);
    TextOfTheOwner(w, w.other, w.progress[0].text);
    hide Accounted, InFlight, ProgressIn, Recent, About;
  }

  /** Over every run: each text of a running change is appended to the log of
      its owner's view, of which the last 1 MiB is kept, and nothing else that
      is shown of changes differs. */
  lemma EveryProgressIsShown(workspace: Workspace, actions: seq<Action>, action: Action)
    ensures var w, after := Run(workspace, actions), Run(workspace, actions + [action]);
      Progresses(w, action) ==> ProgressIsShown(w, after)
  {
    EveryChangeIsReportedOnce(workspace, actions);
    RunOneMore(workspace, actions, action);
    hide Run, Step, ChangesInOrder, ProgressIsShown;
    if Progresses(Run(workspace, actions), action) { TheProgressIsShown(Run(workspace, actions), action); }
  }

  predicate SameViews(w: World, after: World) {
    ShownIn(after, Containers) == ShownIn(w, Containers) && ShownIn(after, Kubernetes) == ShownIn(w, Kubernetes)
  }

  lemma LoopShowsNothing(w: World, action: Action)
    requires w.shown.workspace != w.other.workspace
    requires !action.DeliverProgress? && !action.Confirm? && !action.ConfirmQuit?
    ensures SameViews(w, LoopStep(w, action))
  {
    ReadsShowNothing(w, false);
    hide Refreshed, Cancelled, Swapped, AnswerDelivered, StartedReload, ViewOf;
    match action {
      case Refresh(query, _) => ReadsShowNothing(w, query); BackgroundShowsNothing(Refreshed(w, query));
      case Tab(query) => SwitchShowsNothing(w, query);
      case CommandInOtherWorkspace => SwitchShowsNothing(w, false);
      case ChooseOther(query) => SwitchShowsNothing(w, query);
      case ReloadEnds(_, query) => ReloadEndShowsNothing(w, action);
      case _ => SmallStepsShowNothing(w, action);
    }
  }

  lemma BackgroundShowsNothing(w: World)
    ensures SameShown(w, w.(shown := InBackground(w.shown)))
  {
  }

  lemma SwitchShowsNothing(w: World, query: bool)
    requires w.shown.workspace != w.other.workspace
    ensures SameShown(w, Swapped(Cancelled(w))) && SameShown(w, Refreshed(Swapped(w), query))
    ensures SameShown(w, Refreshed(Swapped(Cancelled(w)), query))
  {
    ReadsShowNothing(w, query);
    SwapKeepsWorkspaces(w);
    ReadsShowNothing(Cancelled(w), query);
    ReadsShowNothing(Swapped(w), query);
    ReadsShowNothing(Swapped(Cancelled(w)), query);
    hide Refreshed, Cancelled, Swapped, ViewOf;
  }

  lemma SwapKeepsWorkspaces(w: World)
    ensures Cancelled(w).shown.workspace == w.shown.workspace && Cancelled(w).other == w.other
    ensures Swapped(w).shown == w.other && Swapped(w).other == w.shown
    ensures Swapped(Cancelled(w)).shown == w.other && Swapped(Cancelled(w)).other.workspace == w.shown.workspace
  {
  }

  lemma ReloadEndShowsNothing(w: World, action: Action)
    requires w.shown.workspace != w.other.workspace && action.ReloadEnds?
    ensures SameShown(w, LoopStep(w, action))
  {
    ReadsShowNothing(w.(reader := w.reader.(reload := None)), action.query);
    hide Refreshed;
  }

  /** What a key changes of the displayed view besides. */
  lemma FieldsShowNothing(w: World, pending: Option<Request>, asking: bool)
    requires w.shown.workspace != w.other.workspace
    ensures SameViews(w, w.(shown := w.shown.(pending := pending))) && SameViews(w, w.(shown := w.shown.(asking := asking)))
    ensures SameViews(w, w.(quitting := true)) && SameViews(w, w)
  {
  }

  lemma SmallStepsShowNothing(w: World, action: Action)
    requires w.shown.workspace != w.other.workspace
    requires !action.Refresh? && !action.Tab? && !action.CommandInOtherWorkspace? && !action.ChooseOther? && !action.ReloadEnds?
    requires !action.DeliverProgress? && !action.Confirm? && !action.ConfirmQuit?
    ensures SameViews(w, LoopStep(w, action))
  {
    ReadsShowNothing(w, false);
    FieldsShowNothing(w, None, true);
    FieldsShowNothing(w, None, false);
    if action.Dispatch? { FieldsShowNothing(w, Some(action.request), false); }
    hide Refreshed, Cancelled, Swapped, AnswerDelivered, StartedReload, Left, ShownIn;
  }

  /** Over every run: no other event but the confirmation of a change, and that
      of quitting, touches the log, the status or the uncertain changes of
      either view; these two touch the displayed one only. */
  lemma NothingElseIsShown(workspace: Workspace, actions: seq<Action>, action: Action)
    ensures var w, after := Run(workspace, actions), Run(workspace, actions + [action]);
      !Ends(w, action) && !Progresses(w, action) ==>
        && ShownIn(after, w.other.workspace) == ShownIn(w, w.other.workspace)
        && (!action.Confirm? && !action.ConfirmQuit? ==>
              ShownIn(after, w.shown.workspace) == ShownIn(w, w.shown.workspace))
  {
    EveryChangeIsReportedOnce(workspace, actions);
    RunOneMore(workspace, actions, action);
    var w := Run(workspace, actions);
    assert w.shown.workspace != w.other.workspace;
    hide *;
    if !Ends(w, action) && !Progresses(w, action) {
      StepShowsNothing(w, action);
      if !action.Confirm? && !action.ConfirmQuit? {
        SameViewsAt(w, Step(w, action), w.shown.workspace);
        SameViewsAt(w, Step(w, action), w.other.workspace);
      }
    }
  }

  lemma SameViewsAt(w: World, after: World, workspace: Workspace)
    requires SameViews(w, after)
    ensures ShownIn(after, workspace) == ShownIn(w, workspace)
  {
    hide ShownIn;
  }

  lemma StepShowsNothing(w: World, action: Action)
    requires w.shown.workspace != w.other.workspace && !Ends(w, action) && !Progresses(w, action)
    ensures if action.Confirm? || action.ConfirmQuit? then
              ShownIn(Step(w, action), w.other.workspace) == ShownIn(w, w.other.workspace)
            else SameViews(w, Step(w, action))
  {
    if action.Confirm? || action.ConfirmQuit? {
      ConfirmationsShowHere(w, action);
    } else if action.DeliverProgress? {
      SpentDelivery(w, action);
    } else if action.ReadSends? || action.ChangeSends? || action.ChangeEnds? || action.Drain? {
      TasksShowNothing(w, action);
    } else {
      LoopShowsNothing(w, action);
      hide LoopStep, SameViews;
      assert SameViews(w, w) by { hide ViewOf; }
    }
  }

  lemma ConfirmationsShowHere(w: World, action: Action)
    requires w.shown.workspace != w.other.workspace && (action.Confirm? || action.ConfirmQuit?)
    ensures ShownIn(Step(w, action), w.other.workspace) == ShownIn(w, w.other.workspace)
  {
  }

  lemma SpentDelivery(w: World, action: Action)
    requires action.DeliverProgress? && !Ends(w, action) && !Progresses(w, action)
    ensures Step(w, action) == w && SameViews(w, w)
  {
  }

  lemma TasksShowNothing(w: World, action: Action)
    requires (action.ReadSends? || action.ChangeSends? || action.ChangeEnds? || action.Drain?) && !Ends(w, action)
    ensures SameViews(w, Step(w, action))
  {
  }

  // ----- the result of a change arrives ------------------------------------

  function Deliveries(n: nat, query: bool): seq<Action> {
    if n == 0 then [] else [DeliverProgress(query)] + Deliveries(n - 1, query)
  }

  /** The last queued message of the running change is its result. */
  predicate ResultQueued(w: World, outcome: Outcome) {
    w.progress != [] && w.progress[|w.progress| - 1].finished && w.progress[|w.progress| - 1].outcome == outcome
  }

  /** Once the result of a change is queued, delivering the queue reports it,
      in the view of its owner, as the outcome that was sent. */
  lemma {:induction false} AResultArrives(w: World, outcome: Outcome, query: bool)
    requires ChangesInOrder(w) && w.phase.Running? && w.changer.mutation.Some? && ResultQueued(w, outcome)
    ensures var owner, after := About(w.changer.mutation.value.words), RunFrom(w, Deliveries(|w.progress|, query));
      && after.reports == w.reports + [Report(|w.started| - 1, owner, outcome)]
      && ShownIn(after, owner).status == Ended(outcome)
    decreases |w.progress|
  {
    var action, rest := DeliverProgress(query), Deliveries(|w.progress| - 1, query);
    var after := Step(w, action);
    assert ([action] + rest)[1..] == rest;
    assert RunFrom(w, [action] + rest) == RunFrom(after, rest);
    assert |w.progress| == 1 ==> rest == [] && RunFrom(after, []) == after && Ends(w, action) && w.progress[0].outcome == outcome;
    hide *;
    ResultIsLast(w, outcome);
    if |w.progress| == 1 {
      TheEndIsShown(w, action);
      EndIsReported(w, after);
    } else {
      StepKeepsChanges(w, action);
      DeliveryAdvances(w, outcome, action);
      AResultArrives(after, outcome, query);
    }
  }

  lemma EndIsReported(w: World, after: World)
    requires EndIsShown(w, after)
    ensures w.changer.mutation.Some? && w.progress != [] && w.started != []
    ensures var owner, outcome := About(w.changer.mutation.value.words), w.progress[0].outcome;
      && after.reports == w.reports + [Report(|w.started| - 1, owner, outcome)]
      && ShownIn(after, owner).status == Ended(outcome)
  {
    hide ShownIn, EndLine;
  }

  lemma ResultIsLast(w: World, outcome: Outcome)
    requires ChangesInOrder(w) && w.changer.mutation.Some? && ResultQueued(w, outcome)
    ensures |w.progress| > 1 ==> !w.progress[0].finished
    ensures w.progress[0].generation == w.changer.generation
  {
    hide Doubts;
  }

  lemma DeliveryAdvances(w: World, outcome: Outcome, action: Action)
    requires action.DeliverProgress? && w.phase.Running? && ResultQueued(w, outcome) && |w.progress| > 1
    requires !w.progress[0].finished && w.progress[0].generation == w.changer.generation
    ensures var after := Step(w, action);
      && after.phase.Running? && after.changer == w.changer && after.progress == w.progress[1..]
      && ResultQueued(after, outcome) && after.reports == w.reports && after.started == w.started
  {
  }

  /** So the outcome with which the task of a change ends is the one reported. */
  lemma TheOutcomeOfATaskIsReported(w: World, outcome: Outcome, query: bool)
    requires ChangesInOrder(w) && w.phase.Running? && ChangeRuns(w) && |w.progress| < PROGRESS
    ensures var sent := Step(w, ChangeEnds(outcome));
      var owner, after := About(w.changer.mutation.value.words), RunFrom(sent, Deliveries(|sent.progress|, query));
      && after.reports == w.reports + [Report(|w.started| - 1, owner, outcome)]
      && ShownIn(after, owner).status == Ended(outcome)
  {
    StepKeepsChanges(w, ChangeEnds(outcome));
    hide ChangesInOrder, RunFrom, Deliveries, ShownIn, LoopStep;
    AResultArrives(Step(w, ChangeEnds(outcome)), outcome, query);
  }
}
