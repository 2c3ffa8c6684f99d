/** Any number of Hamn processes updating the one preferences document: each
    takes the lock or reports that it is busy, loads, changes, and renames a new
    document over the old one (control/preferences.rs). */
module PreferenceUpdates {
  import opened Common
  import opened Preferences

  /** What is at the document's path; `Foreign` is anything unsafe or unreadable. */
  datatype Disk = Absent | Foreign | Stored(document: Document)

  datatype Update = Save(workspace: Workspace) | Note(target: Target, favorite: bool)

  datatype Failure = Unusable

  /** The two checks whose detail is not modelled: the serialized size and the
      safety of a target's fields. */
  datatype Rules = Rules(fits: Document -> bool, valid: Target -> bool)

  predicate Acceptable(rules: Rules, document: Document) {
    && rules.fits(document)
    && |document.recent| <= KEPT && |document.favorites| <= KEPT
    && (forall t :: t in document.recent ==> rules.valid(t))
    && (forall t :: t in document.favorites ==> rules.valid(t))
  }

  function Load(rules: Rules, disk: Disk): Result<Option<Document>, Failure> {
    match disk
    case Absent => Ok(None)
    case Foreign => Err(Unusable)
    case Stored(document) => if Acceptable(rules, document) then Ok(Some(document)) else Err(Unusable)
  }

  predicate Readable(rules: Rules, disk: Disk) { Load(rules, disk).Ok? && Load(rules, disk).value.Some? }

  function Noted(document: Document, target: Target, favorite: bool): Document {
    if favorite then document.(favorites := Remembered(document.favorites, target, true))
    else document.(recent := Remembered(document.recent, target, false))
  }

  /** The document that an update writes, from what it loaded. */
  function Changed(rules: Rules, disk: Disk, update: Update): Result<Document, Failure> {
    match update
    case Save(workspace) =>
      if Readable(rules, disk) then Ok(Load(rules, disk).value.value.(workspace := workspace))
      else Ok(Document(workspace, [], []))
    case Note(target, favorite) =>
      if !rules.valid(target) || !Readable(rules, disk) then Err(Unusable)
      else
        var next := Noted(Load(rules, disk).value.value, target, favorite);
        if rules.fits(next) then Ok(next) else Err(Unusable)
  }

  // ----- processes ---------------------------------------------------------

  datatype Phase = Locked(update: Update) | Loaded(update: Update, next: Document) | Renamed

  /** `holder` is the owner of the lock file's lock; `phases` has an entry for
      each process inside its critical section. `committed` is the history of
      the renames. */
  datatype State = State(
    disk: Disk, holder: Option<nat>, phases: map<nat, Phase>, committed: seq<Update>)

  datatype Action =
    | Begin(process: nat, update: Update)
    | Read(process: nat)
    | Rename(process: nat)
    | Leave(process: nat)

  function Start(disk: Disk): State { State(disk, None, map[], []) }

  function Left(s: State, process: nat): State {
    s.(holder := if s.holder == Some(process) then None else s.holder, phases := s.phases - {process})
  }

  /** One step of one process. `Leave` stands for every way out of the critical
      section: completion, a failed step, and the death of the process. */
  function Step(rules: Rules, s: State, action: Action): State {
    match action
    case Begin(process, update) =>
      if update.Note? && !rules.valid(update.target) then s
      else if s.holder.Some? || process in s.phases then s
      else s.(holder := Some(process), phases := s.phases[process := Locked(update)])
    case Read(process) =>
      if process !in s.phases || !s.phases[process].Locked? then s
      else
        var update := s.phases[process].update;
        (match Changed(rules, s.disk, update)
         case Ok(next) => s.(phases := s.phases[process := Loaded(update, next)])
         case Err(_) => Left(s, process))
    case Rename(process) =>
      if process !in s.phases || !s.phases[process].Loaded? then s
      else
        var phase := s.phases[process];
        s.(disk := Stored(phase.next), phases := s.phases[process := Renamed], committed := s.committed + [phase.update])
    case Leave(process) => Left(s, process)
  }

  function Run(rules: Rules, s: State, actions: seq<Action>): State {
    if actions == [] then s
    else Step(rules, Run(rules, s, actions[..|actions| - 1]), actions[|actions| - 1])
  }

  // ----- no update is lost -------------------------------------------------

  /** The updates one after the other, each from the document the one before
      left: what a single process would have written. */
  function Replay(rules: Rules, disk: Disk, updates: seq<Update>): Result<Disk, Failure> {
    if updates == [] then Ok(disk)
    else match Replay(rules, disk, updates[..|updates| - 1])
      case Err(e) => Err(e)
      case Ok(before) =>
        match Changed(rules, before, updates[|updates| - 1])
        case Err(e) => Err(e)
        case Ok(next) => Ok(Stored(next))
  }

  /** Whoever is inside the critical section holds the lock, and what it is
      about to write is its change of the document that is there now. */
  ghost predicate Invariant(rules: Rules, start: Disk, s: State) {
    && (forall p :: p in s.phases ==> s.holder == Some(p))
    && (forall p :: p in s.phases && s.phases[p].Loaded? ==>
          Changed(rules, s.disk, s.phases[p].update) == Ok(s.phases[p].next))
    && Replay(rules, start, s.committed) == Ok(s.disk)
  }

  lemma StepKeepsInvariant(rules: Rules, start: Disk, s: State, action: Action)
    requires Invariant(rules, start, s)
    ensures Invariant(rules, start, Step(rules, s, action))
  {
    hide Changed;
    match action {
      case Rename(process) => if process in s.phases && s.phases[process].Loaded? { RenameKeepsInvariant(rules, start, s, process); }
      case _ => hide Replay;
    }
  }

  lemma RenameKeepsInvariant(rules: Rules, start: Disk, s: State, process: nat)
    requires Invariant(rules, start, s) && process in s.phases && s.phases[process].Loaded?
    ensures Invariant(rules, start, Step(rules, s, Rename(process)))
  {
    hide Changed;
    var after := Step(rules, s, Rename(process));
    assert after.committed[..|after.committed| - 1] == s.committed;
    assert Replay(rules, start, after.committed) == Ok(after.disk);
    hide Replay;
  }

  /** Over every interleaving, the document is the committed updates applied one
      after the other in the order of their renames: none is lost. */
  lemma {:induction false} NoCommittedUpdateIsLost(rules: Rules, disk: Disk, actions: seq<Action>)
    ensures var s := Run(rules, Start(disk), actions);
      Invariant(rules, disk, s) && Replay(rules, disk, s.committed) == Ok(s.disk)
  {
    if actions != [] {
      var before := actions[..|actions| - 1];
      NoCommittedUpdateIsLost(rules, disk, before);
      StepKeepsInvariant(rules, disk, Run(rules, Start(disk), before), actions[|actions| - 1]);
    }
  }

  // ----- the recent list of a whole run ------------------------------------

  /** The recent targets noted since a document was last written from scratch,
      which `Save` does over one that does not load. */
  function History(rules: Rules, disk: Disk, updates: seq<Update>): seq<Target>
    requires Replay(rules, disk, updates).Ok?
  {
    if updates == [] then []
    else
      var before, last := updates[..|updates| - 1], updates[|updates| - 1];
      match last
      case Note(target, favorite) =>
        if favorite then History(rules, disk, before) else History(rules, disk, before) + [target]
      case Save(_) =>
        if Readable(rules, Replay(rules, disk, before).value) then History(rules, disk, before) else []
  }

  predicate StartsEmpty(disk: Disk) { disk.Stored? ==> disk.document.recent == [] }

  lemma ByLastUseOneMore(history: seq<Target>, target: Target)
    ensures ByLastUse(history + [target], []) == [target] + Without(ByLastUse(history, []), target)
  {
    assert (history + [target])[..|history|] == history;
  }

  lemma NothingByLastUse()
    ensures First(ByLastUse([], []), KEPT) == []
  {
  }

  lemma {:induction false} ReplayedRecentList(rules: Rules, disk: Disk, updates: seq<Update>)
    requires StartsEmpty(disk) && Replay(rules, disk, updates).Ok?
    ensures var after := Replay(rules, disk, updates).value;
      after.Stored? ==> after.document.recent == First(ByLastUse(History(rules, disk, updates), []), KEPT)
  {
    if updates != [] {
      var before, last := updates[..|updates| - 1], updates[|updates| - 1];
      ReplayedRecentList(rules, disk, before);
      var history := History(rules, disk, before);
      NothingByLastUse();
      if last.Note? && !last.favorite {
        ByLastUseIsDistinct(history, []);
        RememberedFirst(ByLastUse(history, []), last.target);
        ByLastUseOneMore(history, last.target);
      }
      hide Remembered, ByLastUse, First, Acceptable;
    }
  }

  /** Starting without recent targets, after every run the recent list is the
      first 32 distinct targets that were committed, the most recent first. */
  lemma RecentListOfEveryRun(rules: Rules, disk: Disk, actions: seq<Action>)
    requires StartsEmpty(disk)
    ensures var s := Run(rules, Start(disk), actions);
      && Replay(rules, disk, s.committed).Ok?
      && (s.disk.Stored? ==>
            && s.disk.document.recent == First(ByLastUse(History(rules, disk, s.committed), []), KEPT)
            && Distinct(s.disk.document.recent) && |s.disk.document.recent| <= KEPT)
  {
    var s := Run(rules, Start(disk), actions);
    NoCommittedUpdateIsLost(rules, disk, actions);
    ReplayedRecentList(rules, disk, s.committed);
    ByLastUseIsDistinct(History(rules, disk, s.committed), []);
  }

  // ----- the other fields --------------------------------------------------

  /** The workspace that was saved last. */
  function LastSaved(updates: seq<Update>, otherwise: Option<Workspace>): Option<Workspace> {
    if updates == [] then otherwise
    else match updates[|updates| - 1]
      case Save(workspace) => Some(workspace)
      case Note(_, _) => LastSaved(updates[..|updates| - 1], otherwise)
  }

  function WorkspaceOf(disk: Disk): Option<Workspace> {
    if disk.Stored? then Some(disk.document.workspace) else None
  }

  /** The favorites marked, and taken back, since a document was last written
      from scratch. */
  function Marks(rules: Rules, disk: Disk, updates: seq<Update>): seq<Target>
    requires Replay(rules, disk, updates).Ok?
  {
    if updates == [] then []
    else
      var before, last := updates[..|updates| - 1], updates[|updates| - 1];
      match last
      case Note(target, favorite) =>
        if favorite then Marks(rules, disk, before) + [target] else Marks(rules, disk, before)
      case Save(_) =>
        if Readable(rules, Replay(rules, disk, before).value) then Marks(rules, disk, before) else []
  }

  /** Each mark in turn: a target that is marked is taken out, any other one is
      put in front of the first 31. */
  function Favorites(marks: seq<Target>): seq<Target> {
    if marks == [] then []
    else
      var before, last := Favorites(marks[..|marks| - 1]), marks[|marks| - 1];
      if last in before then Without(before, last) else First([last] + before, KEPT)
  }

  lemma {:induction false} FavoritesAreFew(marks: seq<Target>)
    ensures Distinct(Favorites(marks)) && |Favorites(marks)| <= KEPT
  {
    if marks != [] {
      var before, last := Favorites(marks[..|marks| - 1]), marks[|marks| - 1];
      FavoritesAreFew(marks[..|marks| - 1]);
      if last in before { WithoutIsDistinct(before, last); } else { ConsIsDistinct(last, before); }
    }
  }

  lemma MarkOnce(list: seq<Target>, target: Target)
    requires Distinct(list) && |list| <= KEPT
    ensures Remembered(list, target, true) == if target in list then Without(list, target) else First([target] + list, KEPT)
  {
    if target in list { UnmarkedFavorite(list, target); } else { MarkedFavorite(list, target); }
  }

  predicate NoFavorites(disk: Disk) { disk.Stored? ==> disk.document.favorites == [] }

  lemma {:induction false} ReplayedFields(rules: Rules, disk: Disk, updates: seq<Update>)
    requires NoFavorites(disk) && Replay(rules, disk, updates).Ok?
    ensures var after := Replay(rules, disk, updates).value;
      && WorkspaceOf(after) == LastSaved(updates, WorkspaceOf(disk))
      && (after.Stored? ==> after.document.favorites == Favorites(Marks(rules, disk, updates)))
  {
    if updates != [] {
      var before, last := updates[..|updates| - 1], updates[|updates| - 1];
      ReplayedFields(rules, disk, before);
      var marks := Marks(rules, disk, before);
      hide Remembered;
      if last.Note? && last.favorite {
        FavoritesAreFew(marks);
        MarkOnce(Favorites(marks), last.target);
        assert (marks + [last.target])[..|marks|] == marks;
      }
    }
  }

  /** After every run the document holds the workspace that was saved last and
      the favorites that were marked and not taken back, whatever else was
      committed in between. */
  lemma FieldsOfEveryRun(rules: Rules, disk: Disk, actions: seq<Action>)
    requires NoFavorites(disk)
    ensures var s := Run(rules, Start(disk), actions);
      && Replay(rules, disk, s.committed).Ok?
      && WorkspaceOf(s.disk) == LastSaved(s.committed, WorkspaceOf(disk))
      && (s.disk.Stored? ==> s.disk.document.favorites == Favorites(Marks(rules, disk, s.committed)))
  {
    NoCommittedUpdateIsLost(rules, disk, actions);
    ReplayedFields(rules, disk, Run(rules, Start(disk), actions).committed);
  }

  // ----- an update goes through --------------------------------------------

  /** The steps of one process for one update. */
  function Turn(rules: Rules, s: State, process: nat, update: Update): State {
    Step(rules, Step(rules, Step(rules, Step(rules, s, Begin(process, update)), Read(process)), Rename(process)), Leave(process))
  }

  /** A process that finds the lock free writes its change and frees the lock;
      a change that is refused leaves the document as it was, and one that
      finds the lock taken leaves everything as it was. */
  lemma AnUpdateGoesThrough(rules: Rules, s: State, process: nat, update: Update)
    requires process !in s.phases
    ensures var after := Turn(rules, s, process, update);
      && (s.holder.None? && Changed(rules, s.disk, update).Ok? ==>
            && after.disk == Stored(Changed(rules, s.disk, update).value)
            && after.committed == s.committed + [update] && after.holder == None)
      && (s.holder.None? && Changed(rules, s.disk, update).Err? ==>
            after.disk == s.disk && after.committed == s.committed && after.holder == None)
      && (s.holder.Some? && s.holder != Some(process) ==> after == s)
  {
    assert update.Note? && !rules.valid(update.target) ==> Changed(rules, s.disk, update).Err?;
    hide Changed;
    assert s.phases - {process} == s.phases;
  }
}
