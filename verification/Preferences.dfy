/** The preferences document of the TUI: recent and favorite targets, updated
    by any number of Hamn processes under one lock (control/preferences.rs). */
module Preferences {
  import opened Common

  datatype Target =
    | HamnProfile(name: string)
    | DockerContext(name: string, config: Option<string>)
    | KubeContext(name: string, namespace: Option<string>, config: Option<string>)

  datatype Document = Document(workspace: Workspace, recent: seq<Target>, favorites: seq<Target>)

  const KEPT: nat := 32

  // ----- one list ----------------------------------------------------------

  function Position(list: seq<Target>, target: Target): (index: Option<nat>)
    ensures index.Some? ==> index.value < |list| && list[index.value] == target && target !in list[..index.value]
    ensures index.None? ==> target !in list
  {
    if list == [] then None
    else if list[0] == target then Some(0)
    else match Position(list[1..], target) case None => None case Some(i) => Some(i + 1)
  }

  function First<T>(list: seq<T>, n: nat): seq<T> { if |list| <= n then list else list[..n] }

  /** A recent target moves to the front; a favorite is taken out if it was
      there, and put in front otherwise. */
  function Remembered(list: seq<Target>, target: Target, favorite: bool): seq<Target> {
    match Position(list, target)
    case None => First([target] + list, KEPT)
    case Some(i) =>
      var rest := list[..i] + list[i + 1..];
      First(if favorite then rest else [target] + rest, KEPT)
  }

  method RememberInList(list: seq<Target>, target: Target, favorite: bool) returns (values: seq<Target>)
    ensures values == Remembered(list, target, favorite)
    ensures |values| <= KEPT
  {
    values := list;
    var existing := -1;
    var i := 0;
    while i < |list| && existing < 0
      invariant 0 <= i <= |list| && -1 <= existing < |list|
      invariant existing < 0 ==> target !in list[..i]
      invariant existing >= 0 ==> list[existing] == target && target !in list[..existing]
      decreases |list| - i
    {
      if list[i] == target { existing := i; }
      i := i + 1;
    }
    if existing >= 0 {
      FirstPosition(list, target, existing);
      values := values[..existing] + values[existing + 1..];
    }
    if !favorite || existing < 0 { values := [target] + values; }
    if |values| > KEPT { values := values[..KEPT]; }
  }

  lemma {:induction false} FirstPosition(list: seq<Target>, target: Target, i: nat)
    requires i < |list| && list[i] == target && target !in list[..i]
    ensures Position(list, target) == Some(i)
  {
    if i > 0 {
      assert list[0] in list[..i];
      assert list[1..][..i - 1] == list[..i][1..];
      FirstPosition(list[1..], target, i - 1);
    }
  }

  // ----- the history that the list refines ---------------------------------

  /** All distinct targets of a history, the most recently used one first, and
      after them what was known before it. */
  function ByLastUse(history: seq<Target>, known: seq<Target>): seq<Target> {
    if history == [] then known
    else
      var last := history[|history| - 1];
      [last] + Without(ByLastUse(history[..|history| - 1], known), last)
  }

  function Remember(history: seq<Target>, list: seq<Target>): seq<Target> {
    if history == [] then list
    else Remembered(Remember(history[..|history| - 1], list), history[|history| - 1], false)
  }

  lemma {:induction false} WithoutIsDistinct(list: seq<Target>, target: Target)
    requires Distinct(list)
    ensures Distinct(Without(list, target))
  {
    if list != [] {
      WithoutIsDistinct(list[1..], target);
      assert list[0] !in list[1..];
      if list[0] != target { ConsIsDistinct(list[0], Without(list[1..], target)); }
    }
  }

  lemma ConsIsDistinct(first: Target, rest: seq<Target>)
    requires first !in rest && Distinct(rest)
    ensures Distinct([first] + rest)
  {
    var all := [first] + rest;
    forall i, j | 0 <= i < j < |all| ensures all[i] != all[j] {
      assert all[j] == rest[j - 1] && rest[j - 1] in rest;
      if i > 0 { assert all[i] == rest[i - 1]; }
    }
  }

  lemma {:induction false} ByLastUseIsDistinct(history: seq<Target>, known: seq<Target>)
    requires Distinct(known)
    ensures Distinct(ByLastUse(history, known))
  {
    if history != [] {
      var before := history[..|history| - 1];
      ByLastUseIsDistinct(before, known);
      var last := history[|history| - 1];
      WithoutIsDistinct(ByLastUse(before, known), last);
      ConsIsDistinct(last, Without(ByLastUse(before, known), last));
    }
  }

  /** Taking a target out of a list without duplicates is one removal. */
  lemma RemovalAt(list: seq<Target>, target: Target, i: nat)
    requires Distinct(list) && i < |list| && list[i] == target
    ensures Without(list, target) == list[..i] + list[i + 1..]
  {
    var a, b := list[..i], list[i + 1..];
    assert list == a + ([target] + b);
    Apart(list, i);
    WithoutAppends(a, [target] + b, target);
    WithoutAbsent(a, target);
    WithoutAbsent(b, target);
    assert ([target] + b)[1..] == b;
  }

  /** Keeping only the first targets as one goes loses nothing that the first
      targets of the whole history hold. */
  lemma RememberedFirst(list: seq<Target>, target: Target)
    requires Distinct(list)
    requires Distinct(First(list, KEPT))
    ensures Remembered(First(list, KEPT), target, false) == First([target] + Without(list, target), KEPT)
  {
    if target in First(list, KEPT) { KnownTargetFirst(list, target); } else { NewTargetFirst(list, target); }
  }

  lemma KnownTargetFirst(list: seq<Target>, target: Target)
    requires Distinct(list) && target in First(list, KEPT)
    requires Distinct(First(list, KEPT))
    ensures Remembered(First(list, KEPT), target, false) == First([target] + Without(list, target), KEPT)
  {
    var kept := First(list, KEPT);
    var i :| 0 <= i < |kept| && kept[i] == target;
    Apart(kept, i);
    FirstPosition(kept, target, i);
    RemovalAt(list, target, i);
    hide Position, Without, Distinct;
    var short, whole := kept[..i] + kept[i + 1..], list[..i] + list[i + 1..];
    if |list| > KEPT {
      assert short == whole[..KEPT - 1];
      assert [target] + short == ([target] + whole)[..KEPT];
    }
  }

  lemma NewTargetFirst(list: seq<Target>, target: Target)
    requires target !in First(list, KEPT)
    ensures Remembered(First(list, KEPT), target, false) == First([target] + Without(list, target), KEPT)
  {
    var kept := First(list, KEPT);
    var rest := list[|kept|..];
    assert Position(kept, target).None?;
    WithoutAppends(kept, rest, target);
    WithoutAbsent(kept, target);
    hide Position, Without;
    assert list == kept + rest;
    FirstOfLonger([target] + kept, Without(rest, target));
    assert [target] + (kept + Without(rest, target)) == [target] + kept + Without(rest, target);
  }

  lemma Apart(list: seq<Target>, i: nat)
    requires Distinct(list) && i < |list|
    ensures list[i] !in list[..i] && list[i] !in list[i + 1..]
  {
  }

  lemma FirstOfLonger(list: seq<Target>, more: seq<Target>)
    requires |list| >= KEPT || more == []
    ensures First(list, KEPT) == First(list + more, KEPT)
  {
    if |list| >= KEPT { assert (list + more)[..KEPT] == list[..KEPT]; }
    else { assert list + more == list; }
  }

  /** The recent list is the first 32 distinct targets of its history, the
      most recent first. */
  lemma {:induction false} RecentListRefinesItsHistory(history: seq<Target>, list: seq<Target>)
    requires Distinct(list)
    ensures Remember(history, First(list, KEPT)) == First(ByLastUse(history, list), KEPT)
  {
    if history != [] {
      var before := history[..|history| - 1];
      RecentListRefinesItsHistory(before, list);
      ByLastUseIsDistinct(before, list);
      assert Distinct(First(ByLastUse(before, list), KEPT));
      RememberedFirst(ByLastUse(before, list), history[|history| - 1]);
    }
  }

  /** The last position of a target in a history. */
  function LastUse(history: seq<Target>, target: Target): int {
    if history == [] then -1
    else if history[|history| - 1] == target then |history| - 1
    else LastUse(history[..|history| - 1], target)
  }

  lemma {:induction false} LastUseIsAPosition(history: seq<Target>, target: Target)
    ensures -1 <= LastUse(history, target) < |history|
    ensures target in history ==> LastUse(history, target) >= 0
  {
    if history != [] {
      var before := history[..|history| - 1];
      LastUseIsAPosition(before, target);
      assert history == before + [history[|history| - 1]];
    }
  }

  predicate OrderedByLastUse(history: seq<Target>, list: seq<Target>) {
    forall i, j :: 0 <= i < j < |list| ==> LastUse(history, list[i]) > LastUse(history, list[j])
  }

  /** `ByLastUse` holds exactly the targets of the history, in the order of
      their last uses. */
  lemma {:induction false} ByLastUseIsTheOrderOfLastUses(history: seq<Target>)
    ensures forall t :: t in ByLastUse(history, []) <==> t in history
    ensures OrderedByLastUse(history, ByLastUse(history, []))
  {
    if history != [] {
      var before, last := history[..|history| - 1], history[|history| - 1];
      var older := ByLastUse(before, []);
      ByLastUseIsTheOrderOfLastUses(before);
      assert history == before + [last];
      var rest := Without(older, last);
      WithoutKeepsOrder(older, last, before);
      forall j | 0 <= j < |rest| ensures LastUse(history, rest[j]) == LastUse(before, rest[j]) < |history| - 1 {
        assert rest[j] in rest;
        LastUseIsAPosition(before, rest[j]);
      }
      ConsKeepsOrder(history, last, rest);
    }
  }

  lemma ConsKeepsOrder(history: seq<Target>, first: Target, rest: seq<Target>)
    requires OrderedByLastUse(history, rest)
    requires forall j :: 0 <= j < |rest| ==> LastUse(history, rest[j]) < LastUse(history, first)
    ensures OrderedByLastUse(history, [first] + rest)
  {
    var all := [first] + rest;
    forall i, j | 0 <= i < j < |all| ensures LastUse(history, all[i]) > LastUse(history, all[j]) {
      assert all[j] == rest[j - 1];
      if i > 0 { assert all[i] == rest[i - 1]; }
    }
  }

  lemma {:induction false} WithoutKeepsOrder(list: seq<Target>, target: Target, history: seq<Target>)
    requires OrderedByLastUse(history, list)
    ensures OrderedByLastUse(history, Without(list, target))
  {
    if list != [] {
      var tail := list[1..];
      WithoutKeepsOrder(tail, target, history);
      var rest := Without(tail, target);
      forall j | 0 <= j < |rest| ensures LastUse(history, rest[j]) < LastUse(history, list[0]) {
        assert rest[j] in rest && rest[j] in tail;
        var k :| 0 <= k < |tail| && tail[k] == rest[j];
        assert list[k + 1] == rest[j];
      }
      ConsKeepsOrder(history, list[0], rest);
    }
  }

  /** Marking a favorite a second time takes the mark away and restores the
      list; while the list is full the mark pushes its oldest favorite out. */
  lemma FavoriteToggles(list: seq<Target>, target: Target)
    requires Distinct(list) && |list| <= KEPT
    ensures var marked := Remembered(list, target, true);
      && Distinct(marked) && |marked| <= KEPT
      && (target in marked <==> target !in list)
      && (target in list ==> marked == Without(list, target))
      && (target !in list ==> Remembered(marked, target, true) == First(list, KEPT - 1))
  {
    if target in list { UnmarkedFavorite(list, target); } else { MarkedFavorite(list, target); }
  }

  lemma UnmarkedFavorite(list: seq<Target>, target: Target)
    requires Distinct(list) && |list| <= KEPT && target in list
    ensures Remembered(list, target, true) == Without(list, target) && Distinct(Without(list, target))
  {
    var i :| 0 <= i < |list| && list[i] == target;
    Apart(list, i);
    FirstPosition(list, target, i);
    RemovalAt(list, target, i);
    WithoutIsDistinct(list, target);
  }

  lemma MarkedFavorite(list: seq<Target>, target: Target)
    requires Distinct(list) && |list| <= KEPT && target !in list
    ensures var marked := Remembered(list, target, true);
      && marked == First([target] + list, KEPT) && Distinct(marked) && target in marked
      && Remembered(marked, target, true) == First(list, KEPT - 1)
  {
    assert Position(list, target).None?;
    var marked := First([target] + list, KEPT);
    ConsIsDistinct(target, list);
    assert marked[0] == target && target !in marked[..0];
    FirstPosition(marked, target, 0);
    hide Distinct, Position;
    assert marked[1..] == First(list, KEPT - 1);
    assert marked[..0] + marked[1..] == First(list, KEPT - 1);
  }
}
