/** The selection of a list across refreshes and filters (control/tui_state.rs,
    `State::rows`, `find_identity`, `accept`, `edit_input`, `clear_filter` and
    `move_by`). */
module Selection {
  import opened Common

  // ----- rows --------------------------------------------------------------

  /** A field is none when it is missing or not text. */
  datatype Metadata = Metadata(uid: Option<string>, namespace: Option<string>, name: Option<string>)

  datatype Row = Row(
    metadata: Option<Metadata>, ID: Option<string>, Id: Option<string>, repository: Option<string>, tag: Option<string>,
    environmentKind: Option<string>, name: Option<string>, Name: Option<string>, running: bool, text: string)

  type Key = seq<string>

  /** A field that is text and not empty. */
  function Value(field: Option<string>): Option<string> { if field == Some("") then None else field }

  function Or(first: Option<string>, second: Option<string>): Option<string> { if first.Some? then first else second }

  function OrEmpty(field: Option<string>): string { match field case None => "" case Some(text) => text }

  /** What names the resource of a row, whatever its place and status. */
  function Identity(row: Row): Option<Key> {
    if row.metadata.Some? then
      var m := row.metadata.value;
      if Value(m.uid).None? || Value(m.name).None? then None
      else Some(["kubernetes", Value(m.uid).value, OrEmpty(Value(m.namespace)), Value(m.name).value])
    else
      match Or(Value(row.ID), Value(row.Id))
      case Some(id) => Some(["docker", id, OrEmpty(Value(row.repository)), OrEmpty(Value(row.tag))])
      case None =>
        match Or(Value(row.name), Value(row.Name))
        case None => None
        case Some(name) => Some([OrEmpty(Value(row.environmentKind)), name])
  }

  // ----- the view ----------------------------------------------------------

  datatype Data = Null | List(rows: seq<Row>)

  datatype Prompt = Prompt(prefix: char, typed: string)

  /** What covers the list, and how far it is scrolled. */
  datatype Overlay = Overlay(detail: Option<string>, showOperation: bool, help: bool, scroll: nat)

  /** What the title says of the reads. */
  datatype Reads = Reads(stale: bool, loading: bool, refreshing: bool)

  datatype View = View(
    data: Data, selected: Option<nat>, filter: string, input: Option<Prompt>, unrestricted: bool, overlay: Overlay, marks: Reads)

  predicate Contains(text: string, part: string) {
    part <= text || (text != "" && Contains(text[1..], part))
  }

  /** `lower` is the language's lower-casing. */
  predicate Visible(row: Row, filter: string, unrestricted: bool, lower: string -> string) {
    && (unrestricted || row.running)
    && (lower(filter) == "" || Contains(lower(row.text), lower(filter)))
  }

  function Filtered(rows: seq<Row>, filter: string, unrestricted: bool, lower: string -> string): seq<Row> {
    if rows == [] then []
    else
      var rest := Filtered(rows[1..], filter, unrestricted, lower);
      if Visible(rows[0], filter, unrestricted, lower) then [rows[0]] + rest else rest
  }

  function Rows(v: View, lower: string -> string): seq<Row> {
    if v.data.Null? then [] else Filtered(v.data.rows, v.filter, v.unrestricted, lower)
  }

  function Selected(v: View, lower: string -> string): Option<Row> {
    if v.selected.Some? && v.selected.value < |Rows(v, lower)| then Some(Rows(v, lower)[v.selected.value]) else None
  }

  /** The resource that an action would act on. */
  function SelectedKey(v: View, lower: string -> string): Option<Key> {
    match Selected(v, lower) case None => None case Some(row) => Identity(row)
  }

  function FirstMatch(rows: seq<Row>, key: Key): Option<nat> {
    if rows == [] then None
    else if Identity(rows[0]) == Some(key) then Some(0)
    else match FirstMatch(rows[1..], key) case None => None case Some(i) => Some(i + 1)
  }

  /** The one row with the identity; none when there are several. */
  function FindIdentity(rows: seq<Row>, key: Key): (index: Option<nat>)
    ensures index.Some? ==> index.value < |rows|
  {
    match FirstMatch(rows, key)
    case None => None
    case Some(i) => FirstIsMatch(rows, key); if FirstMatch(rows[i + 1..], key).None? then Some(i) else None
  }

  lemma {:induction false} FirstIsMatch(rows: seq<Row>, key: Key)
    ensures match FirstMatch(rows, key)
      case None => forall k :: 0 <= k < |rows| ==> Identity(rows[k]) != Some(key)
      case Some(i) => i < |rows| && Identity(rows[i]) == Some(key) && forall k :: 0 <= k < i ==> Identity(rows[k]) != Some(key)
  {
    if rows != [] {
      FirstIsMatch(rows[1..], key);
      hide Identity;
      assert forall k :: 1 <= k < |rows| ==> rows[k] == rows[1..][k - 1];
    }
  }

  /** The index found is the only row with the identity, and one is found
      exactly when there is only one. */
  predicate OnlyAt(rows: seq<Row>, key: Key, i: nat) {
    i < |rows| && forall k :: 0 <= k < |rows| ==> (Identity(rows[k]) == Some(key) <==> k == i)
  }

  lemma FoundIsUnique(rows: seq<Row>, key: Key)
    ensures FindIdentity(rows, key).Some? ==> OnlyAt(rows, key, FindIdentity(rows, key).value)
    ensures forall i: nat :: OnlyAt(rows, key, i) ==> FindIdentity(rows, key) == Some(i)
  {
    hide Identity;
    FirstIsMatch(rows, key);
    var first := FirstMatch(rows, key);
    if first.Some? {
      var rest := rows[first.value + 1..];
      FirstIsMatch(rest, key);
      assert forall k :: first.value < k < |rows| ==> rows[k] == rest[k - first.value - 1];
      var second := FirstMatch(rest, key);
      if second.Some? {
        assert rows[first.value + 1 + second.value] == rest[second.value];
        SeveralMatches(rows, key, first.value, first.value + 1 + second.value);
      } else {
        assert OnlyAt(rows, key, first.value);
      }
    }
    forall i: nat | OnlyAt(rows, key, i) ensures FindIdentity(rows, key) == Some(i) {
      assert Identity(rows[i]) == Some(key);
    }
  }

  lemma SeveralMatches(rows: seq<Row>, key: Key, i: nat, j: nat)
    requires i < j < |rows| && Identity(rows[i]) == Some(key) && Identity(rows[j]) == Some(key)
    ensures forall k: nat :: !OnlyAt(rows, key, k)
  {
  }

  // ----- what changes the view ---------------------------------------------

  /** The answers of a read. */
  datatype Answer =
    | Listing(rows: seq<Row>)
    | Text(text: string)
    | RuntimeStatus
    | Log(text: string)
    | LogEnded
    | NotReady
    | Failed

  function Kept(key: Option<Key>, rows: seq<Row>): Option<nat> {
    match key case None => None case Some(k) => FindIdentity(rows, k)
  }

  function Accepted(v: View, answer: Answer, lower: string -> string): View {
    var done := v.(marks := v.marks.(loading := false, refreshing := false));
    match answer
    case RuntimeStatus => v
    case Log(text) => v.(overlay := v.overlay.(detail := Some(OrEmpty(v.overlay.detail) + text)))
    case LogEnded => done
    case Listing(rows) =>
      var next := done.(data := List(rows), marks := Reads(false, false, false));
      var shown := Rows(next, lower);
      next.(selected := if v.data.Null? then (if shown == [] then None else Some(0)) else Kept(SelectedKey(v, lower), shown))
    case Text(text) => done.(overlay := v.overlay.(help := false, detail := Some(text)))
    case NotReady => done.(data := Null, marks := Reads(true, false, false))
    case Failed => done.(marks := Reads(true, false, false))
  }

  /** `text` is typed at the end of the prompt, or its last character removed. */
  function Typing(typed: string, text: string, backspace: bool): string {
    if !backspace then typed + text else if typed == "" then typed else typed[..|typed| - 1]
  }

  function Edited(v: View, text: string, backspace: bool, lower: string -> string): View {
    if v.input.None? then v
    else
      var now := Typing(v.input.value.typed, text, backspace);
      var next := v.(input := Some(Prompt(v.input.value.prefix, now)));
      if next.input.value.prefix != '/' then next else Refiltered(next, now, SelectedKey(v, lower), lower)
  }

  function Refiltered(v: View, filter: string, key: Option<Key>, lower: string -> string): View {
    var next := v.(filter := filter);
    next.(selected := Kept(key, Rows(next, lower)))
  }

  function Cleared(v: View, lower: string -> string): View {
    Refiltered(v, "", SelectedKey(v, lower), lower)
  }

  function Clamp(value: int, low: int, high: int): int { if value < low then low else if value > high then high else value }

  predicate Covered(overlay: Overlay) { overlay.detail.Some? || overlay.showOperation || overlay.help }

  function Moved(v: View, delta: int, lower: string -> string): View {
    if Covered(v.overlay) then
      v.(overlay := v.overlay.(scroll := Clamp(v.overlay.scroll + Clamp(delta, -32768, 32767), 0, 65535)))
    else
      var count := |Rows(v, lower)|;
      if count == 0 then v.(selected := None)
      else v.(selected := Some(match v.selected
        case Some(index) => Clamp(index + delta, 0, count - 1)
        case None => if delta < 0 then count - 1 else 0))
  }

  /** `State::invalidate_results`. */
  function Invalid(v: View): View {
    v.(data := Null, selected := Some(0), filter := "",
       overlay := v.overlay.(detail := None, scroll := 0), marks := v.marks.(stale := true))
  }

  // ----- the object --------------------------------------------------------

  class State {
    var data: Data
    var selected: Option<nat>
    var filter: string
    var input: Option<Prompt>
    var unrestricted: bool
    var detail: Option<string>
    var showOperation: bool
    var help: bool
    var scroll: nat
    var stale: bool
    var loading: bool
    var refreshing: bool
    const lower: string -> string

    constructor (v: View, lowering: string -> string)
      ensures Value() == v && lower == lowering
    {
      data, selected, filter, input, unrestricted := v.data, v.selected, v.filter, v.input, v.unrestricted;
      var o, m := v.overlay, v.marks;
      detail, showOperation, help, scroll := o.detail, o.showOperation, o.help, o.scroll;
      stale, loading, refreshing := m.stale, m.loading, m.refreshing;
      lower := lowering;
    }

    function Value(): View
      reads this
    {
      View(data, selected, filter, input, unrestricted, Overlay(detail, showOperation, help, scroll), Reads(stale, loading, refreshing))
    }

    method Accept(answer: Answer)
      modifies this
      ensures Value() == Accepted(old(Value()), answer, lower)
    {
      hide Kept, Identity, Filtered;
      match answer {
        case RuntimeStatus => return;
        case Log(text) =>
          detail := Some(OrEmpty(detail) + text);
          return;
        case LogEnded =>
          loading, refreshing := false, false;
          return;
        case _ =>
      }
      loading, refreshing := false, false;
      match answer {
        case Listing(rows) =>
          var initial := data.Null?;
          var key := SelectedKey(Value(), lower);
          stale := false;
          data := List(rows);
          var shown := Rows(Value(), lower);
          if initial {
            selected := if shown == [] then None else Some(0);
          } else {
            selected := Kept(key, shown);
          }
        case Text(text) =>
          help := false;
          detail := Some(text);
        case NotReady =>
          data := Null;
          stale := true;
        case Failed =>
          stale := true;
        case _ =>
      }
    }

    method InvalidateResults()
      modifies this
      ensures Value() == Invalid(old(Value()))
    {
      data := Null;
      stale := true;
      selected := Some(0);
      filter := "";
      scroll := 0;
      detail := None;
    }

    method EditInput(text: string, backspace: bool)
      modifies `input, `filter, `selected
      ensures Value() == Edited(old(Value()), text, backspace, lower)
    {
      hide Kept, SelectedKey, Rows;
      var key := SelectedKey(Value(), lower);
      if input == None { return; }
      var prefix, typed := input.value.prefix, input.value.typed;
      if !backspace {
        typed := typed + text;
      } else if typed != "" {
        typed := typed[..|typed| - 1];
      }
      input := Some(Prompt(prefix, typed));
      if prefix == '/' {
        filter := typed;
        selected := Kept(key, Rows(Value(), lower));
      }
    }

    method ClearFilter()
      modifies `filter, `selected
      ensures Value() == Cleared(old(Value()), lower)
    {
      var key := SelectedKey(Value(), lower);
      filter := "";
      var shown := Rows(Value(), lower);
      selected := Kept(key, shown);
    }

    method MoveBy(delta: int)
      modifies `selected, `scroll
      ensures Value() == Moved(old(Value()), delta, lower)
    {
      if detail.Some? || showOperation || help {
        scroll := Clamp(scroll + Clamp(delta, -32768, 32767), 0, 65535);
        return;
      }
      var count := |Rows(Value(), lower)|;
      if count == 0 {
        selected := None;
        return;
      }
      match selected {
        case Some(index) => selected := Some(Clamp(index + delta, 0, count - 1));
        case None => selected := Some(if delta < 0 then count - 1 else 0);
      }
    }
  }

  // ----- the selection of a whole run --------------------------------------

  /** `Prompted` opens a prompt, closes it or puts an earlier command into it;
      `Invalidated` drops the results of another target. */
  datatype Event =
    | Answered(answer: Answer)
    | Invalidated
    | Prompted(input: Option<Prompt>)
    | Typed(text: string, backspace: bool)
    | FilterCleared
    | MovedBy(delta: int)

  function Step(v: View, event: Event, lower: string -> string): View {
    match event
    case Answered(answer) => Accepted(v, answer, lower)
    case Invalidated => Invalid(v)
    case Prompted(input) => v.(input := input)
    case Typed(text, backspace) => Edited(v, text, backspace, lower)
    case FilterCleared => Cleared(v, lower)
    case MovedBy(delta) => Moved(v, delta, lower)
  }

  function Run(v: View, events: seq<Event>, lower: string -> string): View
    decreases |events|
  {
    if events == [] then v else Run(Step(v, events[0], lower), events[1..], lower)
  }

  /** The events that drop the rows. */
  predicate Resets(event: Event) { event.Invalidated? || (event.Answered? && event.answer.NotReady?) }

  predicate Passive(event: Event) { !event.MovedBy? && !Resets(event) }

  /** Whether the event looks the selected identity up again. */
  predicate Refinds(v: View, event: Event) {
    || (event.Answered? && event.answer.Listing?)
    || (event.Typed? && v.input.Some? && v.input.value.prefix == '/')
    || event.FilterCleared?
  }

  ghost predicate VisibleOnce(v: View, key: Key, lower: string -> string) {
    exists i: nat :: OnlyAt(Rows(v, lower), key, i)
  }

  /** Rows looked up again keep exactly an identity that is visible once. */
  lemma KeptIdentity(v: View, key: Option<Key>, lower: string -> string)
    requires v.selected == Kept(key, Rows(v, lower))
    ensures SelectedKey(v, lower) == if key.Some? && VisibleOnce(v, key.value, lower) then key else None
  {
    hide Identity, FindIdentity, Rows;
    if key.Some? {
      FoundIsUnique(Rows(v, lower), key.value);
    }
  }

  /** The selected resource after one event: the same one, and where it is
      looked up again, only while exactly one visible row is that resource. */
  lemma OneEvent(v: View, event: Event, lower: string -> string)
    requires v.data.List? && Passive(event)
    ensures var after := Step(v, event, lower);
      && after.data.List?
      && SelectedKey(after, lower) ==
           if Refinds(v, event) && SelectedKey(v, lower).Some? && !VisibleOnce(after, SelectedKey(v, lower).value, lower) then None
           else SelectedKey(v, lower)
  {
    hide Identity, FindIdentity, OnlyAt;
    var after := Step(v, event, lower);
    if Refinds(v, event) {
      assert after.selected == Kept(SelectedKey(v, lower), Rows(after, lower)) by { RowsIgnoreSelection(v, event, lower); }
      KeptIdentity(after, SelectedKey(v, lower), lower);
    } else {
      RowsIgnoreSelection(v, event, lower);
    }
  }

  lemma RowsIgnoreSelection(v: View, event: Event, lower: string -> string)
    requires v.data.List? && Passive(event)
    ensures var after := Step(v, event, lower);
      && after.data.List?
      && (Refinds(v, event) ==> after.selected == Kept(SelectedKey(v, lower), Rows(after, lower)))
      && (!Refinds(v, event) ==> after.selected == v.selected && Rows(after, lower) == Rows(v, lower))
  {
    hide Identity, FindIdentity, Filtered, SelectedKey, Kept;
    match event {
      case Answered(_) =>
      case Prompted(_) =>
      case Typed(_, _) => TypedRefinds(v, event.text, event.backspace, lower);
      case FilterCleared =>
    }
  }

  lemma TypedRefinds(v: View, text: string, backspace: bool, lower: string -> string)
    ensures var after := Edited(v, text, backspace, lower);
      && after.data == v.data
      && (if v.input.Some? && v.input.value.prefix == '/' then after.selected == Kept(SelectedKey(v, lower), Rows(after, lower))
          else after.selected == v.selected && Rows(after, lower) == Rows(v, lower))
  {
    hide Identity, FindIdentity, Filtered, SelectedKey, Kept;
  }

  /** Over every run of answers, prompts, filter edits and filter clears, the selection
      never moves to another resource, and once there is none it stays none. */
  lemma {:induction false} SelectionNeverMoves(v: View, events: seq<Event>, lower: string -> string)
    requires v.data.List? && forall event :: event in events ==> Passive(event)
    ensures var after := Run(v, events, lower);
      && after.data.List?
      && (SelectedKey(after, lower) == SelectedKey(v, lower) || SelectedKey(after, lower) == None)
    decreases |events|
  {
    if events != [] {
      hide Identity, Rows, Step, SelectedKey;
      OneEvent(v, events[0], lower);
      SelectionNeverMoves(Step(v, events[0], lower), events[1..], lower);
    }
  }

  /** At no point of such a run does a selection come back. */
  lemma {:induction false} OnceNoneStaysNone(v: View, first: seq<Event>, second: seq<Event>, lower: string -> string)
    requires v.data.List? && forall event :: event in first + second ==> Passive(event)
    requires SelectedKey(Run(v, first, lower), lower) == None
    ensures SelectedKey(Run(v, first + second, lower), lower) == None
    decreases |first|
  {
    hide Identity, Rows, Step, SelectedKey;
    if first == [] {
      assert first + second == second;
      SelectionNeverMoves(v, second, lower);
    } else {
      var all := first + second;
      assert all[0] == first[0] && all[1..] == first[1..] + second;
      OneEvent(v, first[0], lower);
      OnceNoneStaysNone(Step(v, first[0], lower), first[1..], second, lower);
    }
  }

  /** After a reset nothing can be acted on until the next list, whatever is
      typed, moved or answered meanwhile; that list selects its first visible
      row. */
  lemma {:induction false} AfterReset(v: View, reset: Event, events: seq<Event>, rows: seq<Row>, lower: string -> string)
    requires Resets(reset)
    requires forall event :: event in events ==> !(event.Answered? && event.answer.Listing?)
    ensures var waiting := Run(Step(v, reset, lower), events, lower);
      && Selected(waiting, lower) == None
      && var next := Accepted(waiting, Listing(rows), lower);
      && Selected(next, lower) == if Rows(next, lower) == [] then None else Some(Rows(next, lower)[0])
  {
    NothingIsListed(Step(v, reset, lower), events, lower);
    hide Identity, Filtered, Run;
  }

  lemma {:induction false} NothingIsListed(v: View, events: seq<Event>, lower: string -> string)
    requires v.data.Null? && forall event :: event in events ==> !(event.Answered? && event.answer.Listing?)
    ensures Run(v, events, lower).data.Null?
    decreases |events|
  {
    if events != [] {
      hide Identity, Filtered, Kept;
      NothingIsListed(Step(v, events[0], lower), events[1..], lower);
    }
  }

  /** Whether a selected index of a list is that of a visible row. */
  predicate Inside(v: View, lower: string -> string) {
    v.data.List? && v.selected.Some? ==> v.selected.value < |Rows(v, lower)|
  }

  lemma MoveStaysInside(v: View, delta: int, lower: string -> string)
    requires Inside(v, lower)
    ensures Inside(Moved(v, delta, lower), lower)
  {
    hide Filtered;
    assert Rows(Moved(v, delta, lower), lower) == Rows(v, lower);
  }

  lemma KeptIsInside(v: View, key: Option<Key>, lower: string -> string)
    requires v.selected == Kept(key, Rows(v, lower))
    ensures Inside(v, lower)
  {
    hide Identity, Rows, FirstMatch;
  }

  lemma StepStaysInside(v: View, event: Event, lower: string -> string)
    requires Inside(v, lower)
    ensures Inside(Step(v, event, lower), lower)
  {
    hide Identity, Filtered, Kept, Inside;
    var after := Step(v, event, lower);
    if event.MovedBy? {
      MoveStaysInside(v, event.delta, lower);
    } else if v.data.List? && Passive(event) {
      RowsIgnoreSelection(v, event, lower);
      if Refinds(v, event) { KeptIsInside(after, SelectedKey(v, lower), lower); }
      else { SameIsInside(v, after, lower); }
    } else {
      FirstIsInside(v, event, lower);
    }
  }

  lemma SameIsInside(v: View, after: View, lower: string -> string)
    requires Inside(v, lower) && v.data.List?
    requires after.selected == v.selected && Rows(after, lower) == Rows(v, lower)
    ensures Inside(after, lower)
  {
    hide Rows;
  }

  lemma FirstIsInside(v: View, event: Event, lower: string -> string)
    requires !event.MovedBy? && (v.data.Null? || !Passive(event))
    ensures Inside(Step(v, event, lower), lower)
  {
    hide Identity, Filtered, Kept;
  }

  /** Over every run, with its moves and resets, the selected index of a list
      is that of a visible row: an action never finds the selection past the
      end of what is shown. */
  lemma {:induction false} SelectionStaysInside(v: View, events: seq<Event>, lower: string -> string)
    requires Inside(v, lower)
    ensures var after := Run(v, events, lower);
      && Inside(after, lower)
      && (after.data.List? ==> (Selected(after, lower).Some? <==> after.selected.Some?))
    decreases |events|
  {
    if events != [] {
      hide Identity, Rows, Step, Inside;
      StepStaysInside(v, events[0], lower);
      SelectionStaysInside(Step(v, events[0], lower), events[1..], lower);
    }
  }
}
