/** Which rows are one resource, and that the selection stays with it
    (control/tui_state.rs, `identity`, `State::rows` and `find_identity`), in
    terms of the fields of the rows. */
module SelectedResource {
  import opened Common
  import opened Selection

  // ----- one resource ------------------------------------------------------

  /** A field that is missing, not text, or empty. */
  predicate Blank(field: Option<string>) { field.None? || field.value == "" }

  predicate SameText(a: Option<string>, b: Option<string>) { a == b || (Blank(a) && Blank(b)) }

  /** The id of a docker row is under one of two names. */
  predicate HasId(row: Row, id: string) {
    id != "" && (row.ID == Some(id) || (Blank(row.ID) && row.Id == Some(id)))
  }

  predicate HasName(row: Row, name: string) {
    name != "" && (row.name == Some(name) || (Blank(row.name) && row.Name == Some(name)))
  }

  predicate Unidentified(row: Row) { Blank(row.ID) && Blank(row.Id) }

  /** kubectl's rows are one resource when uid and name are there and agree, and
      the namespace agrees; docker's when the id agrees, and repository and tag;
      others when kind and name agree. */
  ghost predicate SameResource(a: Row, b: Row) {
    if a.metadata.Some? || b.metadata.Some? then
      && a.metadata.Some? && b.metadata.Some?
      && var m, n := a.metadata.value, b.metadata.value;
      && !Blank(m.uid) && m.uid == n.uid && !Blank(m.name) && m.name == n.name && SameText(m.namespace, n.namespace)
    else if !Unidentified(a) || !Unidentified(b) then
      (exists id :: HasId(a, id) && HasId(b, id)) && SameText(a.repository, b.repository) && SameText(a.tag, b.tag)
    else
      (exists name :: HasName(a, name) && HasName(b, name)) && SameText(a.environmentKind, b.environmentKind)
  }

  lemma ValueOfField(a: Option<string>, b: Option<string>)
    ensures Value(a).None? <==> Blank(a)
    ensures Value(a).Some? ==> Value(a) == a
    ensures OrEmpty(Value(a)) == OrEmpty(Value(b)) <==> SameText(a, b)
  {
  }

  lemma IdOfRow(row: Row, id: string)
    ensures Or(Value(row.ID), Value(row.Id)) == Some(id) <==> HasId(row, id)
    ensures Or(Value(row.ID), Value(row.Id)).None? <==> Unidentified(row)
  {
  }

  lemma NameOfRow(row: Row, name: string)
    ensures Or(Value(row.name), Value(row.Name)) == Some(name) <==> HasName(row, name)
  {
  }

  lemma DockerIdentities(a: Row, b: Row)
    requires a.metadata.None? && b.metadata.None? && (!Unidentified(a) || !Unidentified(b))
    ensures Identity(a).Some? && Identity(a) == Identity(b) <==>
      (exists id :: HasId(a, id) && HasId(b, id)) && SameText(a.repository, b.repository) && SameText(a.tag, b.tag)
  {
    var x, y := Or(Value(a.ID), Value(a.Id)), Or(Value(b.ID), Value(b.Id));
    forall id ensures HasId(a, id) <==> x == Some(id) { IdOfRow(a, id); }
    forall id ensures HasId(b, id) <==> y == Some(id) { IdOfRow(b, id); }
    IdOfRow(a, "");
    IdOfRow(b, "");
    ValueOfField(a.repository, b.repository);
    ValueOfField(a.tag, b.tag);
    hide HasId, Blank, SameText, Value, Or, OrEmpty, Unidentified;
    assert (exists id :: HasId(a, id) && HasId(b, id)) <==> x.Some? && x == y by {
      if x.Some? && x == y { assert HasId(a, x.value) && HasId(b, x.value); }
    }
  }

  lemma NamedIdentities(a: Row, b: Row)
    requires a.metadata.None? && b.metadata.None? && Unidentified(a) && Unidentified(b)
    ensures Identity(a).Some? && Identity(a) == Identity(b) <==>
      (exists name :: HasName(a, name) && HasName(b, name)) && SameText(a.environmentKind, b.environmentKind)
  {
    var x, y := Or(Value(a.name), Value(a.Name)), Or(Value(b.name), Value(b.Name));
    forall name ensures HasName(a, name) <==> x == Some(name) { NameOfRow(a, name); }
    forall name ensures HasName(b, name) <==> y == Some(name) { NameOfRow(b, name); }
    IdOfRow(a, "");
    IdOfRow(b, "");
    ValueOfField(a.environmentKind, b.environmentKind);
    hide HasName, Blank, SameText, Value, Or, OrEmpty, Unidentified;
    assert (exists name :: HasName(a, name) && HasName(b, name)) <==> x.Some? && x == y by {
      if x.Some? && x == y { assert HasName(a, x.value) && HasName(b, x.value); }
    }
  }

  /** Two rows have one identity exactly when they are one resource. */
  lemma OneIdentityOneResource(a: Row, b: Row)
    ensures Identity(a).Some? && Identity(a) == Identity(b) <==> SameResource(a, b)
  {
    if a.metadata.Some? || b.metadata.Some? {
      if a.metadata.Some? && b.metadata.Some? {
        var m, n := a.metadata.value, b.metadata.value;
        ValueOfField(m.uid, n.uid);
        ValueOfField(m.name, n.name);
        ValueOfField(m.namespace, n.namespace);
        ValueOfField(n.uid, m.uid);
        ValueOfField(n.name, m.name);
        hide Blank, SameText, Value, OrEmpty;
      }
    } else if !Unidentified(a) || !Unidentified(b) {
      DockerIdentities(a, b);
      hide Identity, HasId, SameText, Blank;
    } else {
      NamedIdentities(a, b);
      hide Identity, HasName, SameText, Blank;
    }
  }

  // ----- which rows are visible --------------------------------------------

  ghost predicate Within(text: string, part: string) {
    exists before, after :: text == before + part + after
  }

  lemma {:induction false} ContainsIsWithin(text: string, part: string)
    ensures Contains(text, part) <==> Within(text, part)
  {
    if part <= text {
      assert text == "" + part + text[|part|..];
    } else {
      if text != "" { ContainsIsWithin(text[1..], part); }
      if Contains(text, part) {
        var before, after :| text[1..] == before + part + after;
        assert text == ([text[0]] + before) + part + after;
      }
      if before, after :| text == before + part + after {
        assert before == "" ==> before + part + after == part + after;
        assert text[1..] == before[1..] + part + after;
      }
    }
  }

  /** Only running rows, where the others are not asked for, and only those
      whose text holds the filter in any case. */
  ghost predicate Listed(row: Row, filter: string, unrestricted: bool, lower: string -> string) {
    (unrestricted || row.running) && (lower(filter) == "" || Within(lower(row.text), lower(filter)))
  }

  /** Exactly these rows are shown, in the order of the list. */
  lemma RowsAreTheListed(row: Row, before: seq<Row>, after: seq<Row>, filter: string, unrestricted: bool, lower: string -> string)
    ensures Filtered(before + [row] + after, filter, unrestricted, lower) ==
      Filtered(before, filter, unrestricted, lower) + (if Listed(row, filter, unrestricted, lower) then [row] else []) +
      Filtered(after, filter, unrestricted, lower)
    ensures Filtered([], filter, unrestricted, lower) == []
  {
    ContainsIsWithin(lower(row.text), lower(filter));
    assert Visible(row, filter, unrestricted, lower) == Listed(row, filter, unrestricted, lower);
    hide Visible, Listed;
    FilteredAppends(before + [row], after, filter, unrestricted, lower);
    FilteredAppends(before, [row], filter, unrestricted, lower);
    assert [row][1..] == [];
  }

  lemma {:induction false} FilteredAppends(a: seq<Row>, b: seq<Row>, filter: string, unrestricted: bool, lower: string -> string)
    ensures Filtered(a + b, filter, unrestricted, lower) == Filtered(a, filter, unrestricted, lower) + Filtered(b, filter, unrestricted, lower)
  {
    hide Visible;
    if a == [] {
      assert a + b == b;
    } else {
      FilteredAppends(a[1..], b, filter, unrestricted, lower);
      assert (a + b)[1..] == a[1..] + b;
    }
  }

  // ----- the selection stays with its resource -----------------------------

  /** The row at an index is the only one of the resource. */
  ghost predicate OnlyOne(rows: seq<Row>, resource: Row, i: nat) {
    i < |rows| && forall k :: 0 <= k < |rows| ==> (SameResource(resource, rows[k]) <==> k == i)
  }

  lemma OnlyOneIsOnlyAt(rows: seq<Row>, resource: Row, key: Key, i: nat)
    requires Identity(resource) == Some(key)
    ensures OnlyAt(rows, key, i) <==> OnlyOne(rows, resource, i)
  {
    forall k | 0 <= k < |rows| ensures Identity(rows[k]) == Some(key) <==> SameResource(resource, rows[k]) {
      OneIdentityOneResource(resource, rows[k]);
    }
    hide Identity, SameResource;
  }

  /** The selected row after an event that is no move and no reset: where the
      rows are looked up again, the one visible row of the same resource, and
      none if there is no such row or more than one; otherwise the same row. */
  lemma SelectionFollowsTheResource(v: View, event: Event, lower: string -> string)
    requires v.data.List? && Passive(event)
    ensures var after := Step(v, event, lower);
      if !Refinds(v, event) then Selected(after, lower) == Selected(v, lower)
      else if Selected(v, lower).None? then Selected(after, lower).None?
      else
        && (forall i: nat :: OnlyOne(Rows(after, lower), Selected(v, lower).value, i) ==>
              Selected(after, lower) == Some(Rows(after, lower)[i]))
        && (Selected(after, lower).Some? ==>
              after.selected.Some? && OnlyOne(Rows(after, lower), Selected(v, lower).value, after.selected.value))
  {
    var after := Step(v, event, lower);
    RowsIgnoreSelection(v, event, lower);
    hide Step, Identity, Filtered, Rows, OnlyAt, OnlyOne, FirstMatch, SameResource;
    if Refinds(v, event) && Selected(v, lower).Some? {
      Refound(Selected(v, lower).value, after, lower);
    }
  }

  lemma Refound(resource: Row, after: View, lower: string -> string)
    requires after.selected == Kept(Identity(resource), Rows(after, lower))
    ensures forall i: nat :: OnlyOne(Rows(after, lower), resource, i) ==> Selected(after, lower) == Some(Rows(after, lower)[i])
    ensures Selected(after, lower).Some? ==> after.selected.Some? && OnlyOne(Rows(after, lower), resource, after.selected.value)
  {
    var rows := Rows(after, lower);
    hide Rows, FirstMatch;
    match Identity(resource) {
      case None => NoResource(rows, resource);
      case Some(key) =>
        hide Identity;
        FoundIsUnique(rows, key);
        forall i: nat ensures OnlyAt(rows, key, i) <==> OnlyOne(rows, resource, i) { OnlyOneIsOnlyAt(rows, resource, key, i); }
        hide OnlyAt, OnlyOne, FindIdentity;
    }
  }

  lemma NoResource(rows: seq<Row>, resource: Row)
    requires Identity(resource).None?
    ensures forall i: nat :: !OnlyOne(rows, resource, i)
  {
    hide Identity;
    forall i: nat ensures !OnlyOne(rows, resource, i) {
      if i < |rows| { OneIdentityOneResource(resource, rows[i]); }
      hide SameResource;
    }
  }

  lemma SameResourceIsTransitive(a: Row, b: Row, c: Row)
    requires SameResource(a, b) && SameResource(b, c)
    ensures SameResource(a, c)
  {
    hide SameResource, Identity;
    OneIdentityOneResource(a, b);
    OneIdentityOneResource(b, c);
    OneIdentityOneResource(a, c);
  }

  /** Over every run of answers, prompts and filters: the selected row is the
      one selected before, or another row of the same resource; a row of
      another resource, be it of the same name, is never selected, and nothing
      is selected once nothing is. */
  lemma {:induction false} SelectionStaysWithTheResource(v: View, events: seq<Event>, lower: string -> string)
    requires v.data.List? && forall event :: event in events ==> Passive(event)
    ensures var after := Run(v, events, lower);
      && after.data.List?
      && (Selected(after, lower).Some? ==>
            Selected(v, lower).Some? &&
            (Selected(after, lower) == Selected(v, lower) || SameResource(Selected(v, lower).value, Selected(after, lower).value)))
    decreases |events|
  {
    if events != [] {
      hide Identity, Rows, Step, Selected, SameResource, Passive;
      var next := Step(v, events[0], lower);
      OneEvent(v, events[0], lower);
      OneEventOneResource(v, events[0], lower);
      SelectionStaysWithTheResource(next, events[1..], lower);
      var last := Selected(Run(v, events, lower), lower);
      if last.Some? && last != Selected(next, lower) && Selected(next, lower) != Selected(v, lower) {
        SameResourceIsTransitive(Selected(v, lower).value, Selected(next, lower).value, last.value);
      }
    }
  }

  lemma OneEventOneResource(v: View, event: Event, lower: string -> string)
    requires v.data.List? && Passive(event)
    ensures var after := Step(v, event, lower);
      Selected(after, lower).Some? ==>
        Selected(v, lower).Some? &&
        (Selected(after, lower) == Selected(v, lower) || SameResource(Selected(v, lower).value, Selected(after, lower).value))
  {
    SelectionFollowsTheResource(v, event, lower);
    hide Step, Rows, SameResource, Refinds;
  }

  // ----- moves and marks ---------------------------------------------------

  /** A move in an uncovered list goes as many rows as asked for, at most to its
      end; without a selection it starts at the end it comes from. */
  lemma MovesGoAsFarAsAsked(v: View, delta: int, lower: string -> string)
    requires !Covered(v.overlay)
    ensures var after, count := Step(v, MovedBy(delta), lower), |Rows(v, lower)|;
      && Rows(after, lower) == Rows(v, lower) && after.overlay == v.overlay
      && (count == 0 ==> after.selected == None)
      && (count > 0 && v.selected.None? ==> after.selected == Some(if delta < 0 then count - 1 else 0))
      && (count > 0 && v.selected.Some? && 0 <= v.selected.value + delta < count ==>
            after.selected == Some(v.selected.value + delta))
      && (count > 0 && v.selected.Some? && v.selected.value + delta < 0 ==> after.selected == Some(0))
      && (count > 0 && v.selected.Some? && v.selected.value + delta >= count ==> after.selected == Some(count - 1))
  {
    hide Filtered;
    assert Rows(Step(v, MovedBy(delta), lower), lower) == Rows(v, lower);
  }

  /** What a filter edit leaves in the filter is what stands in the prompt. */
  lemma TypingFilters(v: View, text: string, backspace: bool, lower: string -> string)
    requires v.input.Some? && v.input.value.prefix == '/'
    ensures var after, typed := Step(v, Typed(text, backspace), lower), v.input.value.typed;
      && after.input == Some(Prompt('/', after.filter)) && after.data == v.data
      && (!backspace ==> after.filter == typed + text)
      && (backspace ==> after.filter == if typed == "" then "" else typed[..|typed| - 1])
  {
    hide Filtered, FindIdentity;
  }

  /** The rows are marked stale by a failure or a reset, fresh by a list, and by
      nothing else; the last answer of a read ends its marks. */
  lemma AnswersMarkTheRows(v: View, answer: Answer, lower: string -> string)
    ensures var after := Step(v, Answered(answer), lower);
      && after.marks.stale == (if answer.Listing? then false else if answer.Failed? || answer.NotReady? then true else v.marks.stale)
      && (if answer.RuntimeStatus? || answer.Log? then
            after.marks.loading == v.marks.loading && after.marks.refreshing == v.marks.refreshing
          else !after.marks.loading && !after.marks.refreshing)
      && after.data == (if answer.Listing? then List(answer.rows) else if answer.NotReady? then Null else v.data)
  {
    hide Filtered, FindIdentity;
  }
}
