/**
 Layout edits, `Apply_Edit` of client/src/guest_layout.cpp: record and field edits, and the
 insertion and removal of byte ranges.
 */
module GuestLayoutEdits {
  import opened Machine
  import opened Options
  import opened GuestLayout

  function FindField(fields: seq<Field>, name: string, k: nat): (r: Option<nat>)
    requires k <= |fields|
    ensures r.Some? ==> k <= r.value < |fields| && fields[r.value].name == name
    ensures r.Some? ==> forall j :: k <= j < r.value ==> fields[j].name != name
    ensures r.None? ==> forall j :: k <= j < |fields| ==> fields[j].name != name
    decreases |fields| - k
  {
    if k == |fields| then None
    else if fields[k].name == name then Some(k)
    else FindField(fields, name, k + 1)
  }

  predicate InRange(f: Field, offset: u64, size: u64)
  {
    offset <= f.offset < offset + size
  }

  /** A field that starts before `offset` and has bytes at or after it. */
  predicate Straddles(f: Field, offset: u64)
  {
    f.offset < offset && f.size > offset - f.offset
  }

  /** Removal cannot proceed past this field: it lies across one end of the range. */
  predicate Cut(f: Field, offset: u64, size: u64)
  {
    !f.absent && if InRange(f, offset, size) then f.size > offset + size - f.offset else Straddles(f, offset)
  }

  /** The first `n` fields with those inside the removed range marked absent. */
  function MarkRemoved(fields: seq<Field>, offset: u64, size: u64, n: nat): (r: Option<seq<Field>>)
    requires n <= |fields|
    ensures r.Some? <==> forall k :: 0 <= k < n ==> !Cut(fields[k], offset, size)
    ensures r.Some? ==> |r.value| == |fields|
    ensures r.Some? ==> forall k :: 0 <= k < |fields| ==>
                          r.value[k] == if k < n && InRange(fields[k], offset, size) then fields[k].(absent := true)
                                        else fields[k]
  {
    if n == 0 then Some(fields)
    else
      match MarkRemoved(fields, offset, size, n - 1)
      case None => None
      case Some(marked) =>
        var f := fields[n - 1];
        if Cut(f, offset, size) then None
        else if InRange(f, offset, size) then
          (if f.absent then assert f.(absent := true) == f; Some(marked)
           else Some(marked[n - 1 := f.(absent := true)]))
        else Some(marked)
  }

  function Insertion(record: Layout, offset: u64, size: u64): (r: Option<Layout>)
    ensures r.Some? ==> |r.value.fields| == |record.fields|
  {
    if size > MAX_64 - offset then None else ShiftFollowing(record, offset, 0, size, -1, false)
  }

  function Removal(record: Layout, offset: u64, size: u64): (r: Option<Layout>)
    ensures r.Some? ==> |r.value.fields| == |record.fields|
  {
    if size > MAX_64 - offset then None
    else
      match MarkRemoved(record.fields, offset, size, |record.fields|)
      case None => None
      case Some(marked) => ShiftFollowing(record.(fields := marked), offset + size, size, 0, -1, false)
  }

  predicate Resizable(f: Field)
  {
    f.kind == "array" || f.kind == "record" || f.kind == "union"
  }

  function FieldChange(record: Layout, edit: Edit): (r: Option<Layout>)
    ensures r.Some? ==> |r.value.fields| == |record.fields|
  {
    match FindField(record.fields, edit.field, 0)
    case None => None
    case Some(i) =>
      var f := record.fields[i];
      var size := if edit.absent then 0 else edit.size.GetOr(f.size);
      var alignment := edit.alignment.GetOr(f.alignment);
      var wanted := edit.offset.GetOr(f.offset);
      var placed := if edit.alignment.Some? && edit.offset.None? then AlignedSize(wanted, alignment) else Some(wanted);
      if placed.None? then None
      else if size != f.size && !edit.absent && !Resizable(f) then None
      else if size > MAX_64 - placed.value || f.size > MAX_64 - f.offset then None
      else
        var shifted := if edit.shiftFollowing
                       then ShiftFollowing(record, f.offset + f.size, f.offset + f.size, placed.value + size, i, true)
                       else Some(record);
        match shifted
        case None => None
        case Some(s) =>
          var changed := s.fields[i].(offset := placed.value, size := size, alignment := alignment, absent := edit.absent);
          Some(s.(fields := s.fields[i := changed],
                  alignment := if edit.alignment.Some? then Max(s.alignment, alignment) else s.alignment))
  }

  function ApplyEdit(record: Layout, edit: Edit): (r: Option<Layout>)
    requires Loaded(edit)
    ensures r.Some? ==> |r.value.fields| == |record.fields|
  {
    match edit.kind
    case RecordEdit =>
      Some(record.(size := edit.size.GetOr(record.size), alignment := edit.alignment.GetOr(record.alignment)))
    case InsertEdit => Insertion(record, edit.offset.value, edit.size.value)
    case RemoveEdit => Removal(record, edit.offset.value, edit.size.value)
    case FieldEdit => FieldChange(record, edit)
  }

  // ---------------------------------------------------------------- insertion and removal

  /** The plain mode succeeds exactly when every listed offset can move, and moves exactly those. */
  lemma {:induction false} MoveAllFacts(fields: seq<Field>, order: seq<nat>, before: u64, after: u64)
    requires Indices(order, |fields|) && Distinct(order)
    ensures var r := MoveAll(fields, order, before, after);
            && (r.Some? <==> forall a :: 0 <= a < |order| ==> Shift(fields[order[a]].offset, before, after).Some?)
            && (r.Some? ==> OnlyMoves(fields, r.value, order))
            && (r.Some? ==> forall a :: 0 <= a < |order| ==>
                  r.value[order[a]].offset == fields[order[a]].offset + after - before)
  {
    if order != [] {
      var front, i := order[..|order| - 1], order[|order| - 1];
      assert order == front + [i];
      MoveAllFacts(fields, front, before, after);
    }
  }

  /** What the plain mode does to a record, field by field. */
  lemma {:induction false} ShiftedAlike(record: Layout, start: u64, before: u64, after: u64)
    ensures var r := ShiftFollowing(record, start, before, after, -1, false);
            && (r.Some? <==> !record.isUnion && Shift(record.size, before, after).Some?
                             && forall k :: 0 <= k < |record.fields| && Follows(record.fields, start, -1, k)
                                            ==> Shift(record.fields[k].offset, before, after).Some?)
            && (r.Some? ==> r.value == record.(fields := r.value.fields, size := r.value.size)
                            && r.value.size == record.size + after - before
                            && forall k :: 0 <= k < |record.fields| ==>
                                 && r.value.fields[k] == record.fields[k].(offset := r.value.fields[k].offset)
                                 && r.value.fields[k].offset == if Follows(record.fields, start, -1, k)
                                                                then record.fields[k].offset + after - before
                                                                else record.fields[k].offset)
  {
    if !record.isUnion {
      FollowingSorted(record.fields, start, -1, |record.fields|);
      var order := Following(record.fields, start, -1, |record.fields|);
      MoveAllFacts(record.fields, order, before, after);
      forall k | 0 <= k < |record.fields| && Follows(record.fields, start, -1, k)
        ensures exists a :: 0 <= a < |order| && order[a] == k
      {
        assert k in order;
      }
    }
  }

  /** Fields present in both records that were before one another still are. */
  ghost predicate KeepsOrder(was: seq<Field>, now: seq<Field>)
    requires |was| == |now|
  {
    forall a, b :: 0 <= a < |was| && 0 <= b < |was| && !now[a].absent && !now[b].absent ==>
      End(was[a]) <= was[b].offset ==> End(now[a]) <= now[b].offset
  }

  ghost predicate PresentApart(fields: seq<Field>)
  {
    forall a, b :: 0 <= a < b < |fields| && !fields[a].absent && !fields[b].absent ==> Apart(fields[a], fields[b])
  }

  lemma {:induction false} KeepingOrderKeepsApart(was: seq<Field>, now: seq<Field>)
    requires |was| == |now| && KeepsOrder(was, now) && PresentApart(was)
    requires forall k :: 0 <= k < |was| && !now[k].absent ==> !was[k].absent
    ensures PresentApart(now)
  {
    forall a, b | 0 <= a < b < |now| && !now[a].absent && !now[b].absent ensures Apart(now[a], now[b]) {
      assert Apart(was[a], was[b]);
    }
  }

  /**
   Opening a gap keeps the order and the disjointness of the present fields: those from the offset on move
   up by its size, and everything else stays.
   */
  lemma {:induction false} InsertionKeepsOrder(record: Layout, offset: u64, size: u64)
    requires Insertion(record, offset, size).Some?
    ensures var r := Insertion(record, offset, size).value;
            && KeepsOrder(record.fields, r.fields)
            && (PresentApart(record.fields) ==> PresentApart(r.fields))
            && r == record.(size := record.size + size, fields := r.fields)
            && forall k :: 0 <= k < |record.fields| ==>
                 && r.fields[k] == record.fields[k].(offset := r.fields[k].offset)
                 && r.fields[k].offset == record.fields[k].offset
                                          + if !record.fields[k].absent && offset <= record.fields[k].offset then size else 0
  {
    ShiftedAlike(record, offset, 0, size);
    if PresentApart(record.fields) {
      KeepingOrderKeepsApart(record.fields, Insertion(record, offset, size).value.fields);
    }
  }

  /** Closing a range keeps the order and the disjointness of the fields that remain, and drops those inside it. */
  lemma {:induction false} RemovalKeepsOrder(record: Layout, offset: u64, size: u64)
    requires Removal(record, offset, size).Some?
    ensures var r := Removal(record, offset, size).value;
            && KeepsOrder(record.fields, r.fields)
            && (PresentApart(record.fields) ==> PresentApart(r.fields))
            && r == record.(size := record.size - size, fields := r.fields)
            && forall k :: 0 <= k < |record.fields| ==>
                 var f := record.fields[k];
                 r.fields[k] == if InRange(f, offset, size) then f.(absent := true)
                                else if !f.absent && offset + size <= f.offset then f.(offset := f.offset - size) else f
  {
    var marked := MarkRemoved(record.fields, offset, size, |record.fields|).value;
    ShiftedAlike(record.(fields := marked), offset + size, size, 0);
    hide ShiftFollowing, MarkRemoved, Shift;
    var r := Removal(record, offset, size).value;
    RemovedFields(record.fields, marked, r.fields, offset, size);
  }

  /** What is left after the fields in a range were dropped, none lying across an end of it, and those behind it moved. */
  lemma {:induction false} RemovedFields(was: seq<Field>, marked: seq<Field>, now: seq<Field>, offset: u64, size: u64)
    requires |marked| == |was| == |now|
    requires forall k :: 0 <= k < |was| ==> !Cut(was[k], offset, size)
    requires forall k :: 0 <= k < |was| ==> marked[k] == if InRange(was[k], offset, size) then was[k].(absent := true) else was[k]
    requires forall k :: 0 <= k < |was| ==>
               && now[k] == marked[k].(offset := now[k].offset)
               && now[k].offset == if !marked[k].absent && marked[k].offset >= offset + size then marked[k].offset - size else marked[k].offset
    ensures KeepsOrder(was, now) && (PresentApart(was) ==> PresentApart(now))
    ensures forall k :: 0 <= k < |was| ==>
              var f := was[k];
              now[k] == if InRange(f, offset, size) then f.(absent := true)
                        else if !f.absent && offset + size <= f.offset then f.(offset := f.offset - size) else f
  {
    if PresentApart(was) {
      assert KeepsOrder(was, now);
      hide KeepsOrder, PresentApart;
      KeepingOrderKeepsApart(was, now);
    }
  }

  /**
   Removing a range that was just inserted restores the record exactly when no present field
   lies across the insertion point; otherwise the removal is refused.
   */
  lemma {:induction false} RemovalUndoesInsertion(record: Layout, offset: u64, size: u64)
    requires Insertion(record, offset, size).Some?
    ensures var removed := Removal(Insertion(record, offset, size).value, offset, size);
            && (removed.Some? <==> forall f <- record.fields :: !f.absent ==> !Straddles(f, offset))
            && (removed.Some? ==> removed.value == record)
  {
    var gapped := Insertion(record, offset, size).value;
    ShiftedAlike(record, offset, 0, size);
    GapHoldsNothing(record.fields, gapped.fields, offset, size);
    ShiftedAlike(gapped, offset + size, size, 0);
    hide ShiftFollowing, Shift, MarkRemoved, Cut, InRange, Straddles;
    var marked := MarkRemoved(gapped.fields, offset, size, |gapped.fields|);
    if marked.Some? {
      NothingMarked(record.fields, gapped.fields, marked.value, offset, size);
      assert gapped.(fields := marked.value) == gapped;
      ClosedAgain(record.fields, gapped.fields, Removal(gapped, offset, size).value.fields, offset, size);
    }
  }

  /** The fields after a gap was opened. */
  ghost predicate Gapped(was: seq<Field>, now: seq<Field>, offset: u64, size: u64)
  {
    |now| == |was| && forall k :: 0 <= k < |was| ==>
      && now[k] == was[k].(offset := now[k].offset)
      && now[k].offset == if !was[k].absent && was[k].offset >= offset then was[k].offset + size else was[k].offset
  }

  /** Nothing starts in the gap, and what lies across one of its ends lay across the offset. */
  lemma {:induction false} GapHoldsNothing(was: seq<Field>, now: seq<Field>, offset: u64, size: u64)
    requires Gapped(was, now, offset, size)
    ensures forall k :: 0 <= k < |was| ==> (!now[k].absent ==> !InRange(now[k], offset, size))
    ensures (forall k :: 0 <= k < |was| ==> !Cut(now[k], offset, size)) <==> forall f <- was :: !f.absent ==> !Straddles(f, offset)
  {
    forall k | 0 <= k < |was| ensures Cut(now[k], offset, size) <==> !was[k].absent && Straddles(was[k], offset) {}
  }

  lemma {:induction false} NothingMarked(was: seq<Field>, now: seq<Field>, marked: seq<Field>, offset: u64, size: u64)
    requires Gapped(was, now, offset, size) && |marked| == |now|
    requires forall k :: 0 <= k < |was| ==> (!now[k].absent ==> !InRange(now[k], offset, size))
    requires forall k :: 0 <= k < |now| ==> marked[k] == if InRange(now[k], offset, size) then now[k].(absent := true) else now[k]
    ensures marked == now
  {
    hide InRange;
    forall k | 0 <= k < |now| ensures marked[k] == now[k] {}
  }

  lemma {:induction false} ClosedAgain(was: seq<Field>, gapped: seq<Field>, now: seq<Field>, offset: u64, size: u64)
    requires Gapped(was, gapped, offset, size) && |now| == |gapped|
    requires forall k :: 0 <= k < |gapped| ==>
               && now[k] == gapped[k].(offset := now[k].offset)
               && now[k].offset == if !gapped[k].absent && gapped[k].offset >= offset + size then gapped[k].offset - size else gapped[k].offset
    ensures now == was
  {
    forall k | 0 <= k < |was| ensures now[k] == was[k] {}
  }
}
