/**
 Where layout edits of client/src/guest_layout.cpp put things, as relations between a record before and
 after: a reflow, an edit of a named field, an insertion and a removal happen exactly when the relation
 can be met, and then meet it.
 */
module GuestLayoutPlacement {
  import opened Machine
  import opened Options
  import opened GuestLayout
  import opened GuestLayoutEdits
  import opened GuestLayoutResolution

  // ---------------------------------------------------------------- one re-flowed field

  /** The furthest end among the first `n` listed fields, at least `start`. */
  function Reach(fields: seq<Field>, order: seq<nat>, start: nat, n: nat): (r: nat)
    requires Indices(order, |fields|) && n <= |order|
    ensures start <= r && forall a :: 0 <= a < n ==> End(fields[order[a]]) <= r
    ensures r == start || exists a :: 0 <= a < n && r == End(fields[order[a]])
  {
    if n == 0 then start else Max(Reach(fields, order, start, n - 1), End(fields[order[n - 1]]))
  }

  /** `Aligned_Size` succeeds: a power of two, and no wrap in `x + alignment - 1`. */
  predicate RoundsUp(x: nat, alignment: u64): (ok: bool)
    ensures ok ==> alignment > 0
  {
    IsPow2(alignment) && x + alignment - 1 <= MAX_64
  }

  /** The bytes between the first aligned place at or after `from` and `offset`. */
  function Gap(offset: nat, from: nat, alignment: u64): (g: nat)
    requires alignment > 0
    ensures g == 0 || RoundUp(from, alignment) + g == offset
    ensures g == 0 ==> offset <= RoundUp(from, alignment)
  {
    if offset > RoundUp(from, alignment) then offset - RoundUp(from, alignment) else 0
  }

  /**
   A field re-flows from `f` to `g` when what came before it used to reach `was` and now reaches `now`: behind
   that, it keeps its gap and its alignment; inside it, it keeps its distance.
   */
  predicate Placed(f: Field, g: Field, was: nat, now: nat)
  {
    && g == f.(offset := g.offset) && End(f) <= MAX_64 && End(g) <= MAX_64
    && if f.offset < was then g.offset == f.offset + now - was
       else RoundsUp(was, f.alignment) && RoundsUp(now + Gap(f.offset, was, f.alignment), f.alignment)
            && g.offset == RoundUp(now + Gap(f.offset, was, f.alignment), f.alignment)
  }

  lemma {:induction false} PowerPositive(a: nat)
    requires IsPow2(a)
    ensures a > 0
  {}

  lemma {:induction false} FieldDecided(s: Flow, i: nat, g: Field)
    requires i < |s.fields| && s.oldCursor <= MAX_64 && s.newCursor <= MAX_64
    ensures Placed(s.fields[i], g, s.oldCursor, s.newCursor) ==> ReflowField(s, i).Some?
    ensures ReflowField(s, i).Some? ==>
              var u := ReflowField(s, i).value;
              && u.fields == s.fields[i := u.fields[i]]
              && (u.fields[i] == g <==> Placed(s.fields[i], g, s.oldCursor, s.newCursor))
              && u.oldCursor == Max(s.oldCursor, End(s.fields[i])) && u.newCursor == Max(s.newCursor, End(u.fields[i]))
  {
    hide And, IsPow2, RoundUp;
    var f := s.fields[i];
    if f.offset >= s.oldCursor && IsPow2(f.alignment) {
      PowerPositive(f.alignment);
      RoundUpFacts(s.oldCursor, f.alignment);
    }
  }

  // ---------------------------------------------------------------- a list of fields

  /** The listed field at position `a` is placed behind those listed before it, in both records. */
  ghost predicate PlacedAt(was: seq<Field>, now: seq<Field>, order: seq<nat>, start: nat, newStart: nat, a: nat)
    requires Indices(order, |was|) && |now| == |was| && a < |order|
  {
    Placed(was[order[a]], now[order[a]], Reach(was, order, start, a), Reach(now, order, newStart, a))
  }

  /** All listed fields are placed, and nothing else changes. */
  ghost predicate Reflows(was: seq<Field>, now: seq<Field>, order: seq<nat>, start: nat, newStart: nat)
  {
    && Indices(order, |was|) && OnlyMoves(was, now, order)
    && forall a :: 0 <= a < |order| ==> PlacedAt(was, now, order, start, newStart, a)
  }

  lemma {:induction false} ReachFront(fields: seq<Field>, moved: seq<Field>, order: seq<nat>, start: nat, n: nat)
    requires order != [] && Indices(order, |fields|) && n <= |order| - 1 && |moved| == |fields|
    requires forall a :: 0 <= a < |order| - 1 ==> moved[order[a]] == fields[order[a]]
    ensures Reach(fields, order, start, n) == Reach(moved, order[..|order| - 1], start, n)
  {
    if n > 0 { ReachFront(fields, moved, order, start, n - 1); }
  }

  /** What is placed among all is placed among all but the last. */
  lemma {:induction false} PlacedFront(was: seq<Field>, before: seq<Field>, now: seq<Field>, order: seq<nat>, start: nat, newStart: nat, a: nat)
    requires order != [] && Indices(order, |was|) && |before| == |now| == |was| && a < |order|
    requires forall j :: 0 <= j < |order| - 1 ==> now[order[j]] == before[order[j]]
    ensures var front, i := order[..|order| - 1], order[|order| - 1];
            PlacedAt(was, now, order, start, newStart, a) <==>
            if a < |front| then PlacedAt(was, before, front, start, newStart, a)
            else Placed(was[i], now[i], Reach(was, front, start, |front|), Reach(before, front, newStart, |front|))
  {
    hide Placed;
    ReachFront(was, was, order, start, a);
    ReachFront(now, before, order, newStart, a);
    hide Reach;
  }

  /** A placement of a list is a placement of all but the last, and then of the last. */
  lemma {:induction false} ReflowsSplit(was: seq<Field>, before: seq<Field>, now: seq<Field>, order: seq<nat>, start: nat, newStart: nat)
    requires order != [] && Indices(order, |was|) && Distinct(order) && |now| == |was|
    requires before == now[order[|order| - 1] := was[order[|order| - 1]]]
    ensures var front, i := order[..|order| - 1], order[|order| - 1];
            Reflows(was, now, order, start, newStart) <==>
            Reflows(was, before, front, start, newStart)
            && Placed(was[i], now[i], Reach(was, front, start, |front|), Reach(before, front, newStart, |front|))
  {
    var front, i := order[..|order| - 1], order[|order| - 1];
    assert order == front + [i];
    assert forall j :: 0 <= j < |front| ==> now[order[j]] == before[order[j]];
    SplitMoves(was, before, now, front, i);
    var last := Placed(was[i], now[i], Reach(was, front, start, |front|), Reach(before, front, newStart, |front|));
    PlacedKeepsRest(was[i], now[i], Reach(was, front, start, |front|), Reach(before, front, newStart, |front|));
    hide Reach, PlacedAt, OnlyMoves, Placed;
    forall a | 0 <= a < |order|
      ensures PlacedAt(was, now, order, start, newStart, a) <==> if a < |front| then PlacedAt(was, before, front, start, newStart, a) else last
    {
      PlacedFront(was, before, now, order, start, newStart, a);
    }
    if Reflows(was, now, order, start, newStart) {
      forall a | 0 <= a < |front| ensures PlacedAt(was, before, front, start, newStart, a) {
        assert PlacedAt(was, now, order, start, newStart, a);
      }
      assert PlacedAt(was, now, order, start, newStart, |front|);
    }
    if Reflows(was, before, front, start, newStart) && last {
      forall a | 0 <= a < |order| ensures PlacedAt(was, now, order, start, newStart, a) {
        if a < |front| { assert PlacedAt(was, before, front, start, newStart, a); }
      }
    }
  }

  lemma {:induction false} PlacedKeepsRest(f: Field, g: Field, was: nat, now: nat)
    ensures Placed(f, g, was, now) ==> g == f.(offset := g.offset)
  {}

  lemma {:induction false} SplitMoves(was: seq<Field>, before: seq<Field>, now: seq<Field>, front: seq<nat>, i: nat)
    requires i < |was| && i !in front && |now| == |was| && before == now[i := was[i]]
    ensures OnlyMoves(was, now, front + [i]) <==> OnlyMoves(was, before, front) && now[i] == was[i].(offset := now[i].offset)
  {
    if OnlyMoves(was, before, front) && now[i] == was[i].(offset := now[i].offset) {
      forall k | 0 <= k < |was| ensures now[k] == was[k].(offset := now[k].offset) && (k !in front + [i] ==> now[k] == was[k]) {
        if k != i { assert now[k] == before[k]; }
      }
    }
    if OnlyMoves(was, now, front + [i]) {
      forall k | 0 <= k < |was| ensures before[k] == was[k].(offset := before[k].offset) && (k !in front ==> before[k] == was[k]) {
        if k != i { assert before[k] == now[k] && (k !in front ==> k !in front + [i]); }
      }
    }
  }

  lemma {:induction false} ReflowPlaces(was: seq<Field>, order: seq<nat>, start: u64, newStart: u64)
    requires Indices(order, |was|) && Distinct(order) && Reflow(Flow(was, start, newStart), order).Some?
    ensures var r := Reflow(Flow(was, start, newStart), order).value;
            && Reflows(was, r.fields, order, start, newStart)
            && r.oldCursor == Reach(was, order, start, |order|) && r.newCursor == Reach(r.fields, order, newStart, |order|)
    decreases |order|
  {
    hide Placed, ReflowField, PlacedAt;
    if order == [] {
      assert OnlyMoves(was, was, []);
    } else {
      var front, i := order[..|order| - 1], order[|order| - 1];
      assert order == front + [i];
      ReflowPlaces(was, front, start, newStart);
      NextPlaces(was, order, start, newStart, Reflow(Flow(was, start, newStart), front).value);
      hide Reach;
    }
  }

  /** One more field is placed. */
  lemma {:induction false} NextPlaces(was: seq<Field>, order: seq<nat>, start: u64, newStart: u64, t: Flow)
    requires order != [] && Indices(order, |was|) && Distinct(order)
    requires var front := order[..|order| - 1];
             && Reflows(was, t.fields, front, start, newStart)
             && t.oldCursor == Reach(was, front, start, |front|) && t.newCursor == Reach(t.fields, front, newStart, |front|)
    requires ReflowField(t, order[|order| - 1]).Some?
    ensures var u := ReflowField(t, order[|order| - 1]).value;
            && Reflows(was, u.fields, order, start, newStart)
            && u.oldCursor == Reach(was, order, start, |order|) && u.newCursor == Reach(u.fields, order, newStart, |order|)
  {
    hide Placed, ReflowField, PlacedAt, Reach;
    var i := order[|order| - 1];
    var now := ReflowField(t, i).value.fields;
    FieldDecided(t, i, now[i]);
    assert t.fields[i] == was[i] && now[i := was[i]] == t.fields;
    assert forall a :: 0 <= a < |order| - 1 ==> t.fields[order[a]] == now[order[a]];
    hide OnlyMoves;
    ReflowsSplit(was, t.fields, now, order, start, newStart);
    ReachLast(was, was, order, start);
    ReachLast(now, t.fields, order, newStart);
  }

  lemma {:induction false} ReachLast(fields: seq<Field>, before: seq<Field>, order: seq<nat>, start: nat)
    requires order != [] && Indices(order, |fields|) && |before| == |fields|
    requires forall a :: 0 <= a < |order| - 1 ==> before[order[a]] == fields[order[a]]
    ensures Reach(fields, order, start, |order|) == Max(Reach(before, order[..|order| - 1], start, |order| - 1), End(fields[order[|order| - 1]]))
  {
    ReachFront(fields, before, order, start, |order| - 1);
  }

  lemma {:induction false} PlacedReflows(was: seq<Field>, now: seq<Field>, order: seq<nat>, start: u64, newStart: u64)
    requires Distinct(order) && Reflows(was, now, order, start, newStart)
    ensures Reflow(Flow(was, start, newStart), order).Some? && Reflow(Flow(was, start, newStart), order).value.fields == now
    decreases |order|
  {
    hide Placed, ReflowField;
    if order == [] {
      assert now == was;
    } else {
      var front, i := order[..|order| - 1], order[|order| - 1];
      var before := now[i := was[i]];
      ReflowsSplit(was, before, now, order, start, newStart);
      PlacedReflows(was, before, front, start, newStart);
      ReflowPlaces(was, front, start, newStart);
      var t := Reflow(Flow(was, start, newStart), front).value;
      FieldDecided(t, i, now[i]);
      assert before[i := now[i]] == now;
    }
  }

  /** A reflow of listed fields succeeds exactly when they can be placed, and then places them. */
  lemma {:induction false} ReflowDecided(was: seq<Field>, now: seq<Field>, order: seq<nat>, start: u64, newStart: u64)
    requires Indices(order, |was|) && Distinct(order)
    ensures var r := Reflow(Flow(was, start, newStart), order);
            && (Reflows(was, now, order, start, newStart) <==> r.Some? && r.value.fields == now)
            && (r.Some? ==> r.value.oldCursor == Reach(was, order, start, |order|)
                            && r.value.newCursor == Reach(r.value.fields, order, newStart, |order|))
  {
    hide Reflows, Reflow;
    if Reflows(was, now, order, start, newStart) { PlacedReflows(was, now, order, start, newStart); }
    if Reflow(Flow(was, start, newStart), order).Some? { ReflowPlaces(was, order, start, newStart); }
  }

  // ---------------------------------------------------------------- a record

  /**
   What follows `start` in a record re-flows from `newStart` on: the fields are placed in offset order, and the
   padding that the record had behind its last field, past its own alignment, is kept.
   */
  ghost predicate FlowsInto(record: Layout, now: Layout, start: u64, newStart: u64, changed: int)
  {
    && !record.isUnion
    && var order := Following(record.fields, start, changed, |record.fields|);
    && Reflows(record.fields, now.fields, order, start, newStart)
    && var end, newEnd := Reach(record.fields, order, start, |order|), Reach(now.fields, order, newStart, |order|);
    && RoundsUp(end, record.alignment)
    && now == record.(fields := now.fields, size := now.size)
    && now.size == newEnd + Gap(record.size, end, record.alignment)
  }

  /** A reflow of a record happens exactly when its fields and its end can be placed, and then places them. */
  lemma {:induction false} FlowDecided(record: Layout, now: Layout, start: u64, newStart: u64, changed: int)
    ensures ShiftFollowing(record, start, start, newStart, changed, true) == Some(now) <==> FlowsInto(record, now, start, newStart, changed)
  {
    hide ShiftFollowing, FlowsInto;
    if FlowsInto(record, now, start, newStart, changed) { FlowsMeans(record, now, start, newStart, changed); }
    if ShiftFollowing(record, start, start, newStart, changed, true) == Some(now) { FlowHas(record, now, start, newStart, changed); }
  }

  lemma {:induction false} FlowsMeans(record: Layout, now: Layout, start: u64, newStart: u64, changed: int)
    requires FlowsInto(record, now, start, newStart, changed)
    ensures ShiftFollowing(record, start, start, newStart, changed, true) == Some(now)
  {
    hide ShiftFollowing, Reflow, Reflows, Following, Reach, AlignedSize, RoundsUp, Gap;
    var order := Following(record.fields, start, changed, |record.fields|);
    FollowingSorted(record.fields, start, changed, |record.fields|);
    ReflowDecided(record.fields, now.fields, order, start, newStart);
    var r := Reflow(Flow(record.fields, start, newStart), order);
    assert r.Some? && r.value.fields == now.fields;
    assert !record.isUnion && now == record.(fields := now.fields, size := now.size);
    assert RoundsUp(r.value.oldCursor, record.alignment)
           && now.size == r.value.newCursor + Gap(record.size, r.value.oldCursor, record.alignment);
    hide FlowsInto;
    SizeDecided(record, now, r.value);
    FlowIs(record, start, newStart, changed, r);
  }

  lemma {:induction false} FlowHas(record: Layout, now: Layout, start: u64, newStart: u64, changed: int)
    requires ShiftFollowing(record, start, start, newStart, changed, true) == Some(now)
    ensures FlowsInto(record, now, start, newStart, changed)
  {
    assert !record.isUnion;
    var order := Following(record.fields, start, changed, |record.fields|);
    var r := Reflow(Flow(record.fields, start, newStart), order);
    FlowIs(record, start, newStart, changed, r);
    hide ShiftFollowing, Reach, Reflow, AlignedSize, RoundsUp, Gap;
    FollowingSorted(record.fields, start, changed, |record.fields|);
    hide Following, Reflows;
    ReflowDecided(record.fields, now.fields, order, start, newStart);
    SizeDecided(record, now, r.value);
  }

  lemma {:induction false} FlowIs(record: Layout, start: u64, newStart: u64, changed: int, r: Option<Flow>)
    requires !record.isUnion && r == Reflow(Flow(record.fields, start, newStart), Following(record.fields, start, changed, |record.fields|))
    ensures ShiftFollowing(record, start, start, newStart, changed, true) ==
            if r.None? then None
            else
              var aligned := AlignedSize(r.value.oldCursor, record.alignment);
              if aligned.None? then None
              else
                var gap := if record.size > aligned.value then record.size - aligned.value else 0;
                if r.value.newCursor > MAX_64 - gap then None
                else Some(record.(fields := r.value.fields, size := r.value.newCursor + gap))
  {
    hide Reflow, Following, AlignedSize;
  }

  /** The end of a re-flowed record. */
  lemma {:induction false} SizeDecided(record: Layout, now: Layout, s: Flow)
    ensures var aligned := AlignedSize(s.oldCursor, record.alignment);
            var gap := if aligned.Some? && record.size > aligned.value then record.size - aligned.value else 0;
            (aligned.Some? && s.newCursor <= MAX_64 - gap && now.size == s.newCursor + gap) <==>
            (RoundsUp(s.oldCursor, record.alignment) && now.size == s.newCursor + Gap(record.size, s.oldCursor, record.alignment))
  {
    hide RoundUp;
  }

  // ---------------------------------------------------------------- an edit of a named field

  /** The least multiple of a power of two at or above `x`, if it can be reached without a wrap. */
  predicate Lifted(x: nat, alignment: u64, y: nat)
  {
    IsPow2(alignment) && alignment > 0 && x + alignment <= TWO_64 && y % alignment == 0 && x <= y < x + alignment
  }

  /** The field itself: what the edit names is set, and a new alignment alone moves it up to the next multiple. */
  predicate FieldSet(f: Field, g: Field, edit: Edit)
  {
    && g == f.(offset := g.offset, size := g.size, alignment := g.alignment, absent := edit.absent)
    && (if edit.absent then g.size == 0 else g.size == edit.size.GetOr(f.size))
    && g.alignment == edit.alignment.GetOr(f.alignment)
    && if edit.offset.Some? then g.offset == edit.offset.value
       else if edit.alignment.None? then g.offset == f.offset
       else Lifted(f.offset, g.alignment, g.offset)
  }

  /**
   The first field of the name is set; a scalar keeps its size unless it goes; neither end wraps; the rest
   re-flows from its old end to its new one if asked, and otherwise stays.
   */
  ghost predicate FieldEdited(record: Layout, now: Layout, edit: Edit, i: nat)
  {
    && i < |record.fields| == |now.fields|
    && record.fields[i].name == edit.field && (forall j :: 0 <= j < i ==> record.fields[j].name != edit.field)
    && var f, g := record.fields[i], now.fields[i];
    && FieldSet(f, g, edit)
    && (g.size == f.size || edit.absent || f.kind in {"array", "record", "union"})
    && End(f) <= MAX_64 && End(g) <= MAX_64
    && now.alignment == (if edit.alignment.Some? then Max(record.alignment, edit.alignment.value) else record.alignment)
    && var flowed := now.(fields := now.fields[i := f], alignment := record.alignment);
    && if edit.shiftFollowing then FlowsInto(record, flowed, End(f), End(g), i) else flowed == record
  }

  lemma {:induction false} AlignedIs(x: u64, alignment: u64, y: u64)
    ensures AlignedSize(x, alignment) == Some(y) <==> Lifted(x, alignment, y)
  {
    hide AlignedSize;
    if IsPow2(alignment) {
      PowerPositive(alignment);
      RoundUpFacts(x, alignment);
      hide IsPow2;
      if y % alignment == 0 && x <= y < x + alignment { RoundUpUnique(x, alignment, y); }
      hide RoundUp;
    }
  }

  /** The offset that an edit gives a field, as the code finds it. */
  function Wanted(f: Field, edit: Edit): Option<u64>
  {
    if edit.alignment.Some? && edit.offset.None? then AlignedSize(f.offset, edit.alignment.value) else Some(edit.offset.GetOr(f.offset))
  }

  lemma {:induction false} SetDecided(f: Field, g: Field, edit: Edit)
    ensures FieldSet(f, g, edit) <==>
            && Wanted(f, edit).Some?
            && g == f.(offset := Wanted(f, edit).value, size := if edit.absent then 0 else edit.size.GetOr(f.size),
                       alignment := edit.alignment.GetOr(f.alignment), absent := edit.absent)
  {
    if edit.alignment.Some? && edit.offset.None? { AlignedIs(f.offset, edit.alignment.value, g.offset); }
    hide AlignedSize, IsPow2;
  }

  lemma {:induction false} FlowKeepsChanged(record: Layout, now: Layout, start: u64, newStart: u64, i: nat)
    requires FlowsInto(record, now, start, newStart, i) && i < |record.fields|
    ensures |now.fields| == |record.fields| && now.fields[i] == record.fields[i] && now.alignment == record.alignment
  {
    FollowingSorted(record.fields, start, i, |record.fields|);
    hide Following, Placed;
    assert i !in Following(record.fields, start, i, |record.fields|);
  }

  /** The second half of a field edit: the rest of the record, and the field in it. */
  lemma {:induction false} RestDecided(record: Layout, now: Layout, edit: Edit, i: nat, g: Field)
    requires i < |record.fields| == |now.fields| && End(record.fields[i]) <= MAX_64 && End(g) <= MAX_64
    ensures var f := record.fields[i];
            var shifted := if edit.shiftFollowing then ShiftFollowing(record, End(f), End(f), End(g), i, true) else Some(record);
            var flowed := now.(fields := now.fields[i := f], alignment := record.alignment);
            var alignment := if edit.alignment.Some? then Max(record.alignment, edit.alignment.value) else record.alignment;
            && (shifted.Some? ==> shifted.value.fields[i] == f && shifted.value.alignment == record.alignment)
            && (shifted.Some? && now == shifted.value.(fields := shifted.value.fields[i := g], alignment := alignment) <==>
                now.fields[i] == g && now.alignment == alignment
                && if edit.shiftFollowing then FlowsInto(record, flowed, End(f), End(g), i) else flowed == record)
  {
    hide FlowsInto, ShiftFollowing;
    var f := record.fields[i];
    var flowed := now.(fields := now.fields[i := f], alignment := record.alignment);
    if edit.shiftFollowing {
      var shifted := ShiftFollowing(record, End(f), End(f), End(g), i, true);
      FlowDecided(record, flowed, End(f), End(g), i);
      if shifted.Some? {
        FlowDecided(record, shifted.value, End(f), End(g), i);
        FlowKeepsChanged(record, shifted.value, End(f), End(g), i);
        assert shifted.value.fields[i := g][i := f] == shifted.value.fields;
      }
    } else {
      assert record.fields[i := g][i := f] == record.fields;
    }
    assert now.fields[i := f][i := now.fields[i]] == now.fields;
  }

  /** The field that an edit wants. */
  function Changed(f: Field, edit: Edit): (g: Field)
    requires Wanted(f, edit).Some?
  {
    f.(offset := Wanted(f, edit).value, size := if edit.absent then 0 else edit.size.GetOr(f.size),
       alignment := edit.alignment.GetOr(f.alignment), absent := edit.absent)
  }

  predicate Allowed(f: Field, g: Field, edit: Edit)
  {
    (g.size == f.size || edit.absent || f.kind in {"array", "record", "union"}) && End(f) <= MAX_64 && End(g) <= MAX_64
  }

  lemma {:induction false} ChangeRefused(record: Layout, edit: Edit, i: nat)
    requires FindField(record.fields, edit.field, 0) == Some(i)
    ensures var f := record.fields[i];
            Wanted(f, edit).None? || !Allowed(f, Changed(f, edit), edit) ==> FieldChange(record, edit).None?
  {
    hide ShiftFollowing, FindField, AlignedSize;
  }

  lemma {:induction false} ChangeAllowed(record: Layout, edit: Edit, i: nat)
    requires FindField(record.fields, edit.field, 0) == Some(i)
    requires Wanted(record.fields[i], edit).Some? && Allowed(record.fields[i], Changed(record.fields[i], edit), edit)
    ensures var f, g := record.fields[i], Changed(record.fields[i], edit);
            var shifted := if edit.shiftFollowing then ShiftFollowing(record, End(f), End(f), End(g), i, true) else Some(record);
            FieldChange(record, edit) ==
            if shifted.None? then None
            else Some(shifted.value.(fields := shifted.value.fields[i := shifted.value.fields[i].(offset := g.offset, size := g.size, alignment := g.alignment, absent := g.absent)],
                                     alignment := if edit.alignment.Some? then Max(shifted.value.alignment, edit.alignment.value) else shifted.value.alignment))
  {
    hide ShiftFollowing, FindField, AlignedSize;
  }

  lemma {:induction false} FieldChangeDecided(record: Layout, now: Layout, edit: Edit, i: nat)
    requires FindField(record.fields, edit.field, 0) == Some(i)
    ensures FieldChange(record, edit) == Some(now) <==> FieldEdited(record, now, edit, i)
  {
    var f := record.fields[i];
    ChangeRefused(record, edit, i);
    if Wanted(f, edit).Some? && Allowed(f, Changed(f, edit), edit) {
      ChangeAllowed(record, edit, i);
      var g := Changed(f, edit);
      assert g == f.(offset := g.offset, size := g.size, alignment := g.alignment, absent := g.absent);
      hide FlowsInto, ShiftFollowing, FindField, FieldChange, Wanted;
      if |now.fields| == |record.fields| {
        RestDecided(record, now, edit, i, g);
        SetDecided(f, now.fields[i], edit);
      }
      hide FieldSet;
    } else if |now.fields| == |record.fields| {
      SetDecided(f, now.fields[i], edit);
      hide FieldSet, FieldChange, FlowsInto, FindField, Wanted;
    }
  }

  /** An edit of a named field succeeds exactly when its effect can be had, and then has it. */
  lemma {:induction false} FieldEditDecided(record: Layout, now: Layout, edit: Edit)
    requires edit.kind == FieldEdit
    ensures ApplyEdit(record, edit) == Some(now) <==> exists i :: FieldEdited(record, now, edit, i)
  {
    hide FlowsInto, Following, Reflow, IsPow2, And;
    var found := FindField(record.fields, edit.field, 0);
    if found.Some? {
      var i := found.value;
      assert (exists i :: FieldEdited(record, now, edit, i)) <==> FieldEdited(record, now, edit, i);
      FieldChangeDecided(record, now, edit, i);
    }
  }

  // ---------------------------------------------------------------- edits of the record and of byte ranges

  /** A record edit sets what it carries: the size, the alignment, or both. */
  lemma {:induction false} RecordEditSets(record: Layout, edit: Edit)
    requires edit.kind == RecordEdit
    ensures var r := ApplyEdit(record, edit);
            && r.Some? && r.value == record.(size := r.value.size, alignment := r.value.alignment)
            && (if edit.size.Some? then r.value.size == edit.size.value else r.value.size == record.size)
            && (if edit.alignment.Some? then r.value.alignment == edit.alignment.value else r.value.alignment == record.alignment)
  {}

  /** Present fields from the offset on lie `size` further on, and nothing wraps. */
  ghost predicate Inserted(record: Layout, now: Layout, offset: u64, size: u64)
  {
    && !record.isUnion && offset + size <= MAX_64 && |now.fields| == |record.fields|
    && now == record.(fields := now.fields, size := now.size) && now.size == record.size + size
    && forall k :: 0 <= k < |record.fields| ==>
         var f := record.fields[k];
         if f.absent || f.offset < offset then now.fields[k] == f
         else now.fields[k] == f.(offset := now.fields[k].offset) && now.fields[k].offset == f.offset + size
  }

  /** An insertion succeeds exactly when its effect can be had, and then has it. */
  lemma {:induction false} InsertionDecided(record: Layout, now: Layout, edit: Edit)
    requires edit.kind == InsertEdit && Loaded(edit)
    ensures ApplyEdit(record, edit) == Some(now) <==> Inserted(record, now, edit.offset.value, edit.size.value)
  {
    var offset, size := edit.offset.value, edit.size.value;
    ShiftedAlike(record, offset, 0, size);
    hide ShiftFollowing;
    var r := Insertion(record, offset, size);
    if r.Some? && |now.fields| == |record.fields| {
      assert r.value.fields == now.fields <==> forall k :: 0 <= k < |now.fields| ==> now.fields[k] == r.value.fields[k];
    }
  }

  /** No present field lies across an end of the range; those inside go, those behind move up, and nothing else changes. */
  ghost predicate Removed(record: Layout, now: Layout, offset: u64, size: u64)
  {
    && !record.isUnion && offset + size <= MAX_64 && size <= record.size && |now.fields| == |record.fields|
    && now == record.(fields := now.fields, size := now.size) && now.size == record.size - size
    && forall k :: 0 <= k < |record.fields| ==>
         var f := record.fields[k];
         if f.absent then now.fields[k] == f
         else if f.offset < offset then End(f) <= offset && now.fields[k] == f
         else if f.offset < offset + size then End(f) <= offset + size && now.fields[k] == f.(absent := true)
         else now.fields[k] == f.(offset := f.offset - size)
  }

  /** A removal succeeds exactly when its effect can be had, and then has it. */
  lemma {:induction false} RemovalDecided(record: Layout, now: Layout, edit: Edit)
    requires edit.kind == RemoveEdit && Loaded(edit)
    ensures ApplyEdit(record, edit) == Some(now) <==> Removed(record, now, edit.offset.value, edit.size.value)
  {
    var offset, size := edit.offset.value, edit.size.value;
    var marked := MarkRemoved(record.fields, offset, size, |record.fields|);
    if offset + size <= MAX_64 && marked.Some? {
      ShiftedAlike(record.(fields := marked.value), offset + size, size, 0);
      hide ShiftFollowing, MarkRemoved;
      var r := Removal(record, offset, size);
      if r.Some? && |now.fields| == |record.fields| {
        assert r.value.fields == now.fields <==> forall k :: 0 <= k < |now.fields| ==> now.fields[k] == r.value.fields[k];
      }
    }
  }

  /** Edits apply in profile order, one list after the other, and those of other records do nothing. */
  lemma {:induction false} EditsInOrder(record: Layout, name: string, first: seq<Edit>, more: seq<Edit>)
    requires forall e <- first + more :: Loaded(e)
    ensures (forall e <- first :: Loaded(e)) && forall e <- more :: Loaded(e)
    ensures ApplyEdits(record, name, first + more) ==
            match ApplyEdits(record, name, first) case None => None case Some(edited) => ApplyEdits(edited, name, more)
    ensures forall e <- more :: e.record == name ==> ApplyEdits(record, name, [e]) == ApplyEdit(record, e)
    ensures (forall e <- more :: e.record != name) ==> ApplyEdits(record, name, more) == Some(record)
  {
    hide ApplyEdit;
    assert forall e <- first :: e in first + more;
    assert forall e <- more :: e in first + more;
    forall e <- more | e.record == name ensures ApplyEdits(record, name, [e]) == ApplyEdit(record, e) {
      assert [e][..0] == [];
    }
    if more == [] {
      assert first + more == first;
    } else {
      var rest := more[..|more| - 1];
      assert (first + more)[..|first + more| - 1] == first + rest;
      assert forall e <- first + rest :: e in first + more;
      EditsInOrder(record, name, first, rest);
      assert more[|more| - 1] in more;
    }
  }

  // ---------------------------------------------------------------- nested fields and the final size

  /**
   A nested field takes the size of its children and their alignment, which a packed field does not raise; with
   a new alignment it moves up to the next multiple; what followed its old end re-flows if that end changes.
   */
  ghost predicate NestedFitted(record: Layout, now: Layout, i: nat, child: Layout, base: Layout)
  {
    && i < |record.fields| == |now.fields|
    && var f, g := record.fields[i], now.fields[i];
    && g == f.(offset := g.offset, size := g.size, alignment := g.alignment)
    && g.size == child.size * f.count && End(g) <= MAX_64
    && g.alignment == (if f.alignment < base.alignment && f.alignment < child.alignment then f.alignment else child.alignment)
    && (if g.alignment == f.alignment then g.offset == f.offset && now.alignment == record.alignment
        else Lifted(f.offset, g.alignment, g.offset) && now.alignment == Max(record.alignment, g.alignment))
    && var fitted := record.(fields := record.fields[i := g.(size := f.size)], alignment := now.alignment);
    && var flowed := now.(fields := now.fields[i := g.(size := f.size)]);
    && var oldEnd := End(f) % TWO_64;
    && if record.isUnion || (g.size == f.size && End(g) == oldEnd) then flowed == fitted
       else FlowsInto(fitted, flowed, oldEnd, End(g), i)
  }

  /** The field with a new alignment, moved up to a multiple of it. */
  predicate Lifts(f: Field, g: Field, alignment: u64)
  {
    && g == f.(offset := g.offset, alignment := alignment)
    && if alignment == f.alignment then g.offset == f.offset else Lifted(f.offset, alignment, g.offset)
  }

  lemma {:induction false} RealignDecided(record: Layout, i: nat, alignment: u64, g: Field)
    requires i < |record.fields|
    ensures var f, r := record.fields[i], Realign(record, i, alignment);
            && (Lifts(f, g, alignment) <==> r.Some? && r.value.fields[i] == g)
            && (r.Some? ==> r.value == record.(fields := record.fields[i := r.value.fields[i]],
                                               alignment := if alignment == f.alignment then record.alignment
                                                            else Max(record.alignment, alignment)))
  {
    AlignedIs(record.fields[i].offset, alignment, g.offset);
    hide AlignedSize, Lifted;
    assert record.fields[i := record.fields[i]] == record.fields;
  }

  /** The end of a fitted field and what follows it. */
  ghost predicate Resized(record: Layout, now: Layout, i: nat, size: u64, oldEnd: u64)
  {
    && i < |record.fields| == |now.fields|
    && var f := record.fields[i];
    && now.fields[i] == f.(size := size) && f.offset + size <= MAX_64 && now.alignment == record.alignment
    && var flowed := now.(fields := now.fields[i := f]);
    && if record.isUnion || (size == f.size && f.offset + size == oldEnd) then flowed == record
       else FlowsInto(record, flowed, oldEnd, f.offset + size, i)
  }

  lemma {:induction false} ResizeDecided(record: Layout, now: Layout, i: nat, size: u64, oldEnd: u64)
    requires i < |record.fields|
    ensures Resize(record, i, size, oldEnd) == Some(now) <==> Resized(record, now, i, size, oldEnd)
  {
    hide FlowsInto, ShiftFollowing;
    var f := record.fields[i];
    if f.offset + size <= MAX_64 && |now.fields| == |record.fields| {
      var flowed := now.(fields := now.fields[i := f]);
      assert now.fields[i := f][i := now.fields[i]] == now.fields;
      if record.isUnion || (size == f.size && f.offset + size == oldEnd) {
        assert record.fields[i := f.(size := size)][i := f] == record.fields;
      } else {
        var shifted := ShiftFollowing(record, oldEnd, oldEnd, f.offset + size, i, true);
        FlowDecided(record, flowed, oldEnd, f.offset + size, i);
        if shifted.Some? {
          FlowDecided(record, shifted.value, oldEnd, f.offset + size, i);
          FlowKeepsChanged(record, shifted.value, oldEnd, f.offset + size, i);
          assert shifted.value.fields[i := f.(size := size)][i := f] == shifted.value.fields;
        }
      }
    }
  }

  lemma {:induction false} CountTooBig(size: nat, count: nat)
    requires count != 0 && size > MAX_64 / count
    ensures size * count > MAX_64
  {
    var q := MAX_64 / count;
    assert (q + 1) * count > MAX_64;
    assert (size - q - 1) * count >= 0;
    assert size * count == (q + 1) * count + (size - q - 1) * count;
  }

  /** A nested field is fitted to its child exactly when it can be, and then is. */
  lemma {:induction false} NestedDecided(record: Layout, now: Layout, i: nat, child: Layout, base: Layout)
    requires i < |record.fields|
    ensures ResolveField(record, i, child, base) == Some(now) <==> NestedFitted(record, now, i, child, base)
  {
    var f := record.fields[i];
    if f.count != 0 && child.size > MAX_64 / f.count {
      CountTooBig(child.size, f.count);
      hide FlowsInto, Lifted;
    } else {
      CountedSize(child.size, f.count);
      FittedDecided(record, now, i, child, base, child.size * f.count);
    }
  }

  lemma {:induction false} FittedDecided(record: Layout, now: Layout, i: nat, child: Layout, base: Layout, size: u64)
    requires i < |record.fields| && size == child.size * record.fields[i].count
    requires record.fields[i].count != 0 ==> child.size <= MAX_64 / record.fields[i].count
    ensures ResolveField(record, i, child, base) == Some(now) <==> NestedFitted(record, now, i, child, base)
  {
    hide FlowsInto, Lifted, Realign, Resize;
    var f := record.fields[i];
    var alignment := ChildAlignment(f, child, base);
    var aligned := Realign(record, i, alignment);
    if |now.fields| == |record.fields| { RealignDecided(record, i, alignment, now.fields[i].(size := f.size)); }
    if aligned.Some? {
      RealignDecided(record, i, alignment, aligned.value.fields[i]);
      ResizeDecided(aligned.value, now, i, size, End(f) % TWO_64);
      if NestedFitted(record, now, i, child, base) { assert Resized(aligned.value, now, i, size, End(f) % TWO_64); }
      if Resized(aligned.value, now, i, size, End(f) % TWO_64) { assert NestedFitted(record, now, i, child, base); }
    }
  }

  /** The furthest end of the present fields, which all end below 2^64. */
  ghost predicate FurthestEnd(fields: seq<Field>, end: u64)
  {
    && (forall f <- fields :: !f.absent ==> End(f) <= end)
    && (end == 0 || exists f <- fields :: !f.absent && End(f) == end)
  }

  /** The explicit size, if it holds the fields; otherwise the least multiple of the alignment that holds them and, outside unions, the old size. */
  ghost predicate Sized(record: Layout, now: Layout, explicitSize: Option<u64>, end: u64)
  {
    && FurthestEnd(record.fields, end) && now == record.(size := now.size)
    && match explicitSize
       case Some(size) => now.size == size && end <= size
       case None =>
         var least := if record.isUnion || record.size < end then end else record.size;
         Lifted(least, record.alignment, now.size)
  }

  lemma {:induction false} EndAttained(fields: seq<Field>, n: nat)
    requires n <= |fields| && LastEnd(fields, n).Some?
    ensures var end := LastEnd(fields, n).value;
            end == 0 || exists k :: 0 <= k < n && !fields[k].absent && End(fields[k]) == end
  {
    if n > 0 { EndAttained(fields, n - 1); }
  }

  lemma {:induction false} EndIs(fields: seq<Field>)
    ensures forall end: u64 :: FurthestEnd(fields, end) <==> LastEnd(fields, |fields|) == Some(end)
  {
    var last := LastEnd(fields, |fields|);
    if last.Some? {
      EndAttained(fields, |fields|);
      assert FurthestEnd(fields, last.value) by {
        forall f <- fields ensures !f.absent ==> End(f) <= last.value {
          var k :| 0 <= k < |fields| && fields[k] == f;
        }
      }
    }
    hide LastEnd;
    forall end: u64 | FurthestEnd(fields, end) ensures last == Some(end) {
      forall k | 0 <= k < |fields| && !fields[k].absent ensures End(fields[k]) < TWO_64 {
        assert fields[k] in fields;
      }
    }
  }

  /** A record is closed exactly when it can be sized, and then is. */
  lemma {:induction false} SizeOfRecord(record: Layout, now: Layout, explicitSize: Option<u64>)
    ensures Close(record, explicitSize) == Some(now) <==> exists end :: Sized(record, now, explicitSize, end)
  {
    hide LastEnd, Lifted, AlignedSize, FurthestEnd;
    var end := LastEnd(record.fields, |record.fields|);
    EndIs(record.fields);
    if end.Some? {
      assert (exists other :: Sized(record, now, explicitSize, other)) <==> Sized(record, now, explicitSize, end.value);
      AlignedIs(if record.isUnion || record.size < end.value then end.value else record.size, record.alignment, now.size);
    }
  }
}
