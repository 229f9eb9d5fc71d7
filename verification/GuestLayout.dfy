/**
 The guest record layout arithmetic of client/src/guest_layout.cpp on values:
 checked 64-bit shifts and roundings, the reflow of following fields, layout edits,
 and the resolution of one nested field.
 */
module GuestLayout {
  import opened Machine
  import opened Options

  datatype Field = Field(name: string, record: string, kind: string, offset: u64, size: u64,
                         alignment: u64, count: u64, absent: bool)

  datatype Layout = Layout(name: string, size: u64, alignment: u64, isUnion: bool, fields: seq<Field>)

  datatype EditKind = RecordEdit | FieldEdit | InsertEdit | RemoveEdit

  datatype Edit = Edit(kind: EditKind, record: string, field: string, offset: Option<u64>, size: Option<u64>,
                       alignment: Option<u64>, shiftFollowing: bool, absent: bool)

  /** `Load` rejects insertions and removals that lack an offset or a size. */
  predicate Loaded(edit: Edit)
  {
    edit.kind == InsertEdit || edit.kind == RemoveEdit ==> edit.offset.Some? && edit.size.Some?
  }

  /** One past the last byte of a field, as a mathematical integer. */
  function End(f: Field): nat { f.offset + f.size }

  /** The field starts at a multiple of its alignment. */
  predicate Aligned(f: Field)
  {
    f.alignment > 0 && f.offset % f.alignment == 0
  }

  /** The byte ranges of two fields do not overlap. */
  predicate Apart(f: Field, g: Field)
  {
    End(f) <= g.offset || End(g) <= f.offset
  }

  function AlignedSize(size: u64, alignment: u64): (r: Option<u64>)
    ensures r.Some? <==> IsPow2(alignment) && size <= MAX_64 - (alignment - 1)
    ensures r.Some? ==> r.value == RoundUp(size, alignment) && size <= r.value < size + alignment
  {
    if alignment == 0 then None
    else
      MaskTest(alignment);
      if And(alignment, alignment - 1) != 0 || size > MAX_64 - (alignment - 1) then None
      else
        MaskRounds(size + alignment - 1, alignment);
        RoundUpFacts(size, alignment);
        Some(And(size + alignment - 1, Not64(alignment - 1)))
  }

  function Shift(value: u64, before: u64, after: u64): (r: Option<u64>)
    ensures r.Some? <==> 0 <= value + after - before < TWO_64
    ensures r.Some? ==> r.value == value + after - before
  {
    if after >= before then
      if value > MAX_64 - (after - before) then None else Some(value + (after - before))
    else if value < before - after then None
    else Some(value - (before - after))
  }

  // ---------------------------------------------------------------- following fields

  /** The listed numbers are indices below `n`. */
  predicate Indices(order: seq<nat>, n: nat)
  {
    forall a :: 0 <= a < |order| ==> order[a] < n
  }

  /** Field `i` is present, lies at or after `start`, and is not the changed field (`-1`: none changed). */
  predicate Follows(fields: seq<Field>, start: u64, changed: int, i: nat)
    requires i < |fields|
  {
    i != changed && !fields[i].absent && fields[i].offset >= start
  }

  function InsertByOffset(fields: seq<Field>, order: seq<nat>, i: nat): seq<nat>
    requires i < |fields| && Indices(order, |fields|)
  {
    if order != [] && fields[order[|order| - 1]].offset > fields[i].offset
    then InsertByOffset(fields, order[..|order| - 1], i) + [order[|order| - 1]]
    else order + [i]
  }

  /** The indices below `n` of the following fields, stably sorted by offset. */
  function Following(fields: seq<Field>, start: u64, changed: int, n: nat): (order: seq<nat>)
    requires n <= |fields|
    ensures Indices(order, n)
  {
    if n == 0 then []
    else
      var order := Following(fields, start, changed, n - 1);
      if Follows(fields, start, changed, n - 1) then
        InsertByOffsetMembers(fields, order, n - 1);
        var r := InsertByOffset(fields, order, n - 1);
        assert forall a :: 0 <= a < |r| ==> r[a] in r;
        r
      else order
  }

  lemma {:induction false} InsertByOffsetMembers(fields: seq<Field>, order: seq<nat>, i: nat)
    requires i < |fields| && Indices(order, |fields|)
    ensures forall k :: k in InsertByOffset(fields, order, i) <==> k in order || k == i
    ensures |InsertByOffset(fields, order, i)| == |order| + 1
  {
    if order != [] {
      var front := order[..|order| - 1];
      assert order == front + [order[|order| - 1]];
      InsertByOffsetMembers(fields, front, i);
    }
  }

  ghost predicate Distinct(order: seq<nat>)
  {
    forall a, b :: 0 <= a < b < |order| ==> order[a] != order[b]
  }

  /** Field `i` comes before field `j`: by offset, then by position. */
  predicate Precedes(fields: seq<Field>, i: nat, j: nat)
    requires i < |fields| && j < |fields|
  {
    fields[i].offset < fields[j].offset || (fields[i].offset == fields[j].offset && i < j)
  }

  ghost predicate SortedByOffset(fields: seq<Field>, order: seq<nat>)
    requires Indices(order, |fields|)
  {
    forall a, b :: 0 <= a < b < |order| ==> Precedes(fields, order[a], order[b])
  }

  lemma {:induction false} SortedPush(fields: seq<Field>, order: seq<nat>, last: nat)
    requires Indices(order, |fields|) && last < |fields| && SortedByOffset(fields, order)
    requires order != [] ==> Precedes(fields, order[|order| - 1], last)
    ensures Indices(order + [last], |fields|) && SortedByOffset(fields, order + [last])
  {
    forall a | 0 <= a < |order| ensures Precedes(fields, order[a], last) {
      if a < |order| - 1 { assert Precedes(fields, order[a], order[|order| - 1]); }
    }
  }

  lemma {:induction false} InsertByOffsetSorted(fields: seq<Field>, order: seq<nat>, i: nat)
    requires i < |fields| && Indices(order, i) && SortedByOffset(fields, order)
    ensures Indices(InsertByOffset(fields, order, i), |fields|)
    ensures SortedByOffset(fields, InsertByOffset(fields, order, i))
    ensures var r := InsertByOffset(fields, order, i);
            r[|r| - 1] == if order != [] && fields[order[|order| - 1]].offset > fields[i].offset then order[|order| - 1] else i
  {
    if order != [] && fields[order[|order| - 1]].offset > fields[i].offset {
      var front, last := order[..|order| - 1], order[|order| - 1];
      InsertByOffsetSorted(fields, front, i);
      assert front != [] ==> Precedes(fields, order[|order| - 2], last);
      SortedPush(fields, InsertByOffset(fields, front, i), last);
    } else {
      SortedPush(fields, order, i);
    }
  }

  /** The sort keeps exactly the following fields, each once, by offset and then by position. */
  lemma {:induction false} FollowingSorted(fields: seq<Field>, start: u64, changed: int, n: nat)
    requires n <= |fields|
    ensures SortedByOffset(fields, Following(fields, start, changed, n))
    ensures Distinct(Following(fields, start, changed, n))
    ensures forall k: nat | k < n :: k in Following(fields, start, changed, n) <==> Follows(fields, start, changed, k)
    ensures var order := Following(fields, start, changed, n);
            forall a :: 0 <= a < |order| ==> Follows(fields, start, changed, order[a])
  {
    hide Precedes, SortedByOffset, InsertByOffset, Follows;
    if n == 0 {
      assert SortedByOffset(fields, []) by { EmptySorted(fields); }
    } else {
      FollowingSorted(fields, start, changed, n - 1);
      var rest := Following(fields, start, changed, n - 1);
      if Follows(fields, start, changed, n - 1) {
        InsertByOffsetMembers(fields, rest, n - 1);
        InsertByOffsetSorted(fields, rest, n - 1);
      }
      SortedIsDistinct(fields, Following(fields, start, changed, n));
      FollowingMembers(fields, start, changed, n, Following(fields, start, changed, n));
    }
  }

  lemma {:induction false} EmptySorted(fields: seq<Field>)
    ensures SortedByOffset(fields, [])
  {}

  lemma {:induction false} FollowingMembers(fields: seq<Field>, start: u64, changed: int, n: nat, order: seq<nat>)
    requires n <= |fields| && Indices(order, n)
    requires forall k: nat | k < n :: k in order <==> Follows(fields, start, changed, k)
    ensures forall a :: 0 <= a < |order| ==> Follows(fields, start, changed, order[a])
  {
    forall a | 0 <= a < |order| ensures Follows(fields, start, changed, order[a]) {
      assert order[a] in order;
    }
  }

  lemma {:induction false} SortedIsDistinct(fields: seq<Field>, order: seq<nat>)
    requires Indices(order, |fields|) && SortedByOffset(fields, order)
    ensures Distinct(order)
  {}

  // ---------------------------------------------------------------- reflow

  datatype Flow = Flow(fields: seq<Field>, oldCursor: u64, newCursor: u64)

  /** One turn of the reflow loop: place field `i` after the new cursor, keeping its old gap. */
  function ReflowField(s: Flow, i: nat): (r: Option<Flow>)
    requires i < |s.fields|
    ensures r.Some? ==> |r.value.fields| == |s.fields|
  {
    var f := s.fields[i];
    var placed: Option<u64> :=
      if f.offset >= s.oldCursor then
        match AlignedSize(s.oldCursor, f.alignment)
        case None => None
        case Some(aligned) =>
          var gap := if f.offset > aligned then f.offset - aligned else 0;
          if s.newCursor > MAX_64 - gap then None else AlignedSize(s.newCursor + gap, f.alignment)
      else Shift(f.offset, s.oldCursor, s.newCursor);
    if placed.None? || f.size > MAX_64 - f.offset || f.size > MAX_64 - placed.value then None
    else Some(Flow(s.fields[i := f.(offset := placed.value)],
                   Max(s.oldCursor, f.offset + f.size), Max(s.newCursor, placed.value + f.size)))
  }

  function Reflow(s: Flow, order: seq<nat>): (r: Option<Flow>)
    requires Indices(order, |s.fields|)
    ensures r.Some? ==> |r.value.fields| == |s.fields|
  {
    if order == [] then Some(s)
    else
      match Reflow(s, order[..|order| - 1])
      case None => None
      case Some(t) => ReflowField(t, order[|order| - 1])
  }

  /** `Shift_Following` on a record value; `changed` is the index of the changed field, or `-1`. */
  function ShiftFollowing(record: Layout, start: u64, before: u64, after: u64, changed: int, reflow: bool)
    : (r: Option<Layout>)
    ensures r.Some? ==> |r.value.fields| == |record.fields|
  {
    if record.isUnion then None
    else
      var order := Following(record.fields, start, changed, |record.fields|);
      if reflow then
        match Shift(start, before, after)
        case None => None
        case Some(cursor) =>
          match Reflow(Flow(record.fields, start, cursor), order)
          case None => None
          case Some(s) =>
            match AlignedSize(s.oldCursor, record.alignment)
            case None => None
            case Some(aligned) =>
              var gap := if record.size > aligned then record.size - aligned else 0;
              if s.newCursor > MAX_64 - gap then None
              else Some(record.(fields := s.fields, size := s.newCursor + gap))
      else
        match MoveAll(record.fields, order, before, after)
        case None => None
        case Some(fields) =>
          match Shift(record.size, before, after)
          case None => None
          case Some(size) => Some(record.(fields := fields, size := size))
  }

  /** The plain mode: every listed field moves by the same distance. */
  function MoveAll(fields: seq<Field>, order: seq<nat>, before: u64, after: u64): (r: Option<seq<Field>>)
    requires Indices(order, |fields|)
    ensures r.Some? ==> |r.value| == |fields|
  {
    if order == [] then Some(fields)
    else
      match MoveAll(fields, order[..|order| - 1], before, after)
      case None => None
      case Some(moved) =>
        var i := order[|order| - 1];
        match Shift(moved[i].offset, before, after)
        case None => None
        case Some(offset) => Some(moved[i := moved[i].(offset := offset)])
  }

  /** Two field lists differ at most in the offsets of the listed fields. */
  ghost predicate OnlyMoves(fields: seq<Field>, moved: seq<Field>, order: seq<nat>)
  {
    && |moved| == |fields|
    && (forall k :: 0 <= k < |fields| ==> moved[k] == fields[k].(offset := moved[k].offset))
    && (forall k :: 0 <= k < |fields| && k !in order ==> moved[k] == fields[k])
  }

  lemma {:induction false} FieldOnlyMoves(s: Flow, i: nat)
    requires i < |s.fields| && ReflowField(s, i).Some?
    ensures OnlyMoves(s.fields, ReflowField(s, i).value.fields, [i])
  {
    hide AlignedSize, Shift;
  }

  lemma {:induction false} MovesOn(fields: seq<Field>, moved: seq<Field>, after: seq<Field>, front: seq<nat>, i: nat)
    requires OnlyMoves(fields, moved, front) && OnlyMoves(moved, after, [i])
    ensures OnlyMoves(fields, after, front + [i])
  {}

  lemma {:induction false} ReflowOnlyMoves(s: Flow, order: seq<nat>)
    requires Indices(order, |s.fields|)
    requires Reflow(s, order).Some?
    ensures OnlyMoves(s.fields, Reflow(s, order).value.fields, order)
  {
    if order == [] {
      assert Reflow(s, order) == Some(s);
    } else {
      hide OnlyMoves, ReflowField;
      var front, i := order[..|order| - 1], order[|order| - 1];
      assert order == front + [i];
      ReflowOnlyMoves(s, front);
      FieldOnlyMoves(Reflow(s, front).value, i);
      MovesOn(s.fields, Reflow(s, front).value.fields, Reflow(s, order).value.fields, front, i);
    }
  }

  /** The listed fields are disjoint and each starts after the one before it ends. */
  ghost predicate InLine(fields: seq<Field>, order: seq<nat>)
    requires Indices(order, |fields|)
  {
    forall a, b :: 0 <= a < b < |order| ==> End(fields[order[a]]) <= fields[order[b]].offset
  }

  /** What the reflow of fields in line establishes, relative to the cursors it started from. */
  ghost predicate Reflowed(s: Flow, order: seq<nat>, t: Flow)
    requires |t.fields| == |s.fields| && Indices(order, |s.fields|)
  {
    && InLine(t.fields, order)
    && (if order == [] then t == s
        else t.oldCursor == End(s.fields[order[|order| - 1]]) && t.newCursor == End(t.fields[order[|order| - 1]]))
    && s.newCursor <= t.newCursor
    && forall a :: 0 <= a < |order| ==>
         var f := t.fields[order[a]];
         s.newCursor <= f.offset && End(f) <= t.newCursor && Aligned(f)
  }

  /** One turn on a field that starts at or after the old cursor. */
  lemma {:induction false} PlacedAfter(t: Flow, i: nat)
    requires i < |t.fields| && t.oldCursor <= t.fields[i].offset
    requires ReflowField(t, i).Some?
    ensures var u := ReflowField(t, i).value;
            var f := u.fields[i];
            && u.fields == t.fields[i := t.fields[i].(offset := f.offset)]
            && u.oldCursor == End(t.fields[i]) && u.newCursor == End(f)
            && t.newCursor <= f.offset && Aligned(f)
  {
    hide And, IsPow2;
    var f := t.fields[i];
    var aligned := AlignedSize(t.oldCursor, f.alignment).value;
    RoundUpFacts(t.newCursor + (if f.offset > aligned then f.offset - aligned else 0), f.alignment);
  }

  lemma {:induction false} ReflowInLine(s: Flow, order: seq<nat>)
    requires Distinct(order) && Indices(order, |s.fields|)
    requires forall a :: 0 <= a < |order| ==> s.oldCursor <= s.fields[order[a]].offset
    requires InLine(s.fields, order)
    requires Reflow(s, order).Some?
    ensures Reflowed(s, order, Reflow(s, order).value)
  {
    if order != [] {
      var front, i := order[..|order| - 1], order[|order| - 1];
      ReflowInLine(s, front);
      ReflowOnlyMoves(s, front);
      ReflowedStep(s, front, i, Reflow(s, front).value);
      assert order == front + [i];
    }
  }

  lemma {:induction false} ReflowedStep(s: Flow, front: seq<nat>, i: nat, t: Flow)
    requires Indices(front, |s.fields|) && i < |s.fields| && i !in front
    requires s.oldCursor <= s.fields[i].offset
    requires front != [] ==> End(s.fields[front[|front| - 1]]) <= s.fields[i].offset
    requires OnlyMoves(s.fields, t.fields, front) && Reflowed(s, front, t)
    requires ReflowField(t, i).Some?
    ensures Reflowed(s, front + [i], ReflowField(t, i).value)
  {
    hide ReflowField, Aligned;
    PlacedAfter(t, i);
    var u := ReflowField(t, i).value;
    forall a | 0 <= a < |front| ensures (front + [i])[a] == front[a] && u.fields[front[a]] == t.fields[front[a]] {
    }
    assert (front + [i])[|front|] == i;
  }

  /**
   A successful reflow of following fields that were in line leaves them in the same line,
   each at a multiple of its alignment, at or after the changed field's new end, and inside 64 bits.
   */
  lemma {:induction false} ReflowKeepsOrder(record: Layout, end: u64, newEnd: u64, changed: int)
    requires ShiftFollowing(record, end, end, newEnd, changed, true).Some?
    requires InLine(record.fields, Following(record.fields, end, changed, |record.fields|))
    ensures var order := Following(record.fields, end, changed, |record.fields|);
            var r := ShiftFollowing(record, end, end, newEnd, changed, true).value;
            && OnlyMoves(record.fields, r.fields, order)
            && InLine(r.fields, order)
            && forall a :: 0 <= a < |order| ==>
                 var f := r.fields[order[a]];
                 newEnd <= f.offset && Aligned(f) && End(f) <= r.size < TWO_64
  {
    hide ShiftFollowing, Aligned;
    FollowingSorted(record.fields, end, changed, |record.fields|);
    var order := Following(record.fields, end, changed, |record.fields|);
    ReflowResult(record, end, newEnd, changed);
    ReflowInLine(Flow(record.fields, end, newEnd), order);
    ReflowOnlyMoves(Flow(record.fields, end, newEnd), order);
  }

  /** The reflow mode runs the cursors over the sorted following fields and then sizes the record. */
  lemma {:induction false} ReflowResult(record: Layout, end: u64, newEnd: u64, changed: int)
    requires ShiftFollowing(record, end, end, newEnd, changed, true).Some?
    ensures var r := ShiftFollowing(record, end, end, newEnd, changed, true).value;
            var t := Reflow(Flow(record.fields, end, newEnd), Following(record.fields, end, changed, |record.fields|));
            && t.Some? && r == record.(fields := t.value.fields, size := r.size)
            && t.value.newCursor <= r.size
  {}

  /** Rounding commutes with a shift by a multiple of the alignment. */
  lemma {:induction false} AlignedGapMoves(offset: u64, cursor: u64, d: int, a: u64)
    requires a > 0 && offset % a == 0 && d % a == 0 && cursor <= offset && 0 <= cursor + d
    ensures RoundUp(cursor, a) <= offset
    ensures 0 <= offset + d && RoundUp(cursor + d + (offset - RoundUp(cursor, a)), a) == offset + d
  {
    RoundUpFacts(cursor, a);
    RoundUpLeast(cursor, a, offset);
    SumMod(offset, d, a);
    RoundUpUnique(cursor + d + (offset - RoundUp(cursor, a)), a, offset + d);
  }

  /** All but the last field are in line, and end before it. */
  lemma {:induction false} InLineFront(fields: seq<Field>, order: seq<nat>)
    requires Indices(order, |fields|) && InLine(fields, order) && order != []
    ensures var front := order[..|order| - 1];
            && Indices(front, |fields|) && InLine(fields, front)
            && (front != [] ==> End(fields[front[|front| - 1]]) <= fields[order[|order| - 1]].offset)
  {}

  lemma {:induction false} ReflowMovesAlike(s: Flow, order: seq<nat>, d: int)
    requires Distinct(order) && Indices(order, |s.fields|) && d == s.newCursor - s.oldCursor
    requires forall a :: 0 <= a < |order| ==> s.oldCursor <= s.fields[order[a]].offset
    requires forall a :: 0 <= a < |order| ==> MovesBy(s.fields[order[a]], d)
    requires InLine(s.fields, order)
    requires Reflow(s, order).Some?
    ensures var t := Reflow(s, order).value;
            && t.newCursor - t.oldCursor == d
            && forall a :: 0 <= a < |order| ==> t.fields[order[a]].offset == s.fields[order[a]].offset + d
  {
    hide MovesBy, Reflowed, OnlyMoves, ReflowField, Aligned, InLine;
    if order != [] {
      var front, i := order[..|order| - 1], order[|order| - 1];
      InLineFront(s.fields, order);
      ReflowMovesAlike(s, front, d);
      ReflowInLine(s, front);
      ReflowOnlyMoves(s, front);
      assert order == front + [i];
      MoveStep(s, front, i, Reflow(s, front).value, d);
    }
  }

  /** The field is aligned and stays aligned when moved by `d`. */
  ghost predicate MovesBy(f: Field, d: int)
  {
    Aligned(f) && d % f.alignment == 0
  }

  lemma {:induction false} MoveStep(s: Flow, front: seq<nat>, i: nat, t: Flow, d: int)
    requires Indices(front, |s.fields|) && i < |s.fields| && i !in front && MovesBy(s.fields[i], d)
    requires front != [] ==> End(s.fields[front[|front| - 1]]) <= s.fields[i].offset
    requires s.oldCursor <= s.fields[i].offset
    requires OnlyMoves(s.fields, t.fields, front) && Reflowed(s, front, t) && t.newCursor == t.oldCursor + d
    requires forall a :: 0 <= a < |front| ==> t.fields[front[a]].offset == s.fields[front[a]].offset + d
    requires ReflowField(t, i).Some?
    ensures var u := ReflowField(t, i).value;
            && u.newCursor - u.oldCursor == d
            && forall a :: 0 <= a < |front + [i]| ==>
                 u.fields[(front + [i])[a]].offset == s.fields[(front + [i])[a]].offset + d
  {
    MovedField(t, i, d);
    hide ReflowField, MovesBy, Aligned;
    PlacedAfter(t, i);
    Untouched(front, i, t, ReflowField(t, i).value);
  }

  lemma {:induction false} MovedField(t: Flow, i: nat, d: int)
    requires i < |t.fields| && MovesBy(t.fields[i], d)
    requires t.oldCursor <= t.fields[i].offset && t.newCursor == t.oldCursor + d
    requires ReflowField(t, i).Some?
    ensures ReflowField(t, i).value.fields[i].offset == t.fields[i].offset + d
  {
    var f := t.fields[i];
    AlignedGapMoves(f.offset, t.oldCursor, d, f.alignment);
  }

  /**
   When the following fields sit at multiples of their alignments and the change is a multiple of
   every one of them, the reflow moves all of them by exactly that change. The record grows by it too,
   less any padding between the last old end and the record's own rounding.
   */
  lemma {:induction false} ReflowMovesByShift(record: Layout, end: u64, newEnd: u64, changed: int)
    requires ShiftFollowing(record, end, end, newEnd, changed, true).Some?
    requires InLine(record.fields, Following(record.fields, end, changed, |record.fields|))
    requires forall k :: 0 <= k < |record.fields| && Follows(record.fields, end, changed, k)
                         ==> MovesBy(record.fields[k], newEnd - end)
    ensures var r := ShiftFollowing(record, end, end, newEnd, changed, true).value;
            forall k :: 0 <= k < |record.fields| ==>
              if Follows(record.fields, end, changed, k)
              then r.fields[k] == record.fields[k].(offset := r.fields[k].offset)
                   && r.fields[k].offset == record.fields[k].offset + (newEnd - end)
              else r.fields[k] == record.fields[k]
  {
    hide MovesBy;
    var order := Following(record.fields, end, changed, |record.fields|);
    var s := Flow(record.fields, end, newEnd);
    FollowingSorted(record.fields, end, changed, |record.fields|);
    ReflowMovesAlike(s, order, newEnd - end);
    ReflowOnlyMoves(s, order);
    forall k | 0 <= k < |record.fields| && Follows(record.fields, end, changed, k)
      ensures Reflow(s, order).value.fields[k].offset == record.fields[k].offset + (newEnd - end)
    {
      var a :| 0 <= a < |order| && order[a] == k;
    }
  }

  // ---------------------------------------------------------------- disjointness in any order

  ghost predicate PairwiseApart(fields: seq<Field>, order: seq<nat>)
    requires Indices(order, |fields|)
  {
    forall a, b :: 0 <= a < b < |order| ==> Apart(fields[order[a]], fields[order[b]])
  }

  /** The cursors sit at the old and the new end of the same field, unless nothing has passed the start. */
  ghost predicate Tip(s: Flow, order: seq<nat>, t: Flow)
    requires |t.fields| == |s.fields| && Indices(order, |s.fields|)
  {
    t.oldCursor == s.oldCursor
    || exists a :: 0 <= a < |order| && t.oldCursor == End(s.fields[order[a]]) && t.newCursor == End(t.fields[order[a]])
  }

  /** What the reflow of disjoint fields in offset order establishes. */
  ghost predicate ReflowedApart(s: Flow, order: seq<nat>, t: Flow)
    requires |t.fields| == |s.fields| && Indices(order, |s.fields|)
  {
    && PairwiseApart(t.fields, order)
    && s.oldCursor <= t.oldCursor && s.newCursor <= t.newCursor
    && (forall a :: 0 <= a < |order| ==>
          s.newCursor <= t.fields[order[a]].offset && End(t.fields[order[a]]) <= t.newCursor)
    && Tip(s, order, t)
  }

  /** Disjoint fields in offset order stay disjoint, even when empty fields share an offset with others. */
  lemma {:induction false} ReflowApart(s: Flow, order: seq<nat>)
    requires Distinct(order) && Indices(order, |s.fields|)
    requires forall a :: 0 <= a < |order| ==> s.oldCursor <= s.fields[order[a]].offset
    requires SortedByOffset(s.fields, order) && PairwiseApart(s.fields, order)
    requires Reflow(s, order).Some?
    ensures ReflowedApart(s, order, Reflow(s, order).value)
  {
    if order != [] {
      var front, i := order[..|order| - 1], order[|order| - 1];
      ReflowApart(s, front);
      ReflowOnlyMoves(s, front);
      assert order == front + [i];
      ReflowedApartStep(s, front, i, Reflow(s, front).value);
    }
  }

  /** An empty field where the field at the tip begins is apart from the others. */
  lemma {:induction false} ApartAtTip(front: seq<nat>, t: Flow, a: nat, b: nat, f: Field)
    requires Indices(front, |t.fields|) && a < |front| && b < |front| && PairwiseApart(t.fields, front)
    requires f.size == 0 && f.offset == t.fields[front[b]].offset
    ensures Apart(t.fields[front[a]], f)
  {
    if a < b {
      assert Apart(t.fields[front[a]], t.fields[front[b]]);
    } else if b < a {
      assert Apart(t.fields[front[b]], t.fields[front[a]]);
    }
  }

  lemma {:induction false} ReflowedApartStep(s: Flow, front: seq<nat>, i: nat, t: Flow)
    requires Indices(front, |s.fields|) && Indices(front + [i], |s.fields|) && i < |s.fields| && i !in front
    requires s.oldCursor <= s.fields[i].offset
    requires SortedByOffset(s.fields, front + [i]) && PairwiseApart(s.fields, front + [i])
    requires OnlyMoves(s.fields, t.fields, front) && ReflowedApart(s, front, t)
    requires ReflowField(t, i).Some?
    ensures ReflowedApart(s, front + [i], ReflowField(t, i).value)
  {
    hide ReflowField, Aligned;
    var order, u := front + [i], ReflowField(t, i).value;
    assert order[|front|] == i;
    if s.fields[i].offset >= t.oldCursor {
      PlacedAfter(t, i);
      Untouched(front, i, t, u);
      assert u.oldCursor == End(s.fields[order[|front|]]) && u.newCursor == End(u.fields[order[|front|]]);
    } else {
      hide Shift, AlignedSize;
      var b :| 0 <= b < |front| && t.oldCursor == End(s.fields[front[b]]) && t.newCursor == End(t.fields[front[b]]);
      EmptyAtTip(s, front, i, b);
      PlacedAtTip(t, i);
      Untouched(front, i, t, u);
      assert order[b] == front[b];
      assert u.oldCursor == End(s.fields[order[b]]) && u.newCursor == End(u.fields[order[b]]);
      forall a | 0 <= a < |front| ensures Apart(t.fields[front[a]], u.fields[i]) {
        ApartAtTip(front, t, a, b, u.fields[i]);
      }
    }
  }

  lemma {:induction false} Untouched(front: seq<nat>, i: nat, t: Flow, u: Flow)
    requires i < |t.fields| && i !in front && Indices(front, |t.fields|) && |u.fields| == |t.fields|
    requires u.fields == t.fields[i := u.fields[i]]
    ensures forall a :: 0 <= a < |front| ==> (front + [i])[a] == front[a] && u.fields[front[a]] == t.fields[front[a]]
  {}

  /** One turn on an empty field that starts before the old cursor. */
  lemma {:induction false} PlacedAtTip(t: Flow, i: nat)
    requires i < |t.fields| && t.fields[i].offset < t.oldCursor && t.fields[i].size == 0
    requires ReflowField(t, i).Some?
    ensures var u := ReflowField(t, i).value;
            var f := u.fields[i];
            && u.fields == t.fields[i := t.fields[i].(offset := f.offset)]
            && f.offset == t.fields[i].offset + t.newCursor - t.oldCursor
            && u.oldCursor == t.oldCursor && u.newCursor == t.newCursor
  {}

  /** A field that starts before the old cursor is empty and starts where the cursor's field starts. */
  lemma {:induction false} EmptyAtTip(s: Flow, front: seq<nat>, i: nat, b: nat)
    requires b < |front| && i < |s.fields| && Indices(front, |s.fields|) && Indices(front + [i], |s.fields|)
    requires SortedByOffset(s.fields, front + [i]) && PairwiseApart(s.fields, front + [i])
    requires s.fields[i].offset < End(s.fields[front[b]])
    ensures s.fields[i].size == 0 && s.fields[i].offset == s.fields[front[b]].offset
  {
    var order := front + [i];
    assert order[b] == front[b] && order[|front|] == i;
    assert Apart(s.fields[order[b]], s.fields[order[|front|]]);
  }

  /** Every two fields of the record are disjoint. */
  ghost predicate Disjoint(fields: seq<Field>)
  {
    forall a, b :: 0 <= a < b < |fields| ==> Apart(fields[a], fields[b])
  }

  ghost predicate AllPresent(fields: seq<Field>)
  {
    forall k :: 0 <= k < |fields| ==> !fields[k].absent
  }

  ghost predicate NoWrap(fields: seq<Field>)
  {
    forall k :: 0 <= k < |fields| ==> End(fields[k]) < TWO_64
  }

  /** Every two fields but the changed one are disjoint. */
  ghost predicate DisjointBut(fields: seq<Field>, changed: int)
  {
    forall a, b :: 0 <= a < b < |fields| && a != changed && b != changed ==> Apart(fields[a], fields[b])
  }

  lemma {:induction false} FollowingApart(fields: seq<Field>, start: u64, changed: int)
    requires DisjointBut(fields, changed)
    ensures PairwiseApart(fields, Following(fields, start, changed, |fields|))
  {
    FollowingSorted(fields, start, changed, |fields|);
    var order := Following(fields, start, changed, |fields|);
    forall a, b | 0 <= a < b < |order| ensures Apart(fields[order[a]], fields[order[b]]) {
      var x, y := order[a], order[b];
      assert Follows(fields, start, changed, x) && Follows(fields, start, changed, y) && x != y;
      if x < y {
        assert Apart(fields[x], fields[y]);
      } else {
        assert Apart(fields[y], fields[x]);
      }
    }
  }

  lemma {:induction false} ApartByIndex(fields: seq<Field>, order: seq<nat>, x: nat, y: nat)
    requires Indices(order, |fields|) && PairwiseApart(fields, order)
    requires x in order && y in order && x != y
    ensures Apart(fields[x], fields[y])
  {
    var a :| 0 <= a < |order| && order[a] == x;
    var b :| 0 <= b < |order| && order[b] == y;
    if a < b {
      assert Apart(fields[order[a]], fields[order[b]]);
    } else {
      assert Apart(fields[order[b]], fields[order[a]]);
    }
  }

  /** The other fields move to or past the new end if they were at or past the old one, and stay otherwise. */
  ghost predicate MovedAround(fields: seq<Field>, moved: seq<Field>, changed: int, end: u64, newEnd: u64)
    requires |moved| == |fields|
  {
    forall k :: 0 <= k < |fields| ==>
      && moved[k] == fields[k].(offset := moved[k].offset)
      && if k != changed && fields[k].offset >= end then newEnd <= moved[k].offset && End(moved[k]) < TWO_64
         else moved[k] == fields[k]
  }

  /** A reflow around one changed field keeps the other fields disjoint. */
  lemma {:induction false} ReflowAround(record: Layout, changed: nat, end: u64, newEnd: u64)
    requires AllPresent(record.fields) && DisjointBut(record.fields, changed)
    requires ShiftFollowing(record, end, end, newEnd, changed, true).Some?
    ensures var r := ShiftFollowing(record, end, end, newEnd, changed, true).value;
            && r == record.(fields := r.fields, size := r.size)
            && MovedAround(record.fields, r.fields, changed, end, newEnd)
            && forall a, b :: 0 <= a < b < |record.fields| && a != changed && b != changed
                              && record.fields[a].offset >= end && record.fields[b].offset >= end
                              ==> Apart(r.fields[a], r.fields[b])
  {
    hide ShiftFollowing, Aligned;
    var fields := record.fields;
    FollowingSorted(fields, end, changed, |fields|);
    var order := Following(fields, end, changed, |fields|);
    var s := Flow(fields, end, newEnd);
    ReflowResult(record, end, newEnd, changed);
    FollowingApart(fields, end, changed);
    ReflowApart(s, order);
    ReflowOnlyMoves(s, order);
    var t := Reflow(s, order).value.fields;
    forall k | 0 <= k < |fields| && k != changed && fields[k].offset >= end
      ensures newEnd <= t[k].offset && End(t[k]) < TWO_64
    {
      assert k in order;
    }
    forall a, b | 0 <= a < b < |fields| && a != changed && b != changed
                  && fields[a].offset >= end && fields[b].offset >= end
      ensures Apart(t[a], t[b])
    {
      assert a in order && b in order;
      ApartByIndex(t, order, a, b);
    }
  }
}
