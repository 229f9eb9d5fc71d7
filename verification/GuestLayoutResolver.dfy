/**
 The layout code of client/src/guest_layout.cpp in its own form: a record changed in place field by
 field, and the memoising `Resolver` with its `resolved` and `resolving` tables, proved against the
 value functions and the plain recursive meaning.
 */
module GuestLayoutResolver {
  import opened Machine
  import opened Options
  import opened GuestLayout
  import opened GuestLayoutEdits
  import opened GuestLayoutResolution

  /** `Guest_Record_Layout`: the working copy that the passes change in place. */
  class RecordLayout {
    const name: string
    const isUnion: bool
    var size: u64
    var alignment: u64
    var fields: seq<Field>

    constructor (layout: Layout)
      ensures Value() == layout
    {
      name, isUnion := layout.name, layout.isUnion;
      size, alignment, fields := layout.size, layout.alignment, layout.fields;
    }

    function Value(): Layout
      reads this
    {
      Layout(name, size, alignment, isUnion, fields)
    }

    method ShiftFollowing(start: u64, before: u64, after: u64, changed: int, reflow: bool) returns (ok: bool)
      modifies this
      ensures var spec := GuestLayout.ShiftFollowing(old(Value()), start, before, after, changed, reflow);
              ok == spec.Some? && (ok ==> Value() == spec.value)
    {
      hide Reflow, MoveAll, Following, RoundUp, IsPow2;
      if isUnion { return false; }
      var following := Following(fields, start, changed, |fields|);
      if reflow {
        var cursor := Shift(start, before, after);
        if cursor.None? { return false; }
        var oldCursor, newCursor;
        ok, oldCursor, newCursor := ReflowFields(following, start, cursor.value);
        if !ok { return false; }
        var aligned := AlignedSize(oldCursor, alignment);
        if aligned.None? { return false; }
        var gap := if size > aligned.value then size - aligned.value else 0;
        if newCursor > MAX_64 - gap { return false; }
        size := newCursor + gap;
        return true;
      }
      ok := MoveFields(following, before, after);
      if !ok { return false; }
      var shifted := Shift(size, before, after);
      if shifted.None? { return false; }
      size := shifted.value;
      return true;
    }

    /** The reflow loop: both cursors walk the sorted following fields. */
    method ReflowFields(following: seq<nat>, start: u64, newStart: u64) returns (ok: bool, oldCursor: u64, newCursor: u64)
      requires Indices(following, |fields|)
      modifies this`fields
      ensures |fields| == |old(fields)|
      ensures var spec := Reflow(Flow(old(fields), start, newStart), following);
              ok == spec.Some? && (ok ==> Flow(fields, oldCursor, newCursor) == spec.value)
    {
      hide ReflowField;
      ghost var s := Flow(fields, start, newStart);
      oldCursor, newCursor := start, newStart;
      for n := 0 to |following|
        invariant |fields| == |s.fields|
        invariant Reflow(s, following[..n]) == Some(Flow(fields, oldCursor, newCursor))
      {
        assert following[..n + 1][..n] == following[..n];
        ok, oldCursor, newCursor := ReflowOne(following[n], oldCursor, newCursor);
        if !ok {
          ReflowFails(s, following, n);
          return;
        }
      }
      assert following[..|following|] == following;
      ok := true;
    }

    method ReflowOne(i: nat, oldCursor: u64, newCursor: u64) returns (ok: bool, nextOld: u64, nextNew: u64)
      requires i < |fields|
      modifies this`fields
      ensures |fields| == |old(fields)|
      ensures var spec := ReflowField(Flow(old(fields), oldCursor, newCursor), i);
              ok == spec.Some? && (ok ==> Flow(fields, nextOld, nextNew) == spec.value)
    {
      hide RoundUp, IsPow2;
      nextOld, nextNew := oldCursor, newCursor;
      var field := fields[i];
      var oldOffset := field.offset;
      var placed: Option<u64>;
      if oldOffset >= oldCursor {
        placed := AlignedSize(oldCursor, field.alignment);
        if placed.Some? {
          var gap := if oldOffset > placed.value then oldOffset - placed.value else 0;
          placed := if newCursor > MAX_64 - gap then None else AlignedSize(newCursor + gap, field.alignment);
        }
      } else {
        placed := Shift(oldOffset, oldCursor, newCursor);
      }
      if placed.None? || field.size > MAX_64 - oldOffset || field.size > MAX_64 - placed.value {
        return false, nextOld, nextNew;
      }
      fields := fields[i := field.(offset := placed.value)];
      nextOld := Max(oldCursor, oldOffset + field.size);
      nextNew := Max(newCursor, placed.value + field.size);
      ok := true;
    }

    /** The plain loop: every following field moves by the same distance. */
    method MoveFields(following: seq<nat>, before: u64, after: u64) returns (ok: bool)
      requires Indices(following, |fields|)
      modifies this`fields
      ensures var spec := MoveAll(old(fields), following, before, after);
              ok == spec.Some? && (ok ==> fields == spec.value)
    {
      ghost var was := fields;
      for n := 0 to |following|
        invariant |fields| == |was|
        invariant MoveAll(was, following[..n], before, after) == Some(fields)
      {
        assert following[..n + 1][..n] == following[..n];
        var i := following[n];
        var offset := Shift(fields[i].offset, before, after);
        if offset.None? { MoveAllFails(was, following, n, before, after); return false; }
        fields := fields[i := fields[i].(offset := offset.value)];
      }
      assert following[..|following|] == following;
      ok := true;
    }

    /** The removal branch of `Apply_Edit`: mark the fields inside the range absent, then close the gap. */
    method RemoveRange(offset: u64, width: u64) returns (ok: bool)
      requires width <= MAX_64 - offset
      modifies this
      ensures var spec := Removal(old(Value()), offset, width);
              ok == spec.Some? && (ok ==> Value() == spec.value)
    {
      hide GuestLayout.ShiftFollowing;
      ghost var was := fields;
      for n := 0 to |fields|
        invariant |fields| == |was| && size == old(size) && alignment == old(alignment)
        invariant MarkRemoved(was, offset, width, n) == Some(fields)
      {
        var field := fields[n];
        if !field.absent {
          if field.offset >= offset && field.offset < offset + width {
            if field.size > offset + width - field.offset { MarkFails(was, offset, width, n); return false; }
            fields := fields[n := field.(absent := true)];
          } else if field.offset < offset && field.size > offset - field.offset {
            MarkFails(was, offset, width, n);
            return false;
          }
        }
      }
      ok := ShiftFollowing(offset + width, width, 0, -1, false);
    }

    /** The named-field branch of `Apply_Edit`. */
    method ChangeField(edit: Edit) returns (ok: bool)
      modifies this
      ensures var spec := FieldChange(old(Value()), edit);
              ok == spec.Some? && (ok ==> Value() == spec.value)
    {
      hide GuestLayout.ShiftFollowing, RoundUp, IsPow2;
      var found := FindField(fields, edit.field, 0);
      if found.None? { return false; }
      var i := found.value;
      var field := fields[i];
      var offset := edit.offset.GetOr(field.offset);
      var width := if edit.absent then 0 else edit.size.GetOr(field.size);
      var align := edit.alignment.GetOr(field.alignment);
      if edit.alignment.Some? && edit.offset.None? {
        var aligned := AlignedSize(offset, align);
        if aligned.None? { return false; }
        offset := aligned.value;
      }
      if width != field.size && !edit.absent && !Resizable(field) { return false; }
      if width > MAX_64 - offset || field.size > MAX_64 - field.offset { return false; }
      if edit.shiftFollowing {
        ok := ShiftFollowing(field.offset + field.size, field.offset + field.size, offset + width, i, true);
        if !ok { return false; }
      }
      fields := fields[i := fields[i].(offset := offset, size := width, alignment := align, absent := edit.absent)];
      if edit.alignment.Some? { alignment := Max(alignment, align); }
      return true;
    }

    method ApplyEdit(edit: Edit) returns (ok: bool)
      requires Loaded(edit)
      modifies this
      ensures var spec := GuestLayoutEdits.ApplyEdit(old(Value()), edit);
              ok == spec.Some? && (ok ==> Value() == spec.value)
    {
      hide GuestLayout.ShiftFollowing, Removal, FieldChange;
      if edit.kind == RecordEdit {
        size := edit.size.GetOr(size);
        alignment := edit.alignment.GetOr(alignment);
        return true;
      }
      if edit.kind == InsertEdit || edit.kind == RemoveEdit {
        var offset, width := edit.offset.value, edit.size.value;
        if width > MAX_64 - offset {
          RangeWraps(old(Value()), offset, width);
          return false;
        }
        if edit.kind == RemoveEdit {
          ok := RemoveRange(offset, width);
        } else {
          ok := ShiftFollowing(offset, 0, width, -1, false);
        }
        return;
      }
      ok := ChangeField(edit);
    }

    /** One turn of the nested-field loop in `Resolver::Record`. */
    method ResolveNested(i: nat, child: Layout, base: Layout) returns (ok: bool)
      requires i < |fields|
      modifies this
      ensures var spec := ResolveField(old(Value()), i, child, base);
              ok == spec.Some? && (ok ==> Value() == spec.value)
    {
      hide Realign, Resize;
      var field := fields[i];
      if field.count != 0 && child.size > MAX_64 / field.count { return false; }
      CountedSize(child.size, field.count);
      var width := child.size * field.count;
      var oldEnd := (field.offset + field.size) % TWO_64;
      var childAlignment := child.alignment;
      if field.alignment < base.alignment { childAlignment := Min(childAlignment, field.alignment); }
      ok := RealignField(i, childAlignment);
      if !ok { return false; }
      ok := ResizeField(i, width, oldEnd);
    }

    method RealignField(i: nat, childAlignment: u64) returns (ok: bool)
      requires i < |fields|
      modifies this
      ensures var spec := Realign(old(Value()), i, childAlignment);
              ok == spec.Some? && (ok ==> Value() == spec.value)
    {
      var field := fields[i];
      if childAlignment != field.alignment {
        var aligned := AlignedSize(field.offset, childAlignment);
        if aligned.None? { return false; }
        fields := fields[i := field.(alignment := childAlignment, offset := aligned.value)];
        alignment := Max(alignment, childAlignment);
      }
      return true;
    }

    method ResizeField(i: nat, width: u64, oldEnd: u64) returns (ok: bool)
      requires i < |fields|
      modifies this
      ensures var spec := Resize(old(Value()), i, width, oldEnd);
              ok == spec.Some? && (ok ==> Value() == spec.value)
    {
      hide GuestLayout.ShiftFollowing;
      if width > MAX_64 - fields[i].offset { return false; }
      if (width != fields[i].size || fields[i].offset + width != oldEnd) && !isUnion {
        ok := ShiftFollowing(oldEnd, oldEnd, fields[i].offset + width, i, true);
        if !ok { return false; }
      }
      fields := fields[i := fields[i].(size := width)];
      return true;
    }
  }

  lemma {:induction false} ReflowFails(s: Flow, order: seq<nat>, n: nat)
    requires Indices(order, |s.fields|) && n < |order|
    requires order[..n + 1][..n] == order[..n]
    requires Reflow(s, order[..n + 1]).None?
    ensures Reflow(s, order).None?
    decreases |order|
  {
    if n + 1 == |order| {
      assert order[..n + 1] == order;
    } else {
      var front := order[..|order| - 1];
      assert front[..n + 1] == order[..n + 1] && front[..n] == order[..n];
      ReflowFails(s, front, n);
    }
  }

  lemma {:induction false} MoveAllFails(fields: seq<Field>, order: seq<nat>, n: nat, before: u64, after: u64)
    requires Indices(order, |fields|) && n < |order|
    requires MoveAll(fields, order[..n + 1], before, after).None?
    ensures MoveAll(fields, order, before, after).None?
    decreases |order|
  {
    if n + 1 == |order| {
      assert order[..n + 1] == order;
    } else {
      var front := order[..|order| - 1];
      assert front[..n + 1] == order[..n + 1];
      MoveAllFails(fields, front, n, before, after);
    }
  }

  lemma {:induction false} RangeWraps(record: Layout, offset: u64, size: u64)
    requires size > MAX_64 - offset
    ensures Insertion(record, offset, size).None? && Removal(record, offset, size).None?
  {}

  lemma {:induction false} MarkFails(fields: seq<Field>, offset: u64, size: u64, n: nat)
    requires n < |fields| && MarkRemoved(fields, offset, size, n + 1).None?
    ensures MarkRemoved(fields, offset, size, |fields|).None?
  {}

  /** `Resolver`: the memo table and the set of records being resolved. */
  class Resolver {
    const baseline: Baseline
    const edits: seq<Edit>
    var resolved: map<string, Layout>
    var resolving: set<string>

    constructor (baseline: Baseline, edits: seq<Edit>)
      requires forall e <- edits :: Loaded(e)
      ensures this.baseline == baseline && this.edits == edits
      ensures Valid() && resolved == map[] && resolving == {}
    {
      this.baseline, this.edits := baseline, edits;
      resolved, resolving := map[], {};
    }

    /** The memo holds meanings, is closed under nesting, and shares no name with the stack. */
    ghost predicate Valid()
      reads this
    {
      && (forall e <- edits :: Loaded(e))
      && Closed(baseline, resolved.Keys)
      && resolving !! resolved.Keys
      && forall n <- resolved :: Plain(baseline, edits, n, {}) == Some(resolved[n])
    }

    /** A memoised record has the meaning that a fresh resolution under the current stack would give it. */
    lemma {:induction false} Recalled(n: string)
      requires Valid() && n in resolved
      ensures Plain(baseline, edits, n, resolving) == Some(resolved[n])
    {
      UnreachedStack(baseline, edits, n, {}, resolved.Keys, resolving);
      assert {} + resolving == resolving;
    }

    /**
     Resolution with the memo succeeds exactly when plain resolution under the same stack does,
     adds only meanings, and leaves the stack as it found it.
     */
    method Record(name: string) returns (ok: bool)
      requires Valid()
      modifies this
      decreases baseline.Keys - resolving, 0
      ensures ok == Plain(baseline, edits, name, old(resolving)).Some?
      ensures ok ==> Valid() && name in resolved && resolving == old(resolving)
      ensures ok ==> Extends(old(resolved), resolved)
    {
      hide Plain, PlainFields, Finish;
      if name in resolved {
        Recalled(name);
        return true;
      }
      if name !in baseline || name in resolving {
        NotStarted(baseline, edits, name, resolving);
        return false;
      }
      Descends(baseline, name, resolving);
      PlainIsFields(baseline, edits, name, resolving);
      resolving := resolving + {name};
      var record := new RecordLayout(baseline[name]);
      ok := Children(record, name);
      if !ok { return false; }
      ok := FinishRecord(record, name);
      if !ok { return false; }
      resolving := resolving - {name};
      assert resolving == old(resolving);
      SmallerStack(baseline, edits, name, old(resolving), {});
      resolved := resolved[name := record.Value()];
    }

    /** The nested-field loop of `Resolver::Record`. */
    method Children(record: RecordLayout, name: string) returns (ok: bool)
      requires Valid() && name in baseline && name in resolving && record.Value() == baseline[name]
      modifies this, record
      decreases baseline.Keys - resolving, 1
      ensures var spec := PlainFields(baseline, edits, baseline[name], 0, old(resolving));
              ok == spec.Some? && (ok ==> record.Value() == spec.value)
      ensures ok ==> Valid() && resolving == old(resolving) && Extends(old(resolved), resolved)
      ensures ok ==> References(baseline, name) <= resolved.Keys
    {
      hide Plain, PlainFields, ResolveField, Valid, Closed;
      ghost var start, stack := baseline[name], resolving;
      EditsLoaded();
      for k := 0 to |record.fields|
        invariant Valid() && resolving == stack && |record.fields| == |start.fields|
        invariant Extends(old(resolved), resolved)
        invariant forall j :: 0 <= j < |record.fields| ==> record.fields[j].record == start.fields[j].record
        invariant forall j :: 0 <= j < k && start.fields[j].record != "" ==> start.fields[j].record in resolved
        invariant forall e <- edits :: Loaded(e)
        invariant PlainFields(baseline, edits, record.Value(), k, stack) == PlainFields(baseline, edits, start, 0, stack)
      {
        ghost var was := record.Value();
        FieldsUnfold(baseline, edits, was, k, stack);
        var nested := record.fields[k].record;
        if nested != "" {
          ghost var memo := resolved;
          ok := Record(nested);
          if !ok { return; }
          Recalled(nested);
          Registered(nested);
          ok := record.ResolveNested(k, resolved[nested], baseline[nested]);
          if !ok { return; }
          ResolveFieldKeepsRecords(was, k, resolved[nested], baseline[nested]);
        }
      }
      FieldsDone(baseline, edits, record.Value(), stack);
      ok := true;
    }

    lemma {:induction false} Registered(n: string)
      requires Valid() && n in resolved
      ensures n in baseline
    {}

    lemma {:induction false} EditsLoaded()
      requires Valid()
      ensures forall e <- edits :: Loaded(e)
    {}

    /** The edits of this record, then its final size. */
    method FinishRecord(record: RecordLayout, name: string) returns (ok: bool)
      requires forall e <- edits :: Loaded(e)
      modifies record
      ensures var spec := Finish(old(record.Value()), name, edits);
              ok == spec.Some? && (ok ==> record.Value() == spec.value)
    {
      hide GuestLayoutEdits.ApplyEdit, RoundUp, IsPow2;
      ghost var was := record.Value();
      var explicitSize: Option<u64> := None;
      for n := 0 to |edits|
        invariant ApplyEdits(was, name, edits[..n]) == Some(record.Value())
        invariant explicitSize == ExplicitSize(name, edits[..n])
      {
        assert edits[..n + 1][..n] == edits[..n];
        var edit := edits[n];
        if edit.record == name {
          ok := record.ApplyEdit(edit);
          if !ok { EditsFail(was, name, edits, n); return; }
          if edit.kind == RecordEdit && edit.size.Some? { explicitSize := edit.size; }
        }
      }
      assert edits[..|edits|] == edits;
      ok := CloseRecord(record, explicitSize);
    }

    method CloseRecord(record: RecordLayout, explicitSize: Option<u64>) returns (ok: bool)
      modifies record
      ensures var spec := Close(old(record.Value()), explicitSize);
              ok == spec.Some? && (ok ==> record.Value() == spec.value)
    {
      hide RoundUp, IsPow2;
      var end: u64 := 0;
      for n := 0 to |record.fields|
        invariant LastEnd(record.fields, n) == Some(end) && record.Value() == old(record.Value())
      {
        var field := record.fields[n];
        if !field.absent {
          if field.size > MAX_64 - field.offset { return false; }
          end := Max(end, field.offset + field.size);
        }
      }
      if explicitSize.Some? {
        if explicitSize.value < end { return false; }
        record.size := explicitSize.value;
      } else {
        var size := AlignedSize(if record.isUnion then end else Max(record.size, end), record.alignment);
        if size.None? { return false; }
        record.size := size.value;
      }
      ok := true;
    }
  }

  /** The memo only grows. */
  ghost predicate Extends(was: map<string, Layout>, now: map<string, Layout>)
  {
    forall n <- was :: n in now && now[n] == was[n]
  }

  lemma {:induction false} NotStarted(baseline: Baseline, edits: seq<Edit>, name: string, stack: set<string>)
    requires forall e <- edits :: Loaded(e)
    requires name !in baseline || name in stack
    ensures Plain(baseline, edits, name, stack).None?
  {}

  lemma {:induction false} PlainIsFields(baseline: Baseline, edits: seq<Edit>, name: string, stack: set<string>)
    requires forall e <- edits :: Loaded(e)
    requires name in baseline && name !in stack
    ensures var fields := PlainFields(baseline, edits, baseline[name], 0, stack + {name});
            Plain(baseline, edits, name, stack) == if fields.None? then None else Finish(fields.value, name, edits)
  {}

  lemma {:induction false} FieldsUnfold(baseline: Baseline, edits: seq<Edit>, record: Layout, k: nat, stack: set<string>)
    requires k < |record.fields| && forall e <- edits :: Loaded(e)
    ensures PlainFields(baseline, edits, record, k, stack) ==
            if record.fields[k].record == "" then PlainFields(baseline, edits, record, k + 1, stack)
            else
              var child := Plain(baseline, edits, record.fields[k].record, stack);
              if child.None? then None
              else
                var next := ResolveField(record, k, child.value, baseline[record.fields[k].record]);
                if next.None? then None else PlainFields(baseline, edits, next.value, k + 1, stack)
  {
    hide ResolveField;
  }

  lemma {:induction false} FieldsDone(baseline: Baseline, edits: seq<Edit>, record: Layout, stack: set<string>)
    requires forall e <- edits :: Loaded(e)
    ensures PlainFields(baseline, edits, record, |record.fields|, stack) == Some(record)
  {}

  lemma {:induction false} EditsFail(record: Layout, name: string, edits: seq<Edit>, n: nat)
    requires n < |edits| && forall e <- edits :: Loaded(e)
    requires ApplyEdits(record, name, edits[..n + 1]).None?
    ensures ApplyEdits(record, name, edits).None?
    decreases |edits|
  {
    if n + 1 == |edits| {
      assert edits[..n + 1] == edits;
    } else {
      var front := edits[..|edits| - 1];
      assert front[..n + 1] == edits[..n + 1];
      EditsFail(record, name, front, n);
    }
  }
}
