/**
 The meaning of record resolution in client/src/guest_layout.cpp as a plain recursive function
 without a memo table, and what every accepted record satisfies.
 */
module GuestLayoutResolution {
  import opened Machine
  import opened Options
  import opened GuestLayout
  import opened GuestLayoutEdits

  /** Registered records by name, each stored under its own name. */
  type Baseline = map<string, Layout>

  /** The alignment a nested field takes: a packed field keeps its lower alignment. */
  function ChildAlignment(f: Field, child: Layout, base: Layout): u64
  {
    if f.alignment < base.alignment then Min(child.alignment, f.alignment) else child.alignment
  }

  /** Give field `i` a new alignment and move it up to a multiple of it. */
  function Realign(record: Layout, i: nat, alignment: u64): (r: Option<Layout>)
    requires i < |record.fields|
    ensures r.Some? ==> |r.value.fields| == |record.fields|
    ensures r.Some? ==> r.value.isUnion == record.isUnion && r.value.fields == record.fields[i := r.value.fields[i]]
    ensures r.Some? ==> var f := record.fields[i];
                        var g := r.value.fields[i];
                        g == f.(alignment := alignment, offset := g.offset) && f.offset <= g.offset
  {
    var f := record.fields[i];
    if alignment == f.alignment then Some(record)
    else
      match AlignedSize(f.offset, alignment)
      case None => None
      case Some(offset) =>
        Some(record.(alignment := Max(record.alignment, alignment),
                     fields := record.fields[i := f.(alignment := alignment, offset := offset)]))
  }

  /** Give field `i`, which used to end at `oldEnd`, its new size; outside unions the fields after it re-flow. */
  function Resize(record: Layout, i: nat, size: u64, oldEnd: u64): (r: Option<Layout>)
    requires i < |record.fields|
    ensures r.Some? ==> |r.value.fields| == |record.fields|
  {
    var f := record.fields[i];
    if size > MAX_64 - f.offset then None
    else
      var flowed := if (size != f.size || f.offset + size != oldEnd) && !record.isUnion
                    then ShiftFollowing(record, oldEnd, oldEnd, f.offset + size, i, true)
                    else Some(record);
      match flowed
      case None => None
      case Some(s) => Some(s.(fields := s.fields[i := s.fields[i].(size := size)]))
  }

  /** Nested field `i` takes the size and alignment of its resolved child. */
  function ResolveField(record: Layout, i: nat, child: Layout, base: Layout): (r: Option<Layout>)
    requires i < |record.fields|
    ensures r.Some? ==> |r.value.fields| == |record.fields|
  {
    var f := record.fields[i];
    if f.count != 0 && child.size > MAX_64 / f.count then None
    else
      CountedSize(child.size, f.count);
      match Realign(record, i, ChildAlignment(f, child, base))
      case None => None
      case Some(aligned) => Resize(aligned, i, child.size * f.count, (f.offset + f.size) % TWO_64)
  }

  lemma {:induction false} CountedSize(size: u64, count: u64)
    requires count != 0 ==> size <= MAX_64 / count
    ensures 0 <= size * count < TWO_64
  {
    if count != 0 {
      var q := MAX_64 / count;
      assert q * count <= MAX_64;
      assert (q - size) * count >= 0;
      assert size * count == q * count - (q - size) * count;
    }
  }

  /** The edits that name this record, applied in profile order. */
  function ApplyEdits(record: Layout, name: string, edits: seq<Edit>): (r: Option<Layout>)
    requires forall e <- edits :: Loaded(e)
    ensures r.Some? ==> |r.value.fields| == |record.fields|
  {
    if edits == [] then Some(record)
    else
      match ApplyEdits(record, name, edits[..|edits| - 1])
      case None => None
      case Some(edited) =>
        var e := edits[|edits| - 1];
        if e.record != name then Some(edited) else ApplyEdit(edited, e)
  }

  /** The size set by the last record edit that names this record and carries a size. */
  function ExplicitSize(name: string, edits: seq<Edit>): Option<u64>
  {
    if edits == [] then None
    else
      var e := edits[|edits| - 1];
      if e.record == name && e.kind == RecordEdit && e.size.Some? then e.size
      else ExplicitSize(name, edits[..|edits| - 1])
  }

  /** The largest end of the first `n` fields that are present; `None` if one of them wraps. */
  function LastEnd(fields: seq<Field>, n: nat): (r: Option<u64>)
    requires n <= |fields|
    ensures r.Some? <==> forall k :: 0 <= k < n && !fields[k].absent ==> End(fields[k]) < TWO_64
    ensures r.Some? ==> forall k :: 0 <= k < n && !fields[k].absent ==> End(fields[k]) <= r.value
  {
    if n == 0 then Some(0)
    else
      match LastEnd(fields, n - 1)
      case None => None
      case Some(end) =>
        var f := fields[n - 1];
        if f.absent then Some(end)
        else if f.size > MAX_64 - f.offset then None
        else Some(Max(end, f.offset + f.size))
  }

  /** The final size of a record whose fields are settled. */
  function Close(record: Layout, explicitSize: Option<u64>): Option<Layout>
  {
    match LastEnd(record.fields, |record.fields|)
    case None => None
    case Some(end) =>
      match explicitSize
      case Some(size) => if size < end then None else Some(record.(size := size))
      case None =>
        match AlignedSize(if record.isUnion then end else Max(record.size, end), record.alignment)
        case None => None
        case Some(size) => Some(record.(size := size))
  }

  function Finish(record: Layout, name: string, edits: seq<Edit>): Option<Layout>
    requires forall e <- edits :: Loaded(e)
  {
    match ApplyEdits(record, name, edits)
    case None => None
    case Some(edited) => Close(edited, ExplicitSize(name, edits))
  }

  /** Resolution of `name` with no memo: `stack` holds the records being resolved above it. */
  function Plain(baseline: Baseline, edits: seq<Edit>, name: string, stack: set<string>): (r: Option<Layout>)
    requires forall e <- edits :: Loaded(e)
    ensures r.Some? ==> name in baseline && name !in stack
    decreases baseline.Keys - stack, 0, 0
  {
    if name !in baseline || name in stack then None
    else
      assert baseline.Keys - (stack + {name}) < baseline.Keys - stack by {
        assert name in baseline.Keys - stack && name !in baseline.Keys - (stack + {name});
      }
      match PlainFields(baseline, edits, baseline[name], 0, stack + {name})
      case None => None
      case Some(record) => Finish(record, name, edits)
  }

  /** The nested fields from `k` on, resolved in declaration order. */
  function PlainFields(baseline: Baseline, edits: seq<Edit>, record: Layout, k: nat, stack: set<string>): (r: Option<Layout>)
    requires k <= |record.fields| && forall e <- edits :: Loaded(e)
    ensures r.Some? ==> |r.value.fields| == |record.fields|
    decreases baseline.Keys - stack, 1, |record.fields| - k
  {
    if k == |record.fields| then Some(record)
    else if record.fields[k].record == "" then PlainFields(baseline, edits, record, k + 1, stack)
    else
      match Plain(baseline, edits, record.fields[k].record, stack)
      case None => None
      case Some(child) =>
        match ResolveField(record, k, child, baseline[record.fields[k].record])
        case None => None
        case Some(next) => PlainFields(baseline, edits, next, k + 1, stack)
  }

  // ---------------------------------------------------------------- accepted records

  /**
   An accepted record contains all its present fields, and its size is the explicit one if an edit
   set it and otherwise a multiple of its power-of-two alignment.
   */
  lemma {:induction false} AcceptedContainsItsFields(baseline: Baseline, edits: seq<Edit>, name: string, stack: set<string>)
    requires forall e <- edits :: Loaded(e)
    requires Plain(baseline, edits, name, stack).Some?
    ensures var r := Plain(baseline, edits, name, stack).value;
            && (forall f <- r.fields :: !f.absent ==> End(f) <= r.size)
            && (match ExplicitSize(name, edits)
                case Some(size) => r.size == size
                case None => IsPow2(r.alignment) && r.size % r.alignment == 0)
  {
    var children := PlainFields(baseline, edits, baseline[name], 0, stack + {name}).value;
    var edited := ApplyEdits(children, name, edits).value;
    var r := Close(edited, ExplicitSize(name, edits)).value;
    if ExplicitSize(name, edits).None? {
      var end := LastEnd(edited.fields, |edited.fields|).value;
      RoundUpFacts(if edited.isUnion then end else Max(edited.size, end), edited.alignment);
    }
    forall f <- r.fields ensures !f.absent ==> End(f) <= r.size {
      var k :| 0 <= k < |edited.fields| && edited.fields[k] == f;
    }
  }

  /** A plain record: no union, all fields present, none wrapping, no two overlapping. */
  ghost predicate Regular(record: Layout)
  {
    !record.isUnion && AllPresent(record.fields) && NoWrap(record.fields) && Disjoint(record.fields)
  }

  /** The fields of two records have the same names, nested records and counts. */
  ghost predicate SameShape(was: seq<Field>, now: seq<Field>)
  {
    && |was| == |now|
    && forall k :: 0 <= k < |was| ==>
         now[k].name == was[k].name && now[k].record == was[k].record && now[k].count == was[k].count
  }

  lemma {:induction false} ResolveFieldKeepsRegular(record: Layout, i: nat, child: Layout, base: Layout)
    requires i < |record.fields| && Regular(record) && ResolveField(record, i, child, base).Some?
    ensures var r := ResolveField(record, i, child, base).value;
            && Regular(r) && SameShape(record.fields, r.fields)
            && r.fields[i].size == child.size * record.fields[i].count
            && forall k :: 0 <= k < |record.fields| && k != i ==> r.fields[k].size == record.fields[k].size
  {
    hide Regular, Realign, Resize, SameShape;
    CountedSize(child.size, record.fields[i].count);
    EndFits(record, i);
    ResizeKeepsRegular(record, Realign(record, i, ChildAlignment(record.fields[i], child, base)).value,
                       i, child.size * record.fields[i].count);
  }

  lemma {:induction false} EndFits(record: Layout, i: nat)
    requires i < |record.fields| && Regular(record)
    ensures !record.isUnion && (record.fields[i].offset + record.fields[i].size) % TWO_64 == End(record.fields[i]) < TWO_64
  {
    assert End(record.fields[i]) < TWO_64;
  }

  lemma {:induction false} ResizeKeepsRegular(record: Layout, aligned: Layout, i: nat, size: u64)
    requires i < |record.fields| == |aligned.fields| && Regular(record) && !aligned.isUnion
    requires aligned.fields == record.fields[i := aligned.fields[i]]
    requires var f, g := record.fields[i], aligned.fields[i];
             g == f.(alignment := g.alignment, offset := g.offset) && f.offset <= g.offset && End(f) < TWO_64
    requires Resize(aligned, i, size, End(record.fields[i])).Some?
    ensures var r := Resize(aligned, i, size, End(record.fields[i])).value;
            && Regular(r) && SameShape(record.fields, r.fields) && r.fields[i].size == size
            && forall k :: 0 <= k < |record.fields| && k != i ==> r.fields[k].size == record.fields[k].size
  {
    hide ShiftFollowing, SameShape;
    var f, g, end := record.fields[i], aligned.fields[i], End(record.fields[i]);
    forall a, b | 0 <= a < b < |record.fields| && a != i && b != i ensures Apart(aligned.fields[a], aligned.fields[b]) {
      assert Apart(record.fields[a], record.fields[b]);
    }
    if size != g.size || g.offset + size != end {
      ReflowAround(aligned, i, end, g.offset + size);
      var flowed := ShiftFollowing(aligned, end, end, g.offset + size, i, true).value;
      Resettled(record.fields, aligned.fields, flowed.fields, i, g.offset, size);
    } else {
      Resettled(record.fields, aligned.fields, aligned.fields, i, g.offset, size);
    }
  }

  /** Putting the changed field back, resized, among fields that moved around it keeps the record regular. */
  lemma {:induction false} Resettled(was: seq<Field>, aligned: seq<Field>, flowed: seq<Field>, i: nat, placed: u64, size: u64)
    requires i < |was| == |aligned| == |flowed|
    requires AllPresent(was) && NoWrap(was) && Disjoint(was)
    requires was[i].offset <= placed && placed + size < TWO_64
    requires aligned == was[i := aligned[i]] && aligned[i] == was[i].(alignment := aligned[i].alignment, offset := placed)
    requires MovedAround(aligned, flowed, i, End(was[i]), placed + size)
             || (flowed == aligned && placed == was[i].offset && size == was[i].size)
    requires forall a, b :: 0 <= a < b < |was| && a != i && b != i
                            && was[a].offset >= End(was[i]) && was[b].offset >= End(was[i])
                            ==> Apart(flowed[a], flowed[b])
    ensures var now := flowed[i := flowed[i].(size := size)];
            AllPresent(now) && NoWrap(now) && Disjoint(now) && SameShape(was, now)
            && now[i].size == size && forall k :: 0 <= k < |was| && k != i ==> now[k].size == was[k].size
  {
    var now := flowed[i := flowed[i].(size := size)];
    forall a, b | 0 <= a < b < |now| ensures Apart(now[a], now[b]) {
      assert Apart(was[a], was[b]);
      if a == i {
        assert b != i;
      } else if b != i {
        BesideChanged(was, i, a);
        BesideChanged(was, i, b);
      } else {
        BesideChanged(was, i, a);
      }
    }
  }

  /** A field that starts before the end of a disjoint field ends before that field starts. */
  lemma {:induction false} BesideChanged(was: seq<Field>, i: nat, k: nat)
    requires i < |was| && k < |was| && i != k && Disjoint(was)
    ensures was[k].offset < End(was[i]) ==> End(was[k]) <= was[i].offset
  {
    if k < i {
      assert Apart(was[k], was[i]);
    } else {
      assert Apart(was[i], was[k]);
    }
  }

  /** Every nested field below `n` holds exactly its count of resolved children. */
  ghost predicate SizedBelow(baseline: Baseline, edits: seq<Edit>, record: Layout, stack: set<string>, n: nat)
    requires n <= |record.fields| && forall e <- edits :: Loaded(e)
  {
    forall k :: 0 <= k < n && record.fields[k].record != "" ==>
      var child := Plain(baseline, edits, record.fields[k].record, stack);
      child.Some? && record.fields[k].size == child.value.size * record.fields[k].count
  }

  lemma {:induction false} FieldsKeepRegular(baseline: Baseline, edits: seq<Edit>, record: Layout, k: nat, stack: set<string>)
    requires k <= |record.fields| && forall e <- edits :: Loaded(e)
    requires Regular(record) && SizedBelow(baseline, edits, record, stack, k)
    requires PlainFields(baseline, edits, record, k, stack).Some?
    ensures var r := PlainFields(baseline, edits, record, k, stack).value;
            Regular(r) && SameShape(record.fields, r.fields) && SizedBelow(baseline, edits, r, stack, |r.fields|)
    decreases |record.fields| - k
  {
    hide Regular, ResolveField;
    if k < |record.fields| {
      if record.fields[k].record == "" {
        FieldsKeepRegular(baseline, edits, record, k + 1, stack);
      } else {
        var child := Plain(baseline, edits, record.fields[k].record, stack).value;
        var base := baseline[record.fields[k].record];
        ResolveFieldKeepsRegular(record, k, child, base);
        FieldsKeepRegular(baseline, edits, ResolveField(record, k, child, base).value, k + 1, stack);
      }
    }
  }

  // ---------------------------------------------------------------- memoisation

  /** The records that a name's registered fields nest. */
  ghost function References(baseline: Baseline, name: string): set<string>
    requires name in baseline
  {
    set f <- baseline[name].fields | f.record != "" :: f.record
  }

  /** A set of registered names that nest only one another. */
  ghost predicate Closed(baseline: Baseline, names: set<string>)
  {
    forall n <- names :: n in baseline && References(baseline, n) <= names
  }

  /** Resolving one field leaves every field's nested record as it was. */
  lemma {:induction false} ResolveFieldKeepsRecords(record: Layout, i: nat, child: Layout, base: Layout)
    requires i < |record.fields| && ResolveField(record, i, child, base).Some?
    ensures var r := ResolveField(record, i, child, base).value;
            forall k :: 0 <= k < |record.fields| ==> r.fields[k].record == record.fields[k].record
  {
    hide ShiftFollowing;
    var f := record.fields[i];
    CountedSize(child.size, f.count);
    var aligned := Realign(record, i, ChildAlignment(f, child, base)).value;
    var size, oldEnd := child.size * f.count, (f.offset + f.size) % TWO_64;
    var g := aligned.fields[i];
    if (size != g.size || g.offset + size != oldEnd) && !aligned.isUnion {
      ReflowKeepsRecords(aligned, oldEnd, g.offset + size, i);
    }
  }

  lemma {:induction false} ReflowKeepsRecords(record: Layout, end: u64, newEnd: u64, changed: int)
    requires ShiftFollowing(record, end, end, newEnd, changed, true).Some?
    ensures var r := ShiftFollowing(record, end, end, newEnd, changed, true).value;
            forall k :: 0 <= k < |record.fields| ==> r.fields[k] == record.fields[k].(offset := r.fields[k].offset)
  {
    ReflowResult(record, end, newEnd, changed);
    ReflowOnlyMoves(Flow(record.fields, end, newEnd), Following(record.fields, end, changed, |record.fields|));
  }

  /** With fewer records above it, a record that resolved still resolves to the same layout. */
  lemma {:induction false} SmallerStack(baseline: Baseline, edits: seq<Edit>, name: string, big: set<string>, small: set<string>)
    requires forall e <- edits :: Loaded(e)
    requires small <= big && Plain(baseline, edits, name, big).Some?
    ensures Plain(baseline, edits, name, small) == Plain(baseline, edits, name, big)
    decreases baseline.Keys - big, 0, 0
  {
    Descends(baseline, name, big);
    SmallerStackFields(baseline, edits, baseline[name], 0, big + {name}, small + {name});
  }

  lemma {:induction false} SmallerStackFields(baseline: Baseline, edits: seq<Edit>, record: Layout, k: nat,
                                              big: set<string>, small: set<string>)
    requires k <= |record.fields| && forall e <- edits :: Loaded(e)
    requires small <= big && PlainFields(baseline, edits, record, k, big).Some?
    ensures PlainFields(baseline, edits, record, k, small) == PlainFields(baseline, edits, record, k, big)
    decreases baseline.Keys - big, 1, |record.fields| - k
  {
    hide ResolveField;
    if k < |record.fields| {
      if record.fields[k].record == "" {
        SmallerStackFields(baseline, edits, record, k + 1, big, small);
      } else {
        var child := record.fields[k].record;
        SmallerStack(baseline, edits, child, big, small);
        var next := ResolveField(record, k, Plain(baseline, edits, child, big).value, baseline[child]).value;
        SmallerStackFields(baseline, edits, next, k + 1, big, small);
      }
    }
  }

  lemma {:induction false} Descends(baseline: Baseline, name: string, stack: set<string>)
    requires name in baseline && name !in stack
    ensures baseline.Keys - (stack + {name}) < baseline.Keys - stack
  {
    assert name in baseline.Keys - stack && name !in baseline.Keys - (stack + {name});
  }

  /** Records above it that it never reaches do not affect a record that resolves. */
  lemma {:induction false} UnreachedStack(baseline: Baseline, edits: seq<Edit>, name: string, stack: set<string>,
                                          names: set<string>, above: set<string>)
    requires forall e <- edits :: Loaded(e)
    requires Closed(baseline, names) && name in names && above !! names
    requires Plain(baseline, edits, name, stack).Some?
    ensures Plain(baseline, edits, name, stack + above) == Plain(baseline, edits, name, stack)
    decreases baseline.Keys - stack, 0, 0
  {
    Descends(baseline, name, stack);
    assert stack + above + {name} == stack + {name} + above;
    UnreachedStackFields(baseline, edits, baseline[name], 0, stack + {name}, names, above);
  }

  lemma {:induction false} UnreachedStackFields(baseline: Baseline, edits: seq<Edit>, record: Layout, k: nat, stack: set<string>,
                                                names: set<string>, above: set<string>)
    requires k <= |record.fields| && forall e <- edits :: Loaded(e)
    requires Closed(baseline, names) && above !! names
    requires forall j :: k <= j < |record.fields| && record.fields[j].record != "" ==> record.fields[j].record in names
    requires PlainFields(baseline, edits, record, k, stack).Some?
    ensures PlainFields(baseline, edits, record, k, stack + above) == PlainFields(baseline, edits, record, k, stack)
    decreases baseline.Keys - stack, 1, |record.fields| - k
  {
    hide ResolveField;
    if k < |record.fields| {
      if record.fields[k].record == "" {
        UnreachedStackFields(baseline, edits, record, k + 1, stack, names, above);
      } else {
        var child := record.fields[k].record;
        UnreachedStack(baseline, edits, child, stack, names, above);
        var layout := Plain(baseline, edits, child, stack).value;
        ResolveFieldKeepsRecords(record, k, layout, baseline[child]);
        UnreachedStackFields(baseline, edits, ResolveField(record, k, layout, baseline[child]).value, k + 1, stack, names, above);
      }
    }
  }

  // ---------------------------------------------------------------- the reference graph

  /** Consecutive names on the path: each is registered and nests the next. */
  ghost predicate IsPath(baseline: Baseline, path: seq<string>)
  {
    forall j :: 0 <= j < |path| - 1 ==> path[j] in baseline && path[j + 1] in References(baseline, path[j])
  }

  /** A record that resolves reaches only registered names that are not being resolved above it. */
  lemma {:induction false} ReachesOnlyFresh(baseline: Baseline, edits: seq<Edit>, path: seq<string>, stack: set<string>)
    requires forall e <- edits :: Loaded(e)
    requires path != [] && IsPath(baseline, path) && Plain(baseline, edits, path[0], stack).Some?
    ensures forall n <- path :: n in baseline && n !in stack
    ensures forall j :: 1 <= j < |path| ==> path[j] != path[0]
    decreases |path|
  {
    if |path| > 1 {
      var k :| 0 <= k < |baseline[path[0]].fields| && baseline[path[0]].fields[k].record == path[1] != "";
      FieldResolves(baseline, edits, baseline[path[0]], 0, stack + {path[0]}, k);
      forall j | 0 <= j < |path[1..]| - 1
        ensures path[1..][j] in baseline && path[1..][j + 1] in References(baseline, path[1..][j])
      {
        assert path[1..][j] == path[j + 1] && path[1..][j + 1] == path[j + 2];
      }
      ReachesOnlyFresh(baseline, edits, path[1..], stack + {path[0]});
      assert path == [path[0]] + path[1..];
      forall j | 1 <= j < |path| ensures path[j] != path[0] {
        assert path[j] == path[1..][j - 1];
      }
    }
  }

  lemma {:induction false} FieldResolves(baseline: Baseline, edits: seq<Edit>, record: Layout, k: nat, stack: set<string>, j: nat)
    requires k <= j < |record.fields| && forall e <- edits :: Loaded(e)
    requires record.fields[j].record != "" && PlainFields(baseline, edits, record, k, stack).Some?
    ensures Plain(baseline, edits, record.fields[j].record, stack).Some?
    decreases j - k
  {
    hide ResolveField;
    if k < j {
      if record.fields[k].record == "" {
        FieldResolves(baseline, edits, record, k + 1, stack, j);
      } else {
        var child := record.fields[k].record;
        var layout := Plain(baseline, edits, child, stack).value;
        ResolveFieldKeepsRecords(record, k, layout, baseline[child]);
        FieldResolves(baseline, edits, ResolveField(record, k, layout, baseline[child]).value, k + 1, stack, j);
      }
    }
  }

  /** If every registered record resolves, the reference graph is closed and has no cycle. */
  lemma {:induction false} ResolvedGraphIsAcyclic(baseline: Baseline, edits: seq<Edit>)
    requires forall e <- edits :: Loaded(e)
    requires forall n <- baseline :: Plain(baseline, edits, n, {}).Some?
    ensures Closed(baseline, baseline.Keys)
    ensures forall path :: |path| > 1 && IsPath(baseline, path) ==> path[0] != path[|path| - 1]
  {
    forall n <- baseline.Keys, m <- References(baseline, n) ensures m in baseline {
      assert IsPath(baseline, [n, m]);
      ReachesOnlyFresh(baseline, edits, [n, m], {});
      assert m == [n, m][1];
    }
    forall path | |path| > 1 && IsPath(baseline, path) ensures path[0] != path[|path| - 1] {
      assert path[0] in baseline && path[1] in References(baseline, path[0]) by { assert 0 <= 0 < |path| - 1; }
      ReachesOnlyFresh(baseline, edits, path, {});
    }
  }

  // ---------------------------------------------------------------- child resolution

  /**
   Child resolution of a regular record keeps its fields disjoint and inside 64 bits, and every nested
   field is exactly as large as its count of resolved children. If no edit names the record, these are
   the fields of the accepted record, and all of them lie inside it.
   */
  lemma {:induction false} ChildResolutionKeepsDisjoint(baseline: Baseline, edits: seq<Edit>, name: string)
    requires forall e <- edits :: Loaded(e)
    requires Plain(baseline, edits, name, {}).Some? && Regular(baseline[name])
    ensures var children := PlainFields(baseline, edits, baseline[name], 0, {name});
            && children.Some? && Regular(children.value) && SameShape(baseline[name].fields, children.value.fields)
            && SizedBelow(baseline, edits, children.value, {}, |children.value.fields|)
    ensures (forall e <- edits :: e.record != name) ==>
              var r := Plain(baseline, edits, name, {}).value;
              && r.fields == PlainFields(baseline, edits, baseline[name], 0, {name}).value.fields
              && Disjoint(r.fields) && forall f <- r.fields :: End(f) <= r.size
  {
    hide ResolveField;
    assert {} + {name} == {name};
    var children := PlainFields(baseline, edits, baseline[name], 0, {name}).value;
    FieldsKeepRegular(baseline, edits, baseline[name], 0, {name});
    forall k | 0 <= k < |children.fields| && children.fields[k].record != ""
      ensures var child := Plain(baseline, edits, children.fields[k].record, {});
              child.Some? && children.fields[k].size == child.value.size * children.fields[k].count
    {
      SmallerStack(baseline, edits, children.fields[k].record, {name}, {});
    }
    if forall e <- edits :: e.record != name {
      EditsElsewhere(children, name, edits);
      AcceptedContainsItsFields(baseline, edits, name, {});
      var r := Plain(baseline, edits, name, {}).value;
      forall f <- r.fields ensures !f.absent {
        var k :| 0 <= k < |r.fields| && r.fields[k] == f;
      }
    }
  }

  lemma {:induction false} EditsElsewhere(record: Layout, name: string, edits: seq<Edit>)
    requires forall e <- edits :: Loaded(e) && e.record != name
    ensures ApplyEdits(record, name, edits) == Some(record)
  {
    if edits != [] {
      assert edits[|edits| - 1] in edits;
      EditsElsewhere(record, name, edits[..|edits| - 1]);
    }
  }
}
