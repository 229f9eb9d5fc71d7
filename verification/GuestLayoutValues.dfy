/**
 The published layout values, `Guest_Layouts::Resolve` of client/src/guest_layout.cpp: every record is
 resolved through one resolver, then the sizes, alignments and offsets are entered under dotted keys.
 Both loops run over hash tables, so their orders are arbitrary parameters here.
 */
module GuestLayoutValues {
  import opened Machine
  import opened Options
  import opened GuestLayout
  import opened GuestLayoutResolution
  import opened GuestLayoutResolver

  type Values = map<string, u64>

  const PREFIX := "modloader.layout."

  datatype Entry = Entry(key: string, value: u64)

  function FieldEntries(prefix: string, fields: seq<Field>): seq<Entry>
  {
    if fields == [] then []
    else
      var f := fields[|fields| - 1];
      FieldEntries(prefix, fields[..|fields| - 1])
      + [Entry(prefix + "." + f.name + ".offset", if f.absent then MAX_64 else f.offset),
         Entry(prefix + "." + f.name + ".size", if f.absent then MAX_64 else f.size)]
  }

  /** The entries of one record in insertion order. */
  function Entries(name: string, record: Layout): seq<Entry>
  {
    [Entry(PREFIX + name + ".size", record.size), Entry(PREFIX + name + ".align", record.alignment)]
    + FieldEntries(PREFIX + name, record.fields)
  }

  /** `emplace`: a key that is already present keeps its value. */
  function EmplaceAll(values: Values, entries: seq<Entry>): Values
  {
    if entries == [] then values
    else
      var rest := EmplaceAll(values, entries[..|entries| - 1]);
      var e := entries[|entries| - 1];
      if e.key in rest then rest else rest[e.key := e.value]
  }

  /** The value map of resolved records listed in the given order. */
  function Publish(resolved: map<string, Layout>, listing: seq<string>): Values
    requires forall n <- listing :: n in resolved
  {
    if listing == [] then map[]
    else
      var n := listing[|listing| - 1];
      EmplaceAll(Publish(resolved, listing[..|listing| - 1]), Entries(n, resolved[n]))
  }

  /** The order lists every name of the set. */
  ghost predicate Lists(order: seq<string>, names: set<string>)
  {
    forall n :: n in order <==> n in names
  }

  /** What each registered record means. */
  ghost function Meanings(baseline: Baseline, edits: seq<Edit>): map<string, Layout>
    requires forall e <- edits :: Loaded(e)
    requires forall n <- baseline :: Plain(baseline, edits, n, {}).Some?
  {
    map n <- baseline :: Plain(baseline, edits, n, {}).value
  }

  /**
   Resolution of all records: whatever the visiting order, it succeeds exactly when every record
   resolves by itself, and publishes exactly those meanings.
   */
  method Resolve(baseline: Baseline, edits: seq<Edit>, visiting: seq<string>, listing: seq<string>) returns (r: Option<Values>)
    requires forall e <- edits :: Loaded(e)
    requires Lists(visiting, baseline.Keys) && Lists(listing, baseline.Keys)
    ensures r.Some? <==> forall n <- baseline :: Plain(baseline, edits, n, {}).Some?
    ensures r.Some? ==> r.value == Publish(Meanings(baseline, edits), listing)
  {
    hide Plain;
    var resolver := new Resolver(baseline, edits);
    for k := 0 to |visiting|
      invariant resolver.Valid() && resolver.resolving == {} && fresh(resolver)
      invariant forall j :: 0 <= j < k ==> visiting[j] in resolver.resolved
    {
      var ok := resolver.Record(visiting[k]);
      if !ok {
        assert visiting[k] in baseline;
        return None;
      }
    }
    ResolvedAll(resolver, visiting);
    var values: Values := map[];
    for k := 0 to |listing|
      invariant forall n <- listing[..k] :: n in resolver.resolved
      invariant forall n <- listing :: n in resolver.resolved
      invariant values == Publish(resolver.resolved, listing[..k])
    {
      assert listing[..k + 1][..k] == listing[..k];
      var n := listing[k];
      values := EmplaceAll(values, Entries(n, resolver.resolved[n]));
    }
    assert listing[..|listing|] == listing;
    r := Some(values);
  }

  lemma {:induction false} ResolvedAll(resolver: Resolver, visiting: seq<string>)
    requires resolver.Valid() && Lists(visiting, resolver.baseline.Keys)
    requires forall j :: 0 <= j < |visiting| ==> visiting[j] in resolver.resolved
    ensures forall n <- resolver.baseline :: Plain(resolver.baseline, resolver.edits, n, {}).Some?
    ensures resolver.resolved == Meanings(resolver.baseline, resolver.edits)
  {
    hide Plain;
    forall n <- resolver.baseline.Keys ensures n in resolver.resolved {
      assert n in visiting;
    }
  }

  // ---------------------------------------------------------------- independence of the listing order

  /** The value a single record enters under a key: its first entry with that key. */
  function FirstValue(entries: seq<Entry>, key: string): Option<u64>
  {
    if entries == [] then None
    else
      match FirstValue(entries[..|entries| - 1], key)
      case Some(v) => Some(v)
      case None => if entries[|entries| - 1].key == key then Some(entries[|entries| - 1].value) else None
  }

  lemma {:induction false} EmplaceAllLookup(values: Values, entries: seq<Entry>, key: string)
    ensures var r := EmplaceAll(values, entries);
            && (key in r <==> key in values || FirstValue(entries, key).Some?)
            && (key in r ==> r[key] == if key in values then values[key] else FirstValue(entries, key).value)
  {
    if entries != [] {
      EmplaceAllLookup(values, entries[..|entries| - 1], key);
    }
  }

  /** What record `n` of a resolution enters under a key. */
  function Offer(resolved: map<string, Layout>, n: string, key: string): Option<u64>
    requires n in resolved
  {
    FirstValue(Entries(n, resolved[n]), key)
  }

  /** No two records enter different values under one key. */
  ghost predicate KeysAgree(resolved: map<string, Layout>)
  {
    forall n, m, key | n in resolved && m in resolved ::
      Offer(resolved, n, key).Some? && Offer(resolved, m, key).Some? ==> Offer(resolved, n, key) == Offer(resolved, m, key)
  }

  /** A published value is what the first listed record that enters the key offers. */
  lemma {:induction false} PublishLookup(resolved: map<string, Layout>, listing: seq<string>, key: string)
    requires forall n <- listing :: n in resolved
    ensures key in Publish(resolved, listing) <==> exists n <- listing :: Offer(resolved, n, key).Some?
    ensures key in Publish(resolved, listing) ==>
              exists k :: 0 <= k < |listing| && Offer(resolved, listing[k], key) == Some(Publish(resolved, listing)[key])
                          && forall j :: 0 <= j < k ==> Offer(resolved, listing[j], key).None?
  {
    hide Entries, FirstValue;
    if listing != [] {
      var front, last := listing[..|listing| - 1], listing[|listing| - 1];
      assert listing == front + [last];
      PublishLookup(resolved, front, key);
      EmplaceAllLookup(Publish(resolved, front), Entries(last, resolved[last]), key);
      if key in Publish(resolved, front) {
        var k :| 0 <= k < |front| && Offer(resolved, front[k], key) == Some(Publish(resolved, front)[key])
                 && forall j :: 0 <= j < k ==> Offer(resolved, front[j], key).None?;
        assert listing[k] == front[k] && forall j :: 0 <= j < k ==> listing[j] == front[j];
      } else if Offer(resolved, last, key).Some? {
        assert listing[|front|] == last;
        assert forall j :: 0 <= j < |front| ==> listing[j] == front[j] && front[j] in front;
      }
    }
  }

  /** When no two records disagree about a key, every listing order publishes the same values. */
  lemma {:induction false} AgreeingOrdersPublishAlike(resolved: map<string, Layout>, one: seq<string>, two: seq<string>)
    requires Lists(one, resolved.Keys) && Lists(two, resolved.Keys) && KeysAgree(resolved)
    ensures Publish(resolved, one) == Publish(resolved, two)
  {
    hide Entries, FirstValue, Offer, Publish;
    var p, q := Publish(resolved, one), Publish(resolved, two);
    forall key ensures key in p <==> key in q
               ensures key in p ==> p[key] == q[key]
    {
      PublishLookup(resolved, one, key);
      PublishLookup(resolved, two, key);
    }
  }

  /** When two records disagree about a key, two listing orders publish different values. */
  lemma {:induction false} DisagreeingOrdersPublishApart(resolved: map<string, Layout>)
    requires !KeysAgree(resolved)
    ensures exists one, two :: Lists(one, resolved.Keys) && Lists(two, resolved.Keys)
                               && Publish(resolved, one) != Publish(resolved, two)
  {
    hide Entries, FirstValue, Publish;
    var n, m, key :| n in resolved && m in resolved && Offer(resolved, n, key).Some? && Offer(resolved, m, key).Some?
                     && Offer(resolved, n, key) != Offer(resolved, m, key);
    var rest := Enumerate(resolved.Keys - {n, m});
    var one, two := [n, m] + rest, [m, n] + rest;
    assert Lists(one, resolved.Keys) && Lists(two, resolved.Keys);
    FirstListedWins(resolved, one, key);
    FirstListedWins(resolved, two, key);
  }

  /** If the first listed record enters the key, its value is the one published. */
  lemma {:induction false} FirstListedWins(resolved: map<string, Layout>, listing: seq<string>, key: string)
    requires (forall n <- listing :: n in resolved) && listing != [] && Offer(resolved, listing[0], key).Some?
    ensures key in Publish(resolved, listing) && Publish(resolved, listing)[key] == Offer(resolved, listing[0], key).value
  {
    hide Entries, FirstValue, Offer, Publish;
    PublishLookup(resolved, listing, key);
    assert listing[0] in listing;
  }

  /** The published values are independent of the listing order exactly when no two records disagree about a key. */
  lemma {:induction false} OrderIndependence(resolved: map<string, Layout>)
    ensures KeysAgree(resolved)
            <==> forall one, two :: Lists(one, resolved.Keys) && Lists(two, resolved.Keys)
                                    ==> Publish(resolved, one) == Publish(resolved, two)
  {
    if KeysAgree(resolved) {
      forall one, two | Lists(one, resolved.Keys) && Lists(two, resolved.Keys)
        ensures Publish(resolved, one) == Publish(resolved, two)
      {
        AgreeingOrdersPublishAlike(resolved, one, two);
      }
    } else {
      DisagreeingOrdersPublishApart(resolved);
    }
  }

  ghost function Enumerate(names: set<string>): (order: seq<string>)
    ensures Lists(order, names)
  {
    if names == {} then []
    else
      var n :| n in names;
      var rest := Enumerate(names - {n});
      [n] + rest
  }

  // ---------------------------------------------------------------- a condition a caller can check

  predicate DotFree(name: string)
  {
    forall k :: 0 <= k < |name| ==> name[k] != '.'
  }

  /** Every key of a record continues its prefixed name with a dot. */
  lemma {:induction false} FieldKeysStartWithName(prefix: string, fields: seq<Field>, key: string)
    requires FirstValue(FieldEntries(prefix, fields), key).Some?
    ensures prefix + "." <= key
  {
    if fields != [] {
      var front, f := fields[..|fields| - 1], fields[|fields| - 1];
      var rest := FieldEntries(prefix, front);
      var a := Entry(prefix + "." + f.name + ".offset", if f.absent then MAX_64 else f.offset);
      var b := Entry(prefix + "." + f.name + ".size", if f.absent then MAX_64 else f.size);
      assert FieldEntries(prefix, fields) == rest + [a, b];
      FirstOfTwo(rest, a, b, key);
      if FirstValue(rest, key).Some? {
        FieldKeysStartWithName(prefix, front, key);
      } else {
        assert a.key == prefix + "." + (f.name + ".offset");
        assert b.key == prefix + "." + (f.name + ".size");
      }
    }
  }

  lemma {:induction false} FirstOfTwo(rest: seq<Entry>, a: Entry, b: Entry, key: string)
    ensures FirstValue(rest + [a, b], key) ==
            if FirstValue(rest, key).Some? then FirstValue(rest, key)
            else if a.key == key then Some(a.value) else if b.key == key then Some(b.value) else None
  {
    assert (rest + [a, b])[..|rest| + 1] == rest + [a];
    assert (rest + [a])[..|rest|] == rest;
  }

  lemma {:induction false} FirstOfSum(left: seq<Entry>, right: seq<Entry>, key: string)
    ensures FirstValue(left + right, key) ==
            if FirstValue(left, key).Some? then FirstValue(left, key) else FirstValue(right, key)
  {
    if right == [] {
      assert left + right == left;
    } else {
      assert (left + right)[..|left + right| - 1] == left + right[..|right| - 1];
      FirstOfSum(left, right[..|right| - 1], key);
    }
  }

  lemma {:induction false} KeysStartWithName(name: string, record: Layout, key: string)
    requires FirstValue(Entries(name, record), key).Some?
    ensures PREFIX + name + "." <= key
  {
    var a, b := Entry(PREFIX + name + ".size", record.size), Entry(PREFIX + name + ".align", record.alignment);
    FirstOfSum([a, b], FieldEntries(PREFIX + name, record.fields), key);
    FirstOfTwo([], a, b, key);
    assert [] + [a, b] == [a, b];
    if FirstValue([a, b], key).None? {
      FieldKeysStartWithName(PREFIX + name, record.fields, key);
    } else {
      assert a.key == PREFIX + name + "." + "size" && b.key == PREFIX + name + "." + "align";
    }
  }

  /** If no record name contains a dot, records never share a key, whatever their fields are called. */
  lemma {:induction false} DotFreeNamesAgree(resolved: map<string, Layout>)
    requires forall n <- resolved :: DotFree(n)
    ensures KeysAgree(resolved)
  {
    hide Entries, FirstValue;
    forall n, m, key | n in resolved && m in resolved && Offer(resolved, n, key).Some? && Offer(resolved, m, key).Some?
      ensures n == m
    {
      KeysStartWithName(n, resolved[n], key);
      KeysStartWithName(m, resolved[m], key);
      DotEndsName(n, m, key);
    }
  }

  lemma {:induction false} DotEndsName(n: string, m: string, key: string)
    requires DotFree(n) && DotFree(m) && PREFIX + n + "." <= key && PREFIX + m + "." <= key
    ensures n == m
  {
    var p := |PREFIX|;
    assert key[p + |n|] == '.' && key[p + |m|] == '.';
    assert forall k :: 0 <= k < |n| ==> n[k] == (PREFIX + n + ".")[p + k] == key[p + k];
    assert forall k :: 0 <= k < |m| ==> m[k] == (PREFIX + m + ".")[p + k] == key[p + k];
    if |n| < |m| {
      assert false;
    } else if |m| < |n| {
      assert false;
    }
  }

  const LEAF := Field("x", "", "scalar", 0, 4, 4, 1, false)
  const OUTER := Layout("A", 4, 4, false, [LEAF])
  const INNER := Layout("A.x", 8, 8, false, [])

  /** Two records as they are registered: `A` with a field `x`, and a record called `A.x`. */
  const DOTTED: Baseline := map["A" := OUTER, "A.x" := INNER]

  lemma {:induction false} ScalarFieldsStay(baseline: Baseline, record: Layout, k: nat, stack: set<string>)
    requires k <= |record.fields| && forall f <- record.fields :: f.record == ""
    ensures PlainFields(baseline, [], record, k, stack) == Some(record)
    decreases |record.fields| - k
  {
    hide ResolveField;
    if k < |record.fields| { ScalarFieldsStay(baseline, record, k + 1, stack); }
  }

  /** A record without nested fields and edits means itself, if its fields are inside and its size is aligned. */
  lemma {:induction false} MeansItself(baseline: Baseline, name: string)
    requires name in baseline && !baseline[name].isUnion && forall f <- baseline[name].fields :: f.record == ""
    requires LastEnd(baseline[name].fields, |baseline[name].fields|).Some?
    requires LastEnd(baseline[name].fields, |baseline[name].fields|).value <= baseline[name].size
    requires AlignedSize(baseline[name].size, baseline[name].alignment) == Some(baseline[name].size)
    ensures Plain(baseline, [], name, {}) == Some(baseline[name])
  {
    var record := baseline[name];
    ScalarFieldsStay(baseline, record, 0, {} + {name});
    hide PlainFields, AlignedSize, LastEnd;
    assert ApplyEdits(record, name, []) == Some(record) && ExplicitSize(name, []) == None;
    assert record.(size := record.size) == record;
  }

  lemma {:induction false} AlignedAlready(size: u64, alignment: u64)
    requires IsPow2(alignment) && size <= MAX_64 - (alignment - 1) && RoundUp(size, alignment) == size
    ensures AlignedSize(size, alignment) == Some(size)
  {
    hide *;
  }

  lemma {:induction false} SmallPowers()
    ensures IsPow2(4) && IsPow2(8) && RoundUp(4, 4) == 4 && RoundUp(8, 8) == 8
  {}

  lemma {:induction false} EndsInside()
    ensures LastEnd([LEAF], 1) == Some(4) && LastEnd([], 0) == Some(0)
  {
    assert LastEnd([LEAF], 0) == Some(0);
  }

  lemma {:induction false} DottedMeansItself()
    ensures Plain(DOTTED, [], "A", {}) == Some(OUTER) && Plain(DOTTED, [], "A.x", {}) == Some(INNER)
  {
    hide Plain, AlignedSize, LastEnd, RoundUp, IsPow2, And, Not64;
    SmallPowers();
    EndsInside();
    AlignedAlready(OUTER.size, OUTER.alignment);
    AlignedAlready(INNER.size, INNER.alignment);
    MeansItself(DOTTED, "A");
    MeansItself(DOTTED, "A.x");
  }

  /**
   Without that condition the order can show: with nothing edited both records resolve, to what they are
   registered as, and the published size of the field `x` depends on which of them is listed first.
   */
  lemma {:induction false} DottedNamesCanCollide()
    ensures forall n <- DOTTED :: Plain(DOTTED, [], n, {}).Some?
    ensures Meanings(DOTTED, []) == DOTTED
    ensures var one, two := Publish(Meanings(DOTTED, []), ["A", "A.x"]), Publish(Meanings(DOTTED, []), ["A.x", "A"]);
            var key := "modloader.layout.A.x.size";
            Lists(["A", "A.x"], DOTTED.Keys) && Lists(["A.x", "A"], DOTTED.Keys)
            && key in one && key in two && one[key] == 4 && two[key] == 8
  {
    DottedMeansItself();
    hide Plain;
    assert DOTTED.Keys == {"A", "A.x"};
    assert Meanings(DOTTED, []) == DOTTED;
    var key := "modloader.layout.A.x.size";
    OuterOffer(OUTER, LEAF, key);
    InnerOffer(INNER, key);
    FirstListedWins(DOTTED, ["A", "A.x"], key);
    FirstListedWins(DOTTED, ["A.x", "A"], key);
  }

  lemma {:induction false} OuterEntries(outer: Layout, field: Field)
    requires outer.fields == [field] && !field.absent
    ensures Entries("A", outer) ==
            [Entry(PREFIX + "A" + ".size", outer.size), Entry(PREFIX + "A" + ".align", outer.alignment)]
            + [Entry(PREFIX + "A" + "." + field.name + ".offset", field.offset), Entry(PREFIX + "A" + "." + field.name + ".size", field.size)]
  {
    assert FieldEntries(PREFIX + "A", []) == [];
    assert [field][..0] == [];
  }

  lemma {:induction false} OuterKeys()
    ensures |PREFIX + "A" + ".size"| == 23 && |PREFIX + "A" + ".align"| == 24 && |PREFIX + "A" + "." + "x" + ".offset"| == 27
    ensures PREFIX + "A" + "." + "x" + ".size" == "modloader.layout.A.x.size" && |"modloader.layout.A.x.size"| == 25
  {}

  lemma {:induction false} OuterOffer(outer: Layout, field: Field, key: string)
    requires outer.fields == [field] && field.name == "x" && !field.absent && key == "modloader.layout.A.x.size"
    ensures FirstValue(Entries("A", outer), key) == Some(field.size)
  {
    var a, b := Entry(PREFIX + "A" + ".size", outer.size), Entry(PREFIX + "A" + ".align", outer.alignment);
    var c, d := Entry(PREFIX + "A" + "." + "x" + ".offset", field.offset), Entry(PREFIX + "A" + "." + "x" + ".size", field.size);
    OuterEntries(outer, field);
    OuterKeys();
    hide Entries, PREFIX;
    FirstOfTwo([a, b], c, d, key);
    FirstOfTwo([], a, b, key);
    assert [] + [a, b] == [a, b];
  }

  lemma {:induction false} InnerOffer(inner: Layout, key: string)
    requires inner.fields == [] && key == "modloader.layout.A.x.size"
    ensures FirstValue(Entries("A.x", inner), key) == Some(inner.size)
  {
    var a, b := Entry(PREFIX + "A.x" + ".size", inner.size), Entry(PREFIX + "A.x" + ".align", inner.alignment);
    assert Entries("A.x", inner) == [] + [a, b];
    FirstOfTwo([], a, b, key);
    assert a.key == key;
  }
}
