/**
 Resolution and edits change offsets, sizes and alignments of fields, but never what they are called. So which
 keys a record enters is known from its registration, whatever the profile.
 */
module GuestLayoutNames {
  import opened Machine
  import opened Options
  import opened GuestLayout
  import opened GuestLayoutEdits
  import opened GuestLayoutResolution
  import opened GuestLayoutValues

  // ---------------------------------------------------------------- what every step keeps

  lemma {:induction false} ShapeOn(a: seq<Field>, b: seq<Field>, c: seq<Field>)
    requires SameShape(a, b) && SameShape(b, c)
    ensures SameShape(a, c)
  {}

  lemma {:induction false} MoveAllShape(fields: seq<Field>, order: seq<nat>, before: u64, after: u64)
    requires Indices(order, |fields|) && MoveAll(fields, order, before, after).Some?
    ensures SameShape(fields, MoveAll(fields, order, before, after).value)
  {
    hide Shift;
    if order != [] { MoveAllShape(fields, order[..|order| - 1], before, after); }
  }

  lemma {:induction false} ShiftShape(record: Layout, start: u64, before: u64, after: u64, changed: int, reflow: bool)
    requires ShiftFollowing(record, start, before, after, changed, reflow).Some?
    ensures SameShape(record.fields, ShiftFollowing(record, start, before, after, changed, reflow).value.fields)
  {
    hide Following, Shift, AlignedSize, Reflow, MoveAll;
    var order := Following(record.fields, start, changed, |record.fields|);
    if reflow {
      ReflowOnlyMoves(Flow(record.fields, start, Shift(start, before, after).value), order);
    } else {
      MoveAllShape(record.fields, order, before, after);
    }
  }

  lemma {:induction false} FieldChangeShape(record: Layout, edit: Edit)
    requires FieldChange(record, edit).Some?
    ensures SameShape(record.fields, FieldChange(record, edit).value.fields)
  {
    hide ShiftFollowing, AlignedSize, FindField;
    var f := record.fields[FindField(record.fields, edit.field, 0).value];
    if edit.shiftFollowing {
      var size := if edit.absent then 0 else edit.size.GetOr(f.size);
      var wanted := edit.offset.GetOr(f.offset);
      var placed := if edit.alignment.Some? && edit.offset.None? then AlignedSize(wanted, edit.alignment.GetOr(f.alignment)) else Some(wanted);
      ShiftShape(record, f.offset + f.size, f.offset + f.size, placed.value + size, FindField(record.fields, edit.field, 0).value, true);
    }
  }

  lemma {:induction false} EditShape(record: Layout, edit: Edit)
    requires Loaded(edit) && ApplyEdit(record, edit).Some?
    ensures SameShape(record.fields, ApplyEdit(record, edit).value.fields)
  {
    hide ShiftFollowing, FieldChange, MarkRemoved;
    match edit.kind
    case RecordEdit =>
    case InsertEdit => ShiftShape(record, edit.offset.value, 0, edit.size.value, -1, false);
    case RemoveEdit =>
      var marked := record.(fields := MarkRemoved(record.fields, edit.offset.value, edit.size.value, |record.fields|).value);
      ShiftShape(marked, edit.offset.value + edit.size.value, edit.size.value, 0, -1, false);
    case FieldEdit => FieldChangeShape(record, edit);
  }

  lemma {:induction false} EditsShape(record: Layout, name: string, edits: seq<Edit>)
    requires (forall e <- edits :: Loaded(e)) && ApplyEdits(record, name, edits).Some?
    ensures SameShape(record.fields, ApplyEdits(record, name, edits).value.fields)
  {
    hide ApplyEdit;
    if edits != [] {
      var front, e := edits[..|edits| - 1], edits[|edits| - 1];
      EditsShape(record, name, front);
      if e.record == name { EditShape(ApplyEdits(record, name, front).value, e); }
    }
  }

  lemma {:induction false} ResizeShape(record: Layout, i: nat, size: u64, oldEnd: u64)
    requires i < |record.fields| && Resize(record, i, size, oldEnd).Some?
    ensures SameShape(record.fields, Resize(record, i, size, oldEnd).value.fields)
  {
    hide ShiftFollowing;
    var f := record.fields[i];
    if (size != f.size || f.offset + size != oldEnd) && !record.isUnion {
      ShiftShape(record, oldEnd, oldEnd, f.offset + size, i, true);
    }
  }

  lemma {:induction false} RealignShape(record: Layout, i: nat, alignment: u64)
    requires i < |record.fields| && Realign(record, i, alignment).Some?
    ensures SameShape(record.fields, Realign(record, i, alignment).value.fields)
  {
    hide AlignedSize;
  }

  lemma {:induction false} ResolveFieldShape(record: Layout, i: nat, child: Layout, base: Layout)
    requires i < |record.fields| && ResolveField(record, i, child, base).Some?
    ensures SameShape(record.fields, ResolveField(record, i, child, base).value.fields)
  {
    hide Resize, Realign, SameShape, ChildAlignment;
    var f := record.fields[i];
    CountedSize(child.size, f.count);
    var aligned := Realign(record, i, ChildAlignment(f, child, base)).value;
    RealignShape(record, i, ChildAlignment(f, child, base));
    ResizeShape(aligned, i, child.size * f.count, (f.offset + f.size) % TWO_64);
    ShapeOn(record.fields, aligned.fields, ResolveField(record, i, child, base).value.fields);
  }

  lemma {:induction false} PlainFieldsShape(baseline: Baseline, edits: seq<Edit>, record: Layout, k: nat, stack: set<string>)
    requires k <= |record.fields| && (forall e <- edits :: Loaded(e)) && PlainFields(baseline, edits, record, k, stack).Some?
    ensures SameShape(record.fields, PlainFields(baseline, edits, record, k, stack).value.fields)
    decreases |record.fields| - k
  {
    hide Plain, ResolveField;
    if k < |record.fields| {
      var nested := record.fields[k].record;
      if nested == "" {
        PlainFieldsShape(baseline, edits, record, k + 1, stack);
      } else {
        var child := Plain(baseline, edits, nested, stack).value;
        var next := ResolveField(record, k, child, baseline[nested]).value;
        ResolveFieldShape(record, k, child, baseline[nested]);
        PlainFieldsShape(baseline, edits, next, k + 1, stack);
      }
    }
  }

  /** A record that resolves has the fields it was registered with, under their names, in their order. */
  lemma {:induction false} ResolvedShape(baseline: Baseline, edits: seq<Edit>, name: string, stack: set<string>)
    requires (forall e <- edits :: Loaded(e)) && Plain(baseline, edits, name, stack).Some?
    ensures SameShape(baseline[name].fields, Plain(baseline, edits, name, stack).value.fields)
  {
    PlainFieldsShape(baseline, edits, baseline[name], 0, stack + {name});
    hide PlainFields, AlignedSize, LastEnd, ApplyEdits;
    var children := PlainFields(baseline, edits, baseline[name], 0, stack + {name}).value;
    EditsShape(children, name, edits);
    ShapeOn(baseline[name].fields, children.fields, ApplyEdits(children, name, edits).value.fields);
  }

  // ---------------------------------------------------------------- keys

  /** A record of this name with these fields enters the key. */
  predicate Enters(name: string, fields: seq<Field>, key: string)
  {
    || key == PREFIX + name + ".size" || key == PREFIX + name + ".align"
    || exists f <- fields :: key == PREFIX + name + "." + f.name + ".offset" || key == PREFIX + name + "." + f.name + ".size"
  }

  lemma {:induction false} FieldEnters(prefix: string, fields: seq<Field>, key: string)
    ensures FirstValue(FieldEntries(prefix, fields), key).Some? <==>
            exists f <- fields :: key == prefix + "." + f.name + ".offset" || key == prefix + "." + f.name + ".size"
  {
    if fields != [] {
      var front, f := fields[..|fields| - 1], fields[|fields| - 1];
      assert fields == front + [f];
      FieldEnters(prefix, front, key);
      FirstOfTwo(FieldEntries(prefix, front),
                 Entry(prefix + "." + f.name + ".offset", if f.absent then MAX_64 else f.offset),
                 Entry(prefix + "." + f.name + ".size", if f.absent then MAX_64 else f.size), key);
      hide FirstValue;
    }
  }

  lemma {:induction false} OffersWhatItEnters(name: string, record: Layout, key: string)
    ensures FirstValue(Entries(name, record), key).Some? <==> Enters(name, record.fields, key)
  {
    var a, b := Entry(PREFIX + name + ".size", record.size), Entry(PREFIX + name + ".align", record.alignment);
    FirstOfSum([a, b], FieldEntries(PREFIX + name, record.fields), key);
    FirstOfTwo([], a, b, key);
    assert [] + [a, b] == [a, b];
    FieldEnters(PREFIX + name, record.fields, key);
    hide FirstValue, FieldEntries;
  }

  lemma {:induction false} SameShapeEnters(name: string, was: seq<Field>, now: seq<Field>, key: string)
    requires SameShape(was, now)
    ensures Enters(name, was, key) <==> Enters(name, now, key)
  {
    hide PREFIX;
    if f :| f in was && (key == PREFIX + name + "." + f.name + ".offset" || key == PREFIX + name + "." + f.name + ".size") {
      var k :| 0 <= k < |was| && was[k] == f;
      assert now[k] in now && now[k].name == f.name;
    }
    if f :| f in now && (key == PREFIX + name + "." + f.name + ".offset" || key == PREFIX + name + "." + f.name + ".size") {
      var k :| 0 <= k < |now| && now[k] == f;
      assert was[k] in was && was[k].name == f.name;
    }
  }

  /** Whatever the profile, a resolved record enters exactly the keys that its registration names. */
  lemma {:induction false} KeysKnownBefore(baseline: Baseline, edits: seq<Edit>, n: string, key: string)
    requires (forall e <- edits :: Loaded(e)) && (forall m <- baseline :: Plain(baseline, edits, m, {}).Some?) && n in baseline
    ensures Offer(Meanings(baseline, edits), n, key).Some? <==> Enters(n, baseline[n].fields, key)
  {
    ResolvedShape(baseline, edits, n, {});
    hide Plain, Enters;
    OffersWhatItEnters(n, Meanings(baseline, edits)[n], key);
    SameShapeEnters(n, baseline[n].fields, Meanings(baseline, edits)[n].fields, key);
  }

  /** No two registered records enter the same key. */
  ghost predicate KeysApart(baseline: Baseline)
  {
    forall n, m, key | n in baseline && m in baseline && n != m :: !(Enters(n, baseline[n].fields, key) && Enters(m, baseline[m].fields, key))
  }

  /** Names without dots keep all keys apart. */
  lemma {:induction false} DotFreeKeysApart(baseline: Baseline)
    requires forall n <- baseline :: DotFree(n)
    ensures KeysApart(baseline)
  {
    hide Enters, Entries, FirstValue;
    forall n, m, key | n in baseline && m in baseline && Enters(n, baseline[n].fields, key) && Enters(m, baseline[m].fields, key)
      ensures n == m
    {
      OffersWhatItEnters(n, baseline[n], key);
      OffersWhatItEnters(m, baseline[m], key);
      KeysStartWithName(n, baseline[n], key);
      KeysStartWithName(m, baseline[m], key);
      DotEndsName(n, m, key);
    }
  }

  /** When the registered records enter different keys, every profile that resolves publishes the same values in any order. */
  lemma {:induction false} KeysApartOrdersAlike(baseline: Baseline, edits: seq<Edit>, one: seq<string>, two: seq<string>)
    requires KeysApart(baseline) && (forall e <- edits :: Loaded(e)) && forall n <- baseline :: Plain(baseline, edits, n, {}).Some?
    requires Lists(one, baseline.Keys) && Lists(two, baseline.Keys)
    ensures Publish(Meanings(baseline, edits), one) == Publish(Meanings(baseline, edits), two)
  {
    hide Plain, Enters, Publish;
    var resolved := Meanings(baseline, edits);
    forall n, m, key | n in resolved && m in resolved && Offer(resolved, n, key).Some? && Offer(resolved, m, key).Some?
      ensures Offer(resolved, n, key) == Offer(resolved, m, key)
    {
      KeysKnownBefore(baseline, edits, n, key);
      KeysKnownBefore(baseline, edits, m, key);
    }
    hide Offer;
    AgreeingOrdersPublishAlike(resolved, one, two);
  }

  // ---------------------------------------------------------------- values

  lemma {:induction false} KeysTellApart(prefix: string, a: string, b: string)
    ensures prefix + "." + a + ".offset" == prefix + "." + b + ".offset" ==> a == b
    ensures prefix + "." + a + ".size" == prefix + "." + b + ".size" ==> a == b
    ensures prefix + "." + a + ".offset" != prefix + "." + b + ".size"
    ensures prefix + ".size" != prefix + ".align"
    ensures prefix + "." + a + ".offset" !in [prefix + ".size", prefix + ".align"]
    ensures prefix + "." + a + ".size" !in [prefix + ".size", prefix + ".align"]
  {
    Ends(prefix + "." + a, ".offset", 't');
    Ends(prefix + "." + a, ".size", 'e');
    Ends(prefix + "." + b, ".size", 'e');
    Ends(prefix, ".size", 'e');
    Ends(prefix, ".align", 'n');
    Middle(prefix + ".", a, ".offset");
    Middle(prefix + ".", b, ".offset");
    Middle(prefix + ".", a, ".size");
    Middle(prefix + ".", b, ".size");
  }

  lemma {:induction false} Ends(left: string, right: string, last: char)
    requires right != [] && right[|right| - 1] == last
    ensures (left + right)[|left + right| - 1] == last
  {}

  lemma {:induction false} Middle(left: string, middle: string, right: string)
    ensures (left + middle + right)[|left|..|left + middle|] == middle && |left + middle + right| == |left| + |middle| + |right|
  {}

  /** What stands for a field that is not there. */
  function Shown(f: Field, value: u64): u64 { if f.absent then 0xFFFF_FFFF_FFFF_FFFF else value }

  lemma {:induction false} FieldOffers(prefix: string, fields: seq<Field>, k: nat)
    requires k < |fields| && forall j :: 0 <= j < k ==> fields[j].name != fields[k].name
    ensures FirstValue(FieldEntries(prefix, fields), prefix + "." + fields[k].name + ".offset") == Some(Shown(fields[k], fields[k].offset))
    ensures FirstValue(FieldEntries(prefix, fields), prefix + "." + fields[k].name + ".size") == Some(Shown(fields[k], fields[k].size))
  {
    var front, f := fields[..|fields| - 1], fields[|fields| - 1];
    var a := Entry(prefix + "." + f.name + ".offset", if f.absent then MAX_64 else f.offset);
    var b := Entry(prefix + "." + f.name + ".size", if f.absent then MAX_64 else f.size);
    var offset, size := prefix + "." + fields[k].name + ".offset", prefix + "." + fields[k].name + ".size";
    assert FieldEntries(prefix, fields) == FieldEntries(prefix, front) + [a, b];
    FirstOfTwo(FieldEntries(prefix, front), a, b, offset);
    FirstOfTwo(FieldEntries(prefix, front), a, b, size);
    hide FieldEntries, FirstValue;
    if k < |front| {
      FieldOffers(prefix, front, k);
    } else {
      KeysTellApart(prefix, f.name, f.name);
      NotYet(prefix, front, f.name);
    }
  }

  lemma {:induction false} NotYet(prefix: string, fields: seq<Field>, name: string)
    requires forall j :: 0 <= j < |fields| ==> fields[j].name != name
    ensures FirstValue(FieldEntries(prefix, fields), prefix + "." + name + ".offset").None?
    ensures FirstValue(FieldEntries(prefix, fields), prefix + "." + name + ".size").None?
  {
    FieldEnters(prefix, fields, prefix + "." + name + ".offset");
    FieldEnters(prefix, fields, prefix + "." + name + ".size");
    forall f <- fields ensures prefix + "." + name + ".offset" !in [prefix + "." + f.name + ".offset", prefix + "." + f.name + ".size"]
                       ensures prefix + "." + name + ".size" !in [prefix + "." + f.name + ".offset", prefix + "." + f.name + ".size"]
    {
      KeysTellApart(prefix, name, f.name);
      KeysTellApart(prefix, f.name, name);
    }
  }

  lemma {:induction false} RecordOffers(name: string, record: Layout, k: nat)
    ensures FirstValue(Entries(name, record), PREFIX + name + ".size") == Some(record.size)
    ensures FirstValue(Entries(name, record), PREFIX + name + ".align") == Some(record.alignment)
    ensures k < |record.fields| && (forall j :: 0 <= j < k ==> record.fields[j].name != record.fields[k].name) ==>
              var f := record.fields[k];
              && FirstValue(Entries(name, record), PREFIX + name + "." + f.name + ".offset") == Some(Shown(f, f.offset))
              && FirstValue(Entries(name, record), PREFIX + name + "." + f.name + ".size") == Some(Shown(f, f.size))
  {
    var prefix := PREFIX + name;
    var a, b := Entry(prefix + ".size", record.size), Entry(prefix + ".align", record.alignment);
    assert [] + [a, b] == [a, b];
    FirstOfTwo([], a, b, prefix + ".size");
    FirstOfTwo([], a, b, prefix + ".align");
    FirstOfSum([a, b], FieldEntries(prefix, record.fields), prefix + ".size");
    FirstOfSum([a, b], FieldEntries(prefix, record.fields), prefix + ".align");
    KeysTellApart(prefix, "", "");
    if k < |record.fields| && forall j :: 0 <= j < k ==> record.fields[j].name != record.fields[k].name {
      var f := record.fields[k];
      FieldOffers(prefix, record.fields, k);
      KeysTellApart(prefix, f.name, f.name);
      FirstOfTwo([], a, b, prefix + "." + f.name + ".offset");
      FirstOfTwo([], a, b, prefix + "." + f.name + ".size");
      FirstOfSum([a, b], FieldEntries(prefix, record.fields), prefix + "." + f.name + ".offset");
      FirstOfSum([a, b], FieldEntries(prefix, record.fields), prefix + "." + f.name + ".size");
    }
  }

  /**
   Under dot-free names every order publishes the size and the alignment of each record, and the offset and
   the size of each field, or the largest word for both when the field is absent.
   */
  lemma {:induction false} PublishedValues(resolved: map<string, Layout>, listing: seq<string>, n: string, k: nat)
    requires Lists(listing, resolved.Keys) && (forall m <- resolved :: DotFree(m)) && n in resolved
    requires k < |resolved[n].fields| && forall j :: 0 <= j < k ==> resolved[n].fields[j].name != resolved[n].fields[k].name
    ensures var f := resolved[n].fields[k];
            && Published(resolved, listing, PREFIX + n + ".size", resolved[n].size)
            && Published(resolved, listing, PREFIX + n + ".align", resolved[n].alignment)
            && Published(resolved, listing, PREFIX + n + "." + f.name + ".offset", if f.absent then 0xFFFF_FFFF_FFFF_FFFF else f.offset)
            && Published(resolved, listing, PREFIX + n + "." + f.name + ".size", if f.absent then 0xFFFF_FFFF_FFFF_FFFF else f.size)
  {
    var f := resolved[n].fields[k];
    RecordOffers(n, resolved[n], k);
    hide Entries, FirstValue, PREFIX, Published;
    OfferPublished(resolved, listing, n, PREFIX + n + ".size");
    OfferPublished(resolved, listing, n, PREFIX + n + ".align");
    OfferPublished(resolved, listing, n, PREFIX + n + "." + f.name + ".offset");
    OfferPublished(resolved, listing, n, PREFIX + n + "." + f.name + ".size");
  }

  ghost predicate Published(resolved: map<string, Layout>, listing: seq<string>, key: string, value: u64)
    requires forall m <- listing :: m in resolved
  {
    key in Publish(resolved, listing) && Publish(resolved, listing)[key] == value
  }

  lemma {:induction false} OfferPublished(resolved: map<string, Layout>, listing: seq<string>, n: string, key: string)
    requires Lists(listing, resolved.Keys) && (forall m <- resolved :: DotFree(m)) && n in resolved && Offer(resolved, n, key).Some?
    ensures Published(resolved, listing, key, Offer(resolved, n, key).value)
  {
    DotFreeNamesAgree(resolved);
    hide DotFree, Offer, Publish;
    PublishLookup(resolved, listing, key);
    assert n in listing;
  }
}
