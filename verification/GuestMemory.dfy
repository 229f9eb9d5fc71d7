/**
 Guest memory access of client/src/guest.cpp: reads and writes are split at page boundaries, each run is
 mapped to a space, and a space may keep its words byte-swapped.

 Host memory is one array; the map from guest addresses is a function that does not change during an access.
 */
module GuestMemory {
  import opened Machine
  import opened Options

  const PAGE: nat := 4096

  /** A space's place in host memory, or none; its size, codec and access. */
  datatype Space = Space(hostBase: Option<nat>, usableSize: u64, swapped: bool, writable: bool)

  /** The configured spaces, and where addresses lead: a space's number and an offset. */
  datatype World = World(spaces: seq<Space>, translate: u64 -> Option<(nat, u64)>)

  /** Spaces are inside host memory, and swapped ones are whole words. */
  ghost predicate Laid(world: World, length: nat)
  {
    forall s <- world.spaces :: s.hostBase.Some? ==> s.hostBase.value + s.usableSize <= length && (s.swapped ==> s.usableSize % 4 == 0)
  }

  function PageRun(address: u64, remaining: u64): (run: u64)
    requires remaining > 0
    ensures 0 < run <= remaining
    ensures address / PAGE == (address + run - 1) / PAGE
    ensures run < remaining ==> (address + run) % PAGE == 0
  {
    PageMask(address);
    var run := PAGE - And(address, PAGE - 1);
    if run < remaining then run else remaining
  }

  lemma {:induction false} PageMask(address: u64)
    ensures And(address, PAGE - 1) == address % PAGE
  {
    Pow2NextByte(0);
    assert Pow2(12) == 16 * Pow2(8) by { assert Pow2(10) == 4 * Pow2(8); }
    AndLowMask(address, 12);
  }

  /** A byte of a space. */
  datatype Place = Place(space: nat, offset: nat)

  /** `Map_Address` and the checks on a run: where it starts, if it may be accessed. */
  function Access(world: World, address: u64, run: u64, write: bool): (r: Option<Place>)
    ensures r.Some? ==> r.value.space < |world.spaces| && world.spaces[r.value.space].hostBase.Some?
    ensures r.Some? ==> r.value.offset + run <= world.spaces[r.value.space].usableSize
  {
    match world.translate(address)
    case None => None
    case Some((index, offset)) =>
      if index >= |world.spaces| then None
      else
        var space := world.spaces[index];
        if space.hostBase.None? || offset > space.usableSize || run > space.usableSize - offset || (write && !space.writable) then None
        else Some(Place(index, offset))
  }

  /** The byte exists and is backed by host memory. */
  predicate Sits(world: World, place: Place)
  {
    && place.space < |world.spaces| && world.spaces[place.space].hostBase.Some?
    && place.offset < world.spaces[place.space].usableSize
  }

  function Mirror(swapped: bool, offset: nat): nat { if swapped then Xor(offset, 3) else offset }

  /** The host byte that holds it. */
  function Host(world: World, place: Place): nat
    requires Sits(world, place)
  {
    var space := world.spaces[place.space];
    space.hostBase.value + Mirror(space.swapped, place.offset)
  }

  function RunFrom(start: Place, run: nat): (places: seq<Place>)
    ensures |places| == run && forall i :: 0 <= i < run ==> places[i] == Place(start.space, start.offset + i)
  {
    if run == 0 then [] else RunFrom(start, run - 1) + [Place(start.space, start.offset + run - 1)]
  }

  /** The bytes of an access, in order, or nothing when some run may not be accessed. */
  function Places(world: World, address: nat, size: u64, write: bool): (r: Option<seq<Place>>)
    requires address + size <= TWO_64
    ensures r.Some? ==> |r.value| == size && AllSit(world, r.value)
    decreases size
  {
    if size == 0 then Some([])
    else
      var run := PageRun(address, size);
      match Access(world, address, run, write)
      case None => None
      case Some(start) =>
        match Places(world, address + run, size - run, write)
        case None => None
        case Some(rest) => Some(RunFrom(start, run) + rest)
  }

  predicate AllSit(world: World, places: seq<Place>)
  {
    forall k :: 0 <= k < |places| ==> Sits(world, places[k])
  }

  function Locations(world: World, places: seq<Place>): (locations: seq<nat>)
    requires AllSit(world, places)
    ensures |locations| == |places| && forall k :: 0 <= k < |places| ==> locations[k] == Host(world, places[k])
  {
    if places == [] then [] else Locations(world, places[..|places| - 1]) + [Host(world, places[|places| - 1])]
  }

  /** The sizes that do not run past the end of the address space. */
  predicate InAddressSpace(address: u64, size: u64)
  {
    size == 0 || size - 1 <= MAX_64 - address
  }

  // ---------------------------------------------------------------- locations

  lemma {:induction false} MirrorInside(swapped: bool, offset: nat, size: nat)
    requires offset < size && (swapped ==> size % 4 == 0)
    ensures Mirror(swapped, offset) < size
  {
    XorThree(offset);
    hide Xor;
    assert swapped ==> offset / 4 < size / 4;
  }

  lemma {:induction false} MirrorTells(swapped: bool, a: nat, b: nat)
    requires Mirror(swapped, a) == Mirror(swapped, b)
    ensures a == b
  {
    if swapped {
      XorThree(a);
      XorThree(b);
      hide Xor;
      SameWord(a / 4, a % 4, b / 4, b % 4);
    }
  }

  lemma {:induction false} SameWord(p: nat, r: nat, q: nat, s: nat)
    requires r < 4 && s < 4 && 4 * p + (3 - r) == 4 * q + (3 - s)
    ensures p == q && r == s
  {}

  lemma {:induction false} HostInside(world: World, place: Place, length: nat)
    requires Laid(world, length) && Sits(world, place)
    ensures var space := world.spaces[place.space];
            space.hostBase.value <= Host(world, place) < space.hostBase.value + space.usableSize <= length
  {
    assert world.spaces[place.space] in world.spaces;
    MirrorInside(world.spaces[place.space].swapped, place.offset, world.spaces[place.space].usableSize);
    hide Mirror;
  }

  /** Two spaces do not overlap in host memory. */
  predicate SpacesApart(s: Space, t: Space)
    requires s.hostBase.Some? && t.hostBase.Some?
  {
    s.hostBase.value + s.usableSize <= t.hostBase.value || t.hostBase.value + t.usableSize <= s.hostBase.value
  }

  /** Different bytes of one space, with either codec, or of two that do not overlap, are held by different host bytes. */
  lemma {:induction false} HostTells(world: World, length: nat, p: Place, q: Place)
    requires Laid(world, length) && Sits(world, p) && Sits(world, q) && p != q
    requires p.space == q.space || SpacesApart(world.spaces[p.space], world.spaces[q.space])
    ensures Host(world, p) != Host(world, q)
  {
    HostInside(world, p, length);
    HostInside(world, q, length);
    if p.space == q.space && Host(world, p) == Host(world, q) { MirrorTells(world.spaces[p.space].swapped, p.offset, q.offset); }
    hide Mirror;
  }

  ghost predicate Within(locations: seq<nat>, length: nat)
  {
    forall k :: 0 <= k < |locations| ==> locations[k] < length
  }

  lemma {:induction false} LocationsInside(world: World, places: seq<Place>, length: nat)
    requires Laid(world, length) && AllSit(world, places)
    ensures Within(Locations(world, places), length)
  {
    forall k | 0 <= k < |places| ensures Locations(world, places)[k] < length { HostInside(world, places[k], length); }
  }

  // ---------------------------------------------------------------- what a write leaves

  /** Memory after these bytes were stored one after the other. */
  function Stored(memory: seq<u8>, locations: seq<nat>, bytes: seq<u8>): (after: seq<u8>)
    requires |locations| == |bytes| && forall k :: 0 <= k < |locations| ==> locations[k] < |memory|
    ensures |after| == |memory|
  {
    if bytes == [] then memory
    else
      var n := |bytes| - 1;
      Stored(memory, locations[..n], bytes[..n])[locations[n] := bytes[n]]
  }

  function Loaded(memory: seq<u8>, locations: seq<nat>): seq<u8>
    requires forall k :: 0 <= k < |locations| ==> locations[k] < |memory|
  {
    seq(|locations|, k requires 0 <= k < |locations| => memory[locations[k]])
  }

  /** The last of the locations that is `x`. */
  ghost predicate LastAt(locations: seq<nat>, x: nat, k: nat)
  {
    k < |locations| && locations[k] == x && forall j :: k < j < |locations| ==> locations[j] != x
  }

  /** A byte no location names is unchanged; a named one holds the last byte stored to it. */
  lemma {:induction false} StoredAt(memory: seq<u8>, locations: seq<nat>, bytes: seq<u8>, x: nat) returns (k: nat)
    requires |locations| == |bytes| && Within(locations, |memory|) && x < |memory|
    ensures x !in locations ==> Stored(memory, locations, bytes)[x] == memory[x]
    ensures x in locations ==> LastAt(locations, x, k) && Stored(memory, locations, bytes)[x] == bytes[k]
  {
    k := 0;
    if bytes != [] {
      var n := |bytes| - 1;
      if locations[n] == x {
        k := n;
      } else {
        k := StoredAt(memory, locations[..n], bytes[..n], x);
        FoundBefore(locations, x, n);
      }
    }
  }

  lemma {:induction false} FoundBefore(locations: seq<nat>, x: nat, n: nat)
    requires |locations| == n + 1 && locations[n] != x
    ensures x in locations <==> x in locations[..n]
    ensures forall k :: LastAt(locations[..n], x, k) ==> LastAt(locations, x, k)
  {
    assert locations == locations[..n] + [locations[n]];
  }

  /** What is read back is what was written exactly when bytes that share a place are equal. */
  lemma {:induction false} ReadsBackIff(memory: seq<u8>, locations: seq<nat>, bytes: seq<u8>)
    requires |locations| == |bytes| && Within(locations, |memory|)
    ensures Loaded(Stored(memory, locations, bytes), locations) == bytes <==>
            forall j, k :: 0 <= j < k < |locations| && locations[j] == locations[k] ==> bytes[j] == bytes[k]
  {
    var after := Stored(memory, locations, bytes);
    var loaded := Loaded(after, locations);
    if loaded == bytes {
      forall j, k | 0 <= j < k < |locations| && locations[j] == locations[k] ensures bytes[j] == bytes[k] {
        assert loaded[j] == after[locations[j]] && loaded[k] == after[locations[k]];
      }
    }
    if forall j, k :: 0 <= j < k < |locations| && locations[j] == locations[k] ==> bytes[j] == bytes[k] {
      forall k | 0 <= k < |bytes| ensures loaded[k] == bytes[k] {
        var last := StoredAt(memory, locations, bytes, locations[k]);
      }
    }
  }

  /** An access that shares no byte with a write reads the same before and after it. */
  lemma {:induction false} OthersUnchanged(memory: seq<u8>, locations: seq<nat>, bytes: seq<u8>, others: seq<nat>)
    requires |locations| == |bytes| && Within(locations, |memory|) && Within(others, |memory|)
    requires forall k :: 0 <= k < |others| ==> others[k] !in locations
    ensures Loaded(Stored(memory, locations, bytes), others) == Loaded(memory, others)
  {
    forall k | 0 <= k < |others| ensures Stored(memory, locations, bytes)[others[k]] == memory[others[k]] {
      var _ := StoredAt(memory, locations, bytes, others[k]);
    }
  }

  /** A write changes no byte of any space other than those it names, and those kept in the same host bytes. */
  lemma {:induction false} OtherPlacesUnchanged(world: World, memory: seq<u8>, places: seq<Place>, bytes: seq<u8>, others: seq<Place>)
    requires Laid(world, |memory|) && AllSit(world, places) && |places| == |bytes| && AllSit(world, others)
    requires forall j, k :: 0 <= j < |others| && 0 <= k < |places| ==> Host(world, others[j]) != Host(world, places[k])
    ensures Within(Locations(world, places), |memory|) && Within(Locations(world, others), |memory|)
    ensures Loaded(Stored(memory, Locations(world, places), bytes), Locations(world, others)) == Loaded(memory, Locations(world, others))
  {
    LocationsInside(world, places, |memory|);
    LocationsInside(world, others, |memory|);
    OthersUnchanged(memory, Locations(world, places), bytes, Locations(world, others));
  }

  /** What may be written may be read, at the same places. */
  lemma {:induction false} WritableReadable(world: World, address: nat, size: u64)
    requires address + size <= TWO_64 && Places(world, address, size, true).Some?
    ensures Places(world, address, size, false) == Places(world, address, size, true)
    decreases size
  {
    if size > 0 {
      var run := PageRun(address, size);
      WritableReadable(world, address + run, size - run);
      hide PageRun;
    }
  }

  /**
   After a write that succeeds, a read of the same range succeeds, and returns the same bytes exactly when
   bytes that the map leads to one host byte are equal; so always when the touched runs do not alias.
   */
  lemma {:induction false} WriteThenRead(world: World, memory: seq<u8>, address: u64, data: seq<u8>)
    requires Laid(world, |memory|) && |data| < TWO_64 && address + |data| <= TWO_64
    requires Places(world, address, |data|, true).Some?
    ensures var places := Places(world, address, |data|, true).value;
            && Places(world, address, |data|, false) == Some(places) && Within(Locations(world, places), |memory|)
            && (Loaded(Stored(memory, Locations(world, places), data), Locations(world, places)) == data <==>
                forall j, k :: 0 <= j < k < |places| && Host(world, places[j]) == Host(world, places[k]) ==> data[j] == data[k])
  {
    hide Places, Loaded, Stored, Locations, Laid;
    WritableReadable(world, address, |data|);
    var places := Places(world, address, |data|, true).value;
    LocationsInside(world, places, |memory|);
    ReadsBackIff(memory, Locations(world, places), data);
  }

  /** The touched runs do not alias: no byte of a space twice, and no overlapping spaces. */
  ghost predicate Unaliased(world: World, places: seq<Place>)
    requires AllSit(world, places)
  {
    forall j, k :: 0 <= j < k < |places| ==>
      && places[j] != places[k]
      && (places[j].space == places[k].space || SpacesApart(world.spaces[places[j].space], world.spaces[places[k].space]))
  }

  /** With either codec and however the pages split it, what was written to runs that do not alias is read back. */
  lemma {:induction false} UnaliasedReadBack(world: World, memory: seq<u8>, address: u64, data: seq<u8>)
    requires Laid(world, |memory|) && |data| < TWO_64 && address + |data| <= TWO_64
    requires Places(world, address, |data|, true).Some? && Unaliased(world, Places(world, address, |data|, true).value)
    ensures var places := Places(world, address, |data|, true).value;
            && Places(world, address, |data|, false) == Some(places) && Within(Locations(world, places), |memory|)
            && Loaded(Stored(memory, Locations(world, places), data), Locations(world, places)) == data
  {
    WriteThenRead(world, memory, address, data);
    var places := Places(world, address, |data|, true).value;
    hide Places, Loaded, Stored, Locations, Laid, Host;
    forall j, k | 0 <= j < k < |places| ensures Host(world, places[j]) != Host(world, places[k]) {
      HostTells(world, |memory|, places[j], places[k]);
    }
  }
}
