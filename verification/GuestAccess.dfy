/** `Guest_Read` and `Guest_Write` of client/src/guest.cpp, run by run over host memory. */
module GuestAccess {
  import opened Machine
  import opened Options
  import opened GuestMemory

  /** A stretch of a space whose translated code is invalid. */
  datatype Stretch = Stretch(start: Place, run: nat)

  function Covered(stretches: seq<Stretch>): seq<Place>
  {
    if stretches == [] then []
    else Covered(stretches[..|stretches| - 1]) + RunFrom(stretches[|stretches| - 1].start, stretches[|stretches| - 1].run)
  }

  lemma {:induction false} CoveredNext(stretches: seq<Stretch>, start: Place, run: nat)
    ensures Covered(stretches + [Stretch(start, run)]) == Covered(stretches) + RunFrom(start, run)
  {
    assert (stretches + [Stretch(start, run)])[..|stretches|] == stretches;
  }

  // ---------------------------------------------------------------- one more run

  /** The places of an access are those seen so far and those from here on. */
  ghost predicate Onward(world: World, address: u64, size: u64, write: bool, seen: seq<Place>)
    requires address + size <= TWO_64
  {
    && |seen| <= size && AllSit(world, seen)
    && Places(world, address, size, write) ==
       match Places(world, address + |seen|, size - |seen|, write)
       case None => None
       case Some(rest) => Some(seen + rest)
  }

  lemma {:induction false} OnwardStarts(world: World, address: u64, size: u64, write: bool)
    requires address + size <= TWO_64
    ensures Onward(world, address, size, write, [])
  {
    var all := Places(world, address, size, write);
    if all.Some? { assert [] + all.value == all.value; }
  }

  lemma {:induction false} OnwardStops(world: World, address: u64, size: u64, write: bool, seen: seq<Place>)
    requires address + size <= TWO_64 && Onward(world, address, size, write, seen) && |seen| < size
    requires Access(world, address + |seen|, PageRun(address + |seen|, size - |seen|), write) == None
    ensures Places(world, address, size, write) == None
  {}

  lemma {:induction false} OnwardGoes(world: World, address: u64, size: u64, write: bool, seen: seq<Place>, start: Place)
    requires address + size <= TWO_64 && Onward(world, address, size, write, seen) && |seen| < size
    requires Access(world, address + |seen|, PageRun(address + |seen|, size - |seen|), write) == Some(start)
    ensures AllSit(world, RunFrom(start, PageRun(address + |seen|, size - |seen|)))
    ensures AllSit(world, seen + RunFrom(start, PageRun(address + |seen|, size - |seen|)))
    ensures Onward(world, address, size, write, seen + RunFrom(start, PageRun(address + |seen|, size - |seen|)))
  {
    hide Access, Sits, PageRun;
    var run := PageRun(address + |seen|, size - |seen|);
    RunSits(world, address + |seen|, run, write);
    SeenAndRest(seen, RunFrom(start, run), Places(world, address + |seen| + run, size - |seen| - run, write));
  }

  lemma {:induction false} SeenAndRest(seen: seq<Place>, run: seq<Place>, rest: Option<seq<Place>>)
    ensures rest.Some? ==> seen + (run + rest.value) == seen + run + rest.value
  {
    if rest.Some? { assert seen + (run + rest.value) == seen + run + rest.value; }
  }

  lemma {:induction false} RunSits(world: World, address: u64, run: u64, write: bool)
    requires Access(world, address, run, write).Some?
    ensures AllSit(world, RunFrom(Access(world, address, run, write).value, run))
  {}

  lemma {:induction false} OnwardEnds(world: World, address: u64, size: u64, write: bool, seen: seq<Place>)
    requires address + size <= TWO_64 && Onward(world, address, size, write, seen) && |seen| == size
    ensures Places(world, address, size, write) == Some(seen)
  {
    assert seen + [] == seen;
  }

  lemma {:induction false} LocationsNext(world: World, seen: seq<Place>, place: Place)
    requires AllSit(world, seen) && Sits(world, place)
    ensures AllSit(world, seen + [place]) && Locations(world, seen + [place]) == Locations(world, seen) + [Host(world, place)]
  {
    assert (seen + [place])[..|seen|] == seen;
    hide Sits, Host;
  }

  lemma {:induction false} StoredNext(memory: seq<u8>, locations: seq<nat>, bytes: seq<u8>, location: nat, byte: u8)
    requires |locations| == |bytes| && Within(locations, |memory|) && location < |memory|
    ensures Within(locations + [location], |memory|)
    ensures Stored(memory, locations + [location], bytes + [byte]) == Stored(memory, locations, bytes)[location := byte]
  {
    assert (locations + [location])[..|locations|] == locations && (bytes + [byte])[..|bytes|] == bytes;
  }

  // ---------------------------------------------------------------- the accesses

  class Guest {
    const world: World
    const host: array<u8>
    var invalidated: seq<Stretch>

    ghost predicate Valid()
    {
      Laid(world, host.Length)
    }

    constructor (world: World, host: array<u8>)
      requires Laid(world, host.Length)
      ensures Valid() && this.world == world && this.host == host && invalidated == []
    {
      this.world, this.host, invalidated := world, host, [];
    }

    /** `Guest_Read`; when it fails the buffer holds the runs before the one that failed. */
    method Read(address: u64, out: array<u8>) returns (ok: bool)
      requires Valid() && out != host && out.Length < TWO_64
      modifies out
      ensures ok <==> InAddressSpace(address, out.Length) && Places(world, address, out.Length, false).Some?
      ensures ok ==> var places := Places(world, address, out.Length, false).value;
                     Within(Locations(world, places), host.Length) && out[..] == Loaded(host[..], Locations(world, places))
    {
      if out.Length != 0 && out.Length - 1 > MAX_64 - address { return false; }
      var done := 0;
      ghost var seen: seq<Place> := [];
      OnwardStarts(world, address, out.Length, false);
      assert ReadSoFar(out[..0], seen);
      hide Places, Onward, Access, Valid, AllSit, Sits, PageRun, ReadSoFar, RunFrom;
      while done < out.Length
        invariant Valid() && |seen| == done <= out.Length && Onward(world, address, out.Length, false, seen)
        invariant AllSit(world, seen) && ReadSoFar(out[..done], seen)
        decreases out.Length - done
      {
        ghost var places;
        ok, places := ReadNext(address, out, done, seen);
        if !ok { return; }
        seen := seen + places;
        done := done + PageRun(address + done, out.Length - done);
      }
      OnwardEnds(world, address, out.Length, false, seen);
      assert out[..out.Length] == out[..];
      ReadAll(out[..], seen);
      return true;
    }

    /** These bytes are what host memory holds at these places. */
    ghost predicate ReadSoFar(bytes: seq<u8>, seen: seq<Place>)
      requires AllSit(world, seen)
      reads host
    {
      Within(Locations(world, seen), host.Length) && bytes == Loaded(host[..], Locations(world, seen))
    }

    /** The next run, unless it may not be read. */
    method ReadNext(address: u64, out: array<u8>, done: nat, ghost seen: seq<Place>) returns (ok: bool, ghost places: seq<Place>)
      requires Valid() && out != host && done < out.Length < TWO_64 && address + out.Length <= TWO_64
      requires |seen| == done && Onward(world, address, out.Length, false, seen) && AllSit(world, seen) && ReadSoFar(out[..done], seen)
      modifies out
      ensures !ok ==> Places(world, address, out.Length, false) == None
      ensures ok ==> |places| == PageRun(address + done, out.Length - done) && AllSit(world, seen + places)
                     && Onward(world, address, out.Length, false, seen + places) && ReadSoFar(out[..done + |places|], seen + places)
    {
      places := [];
      hide Places, Onward, Access, Valid, AllSit, Sits, PageRun, ReadSoFar, RunFrom;
      var run := PageRun(address + done, out.Length - done);
      var start := Access(world, address + done, run, false);
      if start.None? {
        OnwardStops(world, address, out.Length, false, seen);
        return false, places;
      }
      OnwardGoes(world, address, out.Length, false, seen, start.value);
      ReadRun(out, done, start.value, run, seen);
      return true, RunFrom(start.value, run);
    }

    lemma {:induction false} ReadAll(bytes: seq<u8>, seen: seq<Place>)
      requires AllSit(world, seen) && ReadSoFar(bytes, seen)
      ensures Within(Locations(world, seen), host.Length) && bytes == Loaded(host[..], Locations(world, seen))
    {}

    /** One run into the buffer, through the space's codec. */
    method ReadRun(out: array<u8>, done: nat, start: Place, run: u64, ghost seen: seq<Place>)
      requires Valid() && out != host && done + run <= out.Length && AllSit(world, seen) && AllSit(world, RunFrom(start, run))
      requires ReadSoFar(out[..done], seen)
      modifies out
      ensures AllSit(world, seen + RunFrom(start, run)) && ReadSoFar(out[..done + run], seen + RunFrom(start, run))
    {
      ghost var all := seen;
      RunStarts(seen, start);
      hide ReadSoFar, AllSit, Sits, Valid, RunFrom;
      for index := 0 to run
        invariant AllSit(world, all) && all == seen + RunFrom(start, index) && ReadSoFar(out[..done + index], all)
      {
        RunNext(world, start, run, index, seen);
        ReadByte(out, done + index, Place(start.space, start.offset + index), all);
        all := all + [Place(start.space, start.offset + index)];
      }
    }

    method ReadByte(out: array<u8>, at: nat, place: Place, ghost seen: seq<Place>)
      requires Valid() && out != host && at < out.Length && AllSit(world, seen) && Sits(world, place) && ReadSoFar(out[..at], seen)
      modifies out
      ensures AllSit(world, seen + [place]) && ReadSoFar(out[..at + 1], seen + [place])
    {
      HostInside(world, place, host.Length);
      LocationsNext(world, seen, place);
      var space := world.spaces[place.space];
      hide Laid, Xor, Locations;
      out[at] := host[space.hostBase.value + if space.swapped then Xor(place.offset, 3) else place.offset];
      assert out[..at + 1] == out[..at] + [out[at]];
    }

    /**
     `Guest_Write`. `stored` are the bytes written: all of them on success, the runs before the one that
     failed otherwise. The code of exactly these bytes is invalidated.
     */
    method Write(address: u64, data: seq<u8>) returns (ok: bool, ghost stored: seq<Place>)
      requires Valid() && |data| < TWO_64
      modifies this`invalidated, host
      ensures ok <==> InAddressSpace(address, |data|) && Places(world, address, |data|, true).Some?
      ensures ok ==> Places(world, address, |data|, true) == Some(stored)
      ensures |stored| <= |data| && AllSit(world, stored) && WrittenSoFar(old(host[..]), data, stored)
      ensures Covered(invalidated) == Covered(old(invalidated)) + stored
    {
      stored := [];
      ghost var before, code := host[..], Covered(invalidated);
      NothingWritten(before, data);
      NothingMore(code);
      hide Covered, WrittenSoFar;
      if |data| != 0 && |data| - 1 > MAX_64 - address { return false, stored; }
      ok, stored := WriteRuns(address, data, before);
    }

    method WriteRuns(address: u64, data: seq<u8>, ghost before: seq<u8>) returns (ok: bool, ghost stored: seq<Place>)
      requires Valid() && |data| < TWO_64 && address + |data| <= TWO_64 && WrittenSoFar(before, data, [])
      modifies this`invalidated, host
      ensures ok <==> Places(world, address, |data|, true).Some?
      ensures ok ==> Places(world, address, |data|, true) == Some(stored)
      ensures |stored| <= |data| && AllSit(world, stored) && WrittenSoFar(before, data, stored)
      ensures Covered(invalidated) == Covered(old(invalidated)) + stored
    {
      stored := [];
      ghost var code := Covered(invalidated);
      NothingMore(code);
      var done := 0;
      OnwardStarts(world, address, |data|, true);
      hide Places, Onward, Access, Valid, AllSit, Sits, PageRun, WrittenSoFar, Covered, RunFrom;
      while done < |data|
        invariant Valid() && |stored| == done <= |data| && Onward(world, address, |data|, true, stored)
        invariant AllSit(world, stored) && WrittenSoFar(before, data, stored)
        invariant Covered(invalidated) == code + stored
        decreases |data| - done
      {
        ghost var places;
        ok, places := WriteNext(address, data, done, before, stored);
        if !ok { return; }
        done := done + PageRun(address + done, |data| - done);
        AppendPlaces(code, stored, places);
        stored := stored + places;
      }
      OnwardEnds(world, address, |data|, true, stored);
      return true, stored;
    }

    /** The next run, unless it may not be written; its code is invalidated. */
    method WriteNext(address: u64, data: seq<u8>, done: nat, ghost before: seq<u8>, ghost stored: seq<Place>)
        returns (ok: bool, ghost places: seq<Place>)
      requires Valid() && done < |data| < TWO_64 && address + |data| <= TWO_64
      requires |stored| == done && Onward(world, address, |data|, true, stored) && AllSit(world, stored)
      requires WrittenSoFar(before, data, stored)
      modifies this`invalidated, host
      ensures !ok ==> Places(world, address, |data|, true) == None && invalidated == old(invalidated) && WrittenSoFar(before, data, stored)
      ensures ok ==> |places| == PageRun(address + done, |data| - done) && AllSit(world, stored + places)
                     && Onward(world, address, |data|, true, stored + places)
                     && WrittenSoFar(before, data, stored + places)
                     && Covered(invalidated) == Covered(old(invalidated)) + places
    {
      places := [];
      hide Places, Onward, Access, Valid, AllSit, Sits, PageRun, WrittenSoFar, Covered, RunFrom;
      var run := PageRun(address + done, |data| - done);
      var start := Access(world, address + done, run, true);
      if start.None? {
        OnwardStops(world, address, |data|, true, stored);
        return false, places;
      }
      OnwardGoes(world, address, |data|, true, stored, start.value);
      WriteRun(before, data, done, start.value, run, stored);
      CoveredNext(invalidated, start.value, run);
      invalidated := invalidated + [Stretch(start.value, run)];
      return true, RunFrom(start.value, run);
    }

    /** Host memory is what storing the first bytes of the data at these places made of it. */
    ghost predicate WrittenSoFar(before: seq<u8>, data: seq<u8>, stored: seq<Place>)
      requires AllSit(world, stored) && |stored| <= |data|
      reads host
    {
      && |before| == host.Length && Within(Locations(world, stored), host.Length)
      && host[..] == Stored(before, Locations(world, stored), data[..|stored|])
    }

    lemma {:induction false} NothingWritten(before: seq<u8>, data: seq<u8>)
      requires before == host[..]
      ensures AllSit(world, []) && WrittenSoFar(before, data, [])
    {}

    /** One run of the data, through the space's codec. */
    method WriteRun(ghost before: seq<u8>, data: seq<u8>, done: nat, start: Place, run: u64, ghost stored: seq<Place>)
      requires Valid() && done + run <= |data| && |stored| == done && AllSit(world, stored) && AllSit(world, RunFrom(start, run))
      requires WrittenSoFar(before, data, stored)
      modifies host
      ensures AllSit(world, stored + RunFrom(start, run))
      ensures WrittenSoFar(before, data, stored + RunFrom(start, run))
    {
      ghost var all := stored;
      RunStarts(stored, start);
      hide WrittenSoFar, AllSit, Sits, Valid, RunFrom;
      for index := 0 to run
        invariant AllSit(world, all) && all == stored + RunFrom(start, index) && |all| == done + index
        invariant WrittenSoFar(before, data, all)
      {
        RunNext(world, start, run, index, stored);
        WriteByte(before, data, done + index, Place(start.space, start.offset + index), all);
        all := all + [Place(start.space, start.offset + index)];
      }
    }

    method WriteByte(ghost before: seq<u8>, data: seq<u8>, at: nat, place: Place, ghost stored: seq<Place>)
      requires Valid() && at < |data| && |stored| == at && AllSit(world, stored) && Sits(world, place)
      requires WrittenSoFar(before, data, stored)
      modifies host
      ensures AllSit(world, stored + [place]) && WrittenSoFar(before, data, stored + [place])
    {
      HostInside(world, place, host.Length);
      LocationsNext(world, stored, place);
      StoredNext(before, Locations(world, stored), data[..at], Host(world, place), data[at]);
      assert data[..at + 1] == data[..at] + [data[at]];
      var space := world.spaces[place.space];
      hide Laid, Xor, Locations, Stored;
      host[space.hostBase.value + if space.swapped then Xor(place.offset, 3) else place.offset] := data[at];
    }
  }

  lemma {:induction false} NothingMore(places: seq<Place>)
    ensures places + [] == places
  {}

  lemma {:induction false} AppendPlaces(before: seq<Place>, stored: seq<Place>, places: seq<Place>)
    ensures before + stored + places == before + (stored + places)
  {}

  lemma {:induction false} RunStarts(seen: seq<Place>, start: Place)
    ensures seen + RunFrom(start, 0) == seen
  {}

  lemma {:induction false} RunNext(world: World, start: Place, run: nat, index: nat, seen: seq<Place>)
    requires index < run && AllSit(world, RunFrom(start, run))
    ensures seen + RunFrom(start, index) + [Place(start.space, start.offset + index)] == seen + RunFrom(start, index + 1)
    ensures Sits(world, Place(start.space, start.offset + index))
  {
    assert RunFrom(start, run)[index] == Place(start.space, start.offset + index);
    assert RunFrom(start, index + 1) == RunFrom(start, index) + [Place(start.space, start.offset + index)];
  }
}
