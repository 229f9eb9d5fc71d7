/**
 Which guest bytes an access of client/src/guest.cpp reaches, byte by byte: where a run starts, when it may be
 accessed, and which host byte stands for which guest byte in a space whose words are swapped.
 */
module GuestMapping {
  import opened Machine
  import opened Options
  import opened GuestMemory

  // ---------------------------------------------------------------- runs

  /** How many bytes into the access the run of byte `k` starts: at its page, or with the access. */
  function RunStart(address: nat, k: nat): (start: nat)
    ensures start <= k
  {
    if k <= (address + k) % 4096 then 0 else k - (address + k) % 4096
  }

  /** The run from byte `k` on: to the end of its page, or of the access. */
  function RunLength(address: nat, k: nat, size: nat): nat
    requires k < size
  {
    if 4096 - (address + k) % 4096 < size - k then 4096 - (address + k) % 4096 else size - k
  }

  /** The run is mapped into host memory that it does not leave and that may be written if it is to be. */
  predicate Accessible(world: World, address: u64, run: nat, write: bool)
  {
    match world.translate(address)
    case None => false
    case Some((index, offset)) =>
      index < |world.spaces| && world.spaces[index].hostBase.Some? && offset + run <= world.spaces[index].usableSize
      && (write ==> world.spaces[index].writable)
  }

  /** Every run of the access is accessible. */
  ghost predicate AllAccessible(world: World, address: nat, size: nat, write: bool)
    requires address + size <= TWO_64
  {
    forall k: nat :: k < size && RunStart(address, k) == k ==> Accessible(world, address + k, RunLength(address, k, size), write)
  }

  /** Byte `k` is as far into its space as it is into its run, from where the run is mapped to. */
  ghost predicate Mapped(world: World, address: nat, places: seq<Place>, k: nat)
    requires k < |places| && address + |places| <= TWO_64
  {
    var start := RunStart(address, k);
    match world.translate(address + start)
    case None => false
    case Some((index, offset)) => places[k] == Place(index, offset + (k - start))
  }

  lemma {:induction false} FirstRun(address: u64, size: u64)
    requires size > 0 && address + size <= TWO_64
    ensures PageRun(address, size) == RunLength(address, 0, size)
    ensures forall k: nat :: k < PageRun(address, size) ==> RunStart(address, k) == 0
  {
    PageMask(address);
    hide And;
  }

  /** Behind the first run the runs are those of the rest of the access. */
  lemma {:induction false} LaterRuns(address: u64, size: u64, k: nat)
    requires size > 0 && address + size <= TWO_64 && PageRun(address, size) <= k < size
    ensures var run := PageRun(address, size);
            && RunStart(address, k) == run + RunStart(address + run, k - run)
            && RunLength(address, k, size) == RunLength(address + run, k - run, size - run)
  {
    hide And;
    var run := PageRun(address, size);
    Aligned(address + run, k - run);
  }

  lemma {:induction false} Aligned(page: nat, more: nat)
    requires page % 4096 == 0
    ensures (page + more) % 4096 == more % 4096 <= more
  {}

  lemma {:induction false} AccessIs(world: World, address: u64, run: u64, write: bool)
    ensures Access(world, address, run, write).Some? <==> Accessible(world, address, run, write)
    ensures Access(world, address, run, write).Some? ==>
              world.translate(address) == Some((Access(world, address, run, write).value.space, Access(world, address, run, write).value.offset))
  {}

  lemma {:induction false} AccessibleSplit(world: World, address: u64, size: u64, write: bool)
    requires size > 0 && address + size <= TWO_64
    ensures var run := PageRun(address, size);
            AllAccessible(world, address, size, write) <==>
            Accessible(world, address, run, write) && AllAccessible(world, address + run, size - run, write)
  {
    hide Accessible, PageRun;
    FirstRun(address, size);
    var run := PageRun(address, size);
    if AllAccessible(world, address, size, write) {
      assert RunStart(address, 0) == 0;
      var next := address + run;
      forall k: nat | k < size - run && RunStart(next, k) == k
        ensures Accessible(world, next + k, RunLength(next, k, size - run), write)
      {
        LaterRuns(address, size, run + k);
      }
    }
    if Accessible(world, address, run, write) && AllAccessible(world, address + run, size - run, write) {
      forall k: nat | k < size && RunStart(address, k) == k ensures Accessible(world, address + k, RunLength(address, k, size), write) {
        if k >= run { LaterRuns(address, size, k); }
      }
    }
  }

  /**
   An access reaches its bytes exactly when every run of it, from page to page, may be accessed, and then each
   byte is where its run is mapped to.
   */
  lemma {:induction false} AccessDecided(world: World, address: nat, size: u64, write: bool)
    requires address + size <= TWO_64
    ensures Places(world, address, size, write).Some? <==> AllAccessible(world, address, size, write)
    ensures Places(world, address, size, write).Some? ==>
              forall k: nat :: k < size ==> Mapped(world, address, Places(world, address, size, write).value, k)
    decreases size
  {
    if size > 0 {
      hide Access, Accessible, PageRun, RunLength, AllAccessible, Mapped, RunFrom, Sits;
      var run := PageRun(address, size);
      AccessibleSplit(world, address, size, write);
      AccessIs(world, address, run, write);
      AccessDecided(world, address + run, size - run, write);
      var all := Places(world, address, size, write);
      if all.Some? {
        var start, rest := Access(world, address, run, write).value, Places(world, address + run, size - run, write).value;
        forall k: nat | k < size ensures Mapped(world, address, all.value, k) { ByteMapped(world, address, size, start, rest, k); }
      }
    }
  }

  lemma {:induction false} ByteMapped(world: World, address: u64, size: u64, start: Place, rest: seq<Place>, k: nat)
    requires size > 0 && address + size <= TWO_64 && k < size && |rest| == size - PageRun(address, size)
    requires world.translate(address) == Some((start.space, start.offset))
    requires k >= PageRun(address, size) ==> Mapped(world, address + PageRun(address, size), rest, k - PageRun(address, size))
    ensures Mapped(world, address, RunFrom(start, PageRun(address, size)) + rest, k)
  {
    hide PageRun;
    FirstRun(address, size);
    if k >= PageRun(address, size) { LaterRuns(address, size, k); }
    hide RunStart, RunLength;
  }

  // ---------------------------------------------------------------- swapped words

  /** In a swapped space the bytes of each word of four stand in reverse; in others each byte is where it says. */
  lemma {:induction false} HostByte(world: World, index: nat, word: nat, r: nat)
    requires word % 4 == 0 && r < 4 && Sits(world, Place(index, word + r))
    ensures var space := world.spaces[index];
            Host(world, Place(index, word + r)) == space.hostBase.value + word + if space.swapped then 3 - r else r
  {
    XorThree(word + r);
    assert (word + r) % 4 == r;
    hide Xor;
  }

  /** A word read from a swapped space is the word in host memory backwards. */
  lemma {:induction false} WordReadBackwards(world: World, memory: seq<u8>, index: nat, offset: nat)
    requires Laid(world, |memory|) && index < |world.spaces| && world.spaces[index].hostBase.Some? && world.spaces[index].swapped
    requires offset % 4 == 0 && offset + 4 <= world.spaces[index].usableSize
    ensures var places := RunFrom(Place(index, offset), 4);
            var base := world.spaces[index].hostBase.value + offset;
            && AllSit(world, places) && Within(Locations(world, places), |memory|) && base + 4 <= |memory|
            && Loaded(memory, Locations(world, places)) == [memory[base + 3], memory[base + 2], memory[base + 1], memory[base]]
  {
    var places := RunFrom(Place(index, offset), 4);
    LocationsInside(world, places, |memory|);
    HostByte(world, index, offset, 0);
    HostByte(world, index, offset, 1);
    HostByte(world, index, offset, 2);
    HostByte(world, index, offset, 3);
    assert world.spaces[index] in world.spaces;
    hide Host, Laid, Sits;
    var base := world.spaces[index].hostBase.value + offset;
    assert Locations(world, places)[0] == base + 3 && Locations(world, places)[1] == base + 2;
    assert Locations(world, places)[2] == base + 1 && Locations(world, places)[3] == base;
    hide Locations;
  }
}
