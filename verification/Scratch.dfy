/**
 The scratch allocator of sdk/src/memory.cpp: a linked list of chunks, bump allocation with alignment, and
 reset. Addresses and sizes are 64-bit; what `malloc` returns is an argument, under its contract.
 */
module Scratch {
  import opened Machine
  import opened Options

  const CHUNK_SIZE: nat := 4096
  const HEADER: nat := 24  // sizeof(Chunk)

  /** `Align_Up`, with the wrap of 64-bit addition. */
  function AlignUp(value: u64, alignment: u64): u64
    requires alignment > 0
  {
    AndBelow((value + alignment - 1) % TWO_64, Not64(alignment - 1));
    And((value + alignment - 1) % TWO_64, Not64(alignment - 1))
  }

  lemma {:induction false} AndBelow(x: nat, y: nat)
    ensures And(x, y) <= x
  {}

  /** Where `Allocate` would put a block in a chunk, from the chunk's base. */
  function Place(base: u64, used: u64, capacity: u64, size: u64, alignment: u64): Option<u64>
    requires alignment > 0
  {
    var start := (AlignUp((base + used) % TWO_64, alignment) - base) % TWO_64;
    if start > capacity || size > capacity - start then None else Some(start)
  }

  lemma {:induction false} SmallMod(x: nat)
    requires x < TWO_64
    ensures x % TWO_64 == x
  {}

  lemma {:induction false} NegativeMod(x: nat)
    requires 0 < x < TWO_64
    ensures (0 - x) % TWO_64 == TWO_64 - x
  {}

  /** It puts the block at the next aligned address, exactly when that leaves room, and no addition wraps. */
  lemma {:induction false} PlaceIs(base: u64, used: u64, capacity: u64, size: u64, alignment: u64)
    requires IsPow2(alignment) && 0 < base && used <= capacity && base + capacity < TWO_64
    ensures alignment > 0
    ensures var address := RoundUp(base + used, alignment);
            Place(base, used, capacity, size, alignment) == if address + size <= base + capacity then Some(address - base) else None
    ensures base + used <= RoundUp(base + used, alignment) && RoundUp(base + used, alignment) % alignment == 0
  {
    assert alignment > 0;
    hide *;
    PlaceAt(base, used, capacity, size, alignment, RoundUp(base + used, alignment));
    RoundUpFacts(base + used, alignment);
  }

  lemma {:induction false} PlaceAt(base: u64, used: u64, capacity: u64, size: u64, alignment: u64, address: nat)
    requires IsPow2(alignment) && 0 < base && used <= capacity && base + capacity < TWO_64
    requires alignment > 0 && address == RoundUp(base + used, alignment)
    ensures Place(base, used, capacity, size, alignment) == if address + size <= base + capacity then Some(address - base) else None
  {
    hide AlignUp, RoundUp, IsPow2, Place;
    var v := base + used;
    RoundUpAbove(v, alignment);
    if v + alignment - 1 < TWO_64 {
      AlignsUp(v, alignment);
      PlaceFrom(base, used, capacity, size, alignment, address);
    } else {
      Wraps(v, alignment, base, capacity);
      PlaceBeyond(base, used, capacity, size, alignment);
    }
  }

  lemma {:induction false} RoundUpAbove(v: nat, alignment: u64)
    requires alignment > 0
    ensures v <= RoundUp(v, alignment)
  {
    RoundUpFacts(v, alignment);
  }

  lemma {:induction false} PlaceFrom(base: u64, used: u64, capacity: u64, size: u64, alignment: u64, address: u64)
    requires alignment > 0 && base + capacity < TWO_64 && used <= capacity && base <= address
    requires AlignUp(base + used, alignment) == address
    ensures Place(base, used, capacity, size, alignment) == if address + size <= base + capacity then Some(address - base) else None
  {
    hide AlignUp;
    SmallMod(base + used);
    SmallMod(address - base);
  }

  lemma {:induction false} PlaceBeyond(base: u64, used: u64, capacity: u64, size: u64, alignment: u64)
    requires alignment > 0 && base + capacity < TWO_64 && used <= capacity
    requires (AlignUp(base + used, alignment) - base) % TWO_64 > capacity
    ensures Place(base, used, capacity, size, alignment) == None
  {
    hide AlignUp;
    SmallMod(base + used);
  }

  lemma {:induction false} AlignsUp(v: nat, alignment: u64)
    requires IsPow2(alignment) && v + alignment - 1 < TWO_64
    ensures alignment > 0 && AlignUp(v, alignment) == RoundUp(v, alignment) < TWO_64
  {
    SmallMod(v + alignment - 1);
    MaskRounds(v + alignment - 1, alignment);
    hide And, IsPow2;
  }

  /** When the rounding wraps, the start comes out beyond the end of the chunk, and so does the true one. */
  lemma {:induction false} Wraps(v: nat, alignment: u64, base: u64, capacity: u64)
    requires IsPow2(alignment) && 0 < base <= v <= base + capacity < TWO_64 <= v + alignment - 1
    ensures alignment > 0 && (AlignUp(v, alignment) - base) % TWO_64 > capacity
    ensures RoundUp(v, alignment) >= TWO_64
  {
    WrapsToZero(v, alignment);
    DividesAddressSpace(alignment);
    RoundUpUnique(v, alignment, TWO_64);
    NegativeMod(base);
    hide AlignUp, RoundUp, IsPow2;
  }

  lemma {:induction false} WrapsToZero(v: nat, alignment: u64)
    requires IsPow2(alignment) && v < TWO_64 <= v + alignment - 1
    ensures alignment > 0 && AlignUp(v, alignment) == 0
  {
    hide And;
    var w := v + alignment - 1 - TWO_64;
    WrapsOnce(v + alignment - 1);
    MaskRounds(w, alignment);
    SmallModAny(w, alignment);
  }

  lemma {:induction false} WrapsOnce(x: nat)
    requires TWO_64 <= x < 2 * TWO_64
    ensures x % TWO_64 == x - TWO_64
  {}

  lemma {:induction false} SmallModAny(x: nat, m: nat)
    requires x < m
    ensures x % m == x
  {}

  /** A 64-bit power of two divides the size of the address space. */
  lemma {:induction false} DividesAddressSpace(alignment: u64)
    requires IsPow2(alignment)
    ensures alignment > 0 && TWO_64 % alignment == 0
  {
    var k := Log2(alignment);
    Pow2Of64();
    if k > 64 { Pow2Monotone(64, k); assert false; }
    Pow2Sum(64 - k, k);
    MultipleMod(Pow2(64 - k), alignment);
  }

  // ---------------------------------------------------------------- requests

  /** Alignments below 16 count as 16. */
  function Alignment(alignment: u64): u64 { if alignment < 16 then 16 else alignment }

  /** The sizes that `Scratch_Alloc` does not turn down. */
  predicate Askable(size: u64, alignment: u64)
  {
    var a := Alignment(alignment);
    IsPow2(a) && a <= MAX_64 - HEADER && size <= MAX_64 - HEADER - a
  }

  /** They are those whose alignment is at most 16 or a power of two, and whose size with it and a header fits 64 bits. */
  lemma {:induction false} AskableMeans(size: u64, alignment: u64)
    ensures Askable(size, alignment) <==>
            (alignment <= 16 || IsPow2(alignment)) && 24 + size + Max(16, alignment) <= 0xFFFF_FFFF_FFFF_FFFF
  {
    assert IsPow2(16) by { assert IsPow2(8) && IsPow2(4) && IsPow2(2); }
  }

  function Capacity(size: u64, alignment: u64): nat
  {
    var required := HEADER + size + Alignment(alignment);
    if required > CHUNK_SIZE then required else CHUNK_SIZE
  }

  /** A fresh chunk of that capacity has room for the block it was made for. */
  lemma {:induction false} FreshChunkFits(base: u64, size: u64, alignment: u64)
    requires Askable(size, alignment) && 0 < base && base + Capacity(size, alignment) < TWO_64
    ensures Place(base, HEADER, Capacity(size, alignment), size, Alignment(alignment))
            == Some(RoundUp(base + HEADER, Alignment(alignment)) - base)
  {
    var a := Alignment(alignment);
    PlaceIs(base, HEADER, Capacity(size, alignment), size, a);
    RoundUpFacts(base + HEADER, a);
    hide Place, RoundUp, IsPow2;
  }

  // ---------------------------------------------------------------- chunks and blocks

  class Chunk {
    const base: u64
    const capacity: u64
    var next: Chunk?
    var used: u64

    constructor (base: u64, capacity: u64)
      ensures this.base == base && this.capacity == capacity && next == null && used == HEADER
    {
      this.base, this.capacity, next, used := base, capacity, null, HEADER;
    }
  }

  /** A block handed out since the last reset, and the number of its chunk. */
  datatype Block = Block(home: nat, address: u64, size: u64, alignment: u64)

  ghost predicate Apart(a: u64, m: nat, b: u64, n: nat)
  {
    a + m <= b || b + n <= a
  }

  ghost predicate Fits(chunk: Chunk)
    reads chunk`used
  {
    0 < chunk.base && HEADER <= chunk.used <= chunk.capacity && chunk.base + chunk.capacity < TWO_64
  }

  /** The chunks are a list in this order. */
  ghost predicate Strung(chunks: seq<Chunk>)
    reads chunks`next
  {
    && (forall i, j :: 0 <= i < j < |chunks| ==> chunks[i] != chunks[j])
    && (forall i :: 0 <= i < |chunks| ==> chunks[i].next == if i + 1 < |chunks| then chunks[i + 1] else null)
  }

  /** They are in separate places in memory. */
  ghost predicate Separate(chunks: seq<Chunk>)
  {
    forall i, j :: 0 <= i < j < |chunks| ==> Apart(chunks[i].base, chunks[i].capacity, chunks[j].base, chunks[j].capacity)
  }

  /** Each is a header and some of the rest used. */
  ghost predicate AllFit(chunks: seq<Chunk>)
    reads chunks`used
  {
    forall i :: 0 <= i < |chunks| ==> Fits(chunks[i])
  }

  /** Aligned, behind the header of its chunk, and within what is used of it. */
  ghost predicate Inside(block: Block, chunks: seq<Chunk>)
    reads chunks`used
  {
    && block.home < |chunks| && block.alignment > 0 && block.address % block.alignment == 0
    && chunks[block.home].base + HEADER <= block.address
    && block.address + block.size <= chunks[block.home].base + chunks[block.home].used
  }

  ghost predicate Sound(blocks: seq<Block>, chunks: seq<Chunk>)
    reads chunks`used
  {
    && (forall b <- blocks :: Inside(b, chunks))
    && (forall i, j :: 0 <= i < j < |blocks| ==> Apart(blocks[i].address, blocks[i].size, blocks[j].address, blocks[j].size))
  }

  /** The list has one more chunk, where `malloc` put it. */
  ghost predicate Extended(was: seq<Chunk>, now: seq<Chunk>, heap: Option<u64>, capacity: nat)
  {
    |now| == |was| + 1 && now[..|was|] == was && heap == Some(now[|was|].base) && now[|was|].capacity == capacity
  }

  /** The addresses are free: `malloc` may return them. */
  ghost predicate Free(base: u64, capacity: nat, chunks: seq<Chunk>)
  {
    0 < base && base + capacity < TWO_64
    && forall i :: 0 <= i < |chunks| ==> Apart(base, capacity, chunks[i].base, chunks[i].capacity)
  }

  class Arena {
    var first: Chunk?
    var current: Chunk?
    ghost var chunks: seq<Chunk>
    ghost var blocks: seq<Block>

    ghost predicate Valid()
      reads this, chunks
    {
      && first == (if chunks == [] then null else chunks[0])
      && current == (if chunks == [] then null else chunks[|chunks| - 1])
      && Strung(chunks) && Separate(chunks) && AllFit(chunks) && Sound(blocks, chunks)
    }

    constructor ()
      ensures Valid() && chunks == [] && blocks == []
    {
      first, current, chunks, blocks := null, null, [], [];
    }

    /** `Allocate` in the current chunk, if there is one and it has room. */
    method Allocate(size: u64, alignment: u64) returns (address: Option<u64>)
      requires Valid() && IsPow2(alignment)
      modifies this`blocks, chunks
      ensures Valid() && chunks == old(chunks)
      ensures address.Some? <==> current != null && Place(current.base, old(current.used), current.capacity, size, alignment).Some?
      ensures address.None? ==> blocks == old(blocks) && forall c <- chunks :: c.used == old(c.used)
      ensures address.Some? ==> blocks == old(blocks) + [Block(|chunks| - 1, address.value, size, alignment)]
                                && address.value == RoundUp(current.base + old(current.used), alignment)
                                && current.base + current.used == address.value + size
    {
      if current == null { return None; }
      PlaceIs(current.base, current.used, current.capacity, size, alignment);
      var start := Place(current.base, current.used, current.capacity, size, alignment);
      if start.None? { return None; }
      hide Place, RoundUp, IsPow2;
      assert Fits(chunks[|chunks| - 1]);
      var at := current.base + start.value;
      Bump(Block(|chunks| - 1, at, size, alignment), start.value + size);
      return Some(at);
    }

    /** The block at the end of the current chunk is taken. */
    method Bump(ghost block: Block, used: u64)
      requires current != null && Valid() && block.home == |chunks| - 1 && block.alignment > 0 && block.address % block.alignment == 0
      requires current.base + current.used <= block.address && block.address + block.size == current.base + used
      requires used <= current.capacity
      modifies this`blocks, current`used
      ensures Valid() && chunks == old(chunks) && blocks == old(blocks) + [block] && current.used == used
    {
      forall i | 0 <= i < |blocks| ensures Apart(blocks[i].address, blocks[i].size, block.address, block.size) {
        NewIsApart(blocks[i], block);
      }
      ghost var n := |chunks| - 1;
      assert Fits(chunks[n]);
      current.used := used;
      hide Apart, Separate, Strung;
      forall i | 0 <= i < |chunks| ensures Fits(chunks[i]) { assert old(Fits(chunks[i])); }
      forall b <- blocks ensures Inside(b, chunks) { assert old(Inside(b, chunks)); }
      assert chunks[n] == current && Inside(block, chunks);
      blocks := blocks + [block];
    }

    /** Older blocks of the chunk end before what was used, and other chunks are elsewhere. */
    lemma {:induction false} NewIsApart(older: Block, block: Block)
      requires Valid() && chunks != [] && block.home == |chunks| - 1 && older in blocks
      requires current != null && current.base + current.used <= block.address
      requires block.address + block.size <= current.base + current.capacity
      ensures Apart(older.address, older.size, block.address, block.size)
    {
      assert Inside(older, chunks);
      assert Fits(chunks[older.home]) && Fits(chunks[block.home]);
      if older.home < block.home {
        assert Apart(chunks[older.home].base, chunks[older.home].capacity, chunks[block.home].base, chunks[block.home].capacity);
      }
    }

    /** A new chunk at the end of the list. */
    method AddChunk(base: u64, capacity: u64)
      requires Valid() && Free(base, capacity, chunks) && HEADER <= capacity
      modifies this`first, this`current, this`chunks, chunks`next
      ensures Valid() && |chunks| == |old(chunks)| + 1 && chunks[..|old(chunks)|] == old(chunks) && fresh(chunks[|old(chunks)|])
      ensures current != null && current.base == base && current.capacity == capacity && current.used == HEADER
      ensures blocks == old(blocks)
    {
      var chunk := new Chunk(base, capacity);
      SeparateNext(chunks, chunk);
      SoundNext(blocks, chunks, chunk);
      AllFitNext(chunks, chunk);
      hide Apart, Sound, Fits, AllFit, Separate, Free, Strung;
      Link(chunk);
    }

    /** The chunk becomes the last of the list. */
    method Link(chunk: Chunk)
      requires Strung(chunks) && chunk !in chunks && chunk.next == null
      requires first == (if chunks == [] then null else chunks[0]) && current == (if chunks == [] then null else chunks[|chunks| - 1])
      modifies this`first, this`current, this`chunks, chunks`next
      ensures Strung(chunks) && chunks == old(chunks) + [chunk] && current == chunk && first == chunks[0]
    {
      if first == null {
        first := chunk;
      } else {
        assert current in chunks;
        current.next := chunk;
      }
      current := chunk;
      chunks := chunks + [chunk];
    }

    /**
     `Scratch_Alloc`; `heap` is what `malloc` answers if it is asked. A request that is not turned down fails
     only when the current chunk has no room and there is no memory for another. The block is at the next aligned
     address of the current chunk, or else of a new one, of at least 4096 bytes, at the end of the list.
     */
    method Alloc(size: u64, alignment: u64, heap: Option<u64>) returns (address: Option<u64>)
      requires Valid() && (heap.Some? ==> Free(heap.value, Capacity(size, alignment), chunks))
      modifies this, chunks
      ensures Valid()
      ensures address.Some? <==>
              Askable(size, alignment) &&
              (heap.Some? || (old(current) != null &&
                 Place(old(current).base, old(current.used), old(current).capacity, size, Alignment(alignment)).Some?))
      ensures address.Some? ==> chunks != [] && blocks == old(blocks) + [Block(|chunks| - 1, address.value, size, Alignment(alignment))]
      ensures address.None? ==> blocks == old(blocks) && chunks == old(chunks)
      ensures address.Some? ==>
                if old(current) != null && Place(old(current).base, old(current.used), old(current).capacity, size, Alignment(alignment)).Some?
                then chunks == old(chunks) && address.value == RoundUp(old(current).base + old(current.used), Alignment(alignment))
                else Extended(old(chunks), chunks, heap, Max(4096, 24 + size + Max(16, alignment)))
                     && address.value == RoundUp(heap.value + 24, Alignment(alignment))
    {
      var a := Alignment(alignment);
      MaskTest(a);
      if And(a, a - 1) != 0 || a > MAX_64 - HEADER || size > MAX_64 - HEADER - a { return None; }
      hide And, IsPow2, Place, Strung, Separate, AllFit, Sound, Apart;
      address := Allocate(size, a);
      if address.Some? || heap.None? { return; }
      address := Grow(size, alignment, heap.value);
    }

    /** A chunk made for a block always has room for it. */
    method Grow(size: u64, alignment: u64, base: u64) returns (address: Option<u64>)
      requires Valid() && Askable(size, alignment) && Free(base, Capacity(size, alignment), chunks)
      modifies this, chunks
      ensures Valid() && address.Some? && chunks != []
      ensures blocks == old(blocks) + [Block(|chunks| - 1, address.value, size, Alignment(alignment))]
      ensures Extended(old(chunks), chunks, Some(base), Capacity(size, alignment)) && address.value == RoundUp(base + HEADER, Alignment(alignment))
    {
      FreshChunkFits(base, size, alignment);
      hide Place, IsPow2, RoundUp, Strung, Separate, AllFit, Sound, Apart;
      AddChunk(base, Capacity(size, alignment));
      address := Allocate(size, Alignment(alignment));
    }

    /** `Scratch_Reset`: every chunk but the first goes, and the first is empty. */
    method Reset() returns (freed: seq<Chunk>)
      requires Valid()
      modifies this, chunks
      ensures Valid() && blocks == []
      ensures chunks == (if old(chunks) == [] then [] else [old(chunks)[0]]) && chunks + freed == old(chunks)
      ensures first == old(first) && forall c <- chunks :: c.used == HEADER
    {
      var chunk := if first != null then first.next else null;
      freed := [];
      ghost var n := if chunks == [] then 0 else 1;
      while chunk != null
        invariant n <= |chunks| && chunk == (if n < |chunks| then chunks[n] else null)
        invariant chunks != [] ==> n >= 1 && freed == chunks[1..n]
        invariant chunks == [] ==> freed == []
        decreases |chunks| - n
      {
        freed := freed + [chunk];
        chunk := chunk.next;
        n := n + 1;
      }
      if first != null {
        assert Fits(chunks[0]);
        first.next := null;
        first.used := HEADER;
        chunks := [first];
      }
      current := first;
      blocks := [];
    }

    /** `Scratch_Release`: nothing is left. */
    method ReleaseAll() returns (freed: seq<Chunk>)
      requires Valid()
      modifies this, chunks
      ensures Valid() && chunks == [] && blocks == [] && first == null && current == null
      ensures multiset(freed) == multiset(old(chunks))
    {
      freed := Reset();
      if first != null { freed := [first] + freed; }
      first, current, chunks := null, null, [];
    }
  }

  lemma {:induction false} SeparateNext(chunks: seq<Chunk>, chunk: Chunk)
    requires Separate(chunks) && Free(chunk.base, chunk.capacity, chunks)
    ensures Separate(chunks + [chunk])
  {
    hide Apart;
    forall i | 0 <= i < |chunks| ensures Apart(chunks[i].base, chunks[i].capacity, chunk.base, chunk.capacity) {
      ApartBothWays(chunk.base, chunk.capacity, chunks[i].base, chunks[i].capacity);
    }
  }

  lemma {:induction false} AllFitNext(chunks: seq<Chunk>, chunk: Chunk)
    requires AllFit(chunks) && Fits(chunk)
    ensures AllFit(chunks + [chunk])
  {}

  lemma {:induction false} SoundNext(blocks: seq<Block>, chunks: seq<Chunk>, chunk: Chunk)
    requires Sound(blocks, chunks)
    ensures Sound(blocks, chunks + [chunk])
  {
    forall b <- blocks ensures Inside(b, chunks + [chunk]) { assert Inside(b, chunks); }
  }

  lemma {:induction false} ApartBothWays(a: u64, m: nat, b: u64, n: nat)
    ensures Apart(a, m, b, n) == Apart(b, n, a, m)
  {}
}
