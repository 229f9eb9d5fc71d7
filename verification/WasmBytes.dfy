/**
 Relocatable objects of client/src/wasm_object.cpp byte by byte: what a number, a symbol of each kind and a
 whole object read as, and what the object becomes, against the encodings themselves.
 */
module WasmBytes {
  import opened Machine
  import opened Options
  import opened Leb128
  import opened WasmObject
  import opened WasmRoundTrip

  // ---------------------------------------------------------------- numbers

  /** The seven-bit groups of the first `n` bytes, each at its weight, the first one lowest. */
  function Weighted(b: Bytes, n: nat): nat
    requires n <= |b|
  {
    if n == 0 then 0 else Weighted(b, n - 1) + b[n - 1] % 128 * Pow2(7 * (n - 1))
  }

  lemma {:induction false} WeightedHead(b: Bytes, n: nat)
    requires 0 < n <= |b|
    ensures Weighted(b, n) == b[0] % 128 + 128 * Weighted(b[1..], n - 1)
  {
    if n > 1 {
      WeightedHead(b, n - 1);
      Pow2Seven(7 * (n - 2));
      assert 7 * (n - 2) + 7 == 7 * (n - 1);
      var x, w := b[n - 1] % 128, Pow2(7 * (n - 2));
      assert x * (128 * w) == 128 * (x * w);
    } else {
      assert Pow2(0) == 1;
    }
  }

  /**
   A number of `bits` bits is read exactly when some byte below 128 ends it and its groups are worth less than
   2^bits in that many bits' groups; it is worth its groups, and the rest is left.
   */
  lemma {:induction false} NumberMeans(bits: nat, b: Bytes, n: nat)
    requires bits > 0 && 0 < n <= |b| && b[n - 1] < 128 && forall k :: 0 <= k < n - 1 ==> b[k] >= 128
    ensures Decode(bits, b) == if 7 * (n - 1) < bits && Weighted(b, n) < Pow2(bits) then Done(Weighted(b, n), b[n..]) else Fail
    decreases n
  {
    WeightedHead(b, n);
    if n > 1 {
      if bits > 7 {
        NumberMeans(bits - 7, b[1..], n - 1);
        Pow2Seven(bits - 7);
        assert b[1..][n - 1..] == b[n..];
      }
    } else {
      assert Weighted(b[1..], 0) == 0;
    }
  }

  /** Bytes that never end are no number. */
  lemma {:induction false} NumberMustEnd(bits: nat, b: Bytes)
    requires forall x <- b :: x >= 128
    ensures Decode(bits, b).Fail?
    decreases |b|
  {
    if b != [] {
      assert b[0] in b && forall x <- b[1..] :: x in b;
      if bits > 7 { NumberMustEnd(bits - 7, b[1..]); }
    }
  }

  // ---------------------------------------------------------------- symbols

  /** A function, global, tag or table: its index, and a name exactly if it is defined or bit 6 says so. */
  lemma {:induction false} IndexedSymbolRead(kind: u8, flags: u32, index: u32, name: Bytes, rest: Bytes)
    requires kind in {0, 2, 4, 5} && |name| < TWO_32
    ensures ReadSymbol([kind] + Encode(flags) + Encode(index) + (EncodeText(name) + rest)) ==
            if !TestBit(flags, 4) || TestBit(flags, 6) then Done(Indexed(kind, flags, index, Some(name)), rest)
            else Done(Indexed(kind, flags, index, None), EncodeText(name) + rest)
  {
    hide Decode32, Encode, EncodeText, DecodeText, ReadIndexed, ReadData, Named, TestBit;
    var text := EncodeText(name) + rest;
    assert [kind] + Encode(flags) + Encode(index) + text == [kind] + Encode(flags) + (Encode(index) + text);
    HeadBack(kind, flags, Encode(index) + text);
    IndexedRead(kind, flags, index, name, rest);
  }

  lemma {:induction false} IndexedRead(kind: u8, flags: u32, index: u32, name: Bytes, rest: Bytes)
    requires |name| < TWO_32
    ensures ReadIndexed(kind, flags, Encode(index) + (EncodeText(name) + rest)) ==
            if !TestBit(flags, 4) || TestBit(flags, 6) then Done(Indexed(kind, flags, index, Some(name)), rest)
            else Done(Indexed(kind, flags, index, None), EncodeText(name) + rest)
  {
    hide Decode32, Encode, EncodeText, DecodeText, Named, Defined, Private, TestBit;
    Decode32Back(index, EncodeText(name) + rest);
    DecodeEncodeText(name, rest);
    FlagBits(flags);
  }

  /** A data symbol: its name, and a range exactly if it is defined. */
  lemma {:induction false} DataSymbolRead(flags: u32, name: Bytes, range: Range, rest: Bytes)
    requires |name| < TWO_32
    ensures var tail := Encode(range.segment) + Encode(range.offset) + Encode(range.size) + rest;
            ReadSymbol([1] + Encode(flags) + (EncodeText(name) + tail)) ==
            if !TestBit(flags, 4) then Done(Data(flags, name, Some(range)), rest) else Done(Data(flags, name, None), tail)
  {
    hide Decode32, Encode, EncodeText, DecodeText, Named, Defined, Private, TestBit, ReadRange;
    var tail := Encode(range.segment) + Encode(range.offset) + Encode(range.size) + rest;
    HeadBack(1, flags, EncodeText(name) + tail);
    DecodeEncodeText(name, tail);
    RangeBack(range, rest);
    FlagBits(flags);
  }

  /** A section symbol: its index, and never a name. */
  lemma {:induction false} SectionSymbolRead(flags: u32, index: u32, rest: Bytes)
    ensures ReadSymbol([3] + Encode(flags) + (Encode(index) + rest)) == Done(OfSection(flags, index), rest)
  {
    hide Decode32, Encode;
    HeadBack(3, flags, Encode(index) + rest);
    Decode32Back(index, rest);
  }

  /** There are no other symbols. */
  lemma {:induction false} OtherSymbolsRefused(kind: u8, b: Bytes)
    requires kind > 5
    ensures ReadSymbol([kind] + b).Fail? && ReadSymbol([]).Fail?
  {
    hide Decode32;
  }

  // ---------------------------------------------------------------- an object

  /** "__modloader_private.1.m." */
  const PRIVATE_M: Bytes := [95, 95, 109, 111, 100, 108, 111, 97, 100, 101, 114, 95, 112, 114, 105, 118, 97, 116, 101, 46, 49, 46, 109, 46]

  /** Symbols of all shapes, the private one with this in front of its name. */
  function SymbolsWith(prefix: Bytes): seq<Symbol>
  {
    [Indexed(0, 4, 0, Some(prefix + [97])),      // a private function "a"
     Indexed(0, 80, 1, Some([98])),              // an undefined function that is called "b"
     Indexed(2, 16, 1, None),                    // an undefined global
     Data(36, [100], Some(Range(0, 4, 8))),      // exported data "d"
     Data(20, [101], None),                      // undefined data "e"
     OfSection(4, 2)]
  }

  function SubsectionsWith(prefix: Bytes): seq<Subsection>
  {
    [Symbols(SymbolsWith(prefix)), Other(5, [1, 2]), Comdats([Comdat(prefix + [99], 0, [Entry(1, 7)])])]
  }

  /** A type section, a custom section, and a linking section. */
  function ObjectWith(prefix: Bytes): Object
  {
    [Plain(1, [0]), Plain(0, [1, 120, 9]), Linking(SubsectionsWith(prefix))]
  }

  function SymbolTableWith(prefix: Bytes): Bytes
    requires |prefix| <= 24
  {
    [6] + (([0, 4, 0, 1 + |prefix|] + prefix + [97]) + [0, 80, 1, 1, 98] + [2, 16, 1] + [1, 36, 1, 100, 0, 4, 8] + [1, 20, 1, 101] + [3, 4, 2])
  }

  function ComdatTableWith(prefix: Bytes): Bytes
    requires |prefix| <= 24
  {
    [1, 1 + |prefix|] + prefix + [99, 0, 1, 1, 7]
  }

  function LinkingWith(prefix: Bytes): Bytes
    requires |prefix| <= 24
  {
    [7, 108, 105, 110, 107, 105, 110, 103, 2]
    + ([8, 28 + |prefix|] + SymbolTableWith(prefix)) + [5, 2, 1, 2] + ([7, 7 + |prefix|] + ComdatTableWith(prefix))
  }

  function BytesWith(prefix: Bytes): Bytes
    requires |prefix| <= 24
  {
    [0, 97, 115, 109, 1, 0, 0, 0] + [1, 1, 0] + [0, 3, 1, 120, 9] + ([0, 52 + 2 * |prefix|] + LinkingWith(prefix))
  }

  lemma {:induction false} Small(n: nat)
    requires n < 128
    ensures Encode(n) == [n]
  {}

  lemma {:induction false} WriteThree<T>(write: T -> Bytes, x: T, y: T, z: T)
    ensures WriteAll(write, [x, y, z]) == write(x) + write(y) + write(z)
  {
    WriteTwo(write, y, z);
    assert [x, y, z][1..] == [y, z];
  }

  lemma {:induction false} SymbolBytes(prefix: Bytes)
    requires |prefix| <= 24
    ensures var s := SymbolsWith(prefix);
            && WriteSymbol(s[0]) == [0, 4, 0, 1 + |prefix|] + prefix + [97]
            && WriteSymbol(s[1]) == [0, 80, 1, 1, 98]
            && WriteSymbol(s[2]) == [2, 16, 1]
            && WriteSymbol(s[3]) == [1, 36, 1, 100, 0, 4, 8]
            && WriteSymbol(s[4]) == [1, 20, 1, 101]
            && WriteSymbol(s[5]) == [3, 4, 2]
  {
    TextBytes(prefix + [97]);
    TextBytes([98]);
    TextBytes([100]);
    TextBytes([101]);
    hide EncodeText;
  }

  lemma {:induction false} SymbolsBytes(prefix: Bytes)
    requires |prefix| <= 24
    ensures [6] + WriteAll(WriteSymbol, SymbolsWith(prefix)) == SymbolTableWith(prefix)
  {
    SymbolBytes(prefix);
    hide WriteSymbol;
    WriteSix(WriteSymbol, SymbolsWith(prefix));
    hide WriteAll, SymbolsWith;
  }

  lemma {:induction false} WriteSix<T>(write: T -> Bytes, s: seq<T>)
    requires |s| == 6
    ensures WriteAll(write, s) == write(s[0]) + write(s[1]) + write(s[2]) + write(s[3]) + write(s[4]) + write(s[5])
  {
    WriteThree(write, s[3], s[4], s[5]);
    assert s[1..][1..][1..] == [s[3], s[4], s[5]];
    assert WriteAll(write, s[1..]) == write(s[1]) + WriteAll(write, s[1..][1..]);
    assert WriteAll(write, s[1..][1..]) == write(s[2]) + WriteAll(write, s[1..][1..][1..]);
  }

  lemma {:induction false} ComdatsBytes(prefix: Bytes)
    requires |prefix| <= 24
    ensures ToBlock(SubsectionsWith(prefix)[2]) == Block(7, ComdatTableWith(prefix))
  {
    var comdat := Comdat(prefix + [99], 0, [Entry(1, 7)]);
    TextBytes(comdat.name);
    WriteOne(WriteEntry, Entry(1, 7));
    Small(0);
    Small(1);
    Small(7);
    hide Encode, EncodeText;
    assert WriteComdat(comdat) == [1 + |prefix|] + prefix + [99, 0, 1, 1, 7];
    hide WriteComdat;
    WriteOne(WriteComdat, comdat);
    hide WriteAll;
  }

  lemma {:induction false} TableBytes(prefix: Bytes)
    requires |prefix| <= 24
    ensures ToBlock(SubsectionsWith(prefix)[0]) == Block(8, SymbolTableWith(prefix))
  {
    SymbolsBytes(prefix);
    hide WriteAll, WriteSymbol;
    Small(6);
    assert |SymbolsWith(prefix)| == 6;
    hide Encode, SymbolsWith, SymbolTableWith;
  }

  lemma {:induction false} BlockBytes(block: Block)
    requires |block.payload| < 128
    ensures WriteBlock(block) == [block.kind, |block.payload|] + block.payload
  {
    TextBytes(block.payload);
    hide EncodeText;
  }

  lemma {:induction false} SubsectionsBytes(prefix: Bytes)
    requires |prefix| <= 24
    ensures WriteAll(WriteSubsection, SubsectionsWith(prefix)) ==
            ([8, 28 + |prefix|] + SymbolTableWith(prefix)) + [5, 2, 1, 2] + ([7, 7 + |prefix|] + ComdatTableWith(prefix))
  {
    var s := SubsectionsWith(prefix);
    ComdatsBytes(prefix);
    TableBytes(prefix);
    assert |SymbolTableWith(prefix)| == 28 + |prefix| && |ComdatTableWith(prefix)| == 7 + |prefix|;
    assert ToBlock(s[1]) == Block(5, [1, 2]);
    assert s == [s[0], s[1], s[2]];
    hide ToBlock, ComdatTableWith, SymbolTableWith, SubsectionsWith;
    BlockBytes(ToBlock(s[0]));
    BlockBytes(ToBlock(s[1]));
    BlockBytes(ToBlock(s[2]));
    hide WriteBlock;
    assert WriteSubsection(s[0]) == [8, 28 + |prefix|] + SymbolTableWith(prefix);
    assert WriteSubsection(s[1]) == [5, 2, 1, 2];
    assert WriteSubsection(s[2]) == [7, 7 + |prefix|] + ComdatTableWith(prefix);
    hide WriteSubsection;
    WriteThree(WriteSubsection, s[0], s[1], s[2]);
  }

  lemma {:induction false} LinkingBytes(prefix: Bytes)
    requires |prefix| <= 24
    ensures SectionBlock(Linking(SubsectionsWith(prefix))) == Block(0, LinkingWith(prefix))
  {
    SubsectionsBytes(prefix);
    hide WriteAll, WriteSubsection, SubsectionsWith;
    TextBytes(LINKING);
    Small(2);
    assert |LINKING| == 7;
    hide EncodeText, Encode, LINKING;
    LinkingJoined([8, 28 + |prefix|] + SymbolTableWith(prefix), [5, 2, 1, 2], [7, 7 + |prefix|] + ComdatTableWith(prefix));
    hide SymbolTableWith, ComdatTableWith;
  }

  lemma {:induction false} LinkingJoined(a: Bytes, b: Bytes, c: Bytes)
    ensures [7] + LINKING + ([2] + (a + b + c)) == [7, 108, 105, 110, 107, 105, 110, 103, 2] + a + b + c
  {
    assert [7] + LINKING + [2] == [7, 108, 105, 110, 107, 105, 110, 103, 2];
  }

  lemma {:induction false} ObjectBytes(prefix: Bytes)
    requires |prefix| <= 24
    ensures Write(ObjectWith(prefix)) == BytesWith(prefix) && Fits(ObjectWith(prefix))
  {
    var o := ObjectWith(prefix);
    LinkingBytes(prefix);
    assert SectionBlock(o[0]) == Block(1, [0]) && SectionBlock(o[1]) == Block(0, [1, 120, 9]);
    assert |LinkingWith(prefix)| == 52 + 2 * |prefix|;
    hide SectionBlock, LinkingWith, SubsectionsWith;
    BlockBytes(SectionBlock(o[0]));
    BlockBytes(SectionBlock(o[1]));
    BlockBytes(SectionBlock(o[2]));
    hide WriteBlock;
    WriteThree(WriteSection, o[0], o[1], o[2]);
    assert o == [o[0], o[1], o[2]];
    hide WriteAll, WriteSection;
  }

  lemma {:induction false} BitsOf()
    ensures !TestBit(4, 4) && TestBit(4, 2) && !TestBit(4, 5)
    ensures TestBit(80, 4) && TestBit(80, 6) && TestBit(16, 4) && !TestBit(16, 6) && TestBit(20, 4)
    ensures !TestBit(36, 4) && TestBit(36, 5)
  {}

  lemma {:induction false} ObjectGood(prefix: Bytes)
    ensures Good(ObjectWith(prefix))
  {
    BitsOf();
    hide TestBit;
    assert GoodSubsection(Symbols(SymbolsWith(prefix)));
    var s := SubsectionsWith(prefix);
    OneOf(s);
    assert GoodLinking(s) by { hide GoodSubsection, SymbolsWith; assert GoodSubsection(s[0]); }
    CustomSection();
    hide GoodLinking, SubsectionsWith;
    OneLinking(ObjectWith(prefix));
  }

  lemma {:induction false} OneOf(s: seq<Subsection>)
    requires |s| == 3 && s[0].Symbols? && !s[1].Symbols? && !s[2].Symbols?
    ensures Tables(s) == 1
  {
    assert s[..1][..0] == [] && Tables(s[..1]) == 1;
    assert s[..2][..1] == s[..1] && Tables(s[..2]) == 1;
  }

  lemma {:induction false} OneLinking(o: Object)
    requires |o| == 3 && !o[0].Linking? && !o[1].Linking? && o[2].Linking?
    ensures Linkings(o) == 1
  {
    assert o[..1][..0] == [] && Linkings(o[..1]) == 0;
    assert o[..2][..1] == o[..1] && Linkings(o[..2]) == 0;
  }

  lemma {:induction false} CustomSection()
    ensures DecodeText([1, 120, 9]) == Done([120], [9]) && !IsLinking([120])
  {
    TextBytes([120]);
    assert [1, 120, 9] == EncodeText([120]) + [9];
    DecodeEncodeText([120], [9]);
  }

  lemma {:induction false} PrefixM()
    ensures Prefix([109]) == PRIVATE_M
  {
    assert Decimal(1) == [49];
    assert Ascii("__modloader_private.") == PRIVATE_M[..20];
  }

  lemma {:induction false} RenamedSymbols(prefix: Bytes)
    ensures RenameSubsection(prefix, Symbols(SymbolsWith([]))) == Symbols(SymbolsWith(prefix))
  {
    BitsOf();
    FlagBits(4);
    FlagBits(80);
    FlagBits(16);
    FlagBits(36);
    FlagBits(20);
    hide TestBit, Private, Named, Defined;
    assert [] + [97] == [97];
    var s := SymbolsWith([]);
    forall i | 0 <= i < |s| ensures RenameSymbol(prefix, s[i]) == SymbolsWith(prefix)[i] {}
  }

  lemma {:induction false} RenamedObject(prefix: Bytes)
    ensures Rename(prefix, ObjectWith([])) == ObjectWith(prefix)
  {
    RenamedSymbols(prefix);
    hide SymbolsWith, RenameSymbol;
    assert prefix + ([] + [99]) == prefix + [99];
    var s := SubsectionsWith([]);
    assert RenameSubsection(prefix, s[0]) == SubsectionsWith(prefix)[0];
    assert RenameSubsection(prefix, s[1]) == SubsectionsWith(prefix)[1];
    assert RenameSubsection(prefix, s[2]) == SubsectionsWith(prefix)[2];
    hide RenameSubsection;
    assert RenameSection(prefix, Linking(s)) == Linking(SubsectionsWith(prefix));
    hide SubsectionsWith, RenameSection;
    SectionsRenamed(prefix);
  }

  lemma {:induction false} SectionsRenamed(prefix: Bytes)
    requires RenameSection(prefix, Linking(SubsectionsWith([]))) == Linking(SubsectionsWith(prefix))
    ensures Rename(prefix, ObjectWith([])) == ObjectWith(prefix)
  {
    hide SubsectionsWith;
    var o := ObjectWith([]);
    forall i | 0 <= i < |o| ensures RenameSection(prefix, o[i]) == ObjectWith(prefix)[i] {}
  }

  /**
   The object that these bytes are read as, and the bytes of its localized form for a module called "m": only the
   private function's name and the comdat's change, and the sizes around them.
   */
  lemma {:induction false} LocalizedBytes()
    ensures Read(BytesWith([])) == Some(ObjectWith([]))
    ensures Write(Rename(Prefix([109]), ObjectWith([]))) == BytesWith(PRIVATE_M)
  {
    ObjectBytes([]);
    ObjectGood([]);
    ObjectBytes(PRIVATE_M);
    PrefixM();
    RenamedObject(PRIVATE_M);
    hide *;
    ReadWrite(ObjectWith([]));
  }
}
