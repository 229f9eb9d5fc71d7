/**
 Writing an object and reading it back, what a localized object says, and the uniqueness of the names
 it is given.
 */
module WasmRoundTrip {
  import opened Machine
  import opened Options
  import opened Leb128
  import opened WasmObject

  // ---------------------------------------------------------------- what reading establishes

  /**
   The optional parts are there exactly when the flags say so: a range when the symbol is defined, that is when bit
   4 is clear, and a name when it is defined or bit 6 is set.
   */
  ghost predicate GoodSymbol(symbol: Symbol)
  {
    match symbol
    case Indexed(kind, flags, _, name) => kind in {0, 2, 4, 5} && (name.Some? <==> !TestBit(flags, 4) || TestBit(flags, 6))
    case Data(flags, _, range) => range.Some? <==> !TestBit(flags, 4)
    case OfSection(_, _) => true
  }

  /** The flags that the code tests, by their bits. */
  lemma {:induction false} FlagBits(flags: nat)
    ensures Defined(flags) <==> !TestBit(flags, 4)
    ensures Named(flags) <==> !TestBit(flags, 4) || TestBit(flags, 6)
    ensures Private(flags) <==> !TestBit(flags, 4) && TestBit(flags, 2) && !TestBit(flags, 5)
  {
    AndBit(flags, 4);
    AndBit(flags, 2);
    AndBit(flags, 5);
    AndBit(flags, 6);
    assert Pow2(2) == 4;
    assert Pow2(4) == 16;
    assert Pow2(5) == 32;
    assert Pow2(6) == 64;
    hide And, TestBit;
  }

  ghost predicate GoodSubsection(subsection: Subsection)
  {
    match subsection
    case Symbols(symbols) => forall s <- symbols :: GoodSymbol(s)
    case Comdats(_) => true
    case Other(kind, _) => kind != 7 && kind != 8
  }

  ghost predicate GoodLinking(subsections: seq<Subsection>)
  {
    Tables(subsections) == 1 && forall s <- subsections :: GoodSubsection(s)
  }

  ghost predicate GoodSection(section: Section)
  {
    match section
    case Linking(subsections) => GoodLinking(subsections)
    case Plain(kind, payload) =>
      && |payload| < TWO_32
      && (kind == 0 ==> DecodeText(payload).Done? && !IsLinking(DecodeText(payload).value))
  }

  ghost predicate Good(sections: Object)
  {
    Linkings(sections) == 1 && forall s <- sections :: GoodSection(s)
  }

  lemma {:induction false} DecodedIsSmall(b: Bytes)
    ensures DecodeText(b).Done? ==> |DecodeText(b).value| < TWO_32
  {
    Pow2Of64();
  }

  lemma {:induction false} ManyGood(n: nat, b: Bytes)
    ensures Many(ReadSymbol, n, b).Done? ==> forall s <- Many(ReadSymbol, n, b).value :: GoodSymbol(s)
  {
    if n > 0 && ReadSymbol(b).Done? {
      SymbolGood(b);
      ManyGood(n - 1, ReadSymbol(b).rest);
      hide ReadSymbol, GoodSymbol;
    }
  }

  lemma {:induction false} SymbolGood(b: Bytes)
    ensures ReadSymbol(b).Done? ==> GoodSymbol(ReadSymbol(b).value)
  {
    hide Decode32, DecodeText, ReadRange, Named, Defined, TestBit;
    if ReadSymbol(b).Done? { FlagBits(ReadSymbol(b).value.flags); }
  }

  lemma {:induction false} SubsectionGood(block: Block)
    ensures ReadSubsection(block).Some? ==> GoodSubsection(ReadSubsection(block).value)
  {
    hide ReadSymbol, ReadComdat, GoodSymbol;
    if Decode32(block.payload).Done? { ManyGood(Decode32(block.payload).value, Decode32(block.payload).rest); }
  }

  lemma {:induction false} EachSubsectionGood(blocks: seq<Block>)
    ensures Each(ReadSubsection, blocks).Some? ==> forall s <- Each(ReadSubsection, blocks).value :: GoodSubsection(s)
  {
    hide ReadSubsection, GoodSubsection;
    if blocks != [] {
      EachSubsectionGood(blocks[..|blocks| - 1]);
      SubsectionGood(blocks[|blocks| - 1]);
    }
  }

  lemma {:induction false} LinkingGood(b: Bytes)
    ensures ReadLinking(b).Some? ==> GoodLinking(ReadLinking(b).value)
  {
    hide ReadSubsection, GoodSubsection, ReadBlocks, Tables;
    if Decode32(b).Done? && ReadBlocks(Decode32(b).rest).Some? { EachSubsectionGood(ReadBlocks(Decode32(b).rest).value); }
  }

  lemma {:induction false} SectionGood(block: Block)
    requires |block.payload| < TWO_32
    ensures ReadSection(block).Some? ==> GoodSection(ReadSection(block).value)
  {
    hide ReadLinking, GoodLinking;
    if DecodeText(block.payload).Done? { LinkingGood(DecodeText(block.payload).rest); }
  }

  ghost predicate SmallBlocks(blocks: seq<Block>)
  {
    forall b <- blocks :: |b.payload| < TWO_32
  }

  lemma {:induction false} BlocksSmall(b: Bytes)
    ensures ReadBlocks(b).Some? ==> SmallBlocks(ReadBlocks(b).value)
    decreases |b|
  {
    if b != [] && DecodeText(b[1..]).Done? {
      DecodedIsSmall(b[1..]);
      SmallerText(b[1..]);
      BlocksSmall(DecodeText(b[1..]).rest);
    }
  }

  lemma {:induction false} EachSectionGood(blocks: seq<Block>)
    requires SmallBlocks(blocks)
    ensures Each(ReadSection, blocks).Some? ==> forall s <- Each(ReadSection, blocks).value :: GoodSection(s)
  {
    hide ReadSection, GoodSection;
    if blocks != [] {
      assert blocks[|blocks| - 1] in blocks;
      EachSectionGood(blocks[..|blocks| - 1]);
      SectionGood(blocks[|blocks| - 1]);
    }
  }

  lemma {:induction false} ReadGood(b: Bytes)
    ensures Read(b).Some? ==> Good(Read(b).value)
  {
    if Read(b).Some? {
      BlocksSmall(b[|HEADER|..]);
      hide GoodSection, ReadSection, ReadBlocks, SmallBlocks;
      EachSectionGood(ReadBlocks(b[|HEADER|..]).value);
    }
  }

  // ---------------------------------------------------------------- reading back what was written

  lemma {:induction false} Decode32Back(n: nat, rest: Bytes)
    requires n < TWO_32
    ensures Decode32(Encode(n) + rest) == Done(n, rest)
  {
    Pow2Of64();
    DecodeEncode(32, n, rest);
  }

  lemma {:induction false} Decode64Back(n: nat, rest: Bytes)
    requires n < TWO_64
    ensures Decode64(Encode(n) + rest) == Done(n, rest)
  {
    Pow2Of64();
    DecodeEncode(64, n, rest);
  }

  lemma {:induction false} RangeBack(range: Range, rest: Bytes)
    ensures ReadRange(WriteRange(range) + rest) == Done(range, rest)
  {
    hide Decode32, Decode64, Encode;
    var last := Encode(range.size) + rest;
    var middle := Encode(range.offset) + last;
    assert WriteRange(range) + rest == Encode(range.segment) + middle;
    Decode32Back(range.segment, middle);
    Decode64Back(range.offset, last);
    Decode64Back(range.size, rest);
  }

  lemma {:induction false} HeadBack(kind: u8, flags: u32, more: Bytes)
    ensures var b := [kind] + Encode(flags) + more;
            b != [] && b[0] == kind && Decode32(b[1..]) == Done(flags, more)
  {
    assert ([kind] + Encode(flags) + more)[1..] == Encode(flags) + more;
    Decode32Back(flags, more);
  }

  lemma {:induction false} IndexedBack(symbol: Symbol, rest: Bytes)
    requires symbol.Indexed? && GoodSymbol(symbol) && (symbol.name.Some? ==> |symbol.name.value| < TWO_32)
    ensures ReadSymbol(WriteSymbol(symbol) + rest) == Done(symbol, rest)
  {
    hide Decode32, Encode, EncodeText, ReadIndexed, ReadData, Named, Private, Defined, TestBit, And;
    FlagBits(symbol.flags);
    var Indexed(kind, flags, index, name) := symbol;
    var text := (if name.Some? then EncodeText(name.value) else []) + rest;
    IndexedTailBack(symbol, text, rest);
    assert WriteSymbol(symbol) + rest == [kind] + Encode(flags) + (Encode(index) + text);
    HeadBack(kind, flags, Encode(index) + text);
  }

  lemma {:induction false} IndexedTailBack(symbol: Symbol, text: Bytes, rest: Bytes)
    requires symbol.Indexed? && (symbol.name.Some? <==> Named(symbol.flags))
    requires symbol.name.Some? ==> |symbol.name.value| < TWO_32
    requires text == (if symbol.name.Some? then EncodeText(symbol.name.value) else []) + rest
    ensures ReadIndexed(symbol.kind, symbol.flags, Encode(symbol.index) + text) == Done(symbol, rest)
  {
    hide Decode32, Encode, EncodeText, DecodeText, Named;
    Decode32Back(symbol.index, text);
    if symbol.name.Some? { DecodeEncodeText(symbol.name.value, rest); } else { assert text == rest; }
  }

  lemma {:induction false} DataBack(symbol: Symbol, rest: Bytes)
    requires symbol.Data? && GoodSymbol(symbol) && |symbol.symbol| < TWO_32
    ensures ReadSymbol(WriteSymbol(symbol) + rest) == Done(symbol, rest)
  {
    hide Decode32, Encode, EncodeText, DecodeText, Named, Private, Defined, ReadRange, WriteRange, TestBit, And;
    FlagBits(symbol.flags);
    var Data(flags, name, range) := symbol;
    var tail := (if range.Some? then WriteRange(range.value) else []) + rest;
    var afterFlags := EncodeText(name) + tail;
    assert WriteSymbol(symbol) + rest == [1] + Encode(flags) + afterFlags;
    HeadBack(1, flags, afterFlags);
    DecodeEncodeText(name, tail);
    if range.Some? { RangeBack(range.value, rest); } else { assert tail == rest; }
  }

  lemma {:induction false} OfSectionBack(symbol: Symbol, rest: Bytes)
    requires symbol.OfSection?
    ensures ReadSymbol(WriteSymbol(symbol) + rest) == Done(symbol, rest)
  {
    hide Decode32, Encode;
    var afterFlags := Encode(symbol.index) + rest;
    assert WriteSymbol(symbol) + rest == [3] + Encode(symbol.flags) + afterFlags;
    HeadBack(3, symbol.flags, afterFlags);
    Decode32Back(symbol.index, rest);
  }

  lemma {:induction false} SymbolBack(symbol: Symbol)
    requires GoodSymbol(symbol) && |WriteSymbol(symbol)| < TWO_32
    ensures ReadsBack(ReadSymbol, WriteSymbol, symbol)
  {
    forall rest: Bytes ensures ReadSymbol(WriteSymbol(symbol) + rest) == Done(symbol, rest) {
      match symbol
      case Indexed(_, _, _, name) => IndexedBack(symbol, rest);
      case Data(_, name, _) => DataBack(symbol, rest);
      case OfSection(_, _) => OfSectionBack(symbol, rest);
    }
  }

  lemma {:induction false} EntryBack(entry: Entry)
    ensures ReadsBack(ReadEntry, WriteEntry, entry)
  {
    hide Decode32, Encode;
    forall rest: Bytes ensures ReadEntry(WriteEntry(entry) + rest) == Done(entry, rest) {
      var b := WriteEntry(entry) + rest;
      assert b == [entry.kind] + (Encode(entry.index) + rest);
      assert b[1..] == Encode(entry.index) + rest;
      Decode32Back(entry.index, rest);
    }
  }

  lemma {:induction false} CountedBack<T(!new)>(parse: Bytes -> Parsed<T>, write: T -> Bytes, list: seq<T>, rest: Bytes)
    requires |list| < TWO_32 && forall x <- list :: ReadsBack(parse, write, x)
    ensures Counted(parse, Encode(|list|) + WriteAll(write, list) + rest) == Done(list, rest)
  {
    hide Decode32, Encode, Many;
    assert Encode(|list|) + WriteAll(write, list) + rest == Encode(|list|) + (WriteAll(write, list) + rest);
    Decode32Back(|list|, WriteAll(write, list) + rest);
    ManyReadBack(parse, write, list, rest);
  }

  lemma {:induction false} ComdatBack(comdat: Comdat)
    requires |WriteComdat(comdat)| < TWO_32
    ensures ReadsBack(ReadComdat, WriteComdat, comdat)
  {
    hide Decode32, Encode, Many, ReadEntry, EncodeText, DecodeText;
    forall e <- comdat.entries ensures ReadsBack(ReadEntry, WriteEntry, e) { EntryBack(e); }
    EntriesCounted(comdat.entries);
    assert |comdat.name| <= |EncodeText(comdat.name)| by { TextLength(comdat.name); }
    forall rest: Bytes ensures ReadComdat(WriteComdat(comdat) + rest) == Done(comdat, rest) {
      var list := Encode(|comdat.entries|) + WriteAll(WriteEntry, comdat.entries) + rest;
      var afterName := Encode(comdat.flags) + list;
      assert WriteComdat(comdat) + rest == EncodeText(comdat.name) + afterName;
      DecodeEncodeText(comdat.name, afterName);
      Decode32Back(comdat.flags, list);
      CountedBack(ReadEntry, WriteEntry, comdat.entries, rest);
    }
  }

  lemma {:induction false} TextLength(text: Bytes)
    ensures |text| <= |EncodeText(text)|
  {}

  /** Every element takes a byte and fits in what all of them take. */
  lemma {:induction false} WriteAllLength<T(!new)>(write: T -> Bytes, list: seq<T>)
    requires forall x <- list :: write(x) != []
    ensures |list| <= |WriteAll(write, list)|
    ensures forall x <- list :: |write(x)| <= |WriteAll(write, list)|
  {
    if list != [] { WriteAllLength(write, list[1..]); }
  }

  lemma {:induction false} EntriesCounted(entries: seq<Entry>)
    ensures |entries| <= |WriteAll(WriteEntry, entries)|
  {
    WriteAllLength(WriteEntry, entries);
  }

  lemma {:induction false} SymbolsBack(symbols: seq<Symbol>)
    requires GoodSubsection(Symbols(symbols)) && |ToBlock(Symbols(symbols)).payload| < TWO_32
    ensures ReadSubsection(ToBlock(Symbols(symbols))) == Some(Symbols(symbols))
  {
    forall s <- symbols ensures WriteSymbol(s) != [] {}
    hide GoodSymbol, WriteSymbol, ReadSymbol, Encode, Counted;
    WriteAllLength(WriteSymbol, symbols);
    forall s <- symbols ensures ReadsBack(ReadSymbol, WriteSymbol, s) { SymbolBack(s); }
    CountedBack(ReadSymbol, WriteSymbol, symbols, []);
    assert Encode(|symbols|) + WriteAll(WriteSymbol, symbols) + [] == ToBlock(Symbols(symbols)).payload;
  }

  lemma {:induction false} ComdatsBack(comdats: seq<Comdat>)
    requires |ToBlock(Comdats(comdats)).payload| < TWO_32
    ensures ReadSubsection(ToBlock(Comdats(comdats))) == Some(Comdats(comdats))
  {
    forall c <- comdats ensures WriteComdat(c) != [] {}
    hide WriteComdat, ReadComdat, Encode, Counted;
    WriteAllLength(WriteComdat, comdats);
    forall c <- comdats ensures ReadsBack(ReadComdat, WriteComdat, c) { ComdatBack(c); }
    CountedBack(ReadComdat, WriteComdat, comdats, []);
    assert Encode(|comdats|) + WriteAll(WriteComdat, comdats) + [] == ToBlock(Comdats(comdats)).payload;
  }

  lemma {:induction false} SubsectionBack(subsection: Subsection)
    requires GoodSubsection(subsection) && |ToBlock(subsection).payload| < TWO_32
    ensures ReadSubsection(ToBlock(subsection)) == Some(subsection)
  {
    match subsection
    case Symbols(symbols) => SymbolsBack(symbols);
    case Comdats(comdats) => ComdatsBack(comdats);
    case Other(_, _) =>
  }

  // ---------------------------------------------------------------- blocks

  function BlocksOf<T>(toBlock: T -> Block, list: seq<T>): (blocks: seq<Block>)
    ensures |blocks| == |list| && forall i :: 0 <= i < |list| ==> blocks[i] == toBlock(list[i])
  {
    if list == [] then [] else [toBlock(list[0])] + BlocksOf(toBlock, list[1..])
  }

  /** Blocks are read back exactly when every size fits the 32 bits that sizes are read with. */
  lemma {:induction false} BlocksBack<T(!new)>(toBlock: T -> Block, write: T -> Bytes, list: seq<T>)
    requires forall x <- list :: write(x) == WriteBlock(toBlock(x))
    ensures ReadBlocks(WriteAll(write, list))
            == if SmallBlocks(BlocksOf(toBlock, list)) then Some(BlocksOf(toBlock, list)) else None
  {
    if list != [] {
      BlocksBack(toBlock, write, list[1..]);
      assert write(list[0]) == WriteBlock(toBlock(list[0]));
      FirstBlock(toBlock(list[0]), WriteAll(write, list[1..]));
      SmallFirst(toBlock(list[0]), BlocksOf(toBlock, list[1..]));
      hide ReadBlocks, SmallBlocks, WriteBlock, DecodeText;
    }
  }

  lemma {:induction false} SmallFirst(first: Block, more: seq<Block>)
    ensures SmallBlocks([first] + more) <==> |first.payload| < TWO_32 && SmallBlocks(more)
  {
    assert first in [first] + more;
    forall b | b in more ensures b in [first] + more {}
  }

  lemma {:induction false} FirstBlock(block: Block, more: Bytes)
    ensures ReadBlocks(WriteBlock(block) + more) ==
            if |block.payload| < TWO_32
            then match ReadBlocks(more) case None => None case Some(blocks) => Some([block] + blocks)
            else None
  {
    hide EncodeText, DecodeText;
    var b := WriteBlock(block) + more;
    assert b[0] == block.kind && b[1..] == EncodeText(block.payload) + more;
    if |block.payload| < TWO_32 {
      DecodeEncodeText(block.payload, more);
    } else {
      LargeText(block.payload, more);
    }
  }

  lemma {:induction false} LargeText(text: Bytes, more: Bytes)
    requires |text| >= TWO_32
    ensures DecodeText(EncodeText(text) + more) == Fail
  {
    Pow2Of64();
    assert EncodeText(text) + more == Encode(|text|) + (text + more);
    DecodeEncode(32, |text|, text + more);
  }

  lemma {:induction false} EachBack<T(!new)>(toBlock: T -> Block, read: Block -> Option<T>, list: seq<T>)
    requires forall x <- list :: read(toBlock(x)) == Some(x)
    ensures Each(read, BlocksOf(toBlock, list)) == Some(list)
  {
    if list != [] {
      var front, last := list[..|list| - 1], list[|list| - 1];
      assert list == front + [last];
      EachBack(toBlock, read, front);
      assert BlocksOf(toBlock, list) == BlocksOf(toBlock, front) + [toBlock(last)];
    }
  }

  // ---------------------------------------------------------------- the linking section and the object

  lemma {:induction false} LinkingBack(subsections: seq<Subsection>)
    requires GoodLinking(subsections) && |WriteLinking(subsections)| < TWO_32
    ensures ReadLinking(WriteLinking(subsections)) == Some(subsections)
  {
    hide GoodSubsection, ReadSubsection, ToBlock, Encode, Decode32, ReadBlocks, Tables;
    Decode32Back(2, WriteAll(WriteSubsection, subsections));
    BlocksBack(ToBlock, WriteSubsection, subsections);
    WriteAllLength(WriteSubsection, subsections);
    var blocks := BlocksOf(ToBlock, subsections);
    forall s <- subsections ensures |ToBlock(s).payload| < TWO_32 && ReadSubsection(ToBlock(s)) == Some(s) {
      TextLength(ToBlock(s).payload);
      SubsectionBack(s);
    }
    forall b <- blocks ensures |b.payload| < TWO_32 {
      var i :| 0 <= i < |blocks| && blocks[i] == b;
      assert subsections[i] in subsections;
    }
    EachBack(ToBlock, ReadSubsection, subsections);
  }

  lemma {:induction false} SectionBack(section: Section)
    requires GoodSection(section) && |SectionBlock(section).payload| < TWO_32
    ensures ReadSection(SectionBlock(section)) == Some(section)
  {
    hide ReadLinking, WriteLinking, EncodeText, DecodeText, GoodLinking;
    match section
    case Linking(subsections) =>
      DecodeEncodeText(LINKING, WriteLinking(subsections));
      LinkingBack(subsections);
    case Plain(_, _) =>
  }

  /** Every section's size can be written in the 32 bits that section sizes are read with. */
  ghost predicate Fits(sections: Object)
  {
    forall s <- sections :: |SectionBlock(s).payload| < TWO_32
  }

  lemma {:induction false} FitsBlocks(sections: Object)
    ensures SmallBlocks(BlocksOf(SectionBlock, sections)) <==> Fits(sections)
  {
    hide SectionBlock;
    var blocks := BlocksOf(SectionBlock, sections);
    if SmallBlocks(blocks) {
      forall s <- sections ensures |SectionBlock(s).payload| < TWO_32 {
        var i :| 0 <= i < |sections| && sections[i] == s;
        assert blocks[i] in blocks;
      }
    }
  }

  /** What is written is read back, exactly when its sizes fit. */
  lemma {:induction false} ReadWrite(sections: Object)
    requires Good(sections)
    ensures Read(Write(sections)) == if Fits(sections) then Some(sections) else None
  {
    hide GoodSection, ReadSection, SectionBlock, ReadBlocks, SmallBlocks, WriteBlock;
    var b := Write(sections);
    assert b[..|HEADER|] == HEADER && b[|HEADER|..] == WriteAll(WriteSection, sections);
    BlocksBack(SectionBlock, WriteSection, sections);
    FitsBlocks(sections);
    if Fits(sections) {
      forall s <- sections ensures ReadSection(SectionBlock(s)) == Some(s) { SectionBack(s); }
      EachBack(SectionBlock, ReadSection, sections);
    }
  }

  // ---------------------------------------------------------------- renaming

  lemma {:induction false} RenameTables(prefix: Bytes, subsections: seq<Subsection>)
    ensures var renamed := seq(|subsections|, i requires 0 <= i < |subsections| => RenameSubsection(prefix, subsections[i]));
            Tables(renamed) == Tables(subsections)
  {
    var renamed := seq(|subsections|, i requires 0 <= i < |subsections| => RenameSubsection(prefix, subsections[i]));
    if subsections != [] {
      var front := subsections[..|subsections| - 1];
      RenameTables(prefix, front);
      assert renamed[..|renamed| - 1] == seq(|front|, i requires 0 <= i < |front| => RenameSubsection(prefix, front[i]));
    }
  }

  lemma {:induction false} RenameLinkings(prefix: Bytes, sections: Object)
    ensures Linkings(Rename(prefix, sections)) == Linkings(sections)
  {
    if sections != [] {
      var front := sections[..|sections| - 1];
      RenameLinkings(prefix, front);
      assert Rename(prefix, sections)[..|sections| - 1] == Rename(prefix, front);
    }
  }

  lemma {:induction false} RenameGoodSubsection(prefix: Bytes, subsection: Subsection)
    requires GoodSubsection(subsection)
    ensures GoodSubsection(RenameSubsection(prefix, subsection))
  {
    if subsection.Symbols? {
      var renamed := RenameSubsection(prefix, subsection).symbols;
      forall s <- renamed ensures GoodSymbol(s) {
        var i :| 0 <= i < |renamed| && renamed[i] == s;
        assert subsection.symbols[i] in subsection.symbols;
        RenameGoodSymbol(prefix, subsection.symbols[i]);
      }
    }
  }

  lemma {:induction false} RenameGoodSymbol(prefix: Bytes, symbol: Symbol)
    requires GoodSymbol(symbol)
    ensures GoodSymbol(RenameSymbol(prefix, symbol))
  {}

  lemma {:induction false} RenameGood(prefix: Bytes, sections: Object)
    requires Good(sections)
    ensures Good(Rename(prefix, sections))
  {
    RenameLinkings(prefix, sections);
    var renamed := Rename(prefix, sections);
    hide RenameSubsection, GoodSubsection, Linkings;
    forall s <- renamed ensures GoodSection(s) {
      var i :| 0 <= i < |renamed| && renamed[i] == s;
      assert sections[i] in sections;
      if sections[i].Linking? { RenameGoodLinking(prefix, sections[i].subsections); }
    }
  }

  lemma {:induction false} RenameGoodLinking(prefix: Bytes, subsections: seq<Subsection>)
    requires GoodLinking(subsections)
    ensures GoodLinking(RenameSection(prefix, Linking(subsections)).subsections)
  {
    RenameTables(prefix, subsections);
    hide GoodSubsection, RenameSubsection, Tables;
    var renamed := RenameSection(prefix, Linking(subsections)).subsections;
    forall s <- renamed ensures GoodSubsection(s) {
      var i :| 0 <= i < |renamed| && renamed[i] == s;
      assert subsections[i] in subsections;
      RenameGoodSubsection(prefix, subsections[i]);
    }
  }

  /**
   What a localized object says is what the object said, with the private names renamed. It can be read
   exactly when no section outgrew the 32 bits that sizes are read with.
   */
  lemma {:induction false} LocalizedSays(input: Bytes, prefix: Bytes)
    requires Read(input).Some?
    ensures var renamed := Rename(prefix, Read(input).value);
            Read(Write(renamed)) == if Fits(renamed) then Some(renamed) else None
  {
    hide Read, Write, Good, Fits, Rename;
    ReadGood(input);
    RenameGood(prefix, Read(input).value);
    ReadWrite(Rename(prefix, Read(input).value));
  }

  /** Only the linking section can outgrow its size: the others are copied. */
  lemma {:induction false} OnlyLinkingGrows(input: Bytes, prefix: Bytes)
    requires Read(input).Some?
    ensures var renamed := Rename(prefix, Read(input).value);
            Fits(renamed) <==> forall s <- renamed :: s.Linking? ==> |SectionBlock(s).payload| < TWO_32
  {
    hide Read, Linkings, RenameSection;
    ReadGood(input);
    RenameGood(prefix, Read(input).value);
  }

  /** Comdats whose copies of the prefix are too long together do not fit, so the output of such a call cannot be read. */
  lemma {:induction false} LongPrefixOutgrows(input: Bytes, prefix: Bytes, i: nat, j: nat)
    requires Read(input).Some? && i < |Read(input).value| && Read(input).value[i].Linking?
    requires j < |Read(input).value[i].subsections| && Read(input).value[i].subsections[j].Comdats?
    requires |Read(input).value[i].subsections[j].comdats| * |prefix| >= TWO_32
    ensures Read(Write(Rename(prefix, Read(input).value))) == None
  {
    hide Read, Write;
    LocalizedSays(input, prefix);
    var renamed := Rename(prefix, Read(input).value);
    var section := renamed[i];
    var subsection := section.subsections[j];
    hide Rename;
    PrefixedComdats(prefix, Read(input).value[i].subsections[j].comdats, subsection.comdats);
    hide WriteComdat, EncodeText, Encode;
    TextLength(ToBlock(subsection).payload);
    forall s <- section.subsections ensures WriteSubsection(s) != [] {}
    assert |WriteSubsection(subsection)| >= TWO_32;
    WriteAllLength(WriteSubsection, section.subsections);
    assert subsection in section.subsections;
    assert section in renamed;
  }

  /** The renamed comdats take at least as many bytes as there are copies of the prefix in them. */
  lemma {:induction false} PrefixedComdats(prefix: Bytes, comdats: seq<Comdat>, renamed: seq<Comdat>)
    requires |renamed| == |comdats| && forall k :: 0 <= k < |comdats| ==> renamed[k] == RenameComdat(prefix, comdats[k])
    ensures |WriteAll(WriteComdat, renamed)| >= |comdats| * |prefix|
  {
    if comdats != [] {
      PrefixedComdats(prefix, comdats[1..], renamed[1..]);
      TextLength(renamed[0].name);
      assert |WriteComdat(renamed[0])| >= |prefix|;
      hide WriteComdat;
      assert |comdats| * |prefix| == |prefix| + |comdats[1..]| * |prefix|;
    }
  }

  /** An object with an empty symbol table and two comdats, and its bytes. */
  const COMDATS := Comdats([Comdat([99], 0, []), Comdat([100], 0, [])])
  const COMDAT_OBJECT: Object := [Linking([Symbols([]), COMDATS])]
  const COMDAT_BYTES: Bytes := HEADER + [0, 23] + ([7] + LINKING + [2, 8, 1, 0, 7, 9, 2, 1, 99, 0, 0, 1, 100, 0, 0])

  lemma {:induction false} ComdatObjectRead()
    ensures Read(COMDAT_BYTES) == Some(COMDAT_OBJECT)
  {
    ComdatObjectGood();
    ComdatObjectBytes();
    hide Read, Write, Good;
    ReadWrite(COMDAT_OBJECT);
  }

  lemma {:induction false} ComdatObjectGood()
    ensures Good(COMDAT_OBJECT)
  {
    var subsections := [Symbols([]), COMDATS];
    assert Tables([]) == 0 && subsections[..1] == [Symbols([])] && [Symbols([])][..0] == [];
    assert Tables(subsections[..1]) == 1;
    assert COMDAT_OBJECT[..0] == [] && Linkings([]) == 0;
    assert Linkings(COMDAT_OBJECT) == 1;
  }

  lemma {:induction false} WriteOne<T>(write: T -> Bytes, x: T)
    ensures WriteAll(write, [x]) == write(x)
  {
    assert WriteAll(write, []) == [];
  }

  lemma {:induction false} WriteTwo<T>(write: T -> Bytes, x: T, y: T)
    ensures WriteAll(write, [x, y]) == write(x) + write(y)
  {
    WriteOne(write, y);
    assert [x, y][1..] == [y];
  }

  lemma {:induction false} TextBytes(text: Bytes)
    requires |text| < 128
    ensures EncodeText(text) == [|text|] + text
  {}

  lemma {:induction false} ComdatBytes()
    ensures WriteComdat(Comdat([99], 0, [])) == [1, 99, 0, 0] && WriteComdat(Comdat([100], 0, [])) == [1, 100, 0, 0]
  {
    TextBytes([99]);
    TextBytes([100]);
    assert WriteAll(WriteEntry, []) == [];
  }

  lemma {:induction false} SubsectionBytes()
    ensures WriteSubsection(Symbols([])) == [8, 1, 0] && WriteSubsection(COMDATS) == [7, 9, 2, 1, 99, 0, 0, 1, 100, 0, 0]
  {
    ComdatBytes();
    WriteTwo(WriteComdat, Comdat([99], 0, []), Comdat([100], 0, []));
    hide WriteComdat, EncodeText;
    assert WriteAll(WriteSymbol, []) == [];
    assert ToBlock(Symbols([])).payload == [0] && ToBlock(COMDATS).payload == [2, 1, 99, 0, 0, 1, 100, 0, 0];
    TextBytes([0]);
    TextBytes([2, 1, 99, 0, 0, 1, 100, 0, 0]);
  }

  lemma {:induction false} ComdatLinking()
    ensures SectionBlock(COMDAT_OBJECT[0]) == Block(0, [7] + LINKING + [2, 8, 1, 0, 7, 9, 2, 1, 99, 0, 0, 1, 100, 0, 0])
  {
    SubsectionBytes();
    WriteTwo(WriteSubsection, Symbols([]), COMDATS);
    hide WriteSubsection, EncodeText, WriteAll;
    TextBytes(LINKING);
    assert Encode(2) == [2];
  }

  lemma {:induction false} ComdatObjectBytes()
    ensures Write(COMDAT_OBJECT) == COMDAT_BYTES && Fits(COMDAT_OBJECT)
  {
    var linking := [7] + LINKING + [2, 8, 1, 0, 7, 9, 2, 1, 99, 0, 0, 1, 100, 0, 0];
    hide WriteSubsection, EncodeText;
    ComdatLinking();
    TextBytes(linking);
    hide SectionBlock, WriteAll;
    assert WriteSection(COMDAT_OBJECT[0]) == [0, 23] + linking;
    WriteOne(WriteSection, COMDAT_OBJECT[0]);
  }

  /**
   With a module name of two gigabytes, which still fits the 32-bit size of the section that module names are
   read from, the localized form of this small object cannot be read.
   */
  lemma {:induction false} LongNameOutgrows(name: Bytes)
    requires |name| >= TWO_32 / 2
    ensures Read(COMDAT_BYTES) == Some(COMDAT_OBJECT)
    ensures Read(Write(Rename(Prefix(name), COMDAT_OBJECT))) == None
  {
    ComdatObjectRead();
    assert |Prefix(name)| >= |name|;
    hide Read, Write, Rename, Prefix;
    LongPrefixOutgrows(COMDAT_BYTES, Prefix(name), 0, 1);
  }

  // ---------------------------------------------------------------- names

  function NameOf(symbol: Symbol): Option<Bytes>
  {
    match symbol
    case Indexed(_, _, _, name) => name
    case Data(_, name, _) => Some(name)
    case OfSection(_, _) => None
  }

  function Nameless(symbol: Symbol): Symbol
  {
    match symbol
    case Indexed(_, _, _, _) => symbol.(name := None)
    case Data(_, _, _) => symbol.(symbol := [])
    case OfSection(_, _) => symbol
  }

  /** Names of defined, hidden symbols that are not exported get the prefix; nothing else changes. */
  lemma {:induction false} OnlyPrivateNamesChange(prefix: Bytes, symbol: Symbol)
    ensures var renamed := RenameSymbol(prefix, symbol);
            && Nameless(renamed) == Nameless(symbol)
            && NameOf(renamed) ==
               (match NameOf(symbol)
                case None => None
                case Some(name) => if Private(symbol.flags) then Some(prefix + name) else Some(name))
    ensures Private(symbol.flags) <==>
            !TestBit(symbol.flags, 4) && TestBit(symbol.flags, 2) && !TestBit(symbol.flags, 5)
  {
    FlagBits(symbol.flags);
  }

  lemma {:induction false} DecimalInjective(m: nat, n: nat)
    requires Decimal(m) == Decimal(n)
    ensures m == n
  {
    if m >= 10 && n >= 10 {
      var a, b := Decimal(m / 10), Decimal(n / 10);
      assert (a + [48 + m % 10])[|a|] == 48 + m % 10;
      assert |a| == |b|;
      assert a == (a + [48 + m % 10])[..|a|] && b == (b + [48 + n % 10])[..|b|];
      DecimalInjective(m / 10, n / 10);
    }
  }

  /** Digits end where the dot is. */
  lemma {:induction false} DigitsEnd(a: Bytes, b: Bytes, s: Bytes, t: Bytes)
    requires (forall d <- a :: d != 46) && (forall d <- b :: d != 46) && a + [46] + s == b + [46] + t
    ensures a == b && s == t
  {
    DotAfter(a, b, s, a + [46] + s);
    DotAfter(b, a, t, b + [46] + t);
    assert a == (a + [46] + s)[..|a|] && b == (b + [46] + t)[..|b|];
    assert s == (a + [46] + s)[|a| + 1..] && t == (b + [46] + t)[|b| + 1..];
  }

  lemma {:induction false} DotAfter(a: Bytes, b: Bytes, s: Bytes, whole: Bytes)
    requires (forall d <- b :: d != 46) && whole == a + [46] + s && b <= whole
    ensures |b| <= |a|
  {
    assert whole[|a|] == 46;
    assert forall i :: 0 <= i < |b| ==> whole[i] == b[i] && b[i] in b;
  }

  /** Different modules, or different symbols, never get the same private name. */
  lemma {:induction false} PrivateNamesDiffer(oneModule: Bytes, oneName: Bytes, otherModule: Bytes, otherName: Bytes)
    requires Prefix(oneModule) + oneName == Prefix(otherModule) + otherName
    ensures oneModule == otherModule && oneName == otherName
  {
    var start := Ascii("__modloader_private.");
    var a, b := Decimal(|oneModule|), Decimal(|otherModule|);
    var s, t := oneModule + [46] + oneName, otherModule + [46] + otherName;
    hide Ascii, Decimal;
    assert Prefix(oneModule) + oneName == start + (a + [46] + s);
    assert Prefix(otherModule) + otherName == start + (b + [46] + t);
    assert (start + (a + [46] + s))[|start|..] == a + [46] + s;
    assert (start + (b + [46] + t))[|start|..] == b + [46] + t;
    DigitsEnd(a, b, s, t);
    DecimalInjective(|oneModule|, |otherModule|);
    assert oneModule == s[..|oneModule|] && otherModule == t[..|otherModule|];
    assert oneName == s[|oneModule| + 1..] && otherName == t[|otherModule| + 1..];
  }
}
