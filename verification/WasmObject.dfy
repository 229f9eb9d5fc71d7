/**
 What a relocatable WebAssembly object says, as far as client/src/wasm_object.cpp looks into it: reading
 it from bytes, writing it back, and the renaming of its private symbols.
 */
module WasmObject {
  import opened Machine
  import opened Options
  import opened Leb128

  const HEADER: Bytes := [0, 0x61, 0x73, 0x6d, 1, 0, 0, 0]
  const LINKING: Bytes := [0x6c, 0x69, 0x6e, 0x6b, 0x69, 0x6e, 0x67]  // "linking"

  const HIDDEN: nat := 4
  const UNDEFINED: nat := 16
  const EXPORTED: nat := 32
  const EXPLICIT_NAME: nat := 64

  // ---------------------------------------------------------------- what an object says

  datatype Range = Range(segment: u32, offset: u64, size: u64)

  /** The entries of a symbol table, by the shape of what follows their flags. */
  datatype Symbol =
    | Indexed(kind: u8, flags: u32, index: u32, name: Option<Bytes>)  // functions, globals, tags, tables
    | Data(flags: u32, symbol: Bytes, range: Option<Range>)
    | OfSection(flags: u32, index: u32)

  datatype Entry = Entry(kind: u8, index: u32)

  datatype Comdat = Comdat(name: Bytes, flags: u32, entries: seq<Entry>)

  datatype Subsection =
    | Symbols(symbols: seq<Symbol>)
    | Comdats(comdats: seq<Comdat>)
    | Other(kind: u8, payload: Bytes)

  datatype Section =
    | Linking(subsections: seq<Subsection>)
    | Plain(kind: u8, payload: Bytes)

  type Object = seq<Section>

  predicate Defined(flags: nat) { And(flags, UNDEFINED) == 0 }

  /** Symbols that only this object can mean. */
  predicate Private(flags: nat) { Defined(flags) && And(flags, HIDDEN) != 0 && And(flags, EXPORTED) == 0 }

  /** An undefined function, global, tag or table has a name of its own only when a flag says so. */
  predicate Named(flags: nat) { Defined(flags) || And(flags, EXPLICIT_NAME) != 0 }

  /** The kinds whose entries are an index and possibly a name. */
  predicate IndexedKind(kind: u8) { kind == 0 || kind == 2 || kind == 4 || kind == 5 }

  // ---------------------------------------------------------------- reading

  function ReadIndexed(kind: u8, flags: u32, b: Bytes): Parsed<Symbol>
  {
    match Decode32(b)
    case Fail => Fail
    case Done(index, rest) =>
      if !Named(flags) then Done(Indexed(kind, flags, index, None), rest)
      else
        match DecodeText(rest)
        case Fail => Fail
        case Done(name, end) => Done(Indexed(kind, flags, index, Some(name)), end)
  }

  function Decode32(b: Bytes): (r: Parsed<u32>)
    ensures r.Done? ==> |r.rest| < |b|
  {
    Pow2Of64();
    match Decode(32, b)
    case Fail => Fail
    case Done(value, rest) => Done(value, rest)
  }

  function Decode64(b: Bytes): (r: Parsed<u64>)
    ensures r.Done? ==> |r.rest| < |b|
  {
    Pow2Of64();
    match Decode(64, b)
    case Fail => Fail
    case Done(value, rest) => Done(value, rest)
  }

  function ReadRange(b: Bytes): (r: Parsed<Range>)
    ensures r.Done? ==> |r.rest| < |b|
  {
    match Decode32(b)
    case Fail => Fail
    case Done(segment, after) =>
      match Decode64(after)
      case Fail => Fail
      case Done(offset, later) =>
        match Decode64(later)
        case Fail => Fail
        case Done(size, rest) => Done(Range(segment, offset, size), rest)
  }

  function ReadData(flags: u32, b: Bytes): Parsed<Symbol>
  {
    match DecodeText(b)
    case Fail => Fail
    case Done(name, rest) =>
      if !Defined(flags) then Done(Data(flags, name, None), rest)
      else
        match ReadRange(rest)
        case Fail => Fail
        case Done(range, end) => Done(Data(flags, name, Some(range)), end)
  }

  function ReadSymbol(b: Bytes): Parsed<Symbol>
  {
    if b == [] then Fail
    else
      match Decode32(b[1..])
      case Fail => Fail
      case Done(flags, rest) =>
        if IndexedKind(b[0]) then ReadIndexed(b[0], flags, rest)
        else if b[0] == 1 then ReadData(flags, rest)
        else if b[0] == 3 then
          match Decode32(rest)
          case Fail => Fail
          case Done(index, end) => Done(OfSection(flags, index), end)
        else Fail
  }

  function ReadEntry(b: Bytes): Parsed<Entry>
  {
    if b == [] then Fail
    else
      match Decode32(b[1..])
      case Fail => Fail
      case Done(index, rest) => Done(Entry(b[0], index), rest)
  }

  /** A count and as many values. */
  function Counted<T>(parse: Bytes -> Parsed<T>, b: Bytes): Parsed<seq<T>>
  {
    match Decode32(b)
    case Fail => Fail
    case Done(n, rest) => Many(parse, n, rest)
  }

  function ReadComdat(b: Bytes): Parsed<Comdat>
  {
    match DecodeText(b)
    case Fail => Fail
    case Done(name, after) =>
      match Decode32(after)
      case Fail => Fail
      case Done(flags, rest) =>
        match Counted(ReadEntry, rest)
        case Fail => Fail
        case Done(entries, end) => Done(Comdat(name, flags, entries), end)
  }

  /** A payload that is a counted list and nothing else. */
  function Whole<T>(parse: Bytes -> Parsed<T>, b: Bytes): Option<seq<T>>
  {
    match Counted(parse, b)
    case Fail => None
    case Done(list, rest) => if rest == [] then Some(list) else None
  }

  datatype Block = Block(kind: u8, payload: Bytes)

  /** Kinds, sizes and payloads up to the end. */
  function ReadBlocks(b: Bytes): Option<seq<Block>>
    decreases |b|
  {
    if b == [] then Some([])
    else
      match DecodeText(b[1..])
      case Fail => None
      case Done(payload, rest) =>
        SmallerText(b[1..]);
        match ReadBlocks(rest)
        case None => None
        case Some(more) => Some([Block(b[0], payload)] + more)
  }

  lemma {:induction false} SmallerText(b: Bytes)
    ensures DecodeText(b).Done? ==> |DecodeText(b).rest| < |b|
  {}

  function Each<A, B>(f: A -> Option<B>, list: seq<A>): (r: Option<seq<B>>)
    ensures r.Some? ==> |r.value| == |list|
  {
    if list == [] then Some([])
    else
      match Each(f, list[..|list| - 1])
      case None => None
      case Some(front) =>
        match f(list[|list| - 1])
        case None => None
        case Some(last) => Some(front + [last])
  }

  function ReadSubsection(block: Block): Option<Subsection>
  {
    if block.kind == 8 then
      match Whole(ReadSymbol, block.payload)
      case None => None
      case Some(symbols) => Some(Symbols(symbols))
    else if block.kind == 7 then
      match Whole(ReadComdat, block.payload)
      case None => None
      case Some(comdats) => Some(Comdats(comdats))
    else Some(Other(block.kind, block.payload))
  }

  function Tables(subsections: seq<Subsection>): nat
  {
    if subsections == [] then 0
    else Tables(subsections[..|subsections| - 1]) + if subsections[|subsections| - 1].Symbols? then 1 else 0
  }

  function Linkings(sections: Object): nat
  {
    if sections == [] then 0
    else Linkings(sections[..|sections| - 1]) + if sections[|sections| - 1].Linking? then 1 else 0
  }

  /** Version 2, and subsections of which one is the symbol table. */
  function ReadLinking(b: Bytes): Option<seq<Subsection>>
  {
    match Decode32(b)
    case Fail => None
    case Done(version, rest) =>
      if version != 2 then None
      else
        match ReadBlocks(rest)
        case None => None
        case Some(blocks) =>
          match Each(ReadSubsection, blocks)
          case None => None
          case Some(subsections) => if Tables(subsections) == 1 then Some(subsections) else None
  }

  predicate IsLinking(name: Bytes) { name == LINKING }

  function ReadSection(block: Block): Option<Section>
  {
    if block.kind != 0 then Some(Plain(block.kind, block.payload))
    else
      match DecodeText(block.payload)
      case Fail => None
      case Done(name, rest) =>
        if !IsLinking(name) then Some(Plain(0, block.payload))
        else
          match ReadLinking(rest)
          case None => None
          case Some(subsections) => Some(Linking(subsections))
  }

  /** An object with one linking section. */
  function Read(b: Bytes): Option<Object>
  {
    if |b| < |HEADER| || b[..|HEADER|] != HEADER then None
    else
      match ReadBlocks(b[|HEADER|..])
      case None => None
      case Some(blocks) =>
        match Each(ReadSection, blocks)
        case None => None
        case Some(sections) => if Linkings(sections) == 1 then Some(sections) else None
  }

  // ---------------------------------------------------------------- writing

  function WriteRange(range: Range): Bytes { Encode(range.segment) + Encode(range.offset) + Encode(range.size) }

  function WriteSymbol(symbol: Symbol): Bytes
  {
    match symbol
    case Indexed(kind, flags, index, name) =>
      [kind] + Encode(flags) + Encode(index) + (if name.Some? then EncodeText(name.value) else [])
    case Data(flags, name, range) =>
      [1] + Encode(flags) + EncodeText(name) + (if range.Some? then WriteRange(range.value) else [])
    case OfSection(flags, index) =>
      [3] + Encode(flags) + Encode(index)
  }

  function WriteEntry(entry: Entry): Bytes { [entry.kind] + Encode(entry.index) }

  function WriteComdat(comdat: Comdat): Bytes
  {
    EncodeText(comdat.name) + Encode(comdat.flags) + Encode(|comdat.entries|) + WriteAll(WriteEntry, comdat.entries)
  }

  function WriteBlock(block: Block): Bytes { [block.kind] + EncodeText(block.payload) }

  function ToBlock(subsection: Subsection): Block
  {
    match subsection
    case Symbols(symbols) => Block(8, Encode(|symbols|) + WriteAll(WriteSymbol, symbols))
    case Comdats(comdats) => Block(7, Encode(|comdats|) + WriteAll(WriteComdat, comdats))
    case Other(kind, payload) => Block(kind, payload)
  }

  function WriteSubsection(subsection: Subsection): Bytes { WriteBlock(ToBlock(subsection)) }

  /** What follows the name of a linking section. */
  function WriteLinking(subsections: seq<Subsection>): Bytes
  {
    Encode(2) + WriteAll(WriteSubsection, subsections)
  }

  function SectionBlock(section: Section): Block
  {
    match section
    case Linking(subsections) => Block(0, EncodeText(LINKING) + WriteLinking(subsections))
    case Plain(kind, payload) => Block(kind, payload)
  }

  function WriteSection(section: Section): Bytes { WriteBlock(SectionBlock(section)) }

  function Write(sections: Object): Bytes { HEADER + WriteAll(WriteSection, sections) }

  // ---------------------------------------------------------------- renaming

  function RenameSymbol(prefix: Bytes, symbol: Symbol): Symbol
  {
    if !Private(symbol.flags) then symbol
    else
      match symbol
      case Indexed(_, _, _, Some(name)) => symbol.(name := Some(prefix + name))
      case Data(_, name, _) => symbol.(symbol := prefix + name)
      case _ => symbol
  }

  function RenameComdat(prefix: Bytes, comdat: Comdat): Comdat { comdat.(name := prefix + comdat.name) }

  function RenameSubsection(prefix: Bytes, subsection: Subsection): Subsection
  {
    match subsection
    case Symbols(symbols) => Symbols(seq(|symbols|, i requires 0 <= i < |symbols| => RenameSymbol(prefix, symbols[i])))
    case Comdats(comdats) => Comdats(seq(|comdats|, i requires 0 <= i < |comdats| => RenameComdat(prefix, comdats[i])))
    case Other(_, _) => subsection
  }

  function RenameSection(prefix: Bytes, section: Section): Section
  {
    match section
    case Linking(subsections) =>
      Linking(seq(|subsections|, i requires 0 <= i < |subsections| => RenameSubsection(prefix, subsections[i])))
    case Plain(_, _) => section
  }

  function Rename(prefix: Bytes, sections: Object): Object
  {
    seq(|sections|, i requires 0 <= i < |sections| => RenameSection(prefix, sections[i]))
  }

  // ---------------------------------------------------------------- the private prefix

  function Ascii(text: string): Bytes
    requires forall i :: 0 <= i < |text| ==> text[i] < 256 as char
  {
    seq(|text|, i requires 0 <= i < |text| => Byte(text[i]))
  }

  function Byte(c: char): u8
    requires c < 256 as char
  {
    c as int
  }

  function Decimal(n: nat): (digits: Bytes)
    ensures digits != [] && forall d <- digits :: 48 <= d <= 57
  {
    if n < 10 then [48 + n] else Decimal(n / 10) + [48 + n % 10]
  }

  /** "__modloader_private." + size + "." + module + "." */
  function Prefix(name: Bytes): Bytes
  {
    Ascii("__modloader_private.") + Decimal(|name|) + [46] + name + [46]
  }
}
