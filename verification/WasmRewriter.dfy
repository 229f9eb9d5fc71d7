/**
 `Wasm_Localize` of client/src/wasm_object.cpp: one pass that reads an object and writes it again with
 its private names prefixed, proved to write what reading, renaming and writing would.
 */
module WasmRewriter {
  import opened Machine
  import opened Options
  import opened Leb128
  import opened WasmObject

  class Reader {
    const bytes: Bytes
    var position: nat
    var valid: bool

    ghost predicate Valid()
      reads this
    {
      position <= |bytes|
    }

    ghost function Rest(): Bytes
      requires Valid()
      reads this
    {
      bytes[position..]
    }

    constructor (bytes: Bytes, position: nat)
      requires position <= |bytes|
      ensures Valid() && valid && Rest() == bytes[position..] && this.bytes == bytes
    {
      this.bytes, this.position, valid := bytes, position, true;
    }

    method Byte() returns (b: u8)
      requires Valid()
      modifies this
      ensures Valid() && valid == (old(valid) && old(Rest()) != [])
      ensures old(Rest()) != [] ==> b == old(Rest())[0] && Rest() == old(Rest())[1..]
      ensures old(Rest()) == [] ==> b == 0 && Rest() == []
    {
      if position == |bytes| {
        valid := false;
        return 0;
      }
      position := position + 1;
      return bytes[position - 1];
    }

    /** A LEB128 number of at most `bits` bits. */
    method Number(bits: nat) returns (value: u64)
      requires Valid() && 0 < bits <= 64
      modifies this
      ensures Valid()
      ensures valid ==> old(valid) && Decode(bits, old(Rest())) == Done(value, Rest())
      ensures !valid ==> value == 0 && (old(valid) ==> Decode(bits, old(Rest())) == Fail)
    {
      value := 0;
      var shift := 0;
      ghost var start := Rest();
      hide Or, And, Shl64, Decode, Pow2;
      assert Pow2(0) == 1 by { PowZero(); }
      assert Continues(bits, start, 0, 0, start) by { FromStart(bits, start); }
      while shift < bits
        invariant Valid() && shift <= bits && valid == old(valid) && value < Pow2(shift)
        invariant shift < bits ==> Continues(bits, start, shift, value, Rest())
        invariant shift == bits ==> Decode(bits, start) == Fail
        decreases bits - shift
      {
        ghost var here := Rest();
        var byte := Byte();
        if !valid || (bits - shift < 7 && byte >= Pow2(bits - shift)) {
          if old(valid) { TooLarge(bits, start, shift, value, here); }
          valid := false;
          return 0;
        }
        NextSeven(bits, start, shift, value, here);
        value := Or(value, Shl64(And(byte, 127), shift));
        if byte < 128 { return; }
        shift := shift + 7;
      }
      valid := false;
      return 0;
    }

    method Take(size: nat) returns (taken: Bytes)
      requires Valid()
      modifies this
      ensures Valid()
      ensures valid ==> old(valid) && Leb128.Take(size, old(Rest())) == Done(taken, Rest())
      ensures !valid && old(valid) ==> Leb128.Take(size, old(Rest())) == Fail && taken == []
    {
      if size > |bytes| - position {
        valid := false;
        return [];
      }
      taken := bytes[position..position + size];
      assert taken == Rest()[..size] && bytes[position + size..] == Rest()[size..];
      position := position + size;
    }

    method Text() returns (text: Bytes)
      requires Valid()
      modifies this
      ensures Valid()
      ensures valid ==> old(valid) && DecodeText(old(Rest())) == Done(text, Rest())
      ensures !valid && old(valid) ==> DecodeText(old(Rest())) == Fail
    {
      var size := Number(32);
      text := Take(size);
    }

    method Number32() returns (value: u64)
      requires Valid()
      modifies this
      ensures Valid()
      ensures valid ==> old(valid) && value < TWO_32 && Decode32(old(Rest())) == Done(value, Rest())
      ensures !valid ==> value == 0 && (old(valid) ==> Decode32(old(Rest())) == Fail)
    {
      Pow2Of64();
      value := Number(32);
    }

    method Number64() returns (value: u64)
      requires Valid()
      modifies this
      ensures Valid()
      ensures valid ==> old(valid) && Decode64(old(Rest())) == Done(value, Rest())
      ensures !valid ==> value == 0 && (old(valid) ==> Decode64(old(Rest())) == Fail)
    {
      value := Number(64);
    }
  }

  /** What is left to decode adds to the bits decoded so far. */
  ghost predicate Continues(bits: nat, start: Bytes, shift: nat, value: nat, rest: Bytes)
    requires shift <= bits
  {
    Decode(bits, start) ==
    match Decode(bits - shift, rest)
    case Fail => Fail
    case Done(high, end) => Done(value + high * Pow2(shift), end)
  }

  lemma {:induction false} PowZero()
    ensures Pow2(0) == 1
  {}

  lemma {:induction false} FromStart(bits: nat, start: Bytes)
    ensures Continues(bits, start, 0, 0, start)
  {
    assert Pow2(0) == 1;
  }

  lemma {:induction false} TooLarge(bits: nat, start: Bytes, shift: nat, value: nat, here: Bytes)
    requires shift < bits && Continues(bits, start, shift, value, here)
    requires here == [] || (bits - shift < 7 && here[0] >= Pow2(bits - shift))
    ensures Decode(bits, start) == Fail
  {}

  /** Or-ing in the next seven bits adds them, and nothing is shifted out. */
  lemma {:induction false} AddSeven(value: nat, byte: u8, shift: nat, n: nat)
    requires value < Pow2(shift) && byte % 128 < Pow2(n) && n + shift <= 64
    ensures Or(value, Shl64(And(byte, 127), shift)) == value + byte % 128 * Pow2(shift) < Pow2(n + shift)
    ensures Pow2(n + shift) <= TWO_64
  {
    var low := byte % 128;
    LowSeven(byte);
    ShiftedFits(low, n, shift);
    Shl64Small(low, shift);
    OrAbove(value, low, shift);
    Pow2Monotone(n + shift, 64);
    Pow2Of64();
    hide *;
  }

  lemma {:induction false} LowSeven(byte: u8)
    ensures And(byte, 127) == byte % 128
  {
    assert Pow2(7) == 128;
    AndLowMask(byte, 7);
  }

  lemma {:induction false} Shl64Small(x: u64, n: nat)
    requires x * Pow2(n) < TWO_64
    ensures Shl64(x, n) == x * Pow2(n)
  {
    SmallMod(x * Pow2(n), TWO_64);
  }

  /** One more byte: seven more bits, and the end of the number unless its top bit is set. */
  lemma {:induction false} NextSeven(bits: nat, start: Bytes, shift: nat, value: nat, here: Bytes)
    requires shift < bits <= 64 && here != [] && value < Pow2(shift) && Continues(bits, start, shift, value, here)
    requires bits - shift < 7 ==> here[0] < Pow2(bits - shift)
    ensures var more := value + here[0] % 128 * Pow2(shift);
            && Or(value, Shl64(And(here[0], 127), shift)) == more < TWO_64
            && (here[0] < 128 ==> Decode(bits, start) == Done(more, here[1..]))
            && (here[0] >= 128 ==>
                  && shift + 7 <= bits && more < Pow2(shift + 7)
                  && (shift + 7 < bits ==> Continues(bits, start, shift + 7, more, here[1..]))
                  && (shift + 7 == bits ==> Decode(bits, start) == Fail))
  {
    var rest := bits - shift;
    assert Pow2(7) == 128;
    if rest < 7 {
      Pow2Monotone(rest, 7);
      AddSeven(value, here[0], shift, rest);
    } else {
      Pow2Monotone(7, rest);
      AddSeven(value, here[0], shift, 7);
    }
    hide And, Or, Shl64, Pow2, Decode, Continues;
    if here[0] >= 128 {
      if rest > 7 { SevenOn(bits, start, shift, value, here); }
    } else {
      LastSeven(bits, start, shift, value, here);
    }
  }

  lemma {:induction false} LastSeven(bits: nat, start: Bytes, shift: nat, value: nat, here: Bytes)
    requires shift < bits && here != [] && here[0] < 128 && Continues(bits, start, shift, value, here)
    requires here[0] < Pow2(bits - shift)
    ensures Decode(bits, start) == Done(value + here[0] % 128 * Pow2(shift), here[1..])
  {}

  lemma {:induction false} SmallMod(x: nat, m: nat)
    requires x < m
    ensures x % m == x
  {}

  lemma {:induction false} ShiftedFits(low: nat, n: nat, shift: nat)
    requires low < Pow2(n)
    ensures low * Pow2(shift) + Pow2(shift) <= Pow2(n + shift)
    ensures n + shift <= 64 ==> low * Pow2(shift) + Pow2(shift) <= TWO_64
  {
    Pow2Sum(n, shift);
    assert low * Pow2(shift) + Pow2(shift) == (low + 1) * Pow2(shift);
    MulMonotone(low + 1, Pow2(n), Pow2(shift));
    if n + shift <= 64 {
      Pow2Monotone(n + shift, 64);
      Pow2Of64();
    }
  }

  lemma {:induction false} MulMonotone(x: nat, y: nat, m: nat)
    requires x <= y
    ensures x * m <= y * m
  {}

  lemma {:induction false} SevenOn(bits: nat, start: Bytes, shift: nat, value: nat, here: Bytes)
    requires shift + 7 < bits && here != [] && here[0] >= 128 && Continues(bits, start, shift, value, here)
    ensures Continues(bits, start, shift + 7, value + here[0] % 128 * Pow2(shift), here[1..])
  {
    hide Pow2;
    var low := here[0] % 128;
    match Decode(bits - shift - 7, here[1..])
    case Fail =>
    case Done(high, _) =>
      Distribute(high, low, shift);
      assert here[0] - 128 == low;
  }

  lemma {:induction false} Distribute(high: nat, low: nat, shift: nat)
    ensures (128 * high + low) * Pow2(shift) == low * Pow2(shift) + high * Pow2(shift + 7)
  {
    Pow2Seven(shift);
    var p := Pow2(shift);
    assert (128 * high + low) * p == 128 * high * p + low * p;
    assert high * (128 * p) == 128 * high * p;
  }

  class Writer {
    var bytes: Bytes

    constructor (bytes: Bytes)
      ensures this.bytes == bytes
    {
      this.bytes := bytes;
    }

    method Push(b: u8)
      modifies this
      ensures bytes == old(bytes) + [b]
    {
      bytes := bytes + [b];
    }

    method Number(number: nat)
      modifies this
      ensures bytes == old(bytes) + Encode(number)
    {
      var left: nat := number;
      while true
        invariant old(bytes) + Encode(number) == bytes + Encode(left)
        decreases left
      {
        var byte := And(left, 127);
        MaskSeven(left);
        ghost var was := left;
        left := left / 128;
        if left == 0 {
          bytes := bytes + [byte];
          return;
        }
        bytes := bytes + [Or(byte, 128)];
        assert Encode(was) == [Or(byte, 128)] + Encode(left);
      }
    }

    method Text(text: Bytes)
      modifies this
      ensures bytes == old(bytes) + EncodeText(text)
    {
      Number(|text|);
      bytes := bytes + text;
    }

    method Section(kind: u8, payload: Bytes)
      modifies this
      ensures bytes == old(bytes) + WriteBlock(Block(kind, payload))
    {
      Push(kind);
      Number(|payload|);
      bytes := bytes + payload;
    }
  }

  lemma {:induction false} MaskSeven(n: nat)
    ensures And(n, 127) == n % 128 && Or(n % 128, 128) == n % 128 + 128
  {
    assert Pow2(7) == 128;
    AndLowMask(n, 7);
    OrAbove(n % 128, 1, 7);
  }

  // ---------------------------------------------------------------- symbols

  method Name(input: Reader, output: Writer, prefix: Bytes, hidden: bool)
    requires input.Valid()
    modifies input, output
    ensures input.Valid()
    ensures input.valid ==> old(input.valid) && DecodeText(old(input.Rest())).Done?
                            && input.Rest() == DecodeText(old(input.Rest())).rest
                            && var name := DecodeText(old(input.Rest())).value;
                               output.bytes == old(output.bytes) + EncodeText(if hidden then prefix + name else name)
    ensures !input.valid && old(input.valid) ==> DecodeText(old(input.Rest())) == Fail
  {
    var symbol := input.Text();
    output.Text(if hidden then prefix + symbol else symbol);
  }

  method CopyNumber32(input: Reader, output: Writer) returns (value: u64)
    requires input.Valid()
    modifies input, output
    ensures input.Valid()
    ensures input.valid ==> old(input.valid) && Decode32(old(input.Rest())).Done? && value == Decode32(old(input.Rest())).value
                            && input.Rest() == Decode32(old(input.Rest())).rest && output.bytes == old(output.bytes) + Encode(value)
    ensures !input.valid && old(input.valid) ==> Decode32(old(input.Rest())) == Fail
  {
    value := input.Number32();
    output.Number(value);
  }

  method CopyRange(input: Reader, output: Writer)
    requires input.Valid()
    modifies input, output
    ensures input.Valid()
    ensures input.valid ==> old(input.valid) && ReadRange(old(input.Rest())).Done?
                            && input.Rest() == ReadRange(old(input.Rest())).rest
                            && output.bytes == old(output.bytes) + WriteRange(ReadRange(old(input.Rest())).value)
    ensures !input.valid && old(input.valid) ==> ReadRange(old(input.Rest())) == Fail
  {
    hide Decode32, Decode64, Encode;
    var segment := CopyNumber32(input, output);
    var offset := input.Number64();
    output.Number(offset);
    var size := input.Number64();
    output.Number(size);
  }

  /** What follows the kind and the flags. */
  ghost function Tail(symbol: Symbol): Bytes
  {
    match symbol
    case Indexed(_, _, index, name) => Encode(index) + (if name.Some? then EncodeText(name.value) else [])
    case Data(_, name, range) => EncodeText(name) + (if range.Some? then WriteRange(range.value) else [])
    case OfSection(_, index) => Encode(index)
  }

  ghost function KindOf(symbol: Symbol): u8
  {
    match symbol
    case Indexed(kind, _, _, _) => kind
    case Data(_, _, _) => 1
    case OfSection(_, _) => 3
  }

  lemma {:induction false} HeadAndTail(symbol: Symbol)
    ensures WriteSymbol(symbol) == [KindOf(symbol)] + Encode(symbol.flags) + Tail(symbol)
  {
    hide Encode, EncodeText, WriteRange;
  }

  /** The part of an entry that was read is written renamed; or it could not be read. */
  ghost predicate Copied(was: Bytes, now: Bytes, valid: bool, prefix: Bytes, parsed: Parsed<Symbol>, rest: Bytes)
  {
    if valid then parsed.Done? && rest == parsed.rest && now == was + Tail(RenameSymbol(prefix, parsed.value))
    else parsed == Fail
  }

  method CopyIndexed(input: Reader, output: Writer, prefix: Bytes, kind: u8, flags: u32)
    requires input.Valid() && input.valid
    modifies input, output
    ensures input.Valid()
    ensures Copied(old(output.bytes), output.bytes, input.valid, prefix, ReadIndexed(kind, flags, old(input.Rest())), input.Rest())
  {
    hide Decode32, DecodeText, Encode, EncodeText, And, WriteRange;
    var index := CopyNumber32(input, output);
    if Named(flags) { Name(input, output, prefix, Private(flags)); }
  }

  method CopyData(input: Reader, output: Writer, prefix: Bytes, flags: u32)
    requires input.Valid() && input.valid
    modifies input, output
    ensures input.Valid()
    ensures Copied(old(output.bytes), output.bytes, input.valid, prefix, ReadData(flags, old(input.Rest())), input.Rest())
  {
    hide ReadRange, DecodeText, Encode, EncodeText, And, WriteRange;
    Name(input, output, prefix, Private(flags));
    if Defined(flags) { CopyRange(input, output); }
  }

  method CopyOfSection(input: Reader, output: Writer, prefix: Bytes, flags: u32)
    requires input.Valid() && input.valid
    modifies input, output
    ensures input.Valid()
    ensures var parsed := match Decode32(old(input.Rest())) case Fail => Fail case Done(index, end) => Done(OfSection(flags, index), end);
            Copied(old(output.bytes), output.bytes, input.valid, prefix, parsed, input.Rest())
  {
    hide Decode32, Encode, EncodeText, And;
    var index := CopyNumber32(input, output);
  }

  /** One entry of the symbol table; `known` is false for a kind that does not exist. */
  method CopySymbol(input: Reader, output: Writer, prefix: Bytes) returns (known: bool)
    requires input.Valid() && input.valid
    modifies input, output
    ensures input.Valid()
    ensures var parsed := ReadSymbol(old(input.Rest()));
            if input.valid && known
            then parsed.Done? && input.Rest() == parsed.rest
                 && output.bytes == old(output.bytes) + WriteSymbol(RenameSymbol(prefix, parsed.value))
            else parsed == Fail
  {
    hide Decode32, Encode, Tail, Private, Named, Defined, WriteSymbol, DecodeText, ReadRange, EncodeText;
    var kind := input.Byte();
    var flags := input.Number32();
    if !input.valid { return true; }  // whatever else is read or written cannot matter
    output.Push(kind);
    output.Number(flags);
    if kind == 0 || kind == 2 || kind == 4 || kind == 5 {
      CopyIndexed(input, output, prefix, kind, flags);
    } else if kind == 1 {
      CopyData(input, output, prefix, flags);
    } else if kind == 3 {
      CopyOfSection(input, output, prefix, flags);
    } else {
      return false;
    }
    if input.valid { HeadAndTail(RenameSymbol(prefix, ReadSymbol(old(input.Rest())).value)); }
    return true;
  }

  lemma {:induction false} SymbolTakesBytes(b: Bytes)
    ensures ReadSymbol(b).Done? ==> |ReadSymbol(b).rest| < |b|
  {
    hide And, Decode;
  }

  /** A count larger than the bytes that follow cannot be met. */
  lemma {:induction false} CountTooLarge<T(!new)>(parse: Bytes -> Parsed<T>, count: nat, b: Bytes)
    requires forall x: Bytes :: parse(x).Done? ==> |parse(x).rest| < |x|
    requires count > |b|
    ensures Many(parse, count, b) == Fail
  {
    ManyShort(parse, count, b);
  }

  /** `done` was read from `start`, which leaves `rest`; `renamed` was written behind `was`. */
  ghost predicate Copying<T>(parse: Bytes -> Parsed<T>, write: T -> Bytes, start: Bytes, rest: Bytes, done: seq<T>, renamed: seq<T>,
                             was: Bytes, now: Bytes)
  {
    |renamed| == |done| && Many(parse, |done|, start) == Done(done, rest) && now == was + WriteAll(write, renamed)
  }

  lemma {:induction false} CopyNone<T>(parse: Bytes -> Parsed<T>, write: T -> Bytes, start: Bytes, was: Bytes)
    ensures Copying(parse, write, start, start, [], [], was, was)
  {}

  lemma {:induction false} CopyOne<T>(parse: Bytes -> Parsed<T>, write: T -> Bytes, start: Bytes, rest: Bytes, done: seq<T>, renamed: seq<T>,
                                      was: Bytes, now: Bytes, x: T)
    requires Copying(parse, write, start, rest, done, renamed, was, now) && parse(rest).Done?
    ensures Copying(parse, write, start, parse(rest).rest, done + [parse(rest).value], renamed + [x], was, now + write(x))
  {
    ManyOn(parse, |done| + 1, start, done, rest);
    WriteAllNext(write, renamed, x);
  }

  lemma {:induction false} CopyFails<T>(parse: Bytes -> Parsed<T>, write: T -> Bytes, start: Bytes, rest: Bytes, done: seq<T>, renamed: seq<T>,
                                        was: Bytes, now: Bytes, count: nat)
    requires Copying(parse, write, start, rest, done, renamed, was, now) && parse(rest) == Fail && |done| < count
    ensures Many(parse, count, start) == Fail
  {
    ManyOn(parse, count, start, done, rest);
  }

  lemma {:induction false} CopyAll<T>(parse: Bytes -> Parsed<T>, write: T -> Bytes, start: Bytes, rest: Bytes, done: seq<T>, renamed: seq<T>,
                                      was: Bytes, now: Bytes)
    requires Copying(parse, write, start, rest, done, renamed, was, now)
    ensures |renamed| == |done| && Many(parse, |done|, start) == Done(done, rest) && now == was + WriteAll(write, renamed)
  {}

  method CopySymbols(input: Reader, output: Writer, prefix: Bytes) returns (ok: bool)
    requires input.Valid() && input.valid
    modifies input, output
    ensures input.Valid()
    ensures var list := Whole(ReadSymbol, old(input.Rest()));
            && ok == list.Some?
            && (ok ==> output.bytes == old(output.bytes) + ToBlock(RenameSubsection(prefix, Symbols(list.value))).payload)
  {
    hide Decode32, ReadSymbol, WriteSymbol, RenameSymbol, Encode, Many, Copying, DecodeText;
    var count := input.Number32();
    if !input.valid { return false; }
    ghost var start := input.Rest();
    if count > |input.bytes| - input.position {
      forall x: Bytes ensures ReadSymbol(x).Done? ==> |ReadSymbol(x).rest| < |x| { SymbolTakesBytes(x); }
      CountTooLarge(ReadSymbol, count, start);
      return false;
    }
    output.Number(count);
    ghost var was := output.bytes;
    ghost var done: seq<Symbol>, renamed: seq<Symbol> := [], [];
    CopyNone(ReadSymbol, WriteSymbol, start, was);
    var index := 0;
    while index < count && input.valid
      invariant input.Valid() && index <= count
      invariant input.valid ==> index == |done| && Copying(ReadSymbol, WriteSymbol, start, input.Rest(), done, renamed, was, output.bytes)
      invariant |renamed| == |done| && forall i :: 0 <= i < |done| ==> renamed[i] == RenameSymbol(prefix, done[i])
      invariant !input.valid ==> Many(ReadSymbol, count, start) == Fail
      decreases count - index
    {
      ghost var rest, now := input.Rest(), output.bytes;
      var known := CopySymbol(input, output, prefix);
      if !(input.valid && known) { CopyFails(ReadSymbol, WriteSymbol, start, rest, done, renamed, was, now, count); }
      if !known && input.valid { return false; }
      if input.valid {
        ghost var symbol := ReadSymbol(rest).value;
        CopyOne(ReadSymbol, WriteSymbol, start, rest, done, renamed, was, now, RenameSymbol(prefix, symbol));
        done, renamed := done + [symbol], renamed + [RenameSymbol(prefix, symbol)];
      }
      index := index + 1;
    }
    ok := input.valid && input.position == |input.bytes|;
    if input.valid {
      CopyAll(ReadSymbol, WriteSymbol, start, input.Rest(), done, renamed, was, output.bytes);
      assert renamed == RenameSubsection(prefix, Symbols(done)).symbols;
    }
  }

  // ---------------------------------------------------------------- comdats

  method CopyEntry(input: Reader, output: Writer)
    requires input.Valid() && input.valid
    modifies input, output
    ensures input.Valid()
    ensures var parsed := ReadEntry(old(input.Rest()));
            if input.valid then parsed.Done? && input.Rest() == parsed.rest && output.bytes == old(output.bytes) + WriteEntry(parsed.value)
            else parsed == Fail
  {
    hide Decode32, Encode;
    var kind := input.Byte();
    output.Push(kind);
    var index := CopyNumber32(input, output);
  }

  method CopyEntries(input: Reader, output: Writer) returns (ok: bool)
    requires input.Valid() && input.valid
    modifies input, output
    ensures input.Valid()
    ensures var parsed := Counted(ReadEntry, old(input.Rest()));
            if ok && input.valid
            then parsed.Done? && input.Rest() == parsed.rest
                 && output.bytes == old(output.bytes) + Encode(|parsed.value|) + WriteAll(WriteEntry, parsed.value)
            else parsed == Fail
  {
    var count := input.Number32();
    if !input.valid { return true; }
    ghost var start := input.Rest();
    hide Decode32, Encode, Many, Copying, ReadEntry, WriteEntry;
    if count > |input.bytes| - input.position {
      forall x: Bytes ensures ReadEntry(x).Done? ==> |ReadEntry(x).rest| < |x| { EntryTakesBytes(x); }
      CountTooLarge(ReadEntry, count, start);
      return false;
    }
    output.Number(count);
    ghost var was := output.bytes;
    ghost var done: seq<Entry> := [];
    CopyNone(ReadEntry, WriteEntry, start, was);
    var index := 0;
    while index < count && input.valid
      invariant input.Valid() && index <= count
      invariant input.valid ==> index == |done| && Copying(ReadEntry, WriteEntry, start, input.Rest(), done, done, was, output.bytes)
      invariant !input.valid ==> Many(ReadEntry, count, start) == Fail
      decreases count - index
    {
      ghost var rest, now := input.Rest(), output.bytes;
      CopyEntry(input, output);
      if input.valid {
        ghost var entry := ReadEntry(rest).value;
        CopyOne(ReadEntry, WriteEntry, start, rest, done, done, was, now, entry);
        done := done + [entry];
      } else {
        CopyFails(ReadEntry, WriteEntry, start, rest, done, done, was, now, count);
      }
      index := index + 1;
    }
    if input.valid { CopyAll(ReadEntry, WriteEntry, start, input.Rest(), done, done, was, output.bytes); }
    return true;
  }

  lemma {:induction false} EntryTakesBytes(b: Bytes)
    ensures ReadEntry(b).Done? ==> |ReadEntry(b).rest| < |b|
  {}

  /** One comdat; `ok` is false when its entries cannot all be there. */
  method CopyComdat(input: Reader, output: Writer, prefix: Bytes) returns (ok: bool)
    requires input.Valid() && input.valid
    modifies input, output
    ensures input.Valid()
    ensures var parsed := ReadComdat(old(input.Rest()));
            if input.valid && ok
            then parsed.Done? && input.Rest() == parsed.rest
                 && output.bytes == old(output.bytes) + WriteComdat(RenameComdat(prefix, parsed.value))
            else parsed == Fail
  {
    hide Decode32, Encode, DecodeText, EncodeText, Counted, WriteAll;
    Name(input, output, prefix, true);
    if !input.valid { return true; }  // whatever else is read or written cannot matter
    var flags := CopyNumber32(input, output);
    if !input.valid { return true; }
    ok := CopyEntries(input, output);
  }

  method CopyComdats(input: Reader, output: Writer, prefix: Bytes) returns (ok: bool)
    requires input.Valid() && input.valid
    modifies input, output
    ensures input.Valid()
    ensures var list := Whole(ReadComdat, old(input.Rest()));
            && ok == list.Some?
            && (ok ==> output.bytes == old(output.bytes) + ToBlock(RenameSubsection(prefix, Comdats(list.value))).payload)
  {
    hide Decode32, ReadComdat, WriteComdat, RenameComdat, Encode, Many, Copying, DecodeText;
    var count := input.Number32();
    if !input.valid { return false; }
    ghost var start := input.Rest();
    if count > |input.bytes| - input.position {
      forall x: Bytes ensures ReadComdat(x).Done? ==> |ReadComdat(x).rest| < |x| { ComdatTakesBytes(x); }
      CountTooLarge(ReadComdat, count, start);
      return false;
    }
    output.Number(count);
    ghost var was := output.bytes;
    ghost var done: seq<Comdat>, renamed: seq<Comdat> := [], [];
    CopyNone(ReadComdat, WriteComdat, start, was);
    var index := 0;
    while index < count && input.valid
      invariant input.Valid() && index <= count
      invariant input.valid ==> index == |done| && Copying(ReadComdat, WriteComdat, start, input.Rest(), done, renamed, was, output.bytes)
      invariant |renamed| == |done| && forall i :: 0 <= i < |done| ==> renamed[i] == RenameComdat(prefix, done[i])
      invariant !input.valid ==> Many(ReadComdat, count, start) == Fail
      decreases count - index
    {
      ghost var rest, now := input.Rest(), output.bytes;
      ok := CopyComdat(input, output, prefix);
      if !(input.valid && ok) { CopyFails(ReadComdat, WriteComdat, start, rest, done, renamed, was, now, count); }
      if !ok && input.valid { return false; }
      if input.valid && ok {
        ghost var comdat := ReadComdat(rest).value;
        CopyOne(ReadComdat, WriteComdat, start, rest, done, renamed, was, now, RenameComdat(prefix, comdat));
        done, renamed := done + [comdat], renamed + [RenameComdat(prefix, comdat)];
      }
      index := index + 1;
    }
    ok := input.valid && input.position == |input.bytes|;
    if input.valid {
      CopyAll(ReadComdat, WriteComdat, start, input.Rest(), done, renamed, was, output.bytes);
      assert renamed == RenameSubsection(prefix, Comdats(done)).comdats;
    }
  }

  lemma {:induction false} ComdatTakesBytes(b: Bytes)
    ensures ReadComdat(b).Done? ==> |ReadComdat(b).rest| < |b|
  {
    hide Decode32, ReadEntry;
    if DecodeText(b).Done? {
      SmallerText(b);
      hide DecodeText;
      var after := Decode32(DecodeText(b).rest);
      if after.Done? && Decode32(after.rest).Done? {
        forall x: Bytes ensures ReadEntry(x).Done? ==> |ReadEntry(x).rest| < |x| { EntryTakesBytes(x); }
        ManyShort(ReadEntry, Decode32(after.rest).value, Decode32(after.rest).rest);
      }
    }
  }

  // ---------------------------------------------------------------- sequences of blocks

  /** The blocks read so far, what they mean, and what was written for them. */
  ghost predicate Blocking<T>(read: Block -> Option<T>, write: T -> Bytes, start: Bytes, rest: Bytes, blocks: seq<Block>, done: seq<T>,
                              renamed: seq<T>, was: Bytes, now: Bytes)
  {
    && Each(read, blocks) == Some(done) && |renamed| == |done| && now == was + WriteAll(write, renamed)
    && ReadBlocks(start) == match ReadBlocks(rest) case None => None case Some(more) => Some(blocks + more)
  }

  lemma {:induction false} NoBlocks<T>(read: Block -> Option<T>, write: T -> Bytes, start: Bytes, was: Bytes)
    ensures Blocking(read, write, start, start, [], [], [], was, was)
  {
    if ReadBlocks(start).Some? { assert [] + ReadBlocks(start).value == ReadBlocks(start).value; }
  }

  /** The block at the start of `rest`, if there is one. */
  ghost function FirstOf(rest: Bytes): Option<Block>
  {
    if rest == [] then None
    else match DecodeText(rest[1..]) case Fail => None case Done(payload, _) => Some(Block(rest[0], payload))
  }

  lemma {:induction false} OneBlock<T>(read: Block -> Option<T>, write: T -> Bytes, start: Bytes, rest: Bytes, blocks: seq<Block>,
                                       done: seq<T>, renamed: seq<T>, was: Bytes, now: Bytes, x: T)
    requires Blocking(read, write, start, rest, blocks, done, renamed, was, now)
    requires FirstOf(rest).Some? && read(FirstOf(rest).value).Some?
    ensures Blocking(read, write, start, DecodeText(rest[1..]).rest, blocks + [FirstOf(rest).value],
                     done + [read(FirstOf(rest).value).value], renamed + [x], was, now + write(x))
  {
    var first := FirstOf(rest).value;
    var more := ReadBlocks(DecodeText(rest[1..]).rest);
    hide DecodeText;
    WriteAllNext(write, renamed, x);
    assert (blocks + [first])[..|blocks|] == blocks;
    if more.Some? { assert blocks + ([first] + more.value) == blocks + [first] + more.value; }
  }

  /** A block that does not mean anything, or is not there, spoils the whole. */
  lemma {:induction false} BadBlock<T>(read: Block -> Option<T>, write: T -> Bytes, start: Bytes, rest: Bytes, blocks: seq<Block>,
                                       done: seq<T>, renamed: seq<T>, was: Bytes, now: Bytes)
    requires Blocking(read, write, start, rest, blocks, done, renamed, was, now) && rest != []
    requires FirstOf(rest).Some? ==> read(FirstOf(rest).value) == None
    ensures ReadBlocks(start).Some? ==> Each(read, ReadBlocks(start).value) == None
  {
    if ReadBlocks(start).Some? {
      hide DecodeText;
      var first := FirstOf(rest).value;
      var more := ReadBlocks(DecodeText(rest[1..]).rest).value;
      assert (blocks + [first])[..|blocks|] == blocks;
      assert blocks + ([first] + more) == blocks + [first] + more;
      EachPrefix(read, blocks + [first], more);
    }
  }

  lemma {:induction false} EachPrefix<A, B>(f: A -> Option<B>, xs: seq<A>, ys: seq<A>)
    ensures Each(f, xs) == None ==> Each(f, xs + ys) == None
    ensures Each(f, xs + ys).Some? ==> |xs| <= |Each(f, xs + ys).value| && Each(f, xs) == Some(Each(f, xs + ys).value[..|xs|])
  {
    if ys == [] {
      assert xs + ys == xs;
      if Each(f, xs).Some? { assert Each(f, xs).value[..|xs|] == Each(f, xs).value; }
    } else {
      assert (xs + ys)[..|xs + ys| - 1] == xs + ys[..|ys| - 1];
      EachPrefix(f, xs, ys[..|ys| - 1]);
      if Each(f, xs + ys).Some? {
        var front := Each(f, xs + ys[..|ys| - 1]).value;
        assert Each(f, xs + ys).value[..|xs|] == front[..|xs|];
      }
    }
  }

  lemma {:induction false} AllBlocks<T>(read: Block -> Option<T>, write: T -> Bytes, start: Bytes, blocks: seq<Block>,
                                        done: seq<T>, renamed: seq<T>, was: Bytes, now: Bytes)
    requires Blocking(read, write, start, [], blocks, done, renamed, was, now)
    ensures ReadBlocks(start) == Some(blocks) && Each(read, blocks) == Some(done)
    ensures |renamed| == |done| && now == was + WriteAll(write, renamed)
  {
    assert blocks + [] == blocks;
  }

  // ---------------------------------------------------------------- the linking section

  lemma {:induction false} TablesPrefix(subsections: seq<Subsection>, n: nat)
    requires n <= |subsections|
    ensures Tables(subsections[..n]) <= Tables(subsections)
  {
    if n == |subsections| {
      assert subsections[..n] == subsections;
    } else {
      assert subsections[..|subsections| - 1][..n] == subsections[..n];
      TablesPrefix(subsections[..|subsections| - 1], n);
    }
  }

  lemma {:induction false} TablesNext(subsections: seq<Subsection>, last: Subsection)
    ensures Tables(subsections + [last]) == Tables(subsections) + if last.Symbols? then 1 else 0
  {
    assert (subsections + [last])[..|subsections|] == subsections;
  }

  /** A second symbol table, now, is too many in the end. */
  lemma {:induction false} SecondTable(start: Bytes, rest: Bytes, blocks: seq<Block>, done: seq<Subsection>, renamed: seq<Subsection>,
                                       was: Bytes, now: Bytes)
    requires Blocking(ReadSubsection, WriteSubsection, start, rest, blocks, done, renamed, was, now) && Tables(done) >= 1
    requires FirstOf(rest).Some? && FirstOf(rest).value.kind == 8
    ensures ReadBlocks(start).Some? && Each(ReadSubsection, ReadBlocks(start).value).Some? ==>
              Tables(Each(ReadSubsection, ReadBlocks(start).value).value) > 1
  {
    var first := FirstOf(rest).value;
    hide Tables, DecodeText, Whole;
    if ReadSubsection(first) == None {
      BadBlock(ReadSubsection, WriteSubsection, start, rest, blocks, done, renamed, was, now);
    } else {
      var second := ReadSubsection(first).value;
      OneBlock(ReadSubsection, WriteSubsection, start, rest, blocks, done, renamed, was, now, second);
      TablesNext(done, second);
      if ReadBlocks(start).Some? && Each(ReadSubsection, ReadBlocks(start).value).Some? {
        var more := ReadBlocks(DecodeText(rest[1..]).rest).value;
        EachPrefix(ReadSubsection, blocks + [first], more);
        TablesPrefix(Each(ReadSubsection, ReadBlocks(start).value).value, |done| + 1);
      }
    }
  }

  /** One subsection: what it means, renamed, is written to `rewritten`. */
  method CopySubsection(kind: u8, payload: Bytes, prefix: Bytes) returns (ok: bool, rewritten: Bytes)
    ensures var read := ReadSubsection(Block(kind, payload));
            ok == read.Some? && (ok ==> Block(kind, rewritten) == ToBlock(RenameSubsection(prefix, read.value)))
  {
    var subsection := new Reader(payload, 0);
    assert subsection.Rest() == payload;
    var output := new Writer([]);
    hide Whole, WriteAll, Encode;
    ok := true;
    if kind == 8 {
      ok := CopySymbols(subsection, output, prefix);
      rewritten := output.bytes;
    } else if kind == 7 {
      ok := CopyComdats(subsection, output, prefix);
      rewritten := output.bytes;
    } else {
      rewritten := payload;
    }
  }

  method CopyLinking(input: Reader, output: Writer, prefix: Bytes) returns (ok: bool)
    requires input.Valid() && input.valid
    modifies input, output
    ensures input.Valid()
    ensures var read := ReadLinking(old(input.Rest()));
            && ok == read.Some?
            && (ok ==> output.bytes == old(output.bytes) + WriteLinking(RenameSection(prefix, Linking(read.value)).subsections))
    ensures ok ==> input.valid
  {
    hide Decode32, DecodeText, Encode, ReadSubsection, ToBlock, RenameSubsection, Blocking, Tables, ReadBlocks, Each, WriteBlock;
    var version := input.Number32();
    if version != 2 { return false; }
    ghost var start := input.Rest();
    output.Number(version);
    ghost var was := output.bytes;
    ghost var blocks: seq<Block>, done: seq<Subsection>, renamed: seq<Subsection> := [], [], [];
    NoBlocks(ReadSubsection, WriteSubsection, start, was);
    var symbols := false;
    assert Tables([]) == 0 by { NoTables(); }
    while input.valid && input.position < |input.bytes|
      invariant input.Valid()
      invariant input.valid ==> Blocking(ReadSubsection, WriteSubsection, start, input.Rest(), blocks, done, renamed, was, output.bytes)
      invariant |renamed| == |done| && forall i :: 0 <= i < |done| ==> renamed[i] == RenameSubsection(prefix, done[i])
      invariant input.valid ==> Tables(done) == if symbols then 1 else 0
      invariant !input.valid ==> ReadBlocks(start).Some? ==> Each(ReadSubsection, ReadBlocks(start).value) == None
      decreases |input.Rest()|
    {
      ghost var rest, now := input.Rest(), output.bytes;
      SmallerText(rest[1..]);
      var kind := input.Byte();
      var payload := input.Text();
      if !input.valid {
        BadBlock(ReadSubsection, WriteSubsection, start, rest, blocks, done, renamed, was, now);
        break;  // what would be written cannot matter
      }
      assert FirstOf(rest) == Some(Block(kind, payload));
      if kind == 8 && symbols {
        SecondTable(start, rest, blocks, done, renamed, was, now);
        return false;
      }
      var rewritten;
      ok, rewritten := CopySubsection(kind, payload, prefix);
      if !ok {
        BadBlock(ReadSubsection, WriteSubsection, start, rest, blocks, done, renamed, was, now);
        return false;
      }
      symbols := symbols || kind == 8;
      output.Section(kind, rewritten);
      ghost var subsection := ReadSubsection(Block(kind, payload)).value;
      OneBlock(ReadSubsection, WriteSubsection, start, rest, blocks, done, renamed, was, now, RenameSubsection(prefix, subsection));
      TablesNext(done, subsection);
      KindTells(Block(kind, payload));
      blocks, done := blocks + [Block(kind, payload)], done + [subsection];
      renamed := renamed + [RenameSubsection(prefix, subsection)];
    }
    if input.valid {
      assert input.Rest() == [];
      AllBlocks(ReadSubsection, WriteSubsection, start, blocks, done, renamed, was, output.bytes);
      assert renamed == RenameSection(prefix, Linking(done)).subsections;
    }
    ok := input.valid && symbols;
  }

  lemma {:induction false} KindTells(block: Block)
    ensures ReadSubsection(block).Some? ==> (ReadSubsection(block).value.Symbols? <==> block.kind == 8)
  {}

  lemma {:induction false} NoTables()
    ensures Tables([]) == 0
  {}

  // ---------------------------------------------------------------- the object

  lemma {:induction false} LinkingsPrefix(sections: Object, n: nat)
    requires n <= |sections|
    ensures Linkings(sections[..n]) <= Linkings(sections)
  {
    if n == |sections| {
      assert sections[..n] == sections;
    } else {
      assert sections[..|sections| - 1][..n] == sections[..n];
      LinkingsPrefix(sections[..|sections| - 1], n);
    }
  }

  lemma {:induction false} LinkingsNext(sections: Object, last: Section)
    ensures Linkings(sections + [last]) == Linkings(sections) + if last.Linking? then 1 else 0
  {
    assert (sections + [last])[..|sections|] == sections;
  }

  lemma {:induction false} SecondLinking(start: Bytes, rest: Bytes, blocks: seq<Block>, done: Object, renamed: Object, was: Bytes, now: Bytes)
    requires Blocking(ReadSection, WriteSection, start, rest, blocks, done, renamed, was, now) && Linkings(done) >= 1
    requires FirstOf(rest).Some? && NamedLinking(FirstOf(rest).value)
    ensures ReadBlocks(start).Some? && Each(ReadSection, ReadBlocks(start).value).Some? ==>
              Linkings(Each(ReadSection, ReadBlocks(start).value).value) > 1
  {
    var first := FirstOf(rest).value;
    hide Linkings, ReadLinking, Blocking;
    if ReadSection(first) == None {
      BadBlock(ReadSection, WriteSection, start, rest, blocks, done, renamed, was, now);
    } else {
      var second := ReadSection(first).value;
      assert second.Linking?;
      hide ReadSection, DecodeText, NamedLinking;
      OneBlock(ReadSection, WriteSection, start, rest, blocks, done, renamed, was, now, second);
      LinkingsNext(done, second);
      if ReadBlocks(start).Some? && Each(ReadSection, ReadBlocks(start).value).Some? {
        TwoInAll(start, rest, blocks, done, second, renamed, was, now);
      }
    }
  }

  lemma {:induction false} TwoInAll(start: Bytes, rest: Bytes, blocks: seq<Block>, done: Object, second: Section, renamed: Object, was: Bytes, now: Bytes)
    requires FirstOf(rest).Some? && Linkings(done + [second]) > 1
    requires Blocking(ReadSection, WriteSection, start, DecodeText(rest[1..]).rest, blocks + [FirstOf(rest).value], done + [second],
                      renamed + [second], was, now + WriteSection(second))
    requires ReadBlocks(start).Some? && Each(ReadSection, ReadBlocks(start).value).Some?
    ensures Linkings(Each(ReadSection, ReadBlocks(start).value).value) > 1
  {
    hide Linkings, ReadSection, DecodeText, WriteSection;
    var more := ReadBlocks(DecodeText(rest[1..]).rest).value;
    EachPrefix(ReadSection, blocks + [FirstOf(rest).value], more);
    LinkingsPrefix(Each(ReadSection, ReadBlocks(start).value).value, |done| + 1);
  }

  /** A custom section called "linking". */
  ghost predicate NamedLinking(block: Block)
  {
    block.kind == 0 && DecodeText(block.payload).Done? && IsLinking(DecodeText(block.payload).value)
  }

  lemma {:induction false} PlainStays(prefix: Bytes, kind: u8, payload: Bytes)
    ensures SectionBlock(RenameSection(prefix, Plain(kind, payload))) == Block(kind, payload)
  {}

  /** One section; `linking` says that it is the linking section. */
  method CopySection(kind: u8, payload: Bytes, prefix: Bytes) returns (ok: bool, linking: bool, rewritten: Bytes)
    ensures linking == NamedLinking(Block(kind, payload))
    ensures var read := ReadSection(Block(kind, payload));
            && ok == read.Some?
            && (ok ==> linking == read.value.Linking? && Block(kind, rewritten) == SectionBlock(RenameSection(prefix, read.value)))
  {
    hide ReadLinking, WriteLinking, EncodeText, DecodeText, RenameSection, SectionBlock, IsLinking;
    PlainStays(prefix, kind, payload);
    if kind != 0 { return true, false, payload; }
    var section := new Reader(payload, 0);
    assert section.Rest() == payload;
    var name := section.Text();
    if !section.valid { return false, false, payload; }
    linking := IsLinking(name);
    if !linking { return true, false, payload; }
    ok, rewritten := RewriteLinking(section, prefix);
  }

  /** The linking section from its version on; its name is written first. */
  method RewriteLinking(section: Reader, prefix: Bytes) returns (ok: bool, rewritten: Bytes)
    requires section.Valid() && section.valid
    modifies section
    ensures var read := ReadLinking(old(section.Rest()));
            ok == read.Some? && (ok ==> Block(0, rewritten) == SectionBlock(RenameSection(prefix, Linking(read.value))))
  {
    hide ReadLinking, WriteLinking, EncodeText;
    var output := new Writer([]);
    output.Text(LINKING);
    assert output.bytes == EncodeText(LINKING);
    ok := CopyLinking(section, output, prefix);
    rewritten := output.bytes;
  }

  /** Where the loop over the sections stands. */
  ghost predicate Localizing(start: Bytes, prefix: Bytes, rest: Bytes, blocks: seq<Block>, done: Object, renamed: Object, now: Bytes,
                             linking: bool)
  {
    && Blocking(ReadSection, WriteSection, start, rest, blocks, done, renamed, HEADER, now)
    && Linkings(done) == (if linking then 1 else 0)
    && renamed == Rename(prefix, done)
  }

  lemma {:induction false} NothingLocalized(start: Bytes, prefix: Bytes)
    ensures Localizing(start, prefix, start, [], [], [], HEADER, false)
  {
    NoBlocks(ReadSection, WriteSection, start, HEADER);
  }

  lemma {:induction false} OneLocalized(start: Bytes, prefix: Bytes, rest: Bytes, blocks: seq<Block>, done: Object, renamed: Object, now: Bytes,
                                        linking: bool, section: Section)
    requires Localizing(start, prefix, rest, blocks, done, renamed, now, linking) && !(linking && section.Linking?)
    requires FirstOf(rest).Some? && ReadSection(FirstOf(rest).value) == Some(section)
    ensures Localizing(start, prefix, DecodeText(rest[1..]).rest, blocks + [FirstOf(rest).value], done + [section],
                       renamed + [RenameSection(prefix, section)], now + WriteSection(RenameSection(prefix, section)),
                       linking || section.Linking?)
  {
    hide Blocking, DecodeText, ReadSection, RenameSection, Linkings, WriteSection;
    OneBlock(ReadSection, WriteSection, start, rest, blocks, done, renamed, HEADER, now, RenameSection(prefix, section));
    LinkingsNext(done, section);
  }

  /** The rest cannot make up for what has been read. */
  lemma {:induction false} Hopeless(start: Bytes, prefix: Bytes, rest: Bytes, blocks: seq<Block>, done: Object, renamed: Object, now: Bytes,
                                    linking: bool)
    requires Localizing(start, prefix, rest, blocks, done, renamed, now, linking) && rest != []
    requires FirstOf(rest).Some? ==> ReadSection(FirstOf(rest).value) == None || (linking && NamedLinking(FirstOf(rest).value))
    ensures Sections(start) == None
  {
    hide Blocking, ReadSection, Linkings, NamedLinking, DecodeText;
    if FirstOf(rest).Some? && linking && NamedLinking(FirstOf(rest).value) {
      SecondLinking(start, rest, blocks, done, renamed, HEADER, now);
    } else {
      BadBlock(ReadSection, WriteSection, start, rest, blocks, done, renamed, HEADER, now);
    }
  }

  lemma {:induction false} AllLocalized(start: Bytes, prefix: Bytes, blocks: seq<Block>, done: Object, renamed: Object, now: Bytes, linking: bool)
    requires Localizing(start, prefix, [], blocks, done, renamed, now, linking)
    ensures Sections(start) == if linking then Some(done) else None
    ensures linking ==> now == Write(Rename(prefix, done))
  {
    hide ReadSection, Linkings;
    AllBlocks(ReadSection, WriteSection, start, blocks, done, renamed, HEADER, now);
  }

  /** What follows the header. */
  ghost function Sections(start: Bytes): Option<Object>
  {
    match ReadBlocks(start)
    case None => None
    case Some(blocks) =>
      match Each(ReadSection, blocks)
      case None => None
      case Some(sections) => if Linkings(sections) == 1 then Some(sections) else None
  }

  /**
   `Wasm_Localize`: it succeeds exactly for objects that can be read and have one linking section, and
   then the object becomes what it says with its private names prefixed; otherwise it stays as it was.
   */
  method Localize(input: Bytes, name: Bytes) returns (ok: bool, localized: Bytes)
    ensures ok == Read(input).Some?
    ensures localized == if ok then Write(Rename(Prefix(name), Read(input).value)) else input
  {
    if |input| < |HEADER| || input[..|HEADER|] != HEADER { return false, input; }
    ghost var start := input[|HEADER|..];
    assert Read(input) == Sections(start);
    hide Read, Write, Rename, DecodeText, ReadSection, SectionBlock, RenameSection, Localizing, Sections, WriteBlock, NamedLinking, Prefix;
    var reader := new Reader(input, |HEADER|);
    var output := new Writer(HEADER);
    var prefix := Prefix(name);
    ghost var blocks: seq<Block>, done: Object, renamed: Object := [], [], [];
    NothingLocalized(start, prefix);
    var linking := false;
    while reader.valid && reader.position < |reader.bytes|
      invariant reader.Valid() && fresh(reader) && fresh(output)
      invariant reader.valid ==> Localizing(start, prefix, reader.Rest(), blocks, done, renamed, output.bytes, linking)
      invariant !reader.valid ==> Sections(start) == None
      decreases |reader.Rest()|
    {
      ghost var rest, now := reader.Rest(), output.bytes;
      SmallerText(rest[1..]);
      var kind := reader.Byte();
      var payload := reader.Text();
      if !reader.valid {
        Hopeless(start, prefix, rest, blocks, done, renamed, now, linking);
        break;  // what would be written cannot matter
      }
      assert FirstOf(rest) == Some(Block(kind, payload));
      var isLinking, rewritten;
      ok, isLinking, rewritten := CopySection(kind, payload, prefix);
      if (isLinking && linking) || !ok {
        Hopeless(start, prefix, rest, blocks, done, renamed, now, linking);
        return false, input;
      }
      output.Section(kind, rewritten);
      ghost var section := ReadSection(Block(kind, payload)).value;
      OneLocalized(start, prefix, rest, blocks, done, renamed, now, linking, section);
      linking := linking || isLinking;
      blocks, done, renamed := blocks + [Block(kind, payload)], done + [section], renamed + [RenameSection(prefix, section)];
    }
    ok := reader.valid && linking;
    if reader.valid {
      assert reader.Rest() == [];
      AllLocalized(start, prefix, blocks, done, renamed, output.bytes, linking);
    }
    localized := if ok then output.bytes else input;
  }
}
