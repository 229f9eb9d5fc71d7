/**
 Unsigned LEB128 numbers as section 5.2.2 of the WebAssembly Core Specification defines them, byte
 strings, and lists of parsed values.
 */
module Leb128 {
  import opened Machine

  type Bytes = seq<u8>

  datatype Parsed<+T> = Fail | Done(value: T, rest: Bytes)

  /** The value of `uN` at the start of `b`. */
  function Decode(bits: nat, b: Bytes): (r: Parsed<nat>)
    ensures r.Done? ==> r.value < Pow2(bits) && |r.rest| < |b|
    decreases |b|
  {
    if b == [] then Fail
    else if b[0] < 128 then if b[0] < Pow2(bits) then Done(b[0], b[1..]) else Fail
    else if bits <= 7 then Fail
    else
      Pow2Seven(bits - 7);
      match Decode(bits - 7, b[1..])
      case Fail => Fail
      case Done(high, rest) => Done(128 * high + (b[0] - 128), rest)
  }

  lemma {:induction false} Pow2Seven(n: nat)
    ensures Pow2(n + 7) == 128 * Pow2(n)
  {
    assert Pow2(n + 2) == 4 * Pow2(n);
    assert Pow2(n + 4) == 4 * Pow2(n + 2);
    assert Pow2(n + 6) == 4 * Pow2(n + 4);
  }

  /** The shortest encoding of `n`. */
  function Encode(n: nat): (b: Bytes)
    ensures 0 < |b|
  {
    if n < 128 then [n] else [n % 128 + 128] + Encode(n / 128)
  }

  /** What was encoded is decoded, and what follows is left alone. */
  lemma {:induction false} DecodeEncode(bits: nat, n: nat, rest: Bytes)
    ensures Decode(bits, Encode(n) + rest) == if n < Pow2(bits) then Done(n, rest) else Fail
    decreases n
  {
    var b := Encode(n) + rest;
    if n < 128 {
      assert b[1..] == rest;
    } else {
      assert b[1..] == Encode(n / 128) + rest;
      if bits <= 7 {
        Pow2Monotone(bits, 7);
      } else {
        DecodeEncode(bits - 7, n / 128, rest);
        Pow2Seven(bits - 7);
      }
    }
  }

  function Take(n: nat, b: Bytes): Parsed<Bytes>
  {
    if n > |b| then Fail else Done(b[..n], b[n..])
  }

  lemma {:induction false} TakeBack(taken: Bytes, rest: Bytes)
    ensures Take(|taken|, taken + rest) == Done(taken, rest)
  {
    assert (taken + rest)[..|taken|] == taken && (taken + rest)[|taken|..] == rest;
  }

  /** A byte string with its length in front. */
  function DecodeText(b: Bytes): Parsed<Bytes>
  {
    match Decode(32, b)
    case Fail => Fail
    case Done(size, rest) => Take(size, rest)
  }

  function EncodeText(text: Bytes): Bytes { Encode(|text|) + text }

  lemma {:induction false} DecodeEncodeText(text: Bytes, rest: Bytes)
    requires |text| < TWO_32
    ensures DecodeText(EncodeText(text) + rest) == Done(text, rest)
  {
    Pow2Of64();
    assert EncodeText(text) + rest == Encode(|text|) + (text + rest);
    DecodeEncode(32, |text|, text + rest);
    TakeBack(text, rest);
  }

  // ---------------------------------------------------------------- several in a row

  function Many<T>(parse: Bytes -> Parsed<T>, n: nat, b: Bytes): (r: Parsed<seq<T>>)
    ensures r.Done? ==> |r.value| == n
  {
    if n == 0 then Done([], b)
    else
      match parse(b)
      case Fail => Fail
      case Done(first, rest) =>
        match Many(parse, n - 1, rest)
        case Fail => Fail
        case Done(more, end) => Done([first] + more, end)
  }

  function WriteAll<T>(write: T -> Bytes, list: seq<T>): Bytes
  {
    if list == [] then [] else write(list[0]) + WriteAll(write, list[1..])
  }

  lemma {:induction false} WriteAllNext<T>(write: T -> Bytes, list: seq<T>, last: T)
    ensures WriteAll(write, list + [last]) == WriteAll(write, list) + write(last)
  {
    if list == [] {
      assert (list + [last])[1..] == [];
    } else {
      assert (list + [last])[1..] == list[1..] + [last];
      WriteAllNext(write, list[1..], last);
    }
  }

  /** Each element is read back, whatever follows it. */
  ghost predicate ReadsBack<T(!new)>(parse: Bytes -> Parsed<T>, write: T -> Bytes, x: T)
  {
    forall rest: Bytes :: parse(write(x) + rest) == Done(x, rest)
  }

  lemma {:induction false} ManyReadBack<T(!new)>(parse: Bytes -> Parsed<T>, write: T -> Bytes, list: seq<T>, rest: Bytes)
    requires forall x <- list :: ReadsBack(parse, write, x)
    ensures Many(parse, |list|, WriteAll(write, list) + rest) == Done(list, rest)
  {
    if list != [] {
      var more := WriteAll(write, list[1..]) + rest;
      assert WriteAll(write, list) + rest == write(list[0]) + more;
      assert ReadsBack(parse, write, list[0]);
      ManyReadBack(parse, write, list[1..], rest);
      assert list == [list[0]] + list[1..];
    }
  }

  /** `n` values in all, `done` of them behind. */
  lemma {:induction false} ManyOn<T>(parse: Bytes -> Parsed<T>, n: nat, b: Bytes, done: seq<T>, rest: Bytes)
    requires |done| < n && Many(parse, |done|, b) == Done(done, rest)
    ensures parse(rest).Fail? ==> Many(parse, n, b).Fail?
    ensures parse(rest).Done? ==> Many(parse, |done| + 1, b) == Done(done + [parse(rest).value], parse(rest).rest)
  {
    if done == [] {
      if parse(rest).Done? { assert [] + [parse(rest).value] == [parse(rest).value] + []; }
    } else {
      var first := parse(b);
      assert Many(parse, |done| - 1, first.rest) == Done(done[1..], rest);
      ManyOn(parse, n - 1, first.rest, done[1..], rest);
      if parse(rest).Done? {
        assert done + [parse(rest).value] == [done[0]] + (done[1..] + [parse(rest).value]);
      }
    }
  }

  /** A list whose elements take at least a byte each cannot be longer than its bytes. */
  lemma {:induction false} ManyShort<T(!new)>(parse: Bytes -> Parsed<T>, n: nat, b: Bytes)
    requires forall x: Bytes :: parse(x).Done? ==> |parse(x).rest| < |x|
    ensures Many(parse, n, b).Done? ==> n + |Many(parse, n, b).rest| <= |b|
  {
    if n > 0 && parse(b).Done? { ManyShort(parse, n - 1, parse(b).rest); }
  }
}
