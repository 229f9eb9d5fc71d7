/**
 The streaming hash of client/src/sha1.cpp, proved to compute the digest of FIPS 180-4 of everything fed
 to it, however it was split.

 The big-endian readers and writers are in modloader_bytes.h, which is not part of this model; they are
 taken to do what their names say. The hexadecimal text of the digest is left to it as well.
 */
module Sha1 {
  import opened Machine
  import opened Sha1Spec

  class Hasher {
    const hash: array<Word>
    const block: array<bv8>
    var length: u64
    var blockUsed: nat
    ghost var fed: Octets

    /** Whole blocks of the message are hashed; the rest is in the block buffer. */
    ghost predicate Buffered(message: Octets)
      reads this`blockUsed, hash, block
    {
      && hash.Length == 5 && block.Length == BLOCK && blockUsed < BLOCK && Whole(message, blockUsed)
      && block[..blockUsed] == message[|message| - blockUsed..]
      && hash[..] == HashBlocks(INITIAL, message[..|message| - blockUsed])
    }

    ghost predicate Valid()
      reads this, hash, block
    {
      Buffered(fed) && length == Length64(|fed|)
    }

    constructor ()
      ensures Valid() && fed == [] && fresh(hash) && fresh(block)
    {
      hash := new Word[5];
      block := new bv8[BLOCK];
      length, blockUsed, fed := 0, 0, [];
      new;
      hash[0], hash[1], hash[2], hash[3], hash[4] := 0x67452301, 0xEFCDAB89, 0x98BADCFE, 0x10325476, 0xC3D2E1F0;
      assert hash[..] == INITIAL;
    }

    /** `Block` on the block buffer. */
    method HashBlock()
      requires hash.Length == 5 && block.Length == BLOCK
      modifies hash
      ensures hash[..] == Compress(old(hash[..]), block[..])
    {
      hide F, K, Rotl, W, Rounds, Rotate, Sum, Plus;
      var words := ScheduleWords();
      ghost var data, start := block[..], hash[..];
      FirstRound(start, data);
      var a, b, c, d, e := hash[0], hash[1], hash[2], hash[3], hash[4];
      for index := 0 to 80
        invariant Working(a, b, c, d, e) == Rounds(start, data, index) && hash[..] == start
        invariant words.Length == 80 && forall k :: 0 <= k < 80 ==> words[k] == W(data, k)
      {
        NextRound(start, data, index);
        var mix, constant := Mix(index, b, c, d);
        var next := Sum(Rotate(a, 5), mix, e, constant, words[index]);
        e := d;
        d := c;
        c := Rotate(b, 30);
        b := a;
        a := next;
      }
      hash[0] := Plus(hash[0], a);
      hash[1] := Plus(hash[1], b);
      hash[2] := Plus(hash[2], c);
      hash[3] := Plus(hash[3], d);
      hash[4] := Plus(hash[4], e);
      assert hash[..] == Compress(start, data);
    }

    /** `Update`: bytes are gathered into blocks, and every full block is hashed. */
    method Update(data: Octets)
      requires Valid() && |data| < TWO_64
      modifies this, hash, block
      ensures Valid() && fed == old(fed) + data
    {
      hide Buffered;
      LengthAdds(|fed|, |data|);
      length := Length64(length + |data|);
      hide Length64;
      Gather(fed, data);
      fed := fed + data;
    }

    method Gather(ghost start: Octets, data: Octets)
      requires Buffered(start)
      modifies this`blockUsed, hash, block
      ensures Buffered(start + data)
    {
      NoneYet(start, data);
      hide Buffered, SoFar;
      var done := 0;
      while done < |data|
        invariant 0 <= done <= |data| && Buffered(SoFar(start, data, done))
        decreases |data| - done
      {
        Room(SoFar(start, data, done));
        var take := if |data| - done < BLOCK - blockUsed then |data| - done else BLOCK - blockUsed;
        SomeMore(start, data, done, done + take);
        Absorb(SoFar(start, data, done), data[done..done + take]);
        done := done + take;
      }
    }

    /** As many bytes as fit the block; a full block is hashed and the buffer emptied. */
    method Absorb(ghost message: Octets, piece: Octets)
      requires Buffered(message) && 0 < |piece| <= BLOCK - blockUsed
      modifies this`blockUsed, hash, block
      ensures Buffered(message + piece)
    {
      CopyIn(piece);
      ghost var n := |message| - blockUsed;
      Splits(message, piece, n);
      blockUsed := blockUsed + |piece|;
      if blockUsed == BLOCK {
        assert block[..] == message[n..] + piece;
        HashNext(INITIAL, message[..n], message[n..] + piece);
        HashBlock();
        assert message + piece == (message + piece)[..|message + piece|];
        blockUsed := 0;
      }
    }

    lemma {:induction false} Room(message: Octets)
      requires Buffered(message)
      ensures blockUsed < BLOCK
    {}

    method CopyIn(piece: Octets)
      requires block.Length == BLOCK && blockUsed + |piece| <= BLOCK
      modifies block
      ensures block[..blockUsed + |piece|] == old(block[..blockUsed]) + piece
    {
      for i := 0 to |piece|
        invariant forall k :: 0 <= k < i ==> block[blockUsed + k] == piece[k]
        invariant forall k :: 0 <= k < blockUsed ==> block[k] == old(block[k])
      {
        block[blockUsed + i] := piece[i];
      }
    }

    /** `Hex_Digest` up to the text: the digest of everything fed, and an empty block afterwards. */
    method Finish() returns (digest: Octets)
      requires Valid() && |fed| < 0x2000_0000_0000_0000
      modifies this, hash, block
      ensures Valid() && fed == Pad(old(fed)) && blockUsed == 0
      ensures digest == WordBytes(Digest(old(fed)))
    {
      ghost var message := fed;
      hide Buffered, Length64;
      var bitLength := Length64(length * 8);
      BitLength(|message|);
      Update([0x80]);
      Update56(message);
      Update(Be64(bitLength));
      assert fed == Pad(message);
      Used(fed);
      digest := WordBytes(hash[..]);
    }

    /** Zero bytes until 56 of the block are used: at most a block of them. */
    method Update56(ghost message: Octets)
      requires Valid() && fed == message + [0x80]
      modifies this, hash, block
      ensures Valid() && fed == message + [0x80] + Zeros(Gap(|message|))
    {
      ghost var count := 0;
      NoZeros(message);
      hide Buffered, Gap, Length64, Zeros;
      while blockUsed != 56
        invariant Valid() && count <= Gap(|message|) && fed == message + [0x80] + Zeros(count)
        decreases Gap(|message|) - count
      {
        Used(fed);
        OneMoreZero(message, count);
        Update([0]);
        count := count + 1;
      }
      Used(fed);
      GapIsLeast(|message|, count);
    }

    /** The buffer holds what the length leaves over; when that is nothing, everything is hashed. */
    lemma {:induction false} Used(message: Octets)
      requires Buffered(message)
      ensures blockUsed == |message| % BLOCK && hash.Length == 5
      ensures |message| % BLOCK == 0 ==> hash[..] == HashBlocks(INITIAL, message)
    {
      Leftover(|message|, blockUsed);
      assert message[..|message|] == message;
    }

    method ScheduleWords() returns (words: array<Word>)
      requires block.Length == BLOCK
      ensures fresh(words) && words.Length == 80 && forall k :: 0 <= k < 80 ==> words[k] == W(block[..], k)
    {
      words := new Word[80];
      ghost var data := block[..];
      hide Be32, Rotl, Rotate, W, Mixed;
      for index := 0 to 16
        invariant forall k :: 0 <= k < index ==> words[k] == W(data, k)
      {
        FirstWords(data, index);
        words[index] := Be32(block[..], index * 4);
      }
      for index := 16 to 80
        invariant forall k :: 0 <= k < index ==> words[k] == W(data, k)
      {
        NextWord(data, index);
        words[index] := Rotate(Mixed(words[index - 3], words[index - 8], words[index - 14], words[index - 16]), 1);
      }
    }
  }

  lemma {:induction false} FirstRound(hash: seq<Word>, block: Octets)
    requires |hash| == 5 && |block| == BLOCK
    ensures Rounds(hash, block, 0) == Working(hash[0], hash[1], hash[2], hash[3], hash[4])
  {}

  lemma {:induction false} FirstWords(block: Octets, t: nat)
    requires |block| == BLOCK && t < 16
    ensures W(block, t) == Be32(block, 4 * t)
  {
    hide Be32, Rotl;
  }

  /** The function and the constant of one round. */
  method Mix(index: nat, b: Word, c: Word, d: Word) returns (mix: Word, constant: Word)
    requires index < 80
    ensures mix == F(index, b, c, d) && constant == K(index)
  {
    ChoiceIsCh(b, c, d);
    MajorityIsMaj(b, c, d);
    hide Choice, Ch, Majority, Maj;
    if index < 20 {
      mix := Choice(b, c, d);
      constant := 0x5A827999;
    } else if index < 40 {
      mix := Parity(b, c, d);
      constant := 0x6ED9EBA1;
    } else if index < 60 {
      mix := Majority(b, c, d);
      constant := 0x8F1BBCDC;
    } else {
      mix := Parity(b, c, d);
      constant := 0xCA62C1D6;
    }
  }

  /** All but `used` of the bytes are whole blocks. */
  ghost predicate Whole(fed: Octets, used: nat)
  {
    used <= |fed| && (|fed| - used) % BLOCK == 0
  }

  /** Lengths wrap at 64 bits. */
  function Length64(n: nat): u64 { n % TWO_64 }

  lemma {:induction false} LengthAdds(n: nat, k: nat)
    ensures Length64(Length64(n) + k) == Length64(n + k)
  {}

  /** What was fed before, and the first `n` bytes of what is being fed. */
  ghost function SoFar(start: Octets, data: Octets, n: nat): Octets
    requires n <= |data|
  {
    start + data[..n]
  }

  lemma {:induction false} NoneYet(start: Octets, data: Octets)
    ensures SoFar(start, data, 0) == start && SoFar(start, data, |data|) == start + data
  {
    assert data[..|data|] == data;
  }

  lemma {:induction false} SomeMore(start: Octets, data: Octets, i: nat, j: nat)
    requires i <= j <= |data|
    ensures SoFar(start, data, i) + data[i..j] == SoFar(start, data, j)
  {
    assert data[..i] + data[i..j] == data[..j];
  }

  /** Where the hashed part of a message ends does not move when more follows. */
  lemma {:induction false} Splits(message: Octets, piece: Octets, n: nat)
    requires n <= |message|
    ensures (message + piece)[..n] == message[..n] && (message + piece)[n..] == message[n..] + piece
    ensures message + piece == message[..n] + (message[n..] + piece)
  {}

  lemma {:induction false} NoZeros(message: Octets)
    ensures message + [0x80] + Zeros(0) == message + [0x80]
  {}

  lemma {:induction false} OneMoreZero(message: Octets, n: nat)
    ensures message + [0x80] + Zeros(n) + [0] == message + [0x80] + Zeros(n + 1)
  {
    assert Zeros(n) + [0] == Zeros(n + 1);
  }

  lemma {:induction false} Leftover(n: nat, used: nat)
    requires used < BLOCK && used <= n && (n - used) % BLOCK == 0
    ensures n % BLOCK == used
  {}

  lemma {:induction false} BitLength(n: nat)
    requires n < 0x2000_0000_0000_0000
    ensures Length64(Length64(n) * 8) == 8 * n
  {}

  /** The words of a digest, most significant byte first. */
  function WordBytes(words: seq<Word>): Octets
  {
    if words == [] then []
    else
      var w := words[0];
      [((w >> 24) & 0xFF) as bv8, ((w >> 16) & 0xFF) as bv8, ((w >> 8) & 0xFF) as bv8, (w & 0xFF) as bv8] + WordBytes(words[1..])
  }

  // ---------------------------------------------------------------- in one piece or in many

  function Joined(pieces: seq<Octets>): Octets
  {
    if pieces == [] then [] else Joined(pieces[..|pieces| - 1]) + pieces[|pieces| - 1]
  }

  lemma {:induction false} JoinedNext(pieces: seq<Octets>, n: nat)
    requires n < |pieces|
    ensures Joined(pieces[..n + 1]) == Joined(pieces[..n]) + pieces[n]
  {
    assert pieces[..n + 1][..n] == pieces[..n];
  }

  /** However a message is split, the digest is that of the whole. */
  method DigestOfPieces(pieces: seq<Octets>) returns (digest: Octets)
    requires |Joined(pieces)| < 0x2000_0000_0000_0000 && forall p <- pieces :: |p| < TWO_64
    ensures digest == WordBytes(Digest(Joined(pieces)))
  {
    var hasher := new Hasher();
    hide Joined, WordBytes;
    assert Joined(pieces[..0]) == [] by { NothingJoined(pieces); }
    for n := 0 to |pieces|
      invariant hasher.Valid() && hasher.fed == Joined(pieces[..n]) && fresh(hasher) && fresh(hasher.hash) && fresh(hasher.block)
    {
      JoinedNext(pieces, n);
      assert pieces[n] in pieces;
      hasher.Update(pieces[n]);
    }
    assert pieces[..|pieces|] == pieces;
    digest := hasher.Finish();
  }

  lemma {:induction false} NothingJoined(pieces: seq<Octets>)
    ensures Joined(pieces[..0]) == []
  {}

  /** `Sha1::Digest`. */
  method DigestOf(bytes: Octets) returns (digest: Octets)
    requires |bytes| < 0x2000_0000_0000_0000
    ensures digest == WordBytes(Digest(bytes))
  {
    hide WordBytes;
    var hasher := new Hasher();
    hasher.Update(bytes);
    assert [] + bytes == bytes;
    digest := hasher.Finish();
  }
}
