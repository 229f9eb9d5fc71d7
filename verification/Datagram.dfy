/**
 The UDP channel of client/src/network/datagram.cpp: nonces that are never reused, and a window of 64
 bits that accepts each authentic sequence number at most once.

 The authenticated encryption is ideal: a datagram opens when it is one the peer sealed under that
 sequence number, and then yields what was sealed.
 */
module Datagram {
  import opened Machine
  import opened Options

  type Bytes = seq<u8>

  const OVERHEAD: nat := 16 + 8 + 16  // client, sequence and tag
  const WINDOW: nat := 64

  // ---------------------------------------------------------------- the window

  /** `receiveCount` and the `received` bitmap. */
  datatype Window = Window(count: u64, bits: u64)

  const EMPTY := Window(0, 0)

  /** The test before decryption. */
  predicate Accepts(w: Window, sequence: u64)
  {
    !(w.bits != 0 && sequence <= w.count &&
      (w.count - sequence >= WINDOW || And(w.bits, Shl64(1, w.count - sequence)) != 0))
  }

  /** The update after decryption. */
  function Commit(w: Window, sequence: u64): Window
  {
    if w.bits == 0 || sequence > w.count then
      var distance := (sequence - w.count) % TWO_64;
      Or64(Shl64(w.bits, distance), 1);
      Window(sequence, if distance >= WINDOW then 1 else Or(Shl64(w.bits, distance), 1))
    else
      Or64(w.bits, Shl64(1, w.count - sequence));
      Window(w.count, Or(w.bits, Shl64(1, w.count - sequence)))
  }

  // ---------------------------------------------------------------- what it means

  /** New, and less than 64 behind every accepted number. */
  ghost predicate Fresh(accepted: set<nat>, sequence: nat)
  {
    sequence !in accepted && forall s <- accepted :: s < sequence + 64
  }

  /** The count is the highest accepted number, and bit `i` says whether the number `i` below it was accepted. */
  ghost predicate Mirrors(w: Window, accepted: set<nat>)
  {
    && (accepted == {} ==> w == EMPTY)
    && (accepted != {} ==> w.bits != 0 && w.count in accepted)
    && (forall s <- accepted :: s <= w.count)
    && (forall i: nat :: i < WINDOW ==> (TestBit(w.bits, i) <==> i <= w.count && w.count - i in accepted))
  }

  lemma {:induction false} EmptyMirrors()
    ensures Mirrors(EMPTY, {})
  {
    forall i: nat | i < WINDOW ensures !TestBit(EMPTY.bits, i) { NoBits(i); }
  }

  /** The single bit of a distance below the window. */
  lemma {:induction false} OneShifted(n: nat)
    requires n < WINDOW
    ensures Shl64(1, n) == Pow2(n)
  {
    Pow2Of64();
    Pow2Monotone(n + 1, 64);
    SmallMod(Pow2(n), TWO_64);
  }

  lemma {:induction false} SmallMod(x: nat, m: nat)
    requires x < m
    ensures x % m == x
  {}

  /** The bitmap accepts exactly the fresh numbers. */
  lemma {:induction false} AcceptsFresh(w: Window, accepted: set<nat>, sequence: u64)
    requires Mirrors(w, accepted)
    ensures Accepts(w, sequence) <==> Fresh(accepted, sequence)
  {
    if accepted != {} && sequence <= w.count && w.count - sequence < WINDOW {
      var i := w.count - sequence;
      OneShifted(i);
      AndBit(w.bits, i);
      assert TestBit(w.bits, i) <==> w.count - i in accepted;
    }
    hide And, Shl64, TestBit;
  }

  lemma {:induction false} CommitBehind(w: Window, accepted: set<nat>, sequence: u64)
    requires Mirrors(w, accepted) && Fresh(accepted, sequence) && w.bits != 0 && sequence <= w.count
    ensures Mirrors(Commit(w, sequence), accepted + {sequence})
  {
    var n := w.count - sequence;
    var t := Commit(w, sequence);
    OneShifted(n);
    forall i: nat | i < WINDOW ensures TestBit(t.bits, i) <==> i <= t.count && t.count - i in accepted + {sequence} {
      OrBit(w.bits, Pow2(n), i);
      OneBit(n, i);
    }
    assert t.bits != 0 by {
      OrBit(w.bits, Pow2(n), n);
      OneBit(n, n);
      NoBits(n);
    }
    hide TestBit, Or, Shl64;
  }

  lemma {:induction false} OneBit(n: nat, i: nat)
    ensures TestBit(Pow2(n), i) <==> i == n
  {
    ShiftedBit(1, n, i);
    if i > n { NoBits(i - n - 1); }
  }

  lemma {:induction false} CommitAhead(w: Window, accepted: set<nat>, sequence: u64)
    requires Mirrors(w, accepted) && (w.bits == 0 || sequence > w.count)
    ensures Mirrors(Commit(w, sequence), accepted + {sequence})
  {
    var t := Commit(w, sequence);
    var n := sequence - w.count;
    assert w.bits == 0 ==> accepted == {};
    assert 0 <= n < TWO_64;
    SmallMod(n, TWO_64);
    forall i: nat | i < WINDOW ensures TestBit(t.bits, i) <==> i <= t.count && t.count - i in accepted + {sequence} {
      OneBit(0, i);
      if n < WINDOW {
        OrBit(Shl64(w.bits, n), 1, i);
        Shl64Bit(w.bits, n, i);
      }
      AheadBit(w, accepted, sequence, i);
    }
    assert t.bits != 0 by {
      assert TestBit(t.bits, 0);
      NoBits(0);
    }
    hide TestBit, Or, Shl64;
  }

  /** Where bit `i` of the moved window comes from. */
  lemma {:induction false} AheadBit(w: Window, accepted: set<nat>, sequence: u64, i: nat)
    requires Mirrors(w, accepted) && (w.bits == 0 || sequence > w.count) && i < WINDOW
    ensures var n := sequence - w.count;
            (i <= sequence && sequence - i in accepted + {sequence}) <==> i == 0 || (i >= n && TestBit(w.bits, i - n))
  {
    var n := sequence - w.count;
    if accepted == {} {
      if i >= n { NoBits(i - n); }
    } else if i >= n {
      assert TestBit(w.bits, i - n) <==> i - n <= w.count && w.count - (i - n) in accepted;
    }
    hide TestBit;
  }

  /** One step: the bitmap follows the set of accepted numbers. */
  lemma {:induction false} WindowRefines(w: Window, accepted: set<nat>, sequence: u64)
    requires Mirrors(w, accepted)
    ensures Accepts(w, sequence) <==> Fresh(accepted, sequence)
    ensures Accepts(w, sequence) ==> Mirrors(Commit(w, sequence), accepted + {sequence})
  {
    AcceptsFresh(w, accepted, sequence);
    hide Accepts, Commit, Mirrors;
    if Accepts(w, sequence) {
      if w.bits == 0 || sequence > w.count {
        CommitAhead(w, accepted, sequence);
      } else {
        CommitBehind(w, accepted, sequence);
      }
    }
  }

  // ---------------------------------------------------------------- a link over a network that loses, repeats and reorders

  /** A datagram as it arrives; anyone can make one up. */
  datatype Packet = Packet(sequence: u64, payload: Bytes)

  /** What was sealed, by nonce. */
  type Sealed = map<u64, Bytes>

  /** `crypto_aead_unlock` succeeds. */
  predicate Unlocks(sealed: Sealed, packet: Packet)
  {
    packet.sequence in sealed && sealed[packet.sequence] == packet.payload
  }

  type Address = nat

  /** An accepted datagram and where it came from. */
  datatype Receipt = Receipt(packet: Packet, from: Address)

  /** The sending end, what it sealed, the receiving end, what it accepted, and where it answers to. */
  datatype Link = Link(sendCount: u64, sealed: Sealed, window: Window, receipts: seq<Receipt>, answers: Option<Address>)

  const FRESH_LINK := Link(0, map[], EMPTY, [], None)

  datatype Event =
    | Send(plaintext: Bytes)
    | Arrive(packet: Packet, from: Address)

  /** `Seal` and `Open`; `maximum` is the largest datagram. A reordered datagram does not change the address. */
  function Step(maximum: nat, link: Link, event: Event): Link
  {
    match event
    case Send(plaintext) =>
      if |plaintext| + OVERHEAD > maximum || link.sendCount == MAX_64 then link
      else link.(sendCount := link.sendCount + 1, sealed := link.sealed[link.sendCount := plaintext])
    case Arrive(packet, from) =>
      if |packet.payload| + OVERHEAD > maximum || !Accepts(link.window, packet.sequence) || !Unlocks(link.sealed, packet) then link
      else
        var window := Commit(link.window, packet.sequence);
        link.(window := window, receipts := link.receipts + [Receipt(packet, from)],
              answers := if packet.sequence == window.count then Some(from) else link.answers)
  }

  function Run(maximum: nat, events: seq<Event>): Link
  {
    if events == [] then FRESH_LINK else Step(maximum, Run(maximum, events[..|events| - 1]), events[|events| - 1])
  }

  ghost function Accepted(link: Link): set<nat>
  {
    set r <- link.receipts :: r.packet.sequence as nat
  }

  /** Nonces below the count are used, each once; receipts are of sealed datagrams; the window mirrors them. */
  ghost predicate Sound(link: Link)
  {
    && (forall n: u64 :: n in link.sealed <==> n < link.sendCount)
    && (forall r <- link.receipts :: Unlocks(link.sealed, r.packet))
    && (forall i, j :: 0 <= i < j < |link.receipts| ==> link.receipts[i].packet.sequence != link.receipts[j].packet.sequence)
    && Mirrors(link.window, Accepted(link))
    && (link.receipts == [] <==> link.answers == None)
    && (forall r <- link.receipts :: r.packet.sequence == link.window.count ==> link.answers == Some(r.from))
  }

  lemma {:induction false} ArriveSound(maximum: nat, link: Link, packet: Packet, from: Address)
    requires Sound(link)
    ensures Sound(Step(maximum, link, Arrive(packet, from)))
  {
    var next := Step(maximum, link, Arrive(packet, from));
    WindowRefines(link.window, Accepted(link), packet.sequence);
    hide Accepts, Commit;
    if next != link {
      var receipt := Receipt(packet, from);
      assert next.receipts == link.receipts + [receipt];
      assert Accepted(next) == Accepted(link) + {packet.sequence} by {
        forall r <- link.receipts ensures r in next.receipts {}
        assert receipt in next.receipts;
      }
      forall i | 0 <= i < |link.receipts| ensures link.receipts[i].packet.sequence != packet.sequence {
        assert link.receipts[i] in link.receipts;
        assert link.receipts[i].packet.sequence in Accepted(link);
      }
      AnswersHighest(link, packet, from, next);
    }
  }

  lemma {:induction false} AnswersHighest(link: Link, packet: Packet, from: Address, next: Link)
    requires Sound(link) && Mirrors(next.window, Accepted(link) + {packet.sequence}) && Fresh(Accepted(link), packet.sequence)
    requires next.answers == if packet.sequence == next.window.count then Some(from) else link.answers
    requires next.receipts == link.receipts + [Receipt(packet, from)]
    ensures next.answers != None
    ensures forall r <- next.receipts :: r.packet.sequence == next.window.count ==> next.answers == Some(r.from)
  {
    forall r <- link.receipts ensures r.packet.sequence as nat in Accepted(link) {}
    forall r <- next.receipts | r.packet.sequence == next.window.count ensures next.answers == Some(r.from) {
      if r in link.receipts {
        assert r.packet.sequence != packet.sequence;
        assert link.window.count in Accepted(link) && r.packet.sequence <= link.window.count <= next.window.count;
      }
    }
  }

  lemma {:induction false} StepSound(maximum: nat, link: Link, event: Event)
    requires Sound(link)
    ensures Sound(Step(maximum, link, event))
  {
    match event
    case Send(_) => hide Mirrors;
    case Arrive(packet, from) => ArriveSound(maximum, link, packet, from);
  }

  lemma {:induction false} RunSound(maximum: nat, events: seq<Event>)
    ensures Sound(Run(maximum, events))
  {
    if events == [] {
      EmptyMirrors();
      assert Accepted(FRESH_LINK) == {};
    } else {
      RunSound(maximum, events[..|events| - 1]);
      StepSound(maximum, Run(maximum, events[..|events| - 1]), events[|events| - 1]);
    }
  }

  /**
   In every run: what is accepted was sealed under that number, no number is accepted twice, and the
   answers go to where the highest accepted datagram came from.
   */
  lemma {:induction false} NothingTwice(maximum: nat, events: seq<Event>)
    ensures var link := Run(maximum, events);
            && (forall r <- link.receipts :: Unlocks(link.sealed, r.packet))
            && (forall i, j :: 0 <= i < j < |link.receipts| ==> link.receipts[i].packet.sequence != link.receipts[j].packet.sequence)
            && (forall r <- link.receipts :: (forall other <- link.receipts :: other.packet.sequence <= r.packet.sequence) ==>
                  link.answers == Some(r.from))
  {
    RunSound(maximum, events);
    var link := Run(maximum, events);
    hide Run, Step;
    forall r <- link.receipts | forall other <- link.receipts :: other.packet.sequence <= r.packet.sequence
      ensures link.answers == Some(r.from)
    {
      assert r.packet.sequence as nat in Accepted(link);
      assert link.window.count in Accepted(link);
    }
  }

  /**
   In every run: a sealed datagram that arrives is accepted exactly when its number is new and less than 64
   behind every accepted one.
   */
  lemma {:induction false} FreshArrives(maximum: nat, events: seq<Event>, packet: Packet, from: Address)
    requires |packet.payload| + OVERHEAD <= maximum && Unlocks(Run(maximum, events).sealed, packet)
    ensures var link := Run(maximum, events);
            var next := Step(maximum, link, Arrive(packet, from));
            next.receipts == if Fresh(Accepted(link), packet.sequence) then link.receipts + [Receipt(packet, from)] else link.receipts
  {
    RunSound(maximum, events);
    hide Run, Accepts;
    AcceptsFresh(Run(maximum, events).window, Accepted(Run(maximum, events)), packet.sequence);
  }

  /**
   `Seal` uses a new nonce, the next in turn; it fails exactly for what is too long with its 40 bytes of overhead,
   or once all numbers but the last are used. Used nonces keep what was sealed under them.
   */
  lemma {:induction false} NoncesUnique(maximum: nat, events: seq<Event>, plaintext: Bytes)
    ensures var link := Run(maximum, events);
            var next := Step(maximum, link, Send(plaintext));
            if |plaintext| + 40 > maximum || link.sendCount == 0xFFFF_FFFF_FFFF_FFFF then next == link
            else link.sendCount !in link.sealed && next.sealed == link.sealed[link.sendCount := plaintext]
                 && next == link.(sealed := next.sealed, sendCount := link.sendCount + 1)
  {
    RunSound(maximum, events);
    hide Run;
  }

  // ---------------------------------------------------------------- the channel object

  class Channel {
    const maximum: nat
    var sendCount: u64
    var receiveCount: u64
    var received: u64

    function State(): Window
      reads this
    {
      Window(receiveCount, received)
    }

    constructor (maximum: nat)
      ensures State() == EMPTY && sendCount == 0 && this.maximum == maximum
    {
      this.maximum := maximum;
      sendCount, receiveCount, received := 0, 0, 0;
    }

    /** The number and contents of the next datagram, or nothing when it is too long or the numbers are used up. */
    method Seal(plaintext: Bytes) returns (packet: Option<Packet>)
      modifies this`sendCount
      ensures packet.None? <==> |plaintext| + OVERHEAD > maximum || old(sendCount) == MAX_64
      ensures packet.Some? ==> packet.value == Packet(old(sendCount), plaintext)
      ensures sendCount == old(sendCount) + if packet.Some? then 1 else 0
      ensures forall link: Link :: link.sendCount == old(sendCount) ==>
                Step(maximum, link, Send(plaintext)) ==
                if packet.None? then link
                else link.(sendCount := sendCount, sealed := link.sealed[packet.value.sequence := packet.value.payload])
    {
      if |plaintext| + OVERHEAD > maximum || sendCount == MAX_64 { return None; }
      packet := Some(Packet(sendCount, plaintext));
      sendCount := sendCount + 1;
    }

    /** Accept a datagram of `size` bytes, or change nothing. */
    method Open(sealed: Sealed, size: nat, packet: Packet) returns (ok: bool)
      requires size >= OVERHEAD ==> |packet.payload| == size - OVERHEAD
      modifies this`receiveCount, this`received
      ensures ok == (OVERHEAD <= size <= maximum && Accepts(old(State()), packet.sequence) && Unlocks(sealed, packet))
      ensures State() == if ok then Commit(old(State()), packet.sequence) else old(State())
      ensures forall link: Link, from: Address :: size >= OVERHEAD && link.window == old(State()) && link.sealed == sealed ==>
                Step(maximum, link, Arrive(packet, from)) ==
                if !ok then link
                else link.(window := State(), receipts := link.receipts + [Receipt(packet, from)],
                           answers := if packet.sequence == receiveCount then Some(from) else link.answers)
    {
      if size < OVERHEAD || size > maximum { return false; }
      var sequence := packet.sequence;
      if received != 0 && sequence <= receiveCount &&
         (receiveCount - sequence >= WINDOW || And(received, Shl64(1, receiveCount - sequence)) != 0) {
        return false;
      }
      if !Unlocks(sealed, packet) { return false; }
      if received == 0 || sequence > receiveCount {
        var distance := (sequence - receiveCount) % TWO_64;
        Or64(Shl64(received, distance), 1);
        received := if distance >= WINDOW then 1 else Or(Shl64(received, distance), 1);
        receiveCount := sequence;
      } else {
        Or64(received, Shl64(1, receiveCount - sequence));
        received := Or(received, Shl64(1, receiveCount - sequence));
      }
      return true;
    }
  }
}
