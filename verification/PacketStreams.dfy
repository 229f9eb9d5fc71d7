/**
 Packet sockets of client/src/net.cpp: queues with partial sends and chunked receives under byte and work
 budgets, and what they conserve.

 What the operating system answers is an oracle: a number per call, as large as the request at most.
 Whether the socket is still open and its owner running is asked the same way.
 */
module PacketStreams {
  import opened Machine
  import opened Packets

  const MAX_QUEUED: nat := 16 * 1024 * 1024
  const MAX_PENDING: nat := 1024
  const EVENT_BUDGET: nat := 16
  const BYTE_BUDGET: nat := 256 * 1024
  const READ_CHUNK: nat := 64 * 1024
  const MAX_DATAGRAM: nat := 65507

  datatype Kind = Stream | Listener | Datagram

  datatype Queued = Queued(bytes: Bytes, address: u32, port: u16)

  /** The answer to a call with this number for this many bytes; negative for an error. */
  type Answers = (nat, nat) -> int

  type Liveness = nat -> bool

  /** The socket fails when asked, in its `call`-th turn, to send so many bytes. */
  predicate Refuses(kind: Kind, send: Answers, call: nat, size: nat)
  {
    if kind.Datagram? then send(call, size) != -2 && send(call, size) != size else send(call, size) < 0
  }

  /** What the socket takes of them otherwise. */
  function Accepts(kind: Kind, send: Answers, call: nat, size: nat): nat
  {
    if Refuses(kind, send, call, size) || send(call, size) < 0 then 0 else send(call, size)
  }

  /** What it takes in these calls, one a turn. */
  function AcceptsAll(kind: Kind, send: Answers, calls: seq<nat>): nat
  {
    if calls == [] then 0
    else AcceptsAll(kind, send, calls[..|calls| - 1]) + Accepts(kind, send, |calls| - 1, calls[|calls| - 1])
  }

  /** What came of these calls: whether all went well, and how many bytes were taken. */
  ghost predicate Called(kind: Kind, send: Answers, calls: seq<nat>, ok: bool, moved: nat)
  {
    && moved == AcceptsAll(kind, send, calls)
    && (ok <==> forall call :: 0 <= call < |calls| ==> !Refuses(kind, send, call, calls[call]))
  }

  // ---------------------------------------------------------------- what a flush asks for, and when it stops

  /** What is left of the first unfinished packet of a queue of which so many bytes are gone. */
  function LeftOfFirst(output: seq<Queued>, gone: nat): nat
  {
    if output == [] then 0
    else if gone < |output[0].bytes| then |output[0].bytes| - gone
    else LeftOfFirst(output[1..], gone - |output[0].bytes|)
  }

  /** The size of the call that follows when `moved` of the budget are spent: a whole datagram, or what is left and paid for. */
  function Asks(kind: Kind, output: seq<Queued>, offset: nat, budget: nat, moved: nat): int
  {
    var left := LeftOfFirst(output, offset + moved);
    if kind.Datagram? then left else Min(left, budget - moved)
  }

  /** Every call asks for what the queue and the budget then call for. */
  ghost predicate AllAsked(kind: Kind, send: Answers, output: seq<Queued>, offset: nat, budget: nat, calls: seq<nat>)
  {
    forall k :: 0 <= k < |calls| ==> calls[k] > 0 && calls[k] == Asks(kind, output, offset, budget, AcceptsAll(kind, send, calls[..k]))
  }

  /** The reasons for a flush to end without a failure. */
  ghost predicate Stopped(kind: Kind, send: Answers, active: Liveness, calls: seq<nat>, output: seq<Queued>, budget: nat, moved: nat, workLeft: nat)
  {
    || output == [] || workLeft == 0 || moved == budget || |calls| == EVENT_BUDGET || !active(|calls|)
    || (calls != [] && Accepts(kind, send, |calls| - 1, calls[|calls| - 1]) == 0)  // the socket took nothing
    || (kind.Datagram? && |output[0].bytes| > budget - moved)                      // the next datagram costs too much
  }

  /** `gone` packets and `offset` bytes of the next are what `moved` bytes from `start` on leave behind. */
  ghost predicate Stands(was: seq<Queued>, start: nat, moved: nat, now: seq<Queued>, offset: nat, gone: nat)
  {
    gone <= |was| && now == was[gone..] && start + moved == Total(was[..gone]) + offset
  }

  lemma {:induction false} LeftAt(was: seq<Queued>, gone: nat, offset: nat)
    requires gone < |was| && offset < |was[gone].bytes|
    ensures LeftOfFirst(was, Total(was[..gone]) + offset) == |was[gone].bytes| - offset
  {
    if gone > 0 {
      assert was[..gone][1..] == was[1..][..gone - 1];
      LeftAt(was[1..], gone - 1, offset);
    }
  }

  lemma {:induction false} StandsOn(was: seq<Queued>, start: nat, moved: nat, now: seq<Queued>, offset: nat, gone: nat, piece: nat)
    requires Stands(was, start, moved, now, offset, gone) && now != [] && offset + piece <= |now[0].bytes|
    ensures Stands(was, start, moved + piece, now, offset + piece, gone)
    ensures offset + piece == |now[0].bytes| ==> Stands(was, start, moved + piece, now[1..], 0, gone + 1)
  {
    assert was[..gone + 1] == was[..gone] + [was[gone]];
    FlatNext(was[..gone], was[gone]);
  }

  lemma {:induction false} OneMoreAsked(kind: Kind, send: Answers, output: seq<Queued>, offset: nat, budget: nat, calls: seq<nat>, asked: seq<nat>)
    requires AllAsked(kind, send, output, offset, budget, calls) && |asked| <= 1
    requires asked != [] ==> asked[0] > 0 && asked[0] == Asks(kind, output, offset, budget, AcceptsAll(kind, send, calls))
    ensures AllAsked(kind, send, output, offset, budget, calls + asked)
  {
    hide Asks;
    forall k | 0 <= k < |calls + asked|
      ensures (calls + asked)[k] > 0 && (calls + asked)[k] == Asks(kind, output, offset, budget, AcceptsAll(kind, send, (calls + asked)[..k]))
    {
      assert (calls + asked)[..k] == calls[..k];
      assert calls[..|calls|] == calls;
    }
  }

  // ---------------------------------------------------------------- the queue

  function Total(output: seq<Queued>): nat
  {
    if output == [] then 0 else |output[0].bytes| + Total(output[1..])
  }

  function Flat(output: seq<Queued>): (b: Bytes)
    ensures |b| == Total(output)
  {
    if output == [] then [] else output[0].bytes + Flat(output[1..])
  }

  lemma {:induction false} FlatNext(output: seq<Queued>, last: Queued)
    ensures Flat(output + [last]) == Flat(output) + last.bytes
    ensures Total(output + [last]) == Total(output) + |last.bytes|
  {
    if output == [] {
      assert (output + [last])[1..] == [];
    } else {
      assert (output + [last])[1..] == output[1..] + [last];
      FlatNext(output[1..], last);
    }
  }

  /** One turn with at most one call. */
  ghost predicate CalledOnce(kind: Kind, send: Answers, index: nat, asked: seq<nat>, ok: bool, moved: nat)
  {
    if asked == [] then ok && moved == 0
    else ok == !Refuses(kind, send, index, asked[0]) && moved == Accepts(kind, send, index, asked[0])
  }

  lemma {:induction false} NoCalls(kind: Kind, send: Answers)
    ensures Called(kind, send, [], true, 0)
  {}

  lemma {:induction false} OneMoreCall(kind: Kind, send: Answers, calls: seq<nat>, moved: nat, asked: seq<nat>, ok: bool, more: nat)
    requires |asked| <= 1 && Called(kind, send, calls, true, moved) && CalledOnce(kind, send, |calls|, asked, ok, more)
    ensures Called(kind, send, calls + asked, ok, moved + more)
  {
    var now := calls + asked;
    if asked == [] {
      assert now == calls;
    } else {
      assert now[..|calls|] == calls;
      forall call | 0 <= call < |calls| ensures !Refuses(kind, send, call, now[call]) { assert now[call] == calls[call]; }
      assert now[|calls|] == asked[0];
    }
  }

  lemma {:induction false} NothingGone(output: seq<Queued>, offset: nat)
    ensures Stands(output, offset, 0, output, offset, 0)
  {
    assert output[..0] == [];
  }

  lemma {:induction false} FirstAsked(kind: Kind, was: seq<Queued>, start: nat, moved: nat, now: seq<Queued>, offset: nat, gone: nat, budget: nat)
    requires Stands(was, start, moved, now, offset, gone) && now != [] && offset < |now[0].bytes|
    ensures Asks(kind, was, start, budget, moved) ==
            if kind.Datagram? then |now[0].bytes| - offset else Min(|now[0].bytes| - offset, budget - moved)
  {
    LeftAt(was, gone, offset);
    hide LeftOfFirst;
  }

  lemma {:induction false} MovedAre(kind: Kind, send: Answers, calls: seq<nat>, moved: nat)
    requires Called(kind, send, calls, true, moved)
    ensures moved == AcceptsAll(kind, send, calls)
  {}

  /** One turn of a flush on a queue that is not empty: the call, if one was paid for, and what it left of the queue. */
  ghost predicate OneTurn(kind: Kind, send: Answers, index: nat, remaining: nat, was: seq<Queued>, wasOffset: nat,
                          now: seq<Queued>, offset: nat, ok: bool, going: bool, asked: seq<nat>, moved: nat)
  {
    && was != [] && wasOffset < |was[0].bytes| && |asked| <= 1 && CalledOnce(kind, send, index, asked, ok, moved)
    && (going ==> ok && moved > 0)
    && var left := |was[0].bytes| - wasOffset;
    && moved <= left && moved <= remaining
    && (asked != [] ==> asked[0] > 0 && asked[0] == if kind.Datagram? then left else Min(left, remaining))
    && (ok && !going ==> moved == 0 && (asked != [] || (kind.Datagram? && |was[0].bytes| > remaining)))
    && if moved < left then now == was && offset == wasOffset + moved else now == was[1..] && offset == 0
  }

  /** What holds between the turns of a flush. */
  ghost predicate Flushing(kind: Kind, send: Answers, active: Liveness, was: seq<Queued>, start: nat, budget: nat,
                           now: seq<Queued>, offset: nat, gone: nat, calls: seq<nat>, moved: nat, ok: bool, going: bool, index: nat, workLeft: nat)
  {
    && |calls| <= index && (going ==> ok && |calls| == index)
    && Called(kind, send, calls, ok, moved) && AllAsked(kind, send, was, start, budget, calls)
    && Stands(was, start, moved, now, offset, gone)
    && (!going && ok ==> Stopped(kind, send, active, calls, now, budget, moved, workLeft))
  }

  lemma {:induction false} FlushBegins(kind: Kind, send: Answers, active: Liveness, output: seq<Queued>, offset: nat, budget: nat, work: nat)
    ensures Flushing(kind, send, active, output, offset, budget, output, offset, 0, [], 0, true, true, 0, work)
  {
    NoCalls(kind, send);
    NothingGone(output, offset);
    hide Called, Stands, Stopped;
  }

  /** One more turn; `next` is how many packets are gone after it. */
  lemma {:induction false} FlushTurn(kind: Kind, send: Answers, active: Liveness, was: seq<Queued>, start: nat, budget: nat,
                                     before: seq<Queued>, beforeOffset: nat, gone: nat, calls: seq<nat>, moved: nat, index: nat, workLeft: nat,
                                     now: seq<Queued>, offset: nat, asked: seq<nat>, ok: bool, going: bool, piece: nat) returns (next: nat)
    requires Flushing(kind, send, active, was, start, budget, before, beforeOffset, gone, calls, moved, true, true, index, workLeft)
    requires moved <= budget && OneTurn(kind, send, index, budget - moved, before, beforeOffset, now, offset, ok, going, asked, piece)
    requires |asked| <= workLeft
    ensures Flushing(kind, send, active, was, start, budget, now, offset, next, calls + asked, moved + piece, ok, going, index + 1, workLeft - |asked|)
  {
    hide Stands, Asks, AllAsked, Called, Stopped;
    next := if piece < |before[0].bytes| - beforeOffset then gone else gone + 1;
    FirstAsked(kind, was, start, moved, before, beforeOffset, gone, budget);
    MovedAre(kind, send, calls, moved);
    OneMoreAsked(kind, send, was, start, budget, calls, asked);
    OneMoreCall(kind, send, calls, moved, asked, ok, piece);
    StandsOn(was, start, moved, before, beforeOffset, gone, piece);
    if ok && !going { TurnStops(kind, send, active, calls, asked, now, budget, moved, workLeft - |asked|); }
  }

  lemma {:induction false} TurnStops(kind: Kind, send: Answers, active: Liveness, calls: seq<nat>, asked: seq<nat>, now: seq<Queued>,
                                     budget: nat, moved: nat, workLeft: nat)
    requires |asked| <= 1 && CalledOnce(kind, send, |calls|, asked, true, 0)
    requires asked != [] || (kind.Datagram? && now != [] && |now[0].bytes| > budget - moved)
    ensures Stopped(kind, send, active, calls + asked, now, budget, moved, workLeft)
  {}

  lemma {:induction false} FlushEnds(kind: Kind, send: Answers, active: Liveness, was: seq<Queued>, start: nat, budget: nat, now: seq<Queued>,
                                     offset: nat, gone: nat, calls: seq<nat>, moved: nat, ok: bool, going: bool, index: nat, workLeft: nat)
    requires Flushing(kind, send, active, was, start, budget, now, offset, gone, calls, moved, ok, going, index, workLeft)
    requires !going || index == EVENT_BUDGET || workLeft == 0 || moved == budget || now == [] || !active(index)
    ensures Called(kind, send, calls, ok, moved) && AllAsked(kind, send, was, start, budget, calls)
    ensures ok ==> Stopped(kind, send, active, calls, now, budget, moved, workLeft)
  {
    hide Called, AllAsked, Stands;
  }

  /** How a socket was left by a read. */
  datatype Outcome = Open | BadPacket | Broken

  // ---------------------------------------------------------------- when a read stops

  function Payloads(packets: seq<Packet>): nat
  {
    if packets == [] then 0 else Payloads(packets[..|packets| - 1]) + |packets[|packets| - 1].payload|
  }

  /** Nothing is on the way, or the socket once had nothing to give. */
  ghost predicate NothingCame(receive: Answers, wire: Bytes)
  {
    wire == [] || exists call: nat, size: nat :: size > 0 && receive(call, size) <= 0
  }

  /** The reasons for a read to end with the socket open: a budget, a closed socket, or half a packet and nothing more to come. */
  ghost predicate ReadStopped(receive: Answers, active: Liveness, readable: bool, unread: Bytes, wire: Bytes, received: nat, budget: nat,
                              taken: nat, calls: nat, bytesLeft: nat, workLeft: nat)
  {
    || workLeft == 0 || bytesLeft == 0 || taken == EVENT_BUDGET || !active(2 * taken + calls)
    || (Decode(unread).Incomplete? && (!readable || received == budget || NothingCame(receive, wire)))
  }

  /** What a read has spent: a turn for each packet and call, the bytes received, and the payloads taken, down to nothing. */
  ghost predicate Spent(bytes: nat, work: nat, bytesLeft: nat, workLeft: nat, received: nat, taken: seq<Packet>, calls: nat)
  {
    workLeft == work - |taken| - calls && bytesLeft == Max(0, bytes - received - Payloads(taken))
  }

  lemma {:induction false} SpentPacket(bytes: nat, work: nat, bytesLeft: nat, workLeft: nat, received: nat, taken: seq<Packet>, calls: nat, packet: Packet)
    requires Spent(bytes, work, bytesLeft, workLeft, received, taken, calls) && workLeft > 0
    ensures Spent(bytes, work, bytesLeft - Min(bytesLeft, |packet.payload|), workLeft - 1, received, taken + [packet], calls)
  {
    assert (taken + [packet])[..|taken|] == taken;
  }

  lemma {:induction false} SpentCall(bytes: nat, work: nat, bytesLeft: nat, workLeft: nat, received: nat, taken: seq<Packet>, calls: nat, more: nat)
    requires Spent(bytes, work, bytesLeft, workLeft, received, taken, calls) && workLeft > 0 && more <= bytesLeft
    ensures Spent(bytes, work, bytesLeft - more, workLeft - 1, received + more, taken, calls + 1)
  {}

  class PacketState {
    const kind: Kind
    var input: Bytes
    var inputOffset: nat
    var output: seq<Queued>
    var outputOffset: nat
    var queuedBytes: u64

    ghost predicate Valid()
      reads this
    {
      && queuedBytes == Total(output) <= MAX_QUEUED && |output| <= MAX_PENDING
      && (forall q <- output :: q.bytes != [])
      && (if output == [] then outputOffset == 0 else outputOffset < |output[0].bytes|)
      && (kind.Datagram? ==> outputOffset == 0)
      && inputOffset <= |input| <= MAX_QUEUED
    }

    /** The bytes queued and not yet handed to the socket. */
    ghost function Pending(): Bytes
      requires Valid()
      reads this
    {
      Flat(output)[outputOffset..]
    }

    /** The bytes received and not yet taken as packets. */
    ghost function Unread(): Bytes
      requires Valid()
      reads this
    {
      input[inputOffset..]
    }

    constructor (kind: Kind)
      ensures Valid() && Pending() == [] && Unread() == [] && this.kind == kind
    {
      this.kind := kind;
      input, inputOffset, output, outputOffset, queuedBytes := [], 0, [], 0, 0;
    }

    lemma {:induction false} PendingEmpty()
      requires Valid()
      ensures output == [] <==> Pending() == []
    {
      if output != [] { FirstOut(output, outputOffset); }
    }

    /** `Send_Packet` once the memory arguments are read; `closed` says that the socket is. */
    method SendPacket(closed: bool, datagram: bool, packet: Packet, address: u32, port: nat) returns (ok: bool)
      requires Valid()
      modifies this`output, this`queuedBytes
      ensures Valid()
      ensures ok <==>
              && Encodable(packet) && !closed && kind == (if datagram then Datagram else Stream)
              && |old(output)| < MAX_PENDING && old(queuedBytes) + HEADER + |packet.kind| + |packet.payload| <= MAX_QUEUED
              && (datagram ==> 0 < port < 0x1_0000 && HEADER + |packet.kind| + |packet.payload| <= MAX_DATAGRAM)
      ensures ok ==> Pending() == old(Pending()) + Encode(packet) && queuedBytes == old(queuedBytes) + |Encode(packet)|
      ensures !ok ==> output == old(output) && queuedBytes == old(queuedBytes)
    {
      if packet.kind == [] || |packet.kind| > MAX_TYPE || |packet.payload| > MAX_PAYLOAD { return false; }
      var size := HEADER + |packet.kind| + |packet.payload|;
      if datagram && (port == 0 || port > 0xFFFF || size > MAX_DATAGRAM) { return false; }
      if closed || kind != (if datagram then Datagram else Stream) || |output| >= MAX_PENDING || queuedBytes + size > MAX_QUEUED { return false; }
      var bytes := EncodePacket(packet.kind, packet.version, packet.payload);
      if bytes.None? { return false; }
      var queued := Queued(bytes.value, if datagram then address else 0, if datagram then port else 0);
      FlatNext(output, queued);
      Appended(output, queued, outputOffset);
      hide Flat, Total, Encode;
      queuedBytes := queuedBytes + size;
      output := output + [queued];
      return true;
    }

    /**
     `Flush_Packets`: `moved` is what a stream socket took, `datagrams` what a datagram socket took, and
     `calls` how many bytes each call was for. Nothing is lost, nothing is sent twice, the budgets pay for
     exactly the bytes that moved and the calls made, and it fails, so that the caller closes the socket,
     exactly when one of the calls was refused. Each call is for what is left of the first packet, as far as it
     is paid for, and only a reason to stop ends it.
     */
    method FlushPackets(send: Answers, active: Liveness, bytes: u64, work: u32)
        returns (ok: bool, bytesLeft: u64, workLeft: u32, moved: Bytes, datagrams: seq<Queued>, ghost calls: seq<nat>)
      requires Valid() && forall call: nat, size: nat :: send(call, size) <= size
      modifies this`output, this`outputOffset, this`queuedBytes
      ensures Valid()
      ensures old(Pending()) == moved + Pending()
      ensures kind.Datagram? ==> datagrams + output == old(output) && moved == Flat(datagrams)
      ensures bytesLeft == bytes - |moved| && |moved| <= BYTE_BUDGET
      ensures workLeft == work - |calls| && |calls| <= EVENT_BUDGET && Called(kind, send, calls, ok, |moved|)
      ensures AllAsked(kind, send, old(output), old(outputOffset), Min(bytes, BYTE_BUDGET), calls)
      ensures ok ==> Stopped(kind, send, active, calls, output, Min(bytes, BYTE_BUDGET), |moved|, workLeft)
    {
      hide Flat, Total, Called, AllAsked, Stopped, Splits, Flushing, OneTurn;
      var remaining: u64 := Min(bytes, BYTE_BUDGET);
      ok, bytesLeft, workLeft, moved, datagrams := true, bytes, work, [], [];
      var index := 0;
      var going := true;
      calls := [];
      NothingSent(kind, Pending(), output);
      ghost var budget: nat, gone: nat := Min(bytes, BYTE_BUDGET), 0;
      FlushBegins(kind, send, active, output, outputOffset, budget, work);
      while index < EVENT_BUDGET && workLeft != 0 && remaining != 0 && output != [] && active(index) && going
        invariant Valid() && 0 <= index <= EVENT_BUDGET
        invariant Splits(kind, old(Pending()), old(output), moved, datagrams, Pending(), output)
        invariant bytesLeft == bytes - |moved| && remaining == budget - |moved| && remaining <= bytesLeft
        invariant workLeft == work - |calls| && |calls| <= index && (going ==> ok)
        invariant Flushing(kind, send, active, old(output), old(outputOffset), budget, output, outputOffset, gone, calls, |moved|, ok, going, index, workLeft)
        decreases EVENT_BUDGET - index
      {
        var tried, piece, whole;
        ghost var asked;
        label before:
        ok, going, tried, piece, whole, asked := SendOne(send, index, remaining);
        gone := FlushTurn(kind, send, active, old(output), old(outputOffset), budget, old@before(output), old@before(outputOffset), gone, calls,
                          |moved|, index, workLeft, output, outputOffset, asked, ok, going, |piece|);
        calls := calls + asked;
        MoreSent(kind, old(Pending()), old(output), moved, datagrams, old@before(Pending()), old@before(output), piece, whole, Pending(), output);
        if tried { workLeft := workLeft - 1; }
        moved, datagrams := moved + piece, datagrams + whole;
        remaining, bytesLeft := remaining - |piece|, bytesLeft - |piece|;
        index := index + 1;
      }
      SentAre(kind, old(Pending()), old(output), moved, datagrams, Pending(), output);
      FlushEnds(kind, send, active, old(output), old(outputOffset), budget, output, outputOffset, gone, calls, |moved|, ok, going, index, workLeft);
    }

    /** One turn of the loop: the bytes that moved, and whether to go on. */
    method SendOne(send: Answers, index: nat, remaining: u64)
        returns (ok: bool, going: bool, tried: bool, piece: Bytes, gone: seq<Queued>, ghost asked: seq<nat>)
      requires Valid() && output != [] && remaining > 0 && forall call: nat, size: nat :: send(call, size) <= size
      modifies this`output, this`outputOffset, this`queuedBytes
      ensures Valid() && old(Pending()) == piece + Pending() && |piece| <= remaining
      ensures kind.Datagram? ==> gone + output == old(output) && piece == Flat(gone)
      ensures OneTurn(kind, send, index, remaining, old(output), old(outputOffset), output, outputOffset, ok, going, asked, |piece|)
      ensures |asked| == if tried then 1 else 0
      ensures going ==> ok
    {
      var packet := output[0];
      var size := |packet.bytes| - outputOffset;
      ok, going, tried, piece, gone, asked := true, false, false, [], [], [];
      OneFlat(packet);
      hide Flat, Total;
      var sent;
      if kind.Datagram? {
        if size > remaining { return; }
        tried, asked := true, [size];
        sent := send(index, size);
        if sent == -2 { return; }
        if sent != size {
          ok := false;
          return;
        }
        gone := [packet];
      } else {
        tried, asked := true, [Min(size, remaining)];
        sent := send(index, Min(size, remaining));
        if sent < 0 {
          ok := false;
          return;
        }
        if sent == 0 { return; }
      }
      piece := packet.bytes[outputOffset..outputOffset + sent];
      going := true;
      Advance(sent);
    }

    /** A complete packet at the start of the input is taken out of it. */
    method TakePacket(size: nat)
      requires Valid() && Decode(Unread()).Complete? && size == Decode(Unread()).size
      modifies this`input, this`inputOffset
      ensures Valid() && Encodable(Decode(old(Unread())).packet)
      ensures old(Unread()) == Encode(Decode(old(Unread())).packet) + Unread()
    {
      EncodeDecode(Unread());
      hide Decode, Encode, Total, Flat;
      assert Unread() == Unread()[..size] + Unread()[size..];
      assert Unread()[size..] == input[inputOffset + size..];
      inputOffset := inputOffset + size;
      if inputOffset == |input| {
        input := [];
        inputOffset := 0;
      }
    }

    /** More bytes are asked for; with an incomplete packet in it the input always has room for some. */
    method Fill(receive: Answers, call: nat, wire: Bytes, bytes: u64, remaining: u64)
        returns (received: int, wireLeft: Bytes, ghost count: nat)
      requires Valid() && Decode(Unread()).Incomplete? && bytes > 0 && remaining > 0
      requires forall call: nat, size: nat :: receive(call, size) <= size
      modifies this`input, this`inputOffset
      ensures Valid() && old(Unread()) + wire == Unread() + wireLeft
      ensures count == Min(Min(bytes, remaining), Min(READ_CHUNK, MAX_QUEUED - |old(Unread())|)) > 0
      ensures received == Min(receive(call, count), |wire|) && |wireLeft| == |wire| - Max(received, 0)
      ensures received <= bytes && received <= remaining && (received <= 0 ==> Unread() == old(Unread()))
    {
      hide Decode, Total, Flat;
      if inputOffset != 0 {
        input := input[inputOffset..];
        inputOffset := 0;
      }
      assert input == old(Unread()) && |input| < HEADER + MAX_TYPE + MAX_PAYLOAD;
      var size := Min(Min(bytes, remaining), Min(READ_CHUNK, MAX_QUEUED - |input|));
      assert size > 0;  // so the close for a full buffer never happens
      count := size;
      received := Min(receive(call, size), |wire|);
      if received > 0 {
        wireLeft := wire[received..];
        assert wire == wire[..received] + wireLeft;
        input := input + wire[..received];
      } else {
        wireLeft := wire;
      }
    }

    /**
     `Read_Stream`: packets are taken from the input, and delivered while the socket is active; bytes are
     received when the input ends in the middle of a packet. Only a reason to stop ends it, and it closes the
     socket exactly for a bad packet or a failed receive.
     */
    method ReadStream(receive: Answers, active: Liveness, readable: bool, wire: Bytes, bytes: u64, work: u32)
        returns (outcome: Outcome, bytesLeft: u64, workLeft: u32, wireLeft: Bytes, taken: seq<Packet>, delivered: seq<Packet>, ghost calls: nat)
      requires Valid() && forall call: nat, size: nat :: receive(call, size) <= size
      requires forall i, j :: 0 <= i <= j && active(j) ==> active(i)  // a socket that is closed stays closed
      modifies this`input, this`inputOffset
      ensures Valid()
      ensures Takes(old(Unread()) + wire, taken, Unread(), wireLeft)
      ensures delivered == taken || (taken != [] && delivered == taken[..|taken| - 1] && exists n: nat :: !active(n))
      ensures |taken| <= EVENT_BUDGET && 0 <= |wire| - |wireLeft| <= Min(bytes, BYTE_BUDGET)
      ensures Spent(bytes, work, bytesLeft, if outcome == BadPacket then workLeft + 1 else workLeft, |wire| - |wireLeft|, taken, calls)
      ensures outcome == BadPacket ==> Decode(Unread()) == Invalid
      ensures outcome == Broken ==> Decode(Unread()).Incomplete? && exists call: nat, size: nat :: size > 0 && receive(call, size) < 0
      ensures outcome == Open ==> ReadStopped(receive, active, readable, Unread(), wireLeft, |wire| - |wireLeft|, Min(bytes, BYTE_BUDGET), |taken|,
                                              calls, bytesLeft, workLeft)
      ensures calls <= |wire| - |wireLeft| || outcome == Broken || (Decode(Unread()).Incomplete? && NothingCame(receive, wireLeft))
    {
      hide Decode, Encode, EncodeAll, Total, Flat, Spent, NothingCame, Takes;
      var remaining: u64 := Min(bytes, BYTE_BUDGET);
      outcome, bytesLeft, workLeft, wireLeft, taken, delivered, calls := Open, bytes, work, wire, [], [], 0;
      NothingTaken(Unread(), wire);
      NothingSpent(bytes, work);
      var asked := 0;
      while workLeft != 0 && bytesLeft != 0 && |taken| < EVENT_BUDGET && active(asked)
        invariant Valid() && Takes(old(Unread()) + wire, taken, Unread(), wireLeft)
        invariant delivered == taken || (taken != [] && delivered == taken[..|taken| - 1] && !active(asked))
        invariant |taken| <= EVENT_BUDGET && asked == 2 * |taken| + calls && remaining == Min(bytes, BYTE_BUDGET) - (|wire| - |wireLeft|)
        invariant calls <= |wire| - |wireLeft| && Spent(bytes, work, bytesLeft, workLeft, |wire| - |wireLeft|, taken, calls)
        decreases workLeft
      {
        var result := Decode(input[inputOffset..]);
        match result {
          case Complete(packet, size) =>
            ghost var before := Unread();
            TakePacket(size);
            TakesOne(old(Unread()) + wire, taken, packet, before, Unread(), wireLeft);
            SpentPacket(bytes, work, bytesLeft, workLeft, |wire| - |wireLeft|, taken, calls, packet);
            taken := taken + [packet];
            workLeft := workLeft - 1;
            bytesLeft := bytesLeft - Min(bytesLeft, |packet.payload|);
            if active(asked + 1) { delivered := delivered + [packet]; }
            asked := asked + 2;
          case Invalid =>
            workLeft := workLeft - 1;
            outcome := BadPacket;
            return;
          case Incomplete =>
            if !readable || remaining == 0 { return; }
            var received, rest;
            ghost var before, count := Unread(), 0;
            received, rest, count := Fill(receive, workLeft - 1, wireLeft, bytesLeft, remaining);
            Refills(old(Unread()) + wire, taken, before, wireLeft, Unread(), rest);
            SpentCall(bytes, work, bytesLeft, workLeft, |wire| - |wireLeft|, taken, calls, Max(received, 0));
            workLeft, wireLeft, calls := workLeft - 1, rest, calls + 1;
            if received <= 0 {
              outcome := if received < 0 then Broken else Open;
              CameToNothing(receive, workLeft, count, wireLeft);
              return;
            }
            remaining, bytesLeft := remaining - received, bytesLeft - received;
            asked := asked + 1;
        }
      }
    }

    /** The first packet is sent a little further, or to its end. */
    method Advance(sent: nat)
      requires Valid() && output != [] && 0 < sent <= |output[0].bytes| - outputOffset
      requires kind.Datagram? ==> sent == |output[0].bytes|
      modifies this`output, this`outputOffset, this`queuedBytes
      ensures Valid() && old(Pending()) == old(output)[0].bytes[old(outputOffset)..old(outputOffset) + sent] + Pending()
      ensures if old(outputOffset) + sent < |old(output)[0].bytes| then output == old(output) && outputOffset == old(outputOffset) + sent
              else output == old(output)[1..] && outputOffset == 0
    {
      FirstOut(output, outputOffset);
      FirstOut(output, if outputOffset + sent < |output[0].bytes| then outputOffset + sent else 0);
      hide Flat, Total;
      outputOffset := outputOffset + sent;
      if outputOffset == |output[0].bytes| {
        queuedBytes := queuedBytes - |output[0].bytes|;
        output := output[1..];
        outputOffset := 0;
      }
    }
  }

  /** What is pending starts with what is left of the first packet. */
  lemma {:induction false} FirstOut(output: seq<Queued>, offset: nat)
    requires output != [] && offset < |output[0].bytes|
    ensures |Flat(output)| == |output[0].bytes| + |Flat(output[1..])| && offset <= |Flat(output)|
    ensures Flat(output)[offset..] == output[0].bytes[offset..] + Flat(output[1..])
    ensures Total(output) == |output[0].bytes| + Total(output[1..])
  {}

  /** All bytes are the packets taken, what is unread, and what is on the way. */
  ghost predicate Takes(all: Bytes, taken: seq<Packet>, unread: Bytes, wire: Bytes)
  {
    AllEncodable(taken) && all == EncodeAll(taken) + unread + wire
  }

  lemma {:induction false} NothingTaken(unread: Bytes, wire: Bytes)
    ensures Takes(unread + wire, [], unread, wire)
  {
    assert [] + unread == unread;
  }

  lemma {:induction false} TakesOne(all: Bytes, taken: seq<Packet>, packet: Packet, before: Bytes, unread: Bytes, wire: Bytes)
    requires Takes(all, taken, before, wire) && Encodable(packet) && before == Encode(packet) + unread
    ensures Takes(all, taken + [packet], unread, wire)
  {
    EncodeAllNext(taken, packet);
    hide Encode, EncodeAll;
  }

  lemma {:induction false} Refills(all: Bytes, taken: seq<Packet>, before: Bytes, wire: Bytes, unread: Bytes, rest: Bytes)
    requires Takes(all, taken, before, wire) && before + wire == unread + rest
    ensures Takes(all, taken, unread, rest)
  {
    hide EncodeAll;
    assert EncodeAll(taken) + before + wire == EncodeAll(taken) + (before + wire);
  }

  lemma {:induction false} OneFlat(packet: Queued)
    ensures Flat([packet]) == packet.bytes && Flat([]) == []
  {
    assert [packet][1..] == [];
  }

  lemma {:induction false} NothingSpent(bytes: nat, work: nat)
    ensures Spent(bytes, work, bytes, work, 0, [], 0)
  {}

  lemma {:induction false} CameToNothing(receive: Answers, call: nat, size: nat, wire: Bytes)
    requires size > 0 && Min(receive(call, size), |wire|) <= 0
    ensures NothingCame(receive, wire)
  {}

  /** What was pending is what moved and what is left, and for datagrams so are the packets. */
  ghost predicate Splits(kind: Kind, all: Bytes, was: seq<Queued>, moved: Bytes, datagrams: seq<Queued>, pending: Bytes, now: seq<Queued>)
  {
    all == moved + pending && (kind.Datagram? ==> datagrams + now == was && moved == Flat(datagrams))
  }

  lemma {:induction false} NothingSent(kind: Kind, pending: Bytes, output: seq<Queued>)
    ensures Splits(kind, pending, output, [], [], pending, output)
  {
    assert [] + pending == pending && [] + output == output && Flat([]) == [];
  }

  lemma {:induction false} MoreSent(kind: Kind, all: Bytes, was: seq<Queued>, moved: Bytes, datagrams: seq<Queued>, before: Bytes,
                                    queue: seq<Queued>, piece: Bytes, gone: seq<Queued>, pending: Bytes, now: seq<Queued>)
    requires Splits(kind, all, was, moved, datagrams, before, queue) && before == piece + pending
    requires kind.Datagram? ==> gone + now == queue && piece == Flat(gone)
    ensures Splits(kind, all, was, moved + piece, datagrams + gone, pending, now)
  {
    assert moved + (piece + pending) == moved + piece + pending;
    DatagramsMove(datagrams, gone, now);
    hide Flat;
  }

  lemma {:induction false} SentAre(kind: Kind, all: Bytes, was: seq<Queued>, moved: Bytes, datagrams: seq<Queued>, pending: Bytes, now: seq<Queued>)
    requires Splits(kind, all, was, moved, datagrams, pending, now)
    ensures all == moved + pending && (kind.Datagram? ==> datagrams + now == was && moved == Flat(datagrams))
  {}

  lemma {:induction false} DatagramsMove(datagrams: seq<Queued>, gone: seq<Queued>, output: seq<Queued>)
    ensures datagrams + (gone + output) == datagrams + gone + output
    ensures Flat(datagrams + gone) == Flat(datagrams) + Flat(gone)
  {
    if datagrams == [] {
      assert datagrams + gone == gone;
    } else {
      assert (datagrams + gone)[1..] == datagrams[1..] + gone;
      DatagramsMove(datagrams[1..], gone, output);
    }
  }

  lemma {:induction false} Appended(output: seq<Queued>, last: Queued, offset: nat)
    requires offset <= Total(output) && last.bytes != [] && forall q <- output :: q.bytes != []
    ensures offset <= |Flat(output + [last])|
    ensures Flat(output + [last])[offset..] == Flat(output)[offset..] + last.bytes
    ensures forall q <- output + [last] :: q.bytes != []
    ensures output != [] ==> (output + [last])[0] == output[0] && |output[0].bytes| <= Total(output)
  {
    FlatNext(output, last);
  }

  // ---------------------------------------------------------------- both ends

  /**
   A stream between two packet sockets, one direction. The bytes on the way are a queue; each end is served
   in any order, under any budgets, and with any answers from its operating system.
   */
  class Connection {
    const sender: PacketState
    const receiver: PacketState
    var wire: Bytes
    ghost var sent: seq<Packet>
    ghost var taken: seq<Packet>

    /** What was taken is a beginning of what was sent, and the rest is on its way, in order. */
    ghost predicate Conserved()
      reads this, sender, receiver
    {
      && sender != receiver && sender.Valid() && receiver.Valid() && sender.kind.Stream?
      && AllEncodable(sent) && taken <= sent
      && AllEncodable(sent[|taken|..])
      && EncodeAll(sent[|taken|..]) == receiver.Unread() + wire + sender.Pending()
    }

    constructor ()
      ensures Conserved() && sent == [] && taken == [] && fresh(sender) && fresh(receiver)
    {
      sender := new PacketState(Stream);
      receiver := new PacketState(Stream);
      wire, sent, taken := [], [], [];
    }

    /** When nothing is on its way, everything sent was taken. */
    lemma {:induction false} Drained()
      requires Conserved()
      ensures receiver.Unread() == [] && wire == [] && sender.Pending() == [] ==> taken == sent
    {
      if sent[|taken|..] != [] { assert |Encode(sent[|taken|..][0])| > 0; }
    }

    method Send(closed: bool, packet: Packet) returns (ok: bool)
      requires Conserved()
      modifies this`sent, sender
      ensures Conserved() && taken == old(taken)
      ensures sent == if ok then old(sent) + [packet] else old(sent)
    {
      hide Encode, EncodeAll, Total, Flat, TextIsValid;
      ok := sender.SendPacket(closed, false, packet, 0, 0);
      if ok {
        ghost var ahead := sent[|taken|..];
        EncodeAllNext(ahead, packet);
        assert (sent + [packet])[|taken|..] == ahead + [packet];
        assert receiver.Unread() + wire + old(sender.Pending()) + Encode(packet) == receiver.Unread() + wire + sender.Pending();
        AllEncodableNext(sent, packet);
        sent := sent + [packet];
      }
    }

    method Flush(send: Answers, active: Liveness, bytes: u64, work: u32) returns (ok: bool, bytesLeft: u64, workLeft: u32)
      requires Conserved() && forall call: nat, size: nat :: send(call, size) <= size
      modifies this`wire, sender
      ensures Conserved() && sent == old(sent) && taken == old(taken)
      ensures wire + sender.Pending() == old(wire) + old(sender.Pending()) && old(wire) <= wire
      ensures bytes > 0 && work > 0 && active(0) && Willing(send) ==>
                ok && (sender.output == [] || |sender.Pending()| < |old(sender.Pending())|)
    {
      hide Encode, EncodeAll, Total, Flat, Called, AllAsked, Stopped, Willing;
      ghost var was, start, before, ahead := sender.output, sender.outputOffset, sender.Pending(), receiver.Unread();
      sender.PendingEmpty();
      var moved, datagrams;
      ghost var calls;
      ok, bytesLeft, workLeft, moved, datagrams, calls := sender.FlushPackets(send, active, bytes, work);
      sender.PendingEmpty();
      Rejoins(ahead, wire, before, moved, sender.Pending());
      wire := wire + moved;
      if bytes > 0 && work > 0 && active(0) && Willing(send) {
        FlushShrinks(send, active, was, start, Min(bytes, BYTE_BUDGET), calls, ok, sender.output, work, workLeft, before, moved, sender.Pending());
      }
    }

    /**
     What is read from a well-formed stream are its next packets, in order; the socket is never closed for a
     bad packet, and what is not delivered was taken when the socket was already closed.
     */
    method Read(receive: Answers, active: Liveness, readable: bool, bytes: u64, work: u32)
        returns (outcome: Outcome, delivered: seq<Packet>, bytesLeft: u64, workLeft: u32)
      requires Conserved() && forall call: nat, size: nat :: receive(call, size) <= size
      requires forall i, j :: 0 <= i <= j && active(j) ==> active(i)
      modifies this`wire, this`taken, receiver
      ensures Conserved() && sent == old(sent) && old(taken) <= taken && outcome != BadPacket
      ensures (forall n :: active(n)) ==> taken == old(taken) + delivered
      ensures old(taken) + delivered <= taken && |wire| <= |old(wire)|
      ensures bytes > 0 && work > 0 && readable && (forall n :: active(n)) && Willing(receive) && sender.Pending() == [] && old(taken) != sent ==>
                old(taken) < taken || |wire| < |old(wire)|
    {
      hide Encode, EncodeAll, Decode, Spent, ReadStopped, NothingCame;
      var next, rest;
      ghost var ahead := sent[|taken|..];
      ghost var pending := sender.Pending();
      ghost var calls;
      outcome, bytesLeft, workLeft, rest, next, delivered, calls := receiver.ReadStream(receive, active, readable, wire, bytes, work);
      if bytes > 0 && work > 0 && readable && (forall n :: active(n)) && Willing(receive) && pending == [] && ahead != [] && outcome != BadPacket {
        ReadMovesOn(receive, active, outcome, receiver.Unread(), wire, rest, next, calls, bytes, work, bytesLeft, workLeft, ahead);
      }
      StreamTaken(ahead, next, receiver.Unread() + rest + pending);
      assert EncodeAll(ahead) == EncodeAll(next) + (receiver.Unread() + rest + pending);
      TakenOn(sent, taken, next);
      taken := taken + next;
      wire := rest;
      assert receiver.Unread() <= EncodeAll(sent[|taken|..]);
      StreamDecodes(sent[|taken|..], receiver.Unread());
    }

    /**
     Served again and again by willing sockets, each time with some budget, a stream empties: every packet
     sent is delivered.
     */
    method Settle(send: Answers, receive: Answers, bytes: u64, work: u32) returns (delivered: seq<Packet>)
      requires Conserved() && bytes > 0 && work > 0
      requires (forall call: nat, size: nat :: send(call, size) <= size) && Willing(send)
      requires (forall call: nat, size: nat :: receive(call, size) <= size) && Willing(receive)
      modifies this`wire, this`taken, sender, receiver
      ensures Conserved() && sent == old(sent)
      ensures taken == sent == old(taken) + delivered && wire == [] && sender.output == [] && receiver.Unread() == []
    {
      hide Encode, EncodeAll, Decode;
      delivered := [];
      var always: Liveness := _ => true;
      while sender.output != [] || wire != [] || receiver.inputOffset < |receiver.input|
        invariant Conserved() && sent == old(sent) && taken == old(taken) + delivered
        decreases |sender.Pending()|, |wire|, |sent| - |taken|
      {
        var ok, outcome, next, bytesLeft, workLeft;
        NotYetSettled();
        ok, bytesLeft, workLeft := Flush(send, always, bytes, work);
        outcome, next, bytesLeft, workLeft := Read(receive, always, true, bytes, work);
        delivered := delivered + next;
      }
      Drained();
    }

    /** While anything is on its way, something sent was not taken. */
    lemma {:induction false} NotYetSettled()
      requires Conserved()
      ensures sender.output == [] ==> sender.Pending() == []
      ensures sender.output != [] || wire != [] || receiver.Unread() != [] ==> taken != sent
    {
      sender.PendingEmpty();
    }
  }

  lemma {:induction false} TakenOn(sent: seq<Packet>, taken: seq<Packet>, next: seq<Packet>)
    requires taken <= sent && next <= sent[|taken|..]
    ensures taken + next <= sent && sent[|taken|..][|next|..] == sent[|taken + next|..]
  {
    assert taken + next == sent[..|taken| + |next|];
  }

  /** A socket that takes or gives something whenever it is asked to. */
  ghost predicate Willing(answers: Answers)
  {
    forall call: nat, size: nat :: size > 0 ==> answers(call, size) > 0
  }

  /** A flush of a stream to a willing socket fails never and moves something, if there is anything to move. */
  lemma {:induction false} FlushMoves(send: Answers, active: Liveness, was: seq<Queued>, start: nat, budget: nat, calls: seq<nat>, ok: bool,
                                      now: seq<Queued>, moved: nat, work: nat, workLeft: nat)
    requires Willing(send) && active(0) && budget > 0 && work > 0 && workLeft == work - |calls|
    requires Called(Stream, send, calls, ok, moved) && AllAsked(Stream, send, was, start, budget, calls)
    requires ok ==> Stopped(Stream, send, active, calls, now, budget, moved, workLeft)
    requires was != [] ==> start < |was[0].bytes|
    ensures ok && (was == [] || now == [] || moved > 0)
  {
    hide Asks;
    if calls != [] { assert Accepts(Stream, send, |calls| - 1, calls[|calls| - 1]) > 0; }
  }

  lemma {:induction false} FlushShrinks(send: Answers, active: Liveness, was: seq<Queued>, start: nat, budget: nat, calls: seq<nat>, ok: bool,
                                        now: seq<Queued>, work: nat, workLeft: nat, before: Bytes, moved: Bytes, pending: Bytes)
    requires Willing(send) && active(0) && budget > 0 && work > 0 && workLeft == work - |calls|
    requires Called(Stream, send, calls, ok, |moved|) && AllAsked(Stream, send, was, start, budget, calls)
    requires ok ==> Stopped(Stream, send, active, calls, now, budget, |moved|, workLeft)
    requires was != [] ==> start < |was[0].bytes|
    requires before == moved + pending && (was == [] ==> before == []) && (now != [] ==> pending != [])
    ensures ok && (now == [] || |pending| < |before|)
  {
    FlushMoves(send, active, was, start, budget, calls, ok, now, |moved|, work, workLeft);
  }

  lemma {:induction false} Rejoins(unread: Bytes, wire: Bytes, before: Bytes, moved: Bytes, pending: Bytes)
    requires before == moved + pending
    ensures unread + wire + before == unread + (wire + moved) + pending && wire + before == wire + moved + pending
  {}

  /** A read from a willing socket moves something unless nothing is on the way and half a packet is unread. */
  lemma {:induction false} ReadMoves(receive: Answers, active: Liveness, outcome: Outcome, unread: Bytes, wire: Bytes, rest: Bytes, next: seq<Packet>,
                                     calls: nat, bytes: nat, work: nat, bytesLeft: nat, workLeft: nat)
    requires Willing(receive) && (forall n :: active(n)) && bytes > 0 && work > 0 && |rest| <= |wire| && outcome != BadPacket
    requires Spent(bytes, work, bytesLeft, workLeft, |wire| - |rest|, next, calls)
    requires outcome == Broken ==> exists call: nat, size: nat :: size > 0 && receive(call, size) < 0
    requires outcome == Open ==> ReadStopped(receive, active, true, unread, rest, |wire| - |rest|, Min(bytes, BYTE_BUDGET), |next|, calls, bytesLeft, workLeft)
    requires calls <= |wire| - |rest| || outcome == Broken || (Decode(unread).Incomplete? && NothingCame(receive, rest))
    ensures next != [] || |rest| < |wire| || (rest == [] && Decode(unread).Incomplete?)
  {
    hide Decode;
    if next == [] { assert Payloads(next) == 0; }
  }

  lemma {:induction false} ReadMovesOn(receive: Answers, active: Liveness, outcome: Outcome, unread: Bytes, wire: Bytes, rest: Bytes, next: seq<Packet>,
                                       calls: nat, bytes: nat, work: nat, bytesLeft: nat, workLeft: nat, ahead: seq<Packet>)
    requires Willing(receive) && (forall n :: active(n)) && bytes > 0 && work > 0 && |rest| <= |wire| && outcome != BadPacket
    requires Spent(bytes, work, bytesLeft, workLeft, |wire| - |rest|, next, calls)
    requires outcome == Broken ==> exists call: nat, size: nat :: size > 0 && receive(call, size) < 0
    requires outcome == Open ==> ReadStopped(receive, active, true, unread, rest, |wire| - |rest|, Min(bytes, BYTE_BUDGET), |next|, calls, bytesLeft, workLeft)
    requires calls <= |wire| - |rest| || outcome == Broken || (Decode(unread).Incomplete? && NothingCame(receive, rest))
    requires AllEncodable(ahead) && ahead != [] && AllEncodable(next) && EncodeAll(ahead) == EncodeAll(next) + unread + rest
    ensures next != [] || |rest| < |wire|
  {
    ReadMoves(receive, active, outcome, unread, wire, rest, next, calls, bytes, work, bytesLeft, workLeft);
    if next == [] && rest == [] {
      assert EncodeAll(next) == [] && [] + unread + [] == unread;
      hide EncodeAll;
      HalfIsNotAll(ahead);
    }
  }

  /** Half a packet alone is not what is left of a stream. */
  lemma {:induction false} HalfIsNotAll(packets: seq<Packet>)
    requires AllEncodable(packets) && packets != []
    ensures Decode(EncodeAll(packets)).Complete?
  {
    DecodeEncode(packets[0], EncodeAll(packets[1..]));
    hide Decode, Encode;
  }

  lemma {:induction false} AllEncodableNext(packets: seq<Packet>, last: Packet)
    requires AllEncodable(packets) && Encodable(last)
    ensures AllEncodable(packets + [last])
  {}

  /** A stream that begins with the encodings of some packets is a stream of those packets first. */
  lemma {:induction false} StreamTaken(packets: seq<Packet>, next: seq<Packet>, rest: Bytes)
    requires AllEncodable(packets) && AllEncodable(next) && EncodeAll(packets) == EncodeAll(next) + rest
    ensures next <= packets && AllEncodable(packets[|next|..]) && EncodeAll(packets[|next|..]) == rest
  {
    if next != [] {
      var b := EncodeAll(packets);
      var more := EncodeAll(next[1..]) + rest;
      assert b == Encode(next[0]) + more;
      DecodeEncode(next[0], more);
      StreamDecodes(packets, b);
      hide Decode, Encode;
      assert b[|Encode(next[0])|..] == more;
      assert EncodeAll(packets) == Encode(packets[0]) + EncodeAll(packets[1..]);
      StreamTaken(packets[1..], next[1..], rest);
      assert packets[1..][|next| - 1..] == packets[|next|..];
    }
  }
}
