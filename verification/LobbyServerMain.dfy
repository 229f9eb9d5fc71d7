/**
 The lobby server object: its tables are fields that the handlers update step by step, with the loops of
 the source. Every method does to the fields what the transition function of the same name does.
 */
module LobbyServerMain {
  import opened Machine
  import opened Options
  import opened LobbyMembers
  import opened LobbyServer
  import opened LobbyServerInvariant
  import opened LobbyServerArrivals
  import opened LobbyServerRuns

  class Hall {
    var order: seq<ConnectionId>
    var conns: map<ConnectionId, Connection>
    var listing: seq<LobbyRef>
    var lobbies: map<LobbyRef, Lobby>
    var created: nat
    var events: seq<Event>
    ghost var past: Past

    ghost function State(): Server
      reads this
    {
      Server(order, conns, listing, lobbies, created, events, past)
    }

    constructor ()
      ensures State() == STARTED
    {
      order, conns, listing, lobbies, created, events, past := [], map[], [], map[], 0, [], Past({}, {}, true, true);
    }

    method Send(luck: Luck, id: ConnectionId, message: Message)
      requires Linked(State()) && id in conns
      modifies this`conns
      ensures State() == SendTo(old(State()), luck, id, message)
    {
      var c := conns[id];
      if c.dead || c.closing { return; }
      if luck(id, |c.sent|) {
        conns := conns[id := c.(sent := c.sent + [message])];
      } else {
        conns := conns[id := c.(dead := true)];
      }
    }

    method Goodbye(luck: Luck, id: ConnectionId)
      requires Linked(State()) && id in conns
      modifies this`conns
      ensures State() == SendGoodbye(old(State()), luck, id)
    {
      Send(luck, id, LobbyMembers.Message.Goodbye);
      conns := conns[id := conns[id].(closing := true)];
    }

    /** Send to each of several different connections in turn. */
    method SendEach(luck: Luck, members: seq<ConnectionId>, message: Message)
      requires Linked(State()) && Distinct(members) && forall m <- members :: m in conns
      modifies this`conns
      ensures State() == Broadcast(old(State()), luck, Ids(members), message)
    {
      ghost var was := conns;
      hide Mutual, Distinct, Sent;
      for i := 0 to |members|
        invariant State() == old(State()).(conns := conns) && conns == Told(was, luck, Ids(members[..i]), message)
        invariant Linked(State())
      {
        ToldNext(was, luck, members, i, message);
        ToldLinked(old(State()), luck, Ids(members[..i + 1]), message);
        Send(luck, members[i], message);
      }
      assert members[..|members|] == members;
    }

    /** The member list of `Lobby_Joined`. */
    method PeerList(members: seq<ConnectionId>) returns (joined: seq<Peer>)
      requires forall m <- members :: m in conns
      ensures joined == PeersOf(conns, members)
    {
      joined := [];
      for i := 0 to |members|
        invariant joined == PeersOf(conns, members[..i])
      {
        assert members[..i + 1][..i] == members[..i];
        joined := joined + [conns[members[i]].peer];
      }
      assert members[..|members|] == members;
    }

    method Enter(luck: Luck, ref: LobbyRef, id: ConnectionId)
      requires Linked(State()) && ref in lobbies && id in conns && conns[id].lobby.None? && Distinct(lobbies[ref].members)
      modifies this
      ensures State() == EnterLobby(old(State()), luck, ref, id)
    {
      var lobby := lobbies[ref];
      assert forall m <- lobby.members :: m in conns;
      hide Linked, PeersOf, Distinct, Told, Sent;
      var joined := PeerList(lobby.members);
      Send(luck, id, LobbyJoined(joined));
      SendEach(luck, lobby.members, MemberJoined(conns[id].peer));
      Admit(ref, id);
    }

    method Admit(ref: LobbyRef, id: ConnectionId)
      requires ref in lobbies && id in conns
      modifies this`lobbies, this`conns, this`events
      ensures State() == old(State()).(conns := old(conns)[id := old(conns)[id].(lobby := Some(ref))],
                                       lobbies := old(lobbies)[ref := old(lobbies)[ref].(members := old(lobbies)[ref].members + [id])],
                                       events := old(events) + [Arrived(LobbyId(ref), MemberOf(old(conns)[id]))])
    {
      lobbies := lobbies[ref := lobbies[ref].(members := lobbies[ref].members + [id])];
      conns := conns[id := conns[id].(lobby := Some(ref))];
      events := events + [Arrived(LobbyId(ref), MemberOf(conns[id]))];
    }

    method Leave(luck: Luck, id: ConnectionId)
      requires Linked(State()) && id in conns
      requires forall ref <- lobbies :: Distinct(lobbies[ref].members)
      modifies this
      ensures State() == LeaveLobby(old(State()), luck, id)
    {
      if conns[id].lobby.None? { return; }
      var ref := conns[id].lobby.value;
      LeaveLinked(State(), ref, id);
      WithoutDistinct(lobbies[ref].members, id);
      conns := conns[id := conns[id].(lobby := None)];
      var members := Erase(lobbies[ref].members, id);
      events := events + [Left(LobbyId(ref), MemberOf(conns[id]))];
      if members != [] {
        lobbies := lobbies[ref := lobbies[ref].(members := members)];
        SendEach(luck, members, MemberLeft(conns[id].peer.id));
      } else {
        events := events + [Closed(LobbyId(ref))];
        listing := Erase(listing, ref);
        lobbies := lobbies - {ref};
      }
    }

    method KeyTaken(id: ConnectionId, key: Key) returns (taken: bool)
      requires Linked(State())
      ensures taken == KeyInUse(State(), id, key)
    {
      hide Mutual;
      for i := 0 to |order|
        invariant forall k :: 0 <= k < i && order[k] != id && conns[order[k]].Live() ==> conns[order[k]].peer.key != key
      {
        var other := order[i];
        assert other in order;
        if other != id && conns[other].Live() && conns[other].peer.key == key { return true; }
      }
      return false;
    }

    method EvictNamesakes(luck: Luck, id: ConnectionId, member: MemberId)
      requires Linked(State()) && id in conns
      requires forall ref <- lobbies :: Distinct(lobbies[ref].members)
      modifies this
      ensures State() == EvictAll(old(State()), luck, id, member, |old(order)|)
    {
      hide Mutual, Evict, Distinct;
      for i := 0 to |order|
        invariant State() == EvictAll(old(State()), luck, id, member, i) && order == old(order)
        invariant Linked(State())
        invariant forall ref <- lobbies :: Distinct(lobbies[ref].members)
      {
        var other := order[i];
        assert other in order;
        if other != id && Evicts(conns[other], member) {
          EvictOne(luck, other);
        }
      }
    }

    method EvictOne(luck: Luck, other: ConnectionId)
      requires Linked(State()) && other in conns
      requires forall ref <- lobbies :: Distinct(lobbies[ref].members)
      modifies this
      ensures State() == Evict(old(State()), luck, other)
      ensures forall ref <- lobbies :: Distinct(lobbies[ref].members)
    {
      hide Mutual, LeaveLobby, Distinct, Sent;
      Goodbye(luck, other);
      LeaveKeepsDistinct(State(), luck, other);
      Leave(luck, other);
    }

    /** `Handle_Identity`. */
    method Prove(luck: Luck, id: ConnectionId, hello: Hello)
      requires Linked(State()) && id in conns
      requires forall ref <- lobbies :: Distinct(lobbies[ref].members)
      modifies this
      ensures State() == HandleIdentity(old(State()), luck, id, hello)
    {
      if !hello.parsed || !hello.proven {
        Goodbye(luck, id);
        return;
      }
      var taken := KeyTaken(id, hello.peer.key);
      if taken {
        Goodbye(luck, id);
        return;
      }
      hide KeyInUse, EvictAll, Mutual, Distinct, Linked, MakeReady, SendTo, SendGoodbye, Put;
      Replace(luck, id, hello.peer);
    }

    method Replace(luck: Luck, id: ConnectionId, peer: Peer)
      requires Linked(State()) && id in conns
      requires forall ref <- lobbies :: Distinct(lobbies[ref].members)
      modifies this
      ensures var known := Put(old(State()), id, old(conns)[id].(peer := peer));
              var evicted := EvictAll(known, luck, id, peer.id, |old(order)|);
              State() == SendTo(MakeReady(evicted, id), luck, id, Welcome(peer.id))
    {
      SameLobbiesLinked(State(), conns[id := conns[id].(peer := peer)]);
      hide EvictAll, Mutual, Distinct, Linked, MakeReady, SendTo;
      conns := conns[id := conns[id].(peer := peer)];
      EvictAllPeers(State(), luck, id, peer.id, |order|);
      EvictNamesakes(luck, id, peer.id);
      Arrive(luck, id);
    }

    /** The connection becomes ready and is welcomed. */
    method Arrive(luck: Luck, id: ConnectionId)
      requires Linked(State()) && id in conns
      modifies this
      ensures State() == SendTo(MakeReady(old(State()), id), luck, id, Welcome(old(conns)[id].peer.id))
    {
      hide Mutual;
      var peer := conns[id].peer;
      SameLobbiesLinked(State(), conns[id := conns[id].(stage := Ready)]);
      conns := conns[id := conns[id].(stage := Ready)];
      past := past.(newcomers := past.newcomers + {id}, keys := past.keys + {peer.key},
                    freshKeys := past.freshKeys && peer.key !in past.keys);
      Send(luck, id, Welcome(peer.id));
    }

    /** `Find_Lobby`. */
    method FindLobby(name: string) returns (found: Option<LobbyRef>)
      requires Linked(State())
      ensures found == Find(State(), listing, name)
    {
      hide Mutual;
      for i := 0 to |listing|
        invariant Find(State(), listing, name) == Find(State(), listing[i..], name)
      {
        if lobbies[listing[i]].name == name { return Some(listing[i]); }
        assert listing[i..][1..] == listing[i + 1..];
      }
      return None;
    }

    /** A new lobby, and its first member. */
    method Open(luck: Luck, id: ConnectionId, name: string, verifier: nat)
      requires Linked(State()) && id in conns && conns[id].lobby.None?
      modifies this
      ensures State() == EnterLobby(OpenLobby(old(State()), name, verifier), luck, old(created) + 1, id)
    {
      hide Mutual, EnterLobby, LobbyId, Numbered;
      ghost var s := OpenLobby(State(), name, verifier);
      created := created + 1;
      lobbies := lobbies[created := Lobby(name, verifier, [])];
      listing := listing + [created];
      events := events + [Opened(LobbyId(created), name)];
      assert State() == s;
      Enter(luck, created, id);
    }

    /** `Handle_Lobby_Request`. */
    method Request(luck: Luck, id: ConnectionId, frame: Frame)
      requires Linked(State()) && id in conns && (frame.Query? || frame.Create? || frame.Join?)
      requires forall ref <- lobbies :: Distinct(lobbies[ref].members)
      modifies this
      ensures State() == HandleRequest(old(State()), luck, id, frame)
    {
      hide Mutual, EnterLobby, OpenLobby, Sent, Find, Distinct;
      past := past.(patient := past.patient && id !in past.newcomers);
      if conns[id].lobby.Some? || frame.name.None? {
        Goodbye(luck, id);
        return;
      }
      var found := FindLobby(frame.name.value);
      match frame {
        case Query(_) =>
          Send(luck, id, LobbyInfo(found.Some?));
        case Create(name, complete, verifier) =>
          if !complete {
            Goodbye(luck, id);
          } else if found.Some? {
            Send(luck, id, LobbyRefused);
          } else {
            Open(luck, id, name.value, verifier);
          }
        case Join(_, complete, verifier) =>
          if !complete {
            Goodbye(luck, id);
          } else if found.None? {
            Send(luck, id, LobbyRefused);
          } else if verifier == lobbies[found.value].verifier {
            Enter(luck, found.value, id);
          } else {
            Send(luck, id, LobbyRefused);
            conns := conns[id := conns[id].(closing := true)];
          }
      }
    }

    /** The relaying loop of `Handle_Ready`. */
    method Relay(luck: Luck, id: ConnectionId, frame: Frame)
      requires Linked(State()) && id in conns && conns[id].lobby.Some?
      requires Distinct(lobbies[conns[id].lobby.value].members)
      modifies this`conns
      ensures State() == Broadcast(old(State()), luck, Recipients(old(State()), id, frame), Relayed)
    {
      var members := lobbies[conns[id].lobby.value].members;
      ghost var was, ids := conns, Recipients(State(), id, frame);
      assert forall m <- members :: m in conns;
      ToldNobody(was, luck);
      hide Linked, Distinct, Told, Chosen, Sent;
      for i := 0 to |members|
        invariant State() == old(State()).(conns := conns) && Linked(State())
        invariant conns == Told(was, luck, Chosen(members[..i], ids), Relayed) && conns.Keys == was.Keys
      {
        ChosenNext(was, luck, members, i, ids);
        ToldLinked(old(State()), luck, Chosen(members[..i + 1], ids), Relayed);
        var member := members[i];
        if if frame.LobbySendTo? then conns[member].peer.id == frame.recipient else member != id {
          Send(luck, member, Relayed);
        }
      }
      assert members[..|members|] == members;
      ChosenAll(members, ids);
    }

    /** `Handle_Ready`. */
    method Serve(luck: Luck, id: ConnectionId, frame: Frame, udp: bool)
      requires Linked(State()) && id in conns
      requires forall ref <- lobbies :: Distinct(lobbies[ref].members)
      modifies this
      ensures State() == HandleReady(old(State()), luck, id, frame, udp)
    {
      var lobby := conns[id].lobby;
      if udp && !frame.LobbySend? && !frame.LobbySendTo? && !frame.ServerSend? { return; }
      if frame.Query? || frame.Create? || frame.Join? {
        hide HandleRequest, Mutual;
        Request(luck, id, frame);
      } else if !frame.LobbySend? && !frame.LobbySendTo? && !frame.ServerSend? {
        Goodbye(luck, id);
      } else if lobby.None? || !frame.valid {
        Goodbye(luck, id);
      } else if frame.ServerSend? {
        events := events + [Delivered(LobbyId(lobby.value))];
      } else if !udp {
        Relay(luck, id, frame);
      }
    }

    /** One message of `Handle_Input`. */
    method Take(luck: Luck, id: ConnectionId, frame: Frame)
      requires Linked(State()) && id in conns
      requires forall ref <- lobbies :: Distinct(lobbies[ref].members)
      modifies this
      ensures State() == HandleFrame(old(State()), luck, id, frame)
    {
      hide Mutual, HandleReady, HandleIdentity;
      var c := conns[id];
      if c.dead || c.closing { return; }
      if c.stage.HelloStage? {
        conns := conns[id := c.(stage := IdentityStage, dead := !(frame.ClientHello? && frame.accepted))];
      } else if frame.Garbled? {
        conns := conns[id := c.(dead := true)];
      } else if c.stage.IdentityStage? {
        Prove(luck, id, if frame.Identity? then frame.hello else Hello(false, false, c.peer));
      } else {
        Serve(luck, id, frame, false);
      }
    }

    /** `Close_Connection`: swap with the last, then drop it. */
    method Close(luck: Luck, index: nat)
      requires Linked(State()) && index < |order|
      requires forall ref <- lobbies :: Distinct(lobbies[ref].members)
      modifies this
      ensures State() == CloseConnection(old(State()), luck, index)
    {
      var id := order[index];
      assert id in order;
      hide Mutual, LeaveLobby, Distinct;
      Leave(luck, id);
      order := order[index := order[|order| - 1]];
      order := order[..|order| - 1];
      conns := conns - {id};
      past := past.(newcomers := past.newcomers - {id});
    }

    /** The loop that ends a round, from the last connection to the first. */
    method CloseAllDead(luck: Luck)
      requires Linked(State())
      requires forall ref <- lobbies :: Distinct(lobbies[ref].members)
      modifies this
      ensures State() == CloseDead(old(State()), luck, |old(order)|)
    {
      hide Mutual, CloseConnection, Distinct;
      var index := |order|;
      while index > 0
        invariant 0 <= index <= |order| && Linked(State())
        invariant CloseDead(State(), luck, index) == CloseDead(old(State()), luck, |old(order)|)
        invariant forall ref <- lobbies :: Distinct(lobbies[ref].members)
      {
        assert order[index - 1] in order;
        if conns[order[index - 1]].dead {
          CloseKeepsDistinct(State(), luck, index - 1);
          Close(luck, index - 1);
        }
        index := index - 1;
      }
    }

    // -------------------------------------------------------------- rounds

    /** `Lobby_Of`. */
    method FindById(lobby: u32) returns (found: Option<LobbyRef>)
      ensures found == LobbyOf(listing, lobby)
    {
      hide LobbyId;
      for i := 0 to |listing|
        invariant LobbyOf(listing, lobby) == LobbyOf(listing[i..], lobby)
      {
        if LobbyId(listing[i]) == lobby { return Some(listing[i]); }
        assert listing[i..][1..] == listing[i + 1..];
      }
      return None;
    }

    /** One message of `Send_Outgoing`, to those members of a lobby whose identifiers are in `to`. */
    method Deliver(luck: Luck, ref: LobbyRef, to: set<MemberId>)
      requires Linked(State()) && ref in lobbies && Distinct(lobbies[ref].members)
      modifies this`conns
      ensures State() == Broadcast(old(State()), luck, set m <- lobbies[ref].members | old(conns)[m].peer.id in to :: m, Relayed)
    {
      var members := lobbies[ref].members;
      assert forall m <- members :: m in conns;
      ghost var was, ids := conns, set m <- members | conns[m].peer.id in to :: m;
      ToldNobody(was, luck);
      hide Linked, Distinct, Told, Chosen, Sent;
      for i := 0 to |members|
        invariant State() == old(State()).(conns := conns) && Linked(State())
        invariant conns == Told(was, luck, Chosen(members[..i], ids), Relayed) && conns.Keys == was.Keys
      {
        ChosenNext(was, luck, members, i, ids);
        ToldLinked(old(State()), luck, Chosen(members[..i + 1], ids), Relayed);
        if conns[members[i]].peer.id in to { Send(luck, members[i], Relayed); }
      }
      assert members[..|members|] == members;
      ChosenAll(members, ids);
    }

    method Store(id: ConnectionId, c: Connection)
      requires Linked(State()) && id in conns && c.lobby == conns[id].lobby
      modifies this`conns
      ensures State() == Put(old(State()), id, c)
    {
      conns := conns[id := c];
    }

    /** Whatever happens in a round of `Main` does to the fields what it does to the state. */
    method Perform(luck: Luck, action: Action)
      requires Inv(State())
      modifies this
      ensures State() == Act(old(State()), luck, action) && Inv(State())
    {
      InvLinked(State());
      ActKeeps(State(), luck, action);
      DistinctMembers(State());
      hide InvBut, Mutual, HandleFrame, HandleReady, CloseDead, Broadcast, Distinct, LobbyOf;
      match action {
        case SendOutgoing(lobby, to) =>
          var found := FindById(lobby);
          if found.Some? { Deliver(luck, found.value, to); }
        case Receive(id, frame) =>
          if id in conns { Take(luck, id, frame); }
        case Datagram(id, frame) =>
          if id in conns && conns[id].Live() && conns[id].lobby.Some? { Serve(luck, id, frame, true); }
        case Fail(id) =>
          if id in conns { Store(id, conns[id].(dead := true)); }
        case Flush(id, through) =>
          if id in conns && |conns[id].sent| <= through { Store(id, conns[id].(dead := conns[id].dead || conns[id].closing)); }
        case EndRound =>
          CloseAllDead(luck);
          past := past.(newcomers := {});
        case Accept(id) =>
          if id !in conns && |order| < MAX_CONNECTIONS {
            order, conns := order + [id], conns[id := ACCEPTED];
          }
      }
    }

    /** A run of `Main`. */
    method PerformAll(luck: Luck, actions: seq<Action>)
      requires State() == STARTED
      modifies this
      ensures State() == Run(luck, actions)
    {
      StartedInv();
      hide InvBut, Act, Linked;
      for i := 0 to |actions|
        invariant State() == Run(luck, actions[..i]) && Inv(State())
      {
        assert actions[..i + 1][..i] == actions[..i];
        Perform(luck, actions[i]);
      }
      assert actions[..|actions|] == actions;
    }
  }

  lemma {:induction false} DistinctMembers(s: Server)
    requires Inv(s)
    ensures forall ref <- s.lobbies :: Distinct(s.lobbies[ref].members)
  {
    hide Linked, Logged, Replicated, Unique;
  }

  lemma {:induction false} ToldLinked(s: Server, luck: Luck, ids: set<ConnectionId>, message: Message)
    requires Linked(s)
    ensures Linked(s.(conns := Told(s.conns, luck, ids, message)))
  {
    SameLobbiesLinked(s, Told(s.conns, luck, ids, message));
  }

  /** Those of the members that a message goes to. */
  ghost function Chosen(members: seq<ConnectionId>, ids: set<ConnectionId>): set<ConnectionId>
  {
    set m <- members | m in ids
  }

  lemma {:induction false} ChosenAll(members: seq<ConnectionId>, ids: set<ConnectionId>)
    requires forall m <- ids :: m in members
    ensures Chosen(members, ids) == ids
  {}

  lemma {:induction false} ToldNobody(conns: Connections, luck: Luck)
    ensures forall ids :: Told(conns, luck, Chosen([], ids), Relayed) == conns
  {}

  lemma {:induction false} ChosenNext(conns: Connections, luck: Luck, members: seq<ConnectionId>, i: nat, ids: set<ConnectionId>)
    requires i < |members| && Distinct(members) && forall m <- members :: m in conns
    ensures var told := Told(conns, luck, Chosen(members[..i], ids), Relayed);
            && told[members[i]] == conns[members[i]]
            && Told(conns, luck, Chosen(members[..i + 1], ids), Relayed) ==
               if members[i] in ids then told[members[i] := Sent(luck, members[i], conns[members[i]], Relayed)] else told
  {
    assert members[..i + 1] == members[..i] + [members[i]];
    assert members[i] !in members[..i];
    hide Sent;
  }

  lemma {:induction false} CloseKeepsDistinct(s: Server, luck: Luck, index: nat)
    requires Linked(s) && index < |s.order| && forall ref <- s.lobbies :: Distinct(s.lobbies[ref].members)
    ensures forall ref <- CloseConnection(s, luck, index).lobbies :: Distinct(CloseConnection(s, luck, index).lobbies[ref].members)
  {
    assert s.order[index] in s.order;
    LeaveKeepsDistinct(s, luck, s.order[index]);
    hide LeaveLobby;
  }

  lemma {:induction false} ToldNext(conns: Connections, luck: Luck, members: seq<ConnectionId>, i: nat, message: Message)
    requires i < |members| && Distinct(members) && forall m <- members :: m in conns
    ensures var told := Told(conns, luck, Ids(members[..i]), message);
            && told[members[i]] == conns[members[i]]
            && Told(conns, luck, Ids(members[..i + 1]), message) == told[members[i] := Sent(luck, members[i], conns[members[i]], message)]
  {
    assert members[..i + 1] == members[..i] + [members[i]];
    assert members[i] !in members[..i];
  }

  lemma {:induction false} LeaveKeepsDistinct(s: Server, luck: Luck, id: ConnectionId)
    requires Linked(s) && id in s.conns && forall ref <- s.lobbies :: Distinct(s.lobbies[ref].members)
    ensures forall ref <- LeaveLobby(s, luck, id).lobbies :: Distinct(LeaveLobby(s, luck, id).lobbies[ref].members)
  {
    if s.conns[id].lobby.Some? { WithoutDistinct(s.lobbies[s.conns[id].lobby.value].members, id); }
  }

  /** `std::erase`. */
  method Erase(list: seq<nat>, x: nat) returns (kept: seq<nat>)
    ensures kept == Without(list, x)
  {
    kept := [];
    for i := 0 to |list|
      invariant kept == Without(list[..i], x)
    {
      assert list[..i + 1][..i] == list[..i];
      if list[i] != x { kept := kept + [list[i]]; }
    }
    assert list[..|list|] == list;
  }
}
