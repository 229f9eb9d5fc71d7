/**
 What the lobby server of client/src/network/lobby_server.cpp answers to each message: who hears what, who is
 let in where, and who is sent away.
 */
module LobbyServerAnswers {
  import opened Machine
  import opened Options
  import opened LobbyMembers
  import opened LobbyServer
  import opened LobbyServerInvariant
  import opened LobbyServerSteps
  import opened LobbyServerHandlers
  import opened LobbyServerArrivals
  import opened LobbyServerRuns

  // ---------------------------------------------------------------- hearing

  /**
   A connection is queued a message: it is its last one, or the connection is dead for want of room; one that
   is dead or closing hears nothing.
   */
  ghost predicate Hears(luck: Luck, id: ConnectionId, was: Connection, now: Connection, message: Message)
  {
    if was.dead || was.closing then now == was
    else if luck(id, |was.sent|) then now == was.(sent := was.sent + [message])
    else now == was.(dead := true)
  }

  lemma {:induction false} SentIsHeard(luck: Luck, id: ConnectionId, c: Connection, now: Connection, message: Message)
    ensures now == Sent(luck, id, c, message) <==> Hears(luck, id, c, now, message)
  {}

  /** One connection hears a message, and may be closing from then on; nothing else changes. */
  ghost predicate OnlyHears(s: Server, luck: Luck, id: ConnectionId, message: Message, closing: bool, t: Server)
  {
    && id in s.conns && id in t.conns && t == s.(conns := s.conns[id := t.conns[id]], past := t.past)
    && t.conns[id].closing == closing
    && Hears(luck, id, s.conns[id], t.conns[id].(closing := s.conns[id].closing), message)
  }

  /**
   A connection enters a lobby of `before` members: it hears of them, they hear of it, it is listed last, and the
   event is logged. Nobody else is touched.
   */
  ghost predicate Enters(luck: Luck, was: Connections, id: ConnectionId, ref: LobbyRef, before: seq<ConnectionId>, now: Connections)
  {
    && id in was && now.Keys == was.Keys && (forall m <- before :: m in was)
    && now[id].lobby == Some(ref)
    && Hears(luck, id, was[id], now[id].(lobby := was[id].lobby), LobbyJoined(PeersOf(was, before)))
    && forall c <- was :: c != id ==>
         if c in before then Hears(luck, c, was[c], now[c], MemberJoined(was[id].peer)) else now[c] == was[c]
  }

  lemma {:induction false} EntererIs(s: Server, luck: Luck, ref: LobbyRef, id: ConnectionId)
    requires Linked(s) && ref in s.lobbies && id in s.conns && s.conns[id].lobby.None?
    ensures var t := EnterLobby(s, luck, ref, id);
            && t == s.(conns := t.conns, lobbies := s.lobbies[ref := s.lobbies[ref].(members := s.lobbies[ref].members + [id])],
                       events := s.events + [Arrived(LobbyId(ref), MemberOf(s.conns[id]))])
            && Enters(luck, s.conns, id, ref, s.lobbies[ref].members, t.conns)
  {
    EnterLobbyIs(s, luck, ref, id);
    hide EnterLobby, Linked, LobbyId;
    var t := EnterLobby(s, luck, ref, id);
    SentIsHeard(luck, id, s.conns[id], t.conns[id].(lobby := s.conns[id].lobby), LobbyJoined(PeersOf(s.conns, s.lobbies[ref].members)));
    forall c <- s.conns | c != id && c in s.lobbies[ref].members
      ensures Hears(luck, c, s.conns[c], t.conns[c], MemberJoined(s.conns[id].peer))
    {
      SentIsHeard(luck, c, s.conns[c], t.conns[c], MemberJoined(s.conns[id].peer));
    }
  }

  // ---------------------------------------------------------------- lobby requests

  /** The lobby of this name. */
  ghost predicate Called(s: Server, ref: LobbyRef, name: Option<string>)
  {
    ref in s.lobbies && name == Some(s.lobbies[ref].name)
  }

  ghost predicate Exists(s: Server, name: Option<string>)
  {
    exists ref <- s.lobbies :: Called(s, ref, name)
  }

  /** `Find_Lobby` finds the only lobby of a name. */
  lemma {:induction false} FoundIsCalled(s: Server, name: string) returns (found: Option<LobbyRef>)
    requires Inv(s)
    ensures Linked(s) && found == Find(s, s.listing, name)
    ensures found.Some? ==> Called(s, found.value, Some(name)) && Exists(s, Some(name))
    ensures found.None? ==> !Exists(s, Some(name))
    ensures forall ref: LobbyRef :: Called(s, ref, Some(name)) ==> found == Some(ref)
  {
    hide Logged, Replicated, Mutual, Unique;
    found := FindIn(s, name);
    assert Furnished(s.lobbies, 0);
  }

  lemma {:induction false} NotedSame(s: Server, id: ConnectionId, name: Option<string>)
    ensures Exists(Noted(s, id), name) <==> Exists(s, name)
    ensures forall ref: LobbyRef :: Called(Noted(s, id), ref, name) <==> Called(s, ref, name)
  {}

  lemma {:induction false} RefusalIs(s: Server, luck: Luck, id: ConnectionId, message: Message)
    requires Linked(s) && id in s.conns && s.conns[id].Live()
    ensures OnlyHears(s, luck, id, message, false, SendTo(s, luck, id, message))
    ensures OnlyHears(s, luck, id, Goodbye, true, SendGoodbye(s, luck, id))
    ensures var refused := Refuse(s, luck, id);
            OnlyHears(s, luck, id, LobbyRefused, true, Put(refused, id, refused.conns[id].(closing := true)))
  {
    hide Linked;
  }

  /** The state in which a request is answered: whether its sender is a newcomer is noted. */
  function Noted(s: Server, id: ConnectionId): Server
  {
    s.(past := s.past.(patient := s.past.patient && id !in s.past.newcomers))
  }

  lemma {:induction false} NotedKeeps(s: Server, id: ConnectionId)
    requires Inv(s)
    ensures Inv(Noted(s, id)) && Linked(Noted(s, id))
  {
    LessPatient(s, Noted(s, id).past);
  }

  lemma {:induction false} FrameIsRequest(s: Server, luck: Luck, id: ConnectionId, frame: Frame)
    requires Linked(s) && id in s.conns && s.conns[id].Live() && (frame.Query? || frame.Create? || frame.Join?)
    ensures HandleFrame(s, luck, id, frame) == HandleRequest(s, luck, id, frame)
  {
    hide Linked, HandleRequest;
  }

  /** A request from a client that is in a lobby, or without a name, is answered with a goodbye. */
  lemma {:induction false} BadRequest(s: Server, luck: Luck, id: ConnectionId, frame: Frame)
    requires Linked(s) && Linked(Noted(s, id)) && id in s.conns && s.conns[id].Live() && (frame.Query? || frame.Create? || frame.Join?)
    requires s.conns[id].lobby.Some? || frame.name.None? || (frame.Create? && !frame.complete) || (frame.Join? && !frame.complete)
    ensures OnlyHears(s, luck, id, Goodbye, true, HandleRequest(s, luck, id, frame))
  {
    RefusalIs(Noted(s, id), luck, id, Goodbye);
    hide Linked, SendGoodbye, Find, Hears;
    assert HandleRequest(s, luck, id, frame) == SendGoodbye(Noted(s, id), luck, id);
  }

  /** A query is answered by whether such a lobby exists; in a lobby, or without a name, the client is sent away. */
  lemma {:induction false} QueryAnswered(s: Server, luck: Luck, id: ConnectionId, name: Option<string>)
    requires Inv(s) && Linked(s) && id in s.conns && s.conns[id].Live()
    ensures var t := HandleFrame(s, luck, id, Query(name));
            if s.conns[id].lobby.Some? || name.None? then OnlyHears(s, luck, id, Goodbye, true, t)
            else OnlyHears(s, luck, id, LobbyInfo(Exists(s, name)), false, t)
  {
    hide InvBut, Linked, SendTo, SendGoodbye, Find, HandleFrame, Hears, Exists;
    NotedKeeps(s, id);
    FrameIsRequest(s, luck, id, Query(name));
    if s.conns[id].lobby.Some? || name.None? {
      BadRequest(s, luck, id, Query(name));
    } else {
      NotedSame(s, id, name);
      var found := FoundIsCalled(Noted(s, id), name.value);
      RefusalIs(Noted(s, id), luck, id, LobbyInfo(Exists(s, name)));
    }
  }

  /** The client opens a lobby: it has the next number, this name and this verifier, and the client as its only member. */
  ghost predicate Opens(s: Server, luck: Luck, id: ConnectionId, name: string, verifier: nat, t: Server)
  {
    && id in s.conns
    && t == s.(conns := t.conns, lobbies := s.lobbies[s.created + 1 := Lobby(name, verifier, [id])], listing := s.listing + [s.created + 1],
               created := s.created + 1, past := t.past,
               events := s.events + [Opened((s.created + 1) % 0x1_0000_0000, name),
                                     Arrived((s.created + 1) % 0x1_0000_0000, Member(s.conns[id].peer.id, s.conns[id].peer.nickname))])
    && Enters(luck, s.conns, id, s.created + 1, [], t.conns)
  }

  /** The client joins a lobby that is there. */
  ghost predicate Joins(s: Server, luck: Luck, id: ConnectionId, ref: LobbyRef, t: Server)
  {
    && id in s.conns && ref in s.lobbies
    && t == s.(conns := t.conns, lobbies := s.lobbies[ref := s.lobbies[ref].(members := s.lobbies[ref].members + [id])], past := t.past,
               events := s.events + [Arrived(ref % 0x1_0000_0000, Member(s.conns[id].peer.id, s.conns[id].peer.nickname))])
    && Enters(luck, s.conns, id, ref, s.lobbies[ref].members, t.conns)
  }

  lemma {:induction false} JoinerIs(s: Server, luck: Luck, ref: LobbyRef, id: ConnectionId)
    requires Linked(s) && ref in s.lobbies && id in s.conns && s.conns[id].lobby.None?
    ensures Joins(s, luck, id, ref, EnterLobby(s, luck, ref, id))
  {
    EntererIs(s, luck, ref, id);
    hide Enters, Linked, EnterLobby;
  }

  lemma {:induction false} OpeningLogged(events: seq<Event>, one: Event, two: Event)
    ensures events + [one] + [two] == events + [one, two]
  {}

  lemma {:induction false} OpenerIs(s: Server, luck: Luck, id: ConnectionId, name: string, verifier: nat)
    requires Linked(s) && id in s.conns && s.conns[id].lobby.None?
    ensures Opens(s, luck, id, name, verifier, EnterLobby(OpenLobby(s, name, verifier), luck, s.created + 1, id))
  {
    var empty := OpenLobby(s, name, verifier);
    EntererIs(empty, luck, s.created + 1, id);
    assert empty.conns == s.conns && empty.lobbies[s.created + 1].members == [] && empty.lobbies[s.created + 1].name == name;
    assert empty.lobbies[s.created + 1 := Lobby(name, verifier, [id])] == s.lobbies[s.created + 1 := Lobby(name, verifier, [id])];
    hide Enters, Linked, EnterLobby;
    assert [] + [id] == [id];
    OpeningLogged(s.events, Opened(LobbyId(s.created + 1), name), Arrived(LobbyId(s.created + 1), MemberOf(s.conns[id])));
  }

  /** A complete request for a new lobby is refused if there is one of that name, and otherwise opens it and lets the client in. */
  lemma {:induction false} CreateAnswered(s: Server, luck: Luck, id: ConnectionId, name: Option<string>, complete: bool, verifier: nat)
    requires Inv(s) && Linked(s) && id in s.conns && s.conns[id].Live()
    ensures var t := HandleFrame(s, luck, id, Create(name, complete, verifier));
            if s.conns[id].lobby.Some? || name.None? || !complete then OnlyHears(s, luck, id, Goodbye, true, t)
            else if Exists(s, name) then OnlyHears(s, luck, id, LobbyRefused, false, t)
            else Opens(s, luck, id, name.value, verifier, t)
  {
    var frame := Create(name, complete, verifier);
    hide InvBut, Linked, SendTo, SendGoodbye, Find, HandleFrame, Hears, EnterLobby, OpenLobby, Enters, Exists;
    NotedKeeps(s, id);
    FrameIsRequest(s, luck, id, frame);
    if s.conns[id].lobby.Some? || name.None? || !complete {
      BadRequest(s, luck, id, frame);
    } else {
      NotedSame(s, id, name);
      var found := FoundIsCalled(Noted(s, id), name.value);
      if Exists(s, name) {
        RefusalIs(Noted(s, id), luck, id, LobbyRefused);
      } else {
        OpenerIs(Noted(s, id), luck, id, name.value, verifier);
      }
    }
  }

  /** The client has asked, in full and from no lobby, for this one, and given its verifier. */
  ghost predicate Admitted(s: Server, id: ConnectionId, name: Option<string>, complete: bool, verifier: nat, ref: LobbyRef)
  {
    id in s.conns && s.conns[id].lobby.None? && complete && Called(s, ref, name) && s.lobbies[ref].verifier == verifier
  }

  /**
   A client that asks to join is let in exactly with the verifier of the lobby it names; with another one it
   hears that it is refused and is closing; where there is no such lobby it is refused and may go on.
   */
  lemma {:induction false} JoinAnswered(s: Server, luck: Luck, id: ConnectionId, name: Option<string>, complete: bool, verifier: nat)
    requires Inv(s) && Linked(s) && id in s.conns && s.conns[id].Live()
    ensures var t := HandleFrame(s, luck, id, Join(name, complete, verifier));
            && (forall ref: LobbyRef :: Admitted(s, id, name, complete, verifier, ref) ==> Joins(s, luck, id, ref, t))
            && ((forall ref: LobbyRef :: !Admitted(s, id, name, complete, verifier, ref)) ==>
                  if s.conns[id].lobby.Some? || name.None? || !complete then OnlyHears(s, luck, id, Goodbye, true, t)
                  else OnlyHears(s, luck, id, LobbyRefused, Exists(s, name), t))
  {
    var frame := Join(name, complete, verifier);
    hide InvBut, Linked, SendTo, SendGoodbye, Find, HandleFrame, Hears, EnterLobby, Enters, Put, Refuse, Exists, OnlyHears, Joins;
    NotedKeeps(s, id);
    FrameIsRequest(s, luck, id, frame);
    if s.conns[id].lobby.Some? || name.None? || !complete {
      BadRequest(s, luck, id, frame);
    } else {
      NotedSame(s, id, name);
      var found := FoundIsCalled(Noted(s, id), name.value);
      RefusalIs(Noted(s, id), luck, id, LobbyRefused);
      var t := HandleRequest(s, luck, id, frame);
      NotedAnswer(s, luck, id, LobbyRefused, found.Some?, found.GetOr(0), t);
      if found.None? {
        RefuseIs(Noted(s, id), luck, id);
      } else if verifier == s.lobbies[found.value].verifier {
        assert Admitted(s, id, name, complete, verifier, found.value);
        JoinerIs(Noted(s, id), luck, found.value, id);
      } else {
        assert Exists(s, name);
      }
    }
  }

  lemma {:induction false} NotedAnswer(s: Server, luck: Luck, id: ConnectionId, message: Message, closing: bool, ref: LobbyRef, t: Server)
    ensures OnlyHears(Noted(s, id), luck, id, message, closing, t) ==> OnlyHears(s, luck, id, message, closing, t)
    ensures Joins(Noted(s, id), luck, id, ref, t) ==> Joins(s, luck, id, ref, t)
  {
    hide Hears, Enters;
  }

  lemma {:induction false} RefuseIs(s: Server, luck: Luck, id: ConnectionId)
    requires Linked(s) && id in s.conns
    ensures Refuse(s, luck, id) == SendTo(s, luck, id, LobbyRefused)
  {
    hide SendTo, Linked;
  }

  // ---------------------------------------------------------------- messages to members

  /** Exactly the connections of the set hear a relayed message; nothing else changes. */
  ghost predicate AllHear(s: Server, luck: Luck, ids: set<ConnectionId>, t: Server)
  {
    && t == s.(conns := t.conns) && t.conns.Keys == s.conns.Keys
    && forall c <- s.conns :: if c in ids then Hears(luck, c, s.conns[c], t.conns[c], Relayed) else t.conns[c] == s.conns[c]
  }

  lemma {:induction false} BroadcastHeard(s: Server, luck: Luck, ids: set<ConnectionId>)
    requires Linked(s)
    ensures AllHear(s, luck, ids, Broadcast(s, luck, ids, Relayed))
  {
    hide Linked;
  }

  /** The members of the sender's lobby that a message is for: all but the sender, or those of one identifier. */
  ghost function Audience(s: Server, id: ConnectionId, frame: Frame): set<ConnectionId>
    requires id in s.conns
  {
    set c <- s.conns | s.conns[c].lobby == s.conns[id].lobby && (if frame.LobbySendTo? then s.conns[c].peer.id == frame.recipient else c != id)
  }

  /** A message to the lobby or to one member reaches its audience and nobody else; from outside, or broken, it ends the connection. */
  lemma {:induction false} SendAnswered(s: Server, luck: Luck, id: ConnectionId, frame: Frame)
    requires Linked(s) && id in s.conns && s.conns[id].Live() && (frame.LobbySend? || frame.LobbySendTo?)
    ensures var t := HandleFrame(s, luck, id, frame);
            if s.conns[id].lobby.None? || !frame.valid then OnlyHears(s, luck, id, Goodbye, true, t)
            else AllHear(s, luck, Audience(s, id, frame), t)
  {
    RefusalIs(s, luck, id, Goodbye);
    if s.conns[id].lobby.Some? {
      assert Recipients(s, id, frame) == Audience(s, id, frame);
      BroadcastHeard(s, luck, Audience(s, id, frame));
    }
    hide Linked, Broadcast, SendGoodbye, Recipients, Hears;
  }

  /** A message to the host is logged under the sender's lobby, and nobody hears of it. */
  lemma {:induction false} HostMessageAnswered(s: Server, luck: Luck, id: ConnectionId, valid: bool)
    requires Linked(s) && id in s.conns && s.conns[id].Live()
    ensures var t := HandleFrame(s, luck, id, ServerSend(valid));
            if s.conns[id].lobby.None? || !valid then OnlyHears(s, luck, id, Goodbye, true, t)
            else t == s.(events := s.events + [Delivered(s.conns[id].lobby.value % 0x1_0000_0000)])
  {
    RefusalIs(s, luck, id, Goodbye);
    hide Linked, SendGoodbye, Hears;
  }

  /** Other messages from a ready client end its connection; so do bytes that do not authenticate, without a word. */
  lemma {:induction false} NonsenseAnswered(s: Server, luck: Luck, id: ConnectionId, frame: Frame)
    requires Linked(s) && id in s.conns && s.conns[id].Live()
    ensures frame.Unknown? || frame.Identity? || frame.ClientHello? ==> OnlyHears(s, luck, id, Goodbye, true, HandleFrame(s, luck, id, frame))
    ensures frame.Garbled? ==> HandleFrame(s, luck, id, frame) == s.(conns := s.conns[id := s.conns[id].(dead := true)])
  {
    RefusalIs(s, luck, id, Goodbye);
    hide Linked, SendGoodbye, Hears;
  }

  /** A dead or closing connection is not listened to. */
  lemma {:induction false} DeafAnswered(s: Server, luck: Luck, id: ConnectionId, frame: Frame)
    requires Linked(s) && id in s.conns && (s.conns[id].dead || s.conns[id].closing)
    ensures HandleFrame(s, luck, id, frame) == s && Act(s, luck, Datagram(id, frame)) == s
  {
    hide Linked;
  }

  /** Over UDP a live member's messages to the host are logged, a broken message ends the connection, and no client is queued anything. */
  lemma {:induction false} DatagramAnswered(s: Server, luck: Luck, id: ConnectionId, frame: Frame)
    requires Linked(s) && id in s.conns && s.conns[id].Live()
    ensures var t := Act(s, luck, Datagram(id, frame));
            if s.conns[id].lobby.None? || !(frame.LobbySend? || frame.LobbySendTo? || frame.ServerSend?) then t == s
            else if !frame.valid then OnlyHears(s, luck, id, Goodbye, true, t)
            else if frame.ServerSend? then t == s.(events := s.events + [Delivered(s.conns[id].lobby.value % 0x1_0000_0000)])
            else t == s
  {
    RefusalIs(s, luck, id, Goodbye);
    hide Linked, SendGoodbye, Hears;
  }

  /** A message of the host goes to the members it selects of the first listed lobby with that number. */
  lemma {:induction false} OutgoingAnswered(s: Server, luck: Luck, lobby: u32, to: set<MemberId>)
    requires Linked(s)
    ensures var t := Act(s, luck, SendOutgoing(lobby, to));
            match LobbyOf(s.listing, lobby)
            case None => t == s
            case Some(ref) => AllHear(s, luck, (set c <- s.conns | s.conns[c].lobby == Some(ref) && s.conns[c].peer.id in to), t)
  {
    if LobbyOf(s.listing, lobby).Some? {
      var ref := LobbyOf(s.listing, lobby).value;
      var ids := set c <- s.conns | s.conns[c].lobby == Some(ref) && s.conns[c].peer.id in to;
      assert (set m <- s.lobbies[ref].members | s.conns[m].peer.id in to :: m) == ids;
      BroadcastHeard(s, luck, ids);
    }
    hide Broadcast, Hears, Linked;
  }

  // ---------------------------------------------------------------- connections come and go

  /** The first message of a stream is the hello; whatever it is, the next is taken for an identity, unless the hello was refused. */
  lemma {:induction false} HelloAnswered(s: Server, luck: Luck, id: ConnectionId, frame: Frame)
    requires Linked(s) && id in s.conns && s.conns[id].stage.HelloStage? && !s.conns[id].dead && !s.conns[id].closing
    ensures HandleFrame(s, luck, id, frame) ==
            s.(conns := s.conns[id := s.conns[id].(stage := IdentityStage, dead := !frame.ClientHello? || !frame.accepted)])
  {
    hide Linked;
  }

  /** A new connection is in no lobby, unproven, and last in the table, which holds at most 1024. */
  lemma {:induction false} AcceptAnswered(s: Server, luck: Luck, id: ConnectionId)
    requires Linked(s)
    ensures var t := Act(s, luck, Accept(id));
            if id in s.conns || |s.order| >= 1024 then t == s
            else t == s.(order := s.order + [id], conns := t.conns) && t.conns == s.conns[id := t.conns[id]]
                 && t.conns[id].stage.HelloStage? && t.conns[id].lobby.None? && t.conns[id].sent == [] && !t.conns[id].dead && !t.conns[id].closing
  {
    hide Linked;
  }

  /** What departures do to a connection that is not sent away: it hears of them, and may die of a failed send. */
  ghost predicate Stays(luck: Luck, id: ConnectionId, was: Connection, now: Connection)
  {
    && now == was.(sent := now.sent, dead := now.dead) && was.sent <= now.sent
    && (forall k :: |was.sent| <= k < |now.sent| ==> now.sent[k].MemberLeft?)
    && (was.dead ==> now == was) && (now.dead && !was.dead ==> exists n: nat :: !luck(id, n))
  }

  lemma {:induction false} StaysOn(luck: Luck, id: ConnectionId, a: Connection, b: Connection, c: Connection)
    requires Stays(luck, id, a, b) && Stays(luck, id, b, c)
    ensures Stays(luck, id, a, c)
  {
    forall k | |a.sent| <= k < |c.sent| ensures c.sent[k].MemberLeft? {
      if k < |b.sent| { assert c.sent[k] == b.sent[k]; }
    }
  }

  lemma {:induction false} LeaverIs(s: Server, luck: Luck, id: ConnectionId, c: ConnectionId)
    requires Linked(s) && id in s.conns && c in s.conns
    ensures var t := LeaveLobby(s, luck, id);
            && t.conns[id] == s.conns[id].(lobby := None)
            && (c != id ==> Stays(luck, c, s.conns[c], t.conns[c]))
  {
    if s.conns[id].lobby.Some? {
      LeaveLobbyIs(s, luck, id);
      hide LeaveLobby, Linked, LobbiesAfter, EventsAfter, Without;
    }
  }

  /** Exactly the dead are gone; or else a connection died of a failed send while others left. The rest stay. */
  ghost predicate Remain(luck: Luck, was: Connections, now: Connections)
  {
    && now.Keys <= was.Keys
    && (forall c <- now :: Stays(luck, c, was[c], now[c]))
    && forall c <- was :: c !in now ==> was[c].dead || exists n: nat :: !luck(c, n)
  }

  lemma {:induction false} RemainOn(luck: Luck, a: Connections, b: Connections, c: Connections)
    requires Remain(luck, a, b) && Remain(luck, b, c)
    ensures Remain(luck, a, c)
  {
    hide Stays;
    forall x <- c ensures Stays(luck, x, a[x], c[x]) { StaysOn(luck, x, a[x], b[x], c[x]); }
    forall x <- a | x !in c ensures a[x].dead || exists n: nat :: !luck(x, n) {
      if x in b {
        assert b[x].dead || exists n: nat :: !luck(x, n);
        if b[x].dead && !a[x].dead { DiedOfASend(luck, x, a[x], b[x]); }
      }
    }
  }

  lemma {:induction false} DiedOfASend(luck: Luck, id: ConnectionId, was: Connection, now: Connection)
    requires Stays(luck, id, was, now) && now.dead && !was.dead
    ensures exists n: nat :: !luck(id, n)
  {}

  lemma {:induction false} ClosingRemain(s: Server, luck: Luck, n: nat)
    requires Linked(s) && n <= |s.order|
    ensures Remain(luck, s.conns, CloseDead(s, luck, n).conns)
    decreases n
  {
    hide Remain, Linked;
    if n == 0 {
      assert Remain(luck, s.conns, s.conns) by { AllRemain(luck, s.conns); }
    } else {
      assert s.order[n - 1] in s.conns by { TableListed(s, n - 1); }
      if s.conns[s.order[n - 1]].dead {
        ClosedRemain(s, luck, n - 1);
        var closed := CloseConnection(s, luck, n - 1);
        ClosingRemain(closed, luck, n - 1);
        RemainOn(luck, s.conns, closed.conns, CloseDead(closed, luck, n - 1).conns);
      } else {
        ClosingRemain(s, luck, n - 1);
      }
    }
  }

  lemma {:induction false} TableListed(s: Server, k: nat)
    requires Linked(s) && k < |s.order|
    ensures s.order[k] in s.conns
  {}

  lemma {:induction false} AllRemain(luck: Luck, conns: Connections)
    ensures Remain(luck, conns, conns)
  {}

  lemma {:induction false} ClosedRemain(s: Server, luck: Luck, index: nat)
    requires Linked(s) && index < |s.order| && s.order[index] in s.conns && s.conns[s.order[index]].dead
    ensures Remain(luck, s.conns, CloseConnection(s, luck, index).conns)
  {
    var id := s.order[index];
    var left := LeaveLobby(s, luck, id);
    forall c <- s.conns | c != id ensures Stays(luck, c, s.conns[c], left.conns[c]) { LeaverIs(s, luck, id, c); }
    hide LeaveLobby, Linked, Stays;
    assert CloseConnection(s, luck, index).conns == left.conns - {id};
  }

  /** The end of a round closes every dead connection and no other, but for those that die while it does. */
  lemma {:induction false} RoundEnds(s: Server, luck: Luck)
    requires Inv(s) && Linked(s)
    ensures var t := Act(s, luck, EndRound);
            Remain(luck, s.conns, t.conns) && forall c <- s.conns :: s.conns[c].dead ==> c !in t.conns
  {
    ClosingRemain(s, luck, |s.order|);
    var doomed := set c <- s.conns | s.conns[c].dead;
    hide InvBut, Remain, CloseDead, Linked;
    CloseDeadKeeps(s, luck, doomed, |s.order|);
  }

  // ---------------------------------------------------------------- proofs of identity

  /** A connection that the arriving client displaces. */
  predicate Namesake(c: Connection, member: MemberId)
  {
    c.stage.Ready? && !c.dead && c.peer.id == member
  }

  /** Everybody but the namesakes stays, and so does the arriving connection itself. */
  ghost predicate OthersStay(luck: Luck, was: Connections, now: Connections, id: ConnectionId, member: MemberId)
  {
    && now.Keys == was.Keys
    && forall c <- was :: c == id || !Namesake(was[c], member) ==> Stays(luck, c, was[c], now[c])
  }

  lemma {:induction false} EvictionSpares(s: Server, luck: Luck, id: ConnectionId, member: MemberId, n: nat)
    requires Linked(s) && n <= |s.order|
    ensures OthersStay(luck, s.conns, EvictAll(s, luck, id, member, n).conns, id, member)
  {
    hide Linked, Evict, Stays;
    if n == 0 {
      forall c <- s.conns ensures Stays(luck, c, s.conns[c], s.conns[c]) { StaysSame(luck, c, s.conns[c]); }
    } else {
      EvictionSpares(s, luck, id, member, n - 1);
      var t := EvictAll(s, luck, id, member, n - 1);
      TableListed(s, n - 1);
      var other := s.order[n - 1];
      if other != id && Evicts(t.conns[other], member) {
        forall c <- s.conns | c == id || !Namesake(s.conns[c], member)
          ensures Stays(luck, c, s.conns[c], Evict(t, luck, other).conns[c])
        {
          if c == other { StaysRival(luck, c, s.conns[c], t.conns[c], member); }
          EvictedSpares(t, luck, other, c);
          StaysOn(luck, c, s.conns[c], t.conns[c], Evict(t, luck, other).conns[c]);
        }
      }
    }
  }

  lemma {:induction false} StaysSame(luck: Luck, id: ConnectionId, c: Connection)
    ensures Stays(luck, id, c, c)
  {}

  lemma {:induction false} StaysRival(luck: Luck, id: ConnectionId, was: Connection, now: Connection, member: MemberId)
    requires Stays(luck, id, was, now) && Evicts(now, member)
    ensures Namesake(was, member)
  {}

  lemma {:induction false} EvictedSpares(s: Server, luck: Luck, other: ConnectionId, c: ConnectionId)
    requires Linked(s) && other in s.conns && c in s.conns && c != other
    ensures Stays(luck, c, s.conns[c], Evict(s, luck, other).conns[c])
  {
    var told := SendGoodbye(s, luck, other);
    assert told.conns[c] == s.conns[c] by { hide Linked; }
    hide SendGoodbye, LeaveLobby, Linked, Stays;
    LeaverIs(told, luck, other, c);
  }

  /** The proof holds and no live connection has the key. */
  ghost predicate Proven(s: Server, id: ConnectionId, hello: Hello)
  {
    hello.parsed && hello.proven && forall o <- s.conns :: o != id && s.conns[o].Live() ==> s.conns[o].peer.key != hello.peer.key
  }

  lemma {:induction false} KeyIsFree(s: Server, id: ConnectionId, key: Key)
    requires Inv(s) && Linked(s)
    ensures KeyInUse(s, id, key) <==> exists o <- s.conns :: o != id && s.conns[o].Live() && s.conns[o].peer.key == key
  {
    InvListed(s);
    hide InvBut, Mutual;
  }

  lemma {:induction false} ProvenIs(s: Server, luck: Luck, id: ConnectionId, hello: Hello)
    requires Inv(s) && Linked(s) && id in s.conns && s.conns[id].stage.IdentityStage? && !s.conns[id].dead && !s.conns[id].closing
    ensures var t := HandleFrame(s, luck, id, Identity(hello));
            if !Proven(s, id, hello) then OnlyHears(s, luck, id, Goodbye, true, t)
            else !KeyInUse(s, id, hello.peer.key)
                 && t == SendTo(MakeReady(Evicted(s, luck, id, hello.peer), id), luck, id, Welcome(hello.peer.id))
  {
    KeyIsFree(s, id, hello.peer.key);
    hide InvBut, KeyInUse, MakeReady, EvictAll, SendTo, Linked;
    assert Proven(s, id, hello) <==> hello.parsed && hello.proven && !KeyInUse(s, id, hello.peer.key);
    if !Proven(s, id, hello) { DismissalIs(s, luck, id); }
  }

  lemma {:induction false} DismissalIs(s: Server, luck: Luck, id: ConnectionId)
    requires Linked(s) && id in s.conns && !s.conns[id].closing
    ensures OnlyHears(s, luck, id, Goodbye, true, SendGoodbye(s, luck, id))
  {
    hide Linked;
  }

  /** A displaced connection is dead, or is closing and in no lobby; it is nobody else, and nowhere else. */
  ghost predicate Displaces(was: Connection, now: Connection)
  {
    && (now.dead || (now.closing && now.lobby.None?))
    && now.stage == was.stage && now.peer == was.peer && (now.lobby == was.lobby || now.lobby.None?)
  }

  /** The displaced, in the state in which the arriving client is welcomed. */
  lemma {:induction false} NamesakesGone(s: Server, luck: Luck, id: ConnectionId, peer: Peer)
    requires Inv(s) && Linked(s) && id in s.conns && s.conns[id].stage.IdentityStage? && !KeyInUse(s, id, peer.key)
    ensures var t := Evicted(s, luck, id, peer);
            && t.conns[id] == s.conns[id].(peer := peer) && t.conns.Keys == s.conns.Keys
            && forall o <- s.conns :: o != id ==>
                 if Namesake(s.conns[o], peer.id) then Displaces(s.conns[o], t.conns[o])
                 else Stays(luck, o, s.conns[o], t.conns[o])
  {
    var known := Put(s, id, s.conns[id].(peer := peer));
    KnownKeeps(s, id, peer);
    EvictedKeeps(s, luck, id, peer);
    hide InvBut, EvictAll, KeyInUse, Linked, Stays, EvictedFirst;
    EvictAllKeeps(known, luck, id, peer.id, |s.order|);
    EvictionSpares(known, luck, id, peer.id, |s.order|);
  }

  lemma {:induction false} WelcomedIs(s: Server, luck: Luck, id: ConnectionId)
    requires Linked(s) && id in s.conns && !s.conns[id].dead && !s.conns[id].closing
    ensures var c, t := s.conns[id], SendTo(MakeReady(s, id), luck, id, Welcome(s.conns[id].peer.id));
            && t.conns == s.conns[id := t.conns[id]]
            && Hears(luck, id, c.(stage := Ready), t.conns[id], Welcome(c.peer.id))
  {
    hide Linked;
  }

  /** The client is ready and hears so; its namesakes are displaced, and all others stay. */
  ghost predicate Welcomed(s: Server, luck: Luck, id: ConnectionId, peer: Peer, t: Server)
  {
    && id in s.conns && t.conns.Keys == s.conns.Keys
    && Hears(luck, id, s.conns[id].(stage := Ready, peer := peer), t.conns[id], Welcome(peer.id))
    && forall o <- s.conns :: o != id ==>
         if Namesake(s.conns[o], peer.id) then Displaces(s.conns[o], t.conns[o]) else Stays(luck, o, s.conns[o], t.conns[o])
  }

  /**
   A client becomes ready exactly with a proof that holds and a key that no live connection has: it is the one
   it proved to be, in no lobby, and hears `Welcome`. Its namesakes are dead, or closing and in no lobby; all
   others stay where they are.
   */
  lemma {:induction false} IdentityAnswered(s: Server, luck: Luck, id: ConnectionId, hello: Hello)
    requires Inv(s) && Linked(s) && id in s.conns && s.conns[id].stage.IdentityStage? && !s.conns[id].dead && !s.conns[id].closing
    ensures var t := HandleFrame(s, luck, id, Identity(hello));
            if Proven(s, id, hello) then Welcomed(s, luck, id, hello.peer, t) else OnlyHears(s, luck, id, Goodbye, true, t)
  {
    hide HandleFrame, InvBut, KeyInUse, Linked, Evicted, MakeReady, SendTo, Stays, OnlyHears, Hears, Proven, Displaces, Namesake;
    ProvenIs(s, luck, id, hello);
    if Proven(s, id, hello) {
      NamesakesGone(s, luck, id, hello.peer);
      WelcomedIs(Evicted(s, luck, id, hello.peer), luck, id);
    }
  }

  /** Before its identity is proven, a client that sends anything else is sent away, or dropped if it does not authenticate. */
  lemma {:induction false} EarlyAnswered(s: Server, luck: Luck, id: ConnectionId, frame: Frame)
    requires Linked(s) && id in s.conns && s.conns[id].stage.IdentityStage? && !s.conns[id].dead && !s.conns[id].closing && !frame.Identity?
    ensures var t := HandleFrame(s, luck, id, frame);
            if frame.Garbled? then t == s.(conns := s.conns[id := s.conns[id].(dead := true)])
            else OnlyHears(s, luck, id, Goodbye, true, t)
  {
    DismissalIs(s, luck, id);
    hide SendGoodbye, Hears, Linked;
  }
}
