/** The handlers of single messages keep the invariant of the lobby server. */
module LobbyServerHandlers {
  import opened Machine
  import opened Options
  import opened LobbyMembers
  import opened LobbyServer
  import opened LobbyServerInvariant
  import opened LobbyServerSteps

  // ---------------------------------------------------------------- messages that change no list

  /** The connection's client keeps its list when it is sent this. */
  ghost predicate Neutral(c: Connection, message: Message)
  {
    c.Live() ==> Handle(c.peer, Fold(c.peer, c.sent), message) == Fold(c.peer, c.sent)
  }

  lemma {:induction false} SentCalm(luck: Luck, id: ConnectionId, c: Connection, message: Message)
    ensures Calm(c, Sent(luck, id, c, message))
    ensures c.stage.Ready? && Neutral(c, message) ==> Quiet(c, Sent(luck, id, c, message))
  {
    hide Fold, Handle;
    FoldNext(c.peer, c.sent, message);
  }

  lemma {:induction false} PutKeeps(s: Server, id: ConnectionId, c: Connection, opening: LobbyRef)
    requires InvBut(s, opening) && id in s.conns && Calm(s.conns[id], c) && (Kept(s.past) ==> Quiet(s.conns[id], c))
    ensures InvBut(Put(s, id, c), opening)
  {
    assert Linked(s);
    hide InvBut, Fold, Linked;
    assert AllCalm(s.conns, s.conns[id := c]);
    QuietKeeps(s, s.conns[id := c], opening);
  }

  lemma {:induction false} SendToKeeps(s: Server, luck: Luck, id: ConnectionId, message: Message)
    requires Inv(s) && id in s.conns && s.conns[id].stage.Ready? && (Kept(s.past) ==> Neutral(s.conns[id], message))
    ensures Inv(SendTo(s, luck, id, message))
  {
    hide InvBut, Sent, Calm, Quiet;
    SentCalm(luck, id, s.conns[id], message);
    PutKeeps(s, id, Sent(luck, id, s.conns[id], message), 0);
  }

  lemma {:induction false} LiveFold(s: Server, id: ConnectionId)
    requires Inv(s) && Kept(s.past) && id in s.conns
    ensures s.conns[id].Live() && s.conns[id].lobby.None? ==> Fold(s.conns[id].peer, s.conns[id].sent) == Waiting
    ensures s.conns[id].Live() && s.conns[id].lobby.Some? ==> Fold(s.conns[id].peer, s.conns[id].sent).Joined?
    ensures !s.conns[id].stage.Ready? && !s.conns[id].dead && !s.conns[id].closing ==> s.conns[id].sent == []
  {
    hide Fold;
    assert InStep(s.conns[id], id, s.conns, s.lobbies);
  }

  lemma {:induction false} AnswerKeeps(s: Server, luck: Luck, id: ConnectionId, message: Message)
    requires Inv(s) && id in s.conns && s.conns[id].Live() && s.conns[id].lobby.None?
    requires message.LobbyInfo? || message.LobbyRefused? || message == Welcome(s.conns[id].peer.id)
    ensures Inv(SendTo(s, luck, id, message))
  {
    if Kept(s.past) { LiveFold(s, id); }
    hide Fold, Inv;
    SendToKeeps(s, luck, id, message);
  }

  lemma {:induction false} GoodbyeKeeps(s: Server, luck: Luck, id: ConnectionId)
    requires Inv(s) && id in s.conns
    ensures Inv(SendGoodbye(s, luck, id))
  {
    hide InvBut;
    PutKeeps(s, id, Sent(luck, id, s.conns[id], Goodbye).(closing := true), 0);
  }

  lemma {:induction false} KillKeeps(s: Server, id: ConnectionId)
    requires Inv(s) && id in s.conns
    ensures Inv(Kill(s, id))
  {
    hide InvBut;
    PutKeeps(s, id, s.conns[id].(dead := true), 0);
  }

  /** Relayed messages go to members of lobbies, whose clients expect them. */
  lemma {:induction false} RelayKeeps(s: Server, luck: Luck, ids: set<ConnectionId>)
    requires Inv(s) && forall m <- ids :: m in s.conns && s.conns[m].lobby.Some?
    ensures Inv(Broadcast(s, luck, ids, Relayed))
  {
    var now := Told(s.conns, luck, ids, Relayed);
    forall c <- s.conns ensures Calm(s.conns[c], now[c]) && (Kept(s.past) ==> Quiet(s.conns[c], now[c])) {
      RelayedTo(s, luck, ids, c);
    }
    assert Linked(s);
    hide InvBut, Quiet, Calm, Linked;
    QuietKeeps(s, now, 0);
  }

  lemma {:induction false} RelayedTo(s: Server, luck: Luck, ids: set<ConnectionId>, c: ConnectionId)
    requires Inv(s) && (forall m <- ids :: m in s.conns && s.conns[m].lobby.Some?) && c in s.conns
    ensures Calm(s.conns[c], Told(s.conns, luck, ids, Relayed)[c])
    ensures Kept(s.past) ==> Quiet(s.conns[c], Told(s.conns, luck, ids, Relayed)[c])
  {
    hide InvBut, Sent, Calm, Quiet, Neutral;
    SentCalm(luck, c, s.conns[c], Relayed);
    Unsent(s.conns[c]);
    if c in ids { RelayNeutral(s, c); }
  }

  lemma {:induction false} InvListed(s: Server)
    requires Inv(s)
    ensures Listed(s)
  {
    hide Linked, Listed, Furnished, Unique, Logged, Replicated;
  }

  lemma {:induction false} RelayNeutral(s: Server, c: ConnectionId)
    requires Inv(s) && c in s.conns && s.conns[c].lobby.Some?
    ensures s.conns[c].stage.Ready? && (Kept(s.past) ==> Neutral(s.conns[c], Relayed))
  {
    hide InvBut, Fold, AddPeer, AddPeers, DropPeers, Listed, Mutual;
    InvListed(s);
    LobbiedReady(s);
    if Kept(s.past) { LiveFold(s, c); }
  }

  lemma {:induction false} Unsent(c: Connection)
    ensures Calm(c, c) && Quiet(c, c)
  {}

  // ---------------------------------------------------------------- lobby requests

  /** Forgetting a promise about the past keeps the rest. */
  lemma {:induction false} LessPatient(s: Server, past: Past)
    requires Inv(s) && past.newcomers == s.past.newcomers && past.keys == s.past.keys && (Kept(past) ==> Kept(s.past))
    ensures Inv(s.(past := past))
  {
    hide Fold, Mutual, AllInStep, Displaced, LobbiedDistinct, KeysDistinct, Matches;
  }

  lemma {:induction false} DeliveredKeeps(s: Server, lobby: u32)
    requires Inv(s)
    ensures Inv(s.(events := s.events + [Delivered(lobby)]))
  {
    hide Fold, Mutual, AllInStep, Displaced, LobbiedDistinct, KeysDistinct, Matches;
    ReplayNext(s.events, Delivered(lobby));
  }

  lemma {:induction false} OpenKeeps(s: Server, name: string, verifier: nat)
    requires Inv(s) && forall ref <- s.lobbies :: s.lobbies[ref].name != name
    ensures InvBut(OpenLobby(s, name, verifier), s.created + 1)
  {
    var t := OpenLobby(s, name, verifier);
    assert s.created + 1 !in s.lobbies;
    OpenLogged(s, name, verifier);
    if Kept(s.past) { OpenInStep(s, name, verifier); }
    hide Fold, Mutual, AllInStep, Displaced, LobbiedDistinct, KeysDistinct, Matches, Logged;
  }

  lemma {:induction false} OpenLogged(s: Server, name: string, verifier: nat)
    requires Linked(s) && Logged(s)
    ensures Logged(OpenLobby(s, name, verifier))
  {
    var ref := s.created + 1;
    if ref < TWO_32 {
      var event := Opened(LobbyId(ref), name);
      ReplayNext(s.events, event);
      OpenedIs(Replay(s.events), ref, name);
      assert ref !in s.lobbies;
      hide Mutual, Replay, Observe, LobbyId;
      OpenMatches(Replay(s.events), s.conns, s.lobbies, ref, name, verifier);
    }
  }

  lemma {:induction false} OpenedIs(rooms: map<int, Room>, ref: LobbyRef, name: string)
    requires ref < TWO_32
    ensures Observe(rooms, Opened(LobbyId(ref), name)) == rooms[ref := Room(name, multiset{})]
  {}

  lemma {:induction false} OpenMatches(rooms: map<int, Room>, conns: Connections, lobbies: Lobbies, ref: LobbyRef, name: string, verifier: nat)
    requires (forall r <- lobbies :: forall m <- lobbies[r].members :: m in conns) && ref !in lobbies && Matches(rooms, conns, lobbies)
    ensures Matches(rooms[ref := Room(name, multiset{})], conns, lobbies[ref := Lobby(name, verifier, [])])
  {
    assert MembersOf(conns, []) == [];
    hide MembersOf;
  }

  lemma {:induction false} OpenInStep(s: Server, name: string, verifier: nat)
    requires Linked(s) && AllInStep(s.conns, s.lobbies)
    ensures AllInStep(s.conns, OpenLobby(s, name, verifier).lobbies)
  {
    hide Fold;
    assert s.created + 1 !in s.lobbies;
    hide Numbered;
    forall c <- s.conns ensures InStep(s.conns[c], c, s.conns, OpenLobby(s, name, verifier).lobbies) {
      assert InStep(s.conns[c], c, s.conns, s.lobbies);
    }
  }

  lemma {:induction false} CreateKeeps(s: Server, luck: Luck, id: ConnectionId, name: string, verifier: nat)
    requires Inv(s) && id in s.conns && s.conns[id].Live() && s.conns[id].lobby.None?
    requires Kept(s.past) ==> id !in s.past.newcomers
    requires forall ref <- s.lobbies :: s.lobbies[ref].name != name
    ensures Inv(EnterLobby(OpenLobby(s, name, verifier), luck, s.created + 1, id))
  {
    OpenKeeps(s, name, verifier);
    hide InvBut, LobbyId;
    EnterKeeps(OpenLobby(s, name, verifier), luck, s.created + 1, id);
  }

  lemma {:induction false} JoinKeeps(s: Server, luck: Luck, id: ConnectionId, ref: LobbyRef)
    requires Inv(s) && id in s.conns && s.conns[id].Live() && s.conns[id].lobby.None?
    requires Kept(s.past) ==> id !in s.past.newcomers
    requires ref in s.lobbies
    ensures Inv(EnterLobby(s, luck, ref, id))
  {
    assert InvBut(s, ref);
    hide InvBut;
    EnterKeeps(s, luck, ref, id);
  }

  lemma {:induction false} RefusedForGood(s: Server, luck: Luck, id: ConnectionId)
    requires Inv(s) && id in s.conns && s.conns[id].Live() && s.conns[id].lobby.None?
    ensures Inv(Put(Refuse(s, luck, id), id, Refuse(s, luck, id).conns[id].(closing := true)))
  {
    AnswerKeeps(s, luck, id, LobbyRefused);
    var refused := Refuse(s, luck, id);
    hide InvBut;
    PutKeeps(refused, id, refused.conns[id].(closing := true), 0);
  }

  lemma {:induction false} RequestKeeps(s: Server, luck: Luck, id: ConnectionId, frame: Frame)
    requires Inv(s) && id in s.conns && s.conns[id].Live() && (frame.Query? || frame.Create? || frame.Join?)
    ensures Inv(HandleRequest(s, luck, id, frame))
  {
    hide InvBut, Fold, LobbyId, EnterLobby, Sent, Find, Mutual, SendTo, SendGoodbye;
    var past := s.past.(patient := s.past.patient && id !in s.past.newcomers);
    LessPatient(s, past);
    var s := s.(past := past);
    if s.conns[id].lobby.Some? || frame.name.None? {
      GoodbyeKeeps(s, luck, id);
    } else {
      var found := FindIn(s, frame.name.value);
      match frame
      case Query(_) => AnswerKeeps(s, luck, id, LobbyInfo(found.Some?));
      case Create(name, complete, verifier) =>
        if !complete {
          GoodbyeKeeps(s, luck, id);
        } else if found.Some? {
          AnswerKeeps(s, luck, id, LobbyRefused);
        } else {
          CreateKeeps(s, luck, id, name.value, verifier);
        }
      case Join(_, complete, verifier) =>
        if !complete {
          GoodbyeKeeps(s, luck, id);
        } else if found.None? {
          AnswerKeeps(s, luck, id, LobbyRefused);
        } else if verifier == s.lobbies[found.value].verifier {
          JoinKeeps(s, luck, id, found.value);
        } else {
          RefusedForGood(s, luck, id);
        }
    }
  }

  /** `Find_Lobby` misses a name only when no lobby has it. */
  lemma {:induction false} FindIn(s: Server, name: string) returns (found: Option<LobbyRef>)
    requires Inv(s)
    ensures Linked(s) && found == Find(s, s.listing, name)
    ensures found.None? ==> forall ref <- s.lobbies :: s.lobbies[ref].name != name
    ensures found.Some? ==> found.value in s.lobbies
  {
    hide Fold, Mutual, AllInStep, Displaced, LobbiedDistinct, KeysDistinct, Matches;
    found := Find(s, s.listing, name);
  }

  lemma {:induction false} ReadyKeeps(s: Server, luck: Luck, id: ConnectionId, frame: Frame, udp: bool)
    requires Inv(s) && id in s.conns && s.conns[id].Live()
    ensures Inv(HandleReady(s, luck, id, frame, udp))
  {
    if frame.LobbySend? || frame.LobbySendTo? || frame.ServerSend? {
      if s.conns[id].lobby.None? || !frame.valid {
        GoodbyeKeeps(s, luck, id);
      } else if frame.ServerSend? {
        DeliveredKeeps(s, LobbyId(s.conns[id].lobby.value));
      } else if !udp {
        RelayKeeps(s, luck, Recipients(s, id, frame));
      }
    } else if udp {
    } else if frame.Query? || frame.Create? || frame.Join? {
      RequestKeeps(s, luck, id, frame);
    } else {
      GoodbyeKeeps(s, luck, id);
    }
  }
}
