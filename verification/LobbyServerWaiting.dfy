/**
 The promises of the lobby's replicas in terms of what clients do: `Main` goes through its rounds, every
 client makes a new signing key, and, as `Connect` does, asks for a lobby only after it has read `Welcome`.
 */
module LobbyServerWaiting {
  import opened Options
  import opened LobbyMembers
  import opened LobbyServer
  import opened LobbyServerInvariant
  import opened LobbyServerSteps
  import opened LobbyServerHandlers
  import opened LobbyServerArrivals
  import opened LobbyServerRuns

  // ---------------------------------------------------------------- the rounds of Main

  /** Where `Main` is in its round; `Accepting` begins when the dead connections are gone. */
  datatype Phase = Outgoing | Receiving | Datagrams | Flushing | Accepting

  /** The phase after an action, if the action can happen in this phase; phases may be passed over. */
  function Next(phase: Phase, action: Action): Option<Phase>
  {
    match action
    case SendOutgoing(_, _) => if phase.Outgoing? || phase.Accepting? then Some(Outgoing) else None
    case Receive(_, _) => if phase.Datagrams? || phase.Flushing? then None else Some(Receiving)
    case Datagram(_, _) => if phase.Flushing? then None else Some(Datagrams)
    case Fail(_) => if phase.Datagrams? || phase.Flushing? then Some(Flushing) else Some(Receiving)
    case Flush(_, _) => Some(Flushing)
    case EndRound => Some(Accepting)
    case Accept(_) => if phase.Accepting? then Some(Accepting) else None
  }

  function PhaseAfter(actions: seq<Action>): Option<Phase>
  {
    if actions == [] then Some(Outgoing)
    else
      match PhaseAfter(actions[..|actions| - 1])
      case None => None
      case Some(phase) => Next(phase, actions[|actions| - 1])
  }

  /** The actions come in the order of the rounds of `Main`. */
  predicate InRounds(actions: seq<Action>) { PhaseAfter(actions).Some? }

  // ---------------------------------------------------------------- what clients see and do

  /** The messages on a connection that have left the server: all that its client can have read. */
  function Wire(luck: Luck, actions: seq<Action>, id: ConnectionId): seq<Message>
  {
    if actions == [] then []
    else
      var front, action := actions[..|actions| - 1], actions[|actions| - 1];
      var s := Run(luck, front);
      if action == Accept(id) && id !in s.conns then []
      else if action.Flush? && action.id == id && id in s.conns && !s.conns[id].dead
      then s.conns[id].sent[..Furthest(|Wire(luck, front, id)|, action.through, |s.conns[id].sent|)]
      else Wire(luck, front, id)
  }

  function Furthest(before: nat, through: nat, all: nat): (n: nat)
    ensures n <= all
  {
    if all <= through || all <= before then all else if through <= before then before else through
  }

  predicate Asks(action: Action)
  {
    action.Receive? && (action.frame.Query? || action.frame.Create? || action.frame.Join?)
  }

  /** Every request for a lobby was made by a client that could have read its `Welcome`. */
  predicate ClientsWait(luck: Luck, actions: seq<Action>)
  {
    forall j :: 0 <= j < |actions| && Asks(actions[j]) ==> Welcomed(Wire(luck, actions[..j], actions[j].id))
  }

  predicate Welcomed(wire: seq<Message>) { wire != [] && wire[0].Welcome? }

  predicate Proves(action: Action)
  {
    action.Receive? && action.frame.Identity? && action.frame.hello.parsed && action.frame.hello.proven
  }

  /** Every proof of identity came with a signing key of its own. */
  predicate KeysFresh(actions: seq<Action>)
  {
    forall i, j :: 0 <= i < j < |actions| && Proves(actions[i]) && Proves(actions[j]) ==>
      actions[i].frame.hello.peer.key != actions[j].frame.hello.peer.key
  }

  // ---------------------------------------------------------------- nothing queued is taken back

  ghost predicate Grows(was: Connections, now: Connections)
  {
    forall c <- now :: c in was && was[c].sent <= now[c].sent
  }

  lemma {:induction false} GrowOn(a: Connections, b: Connections, c: Connections)
    requires Grows(a, b) && Grows(b, c)
    ensures Grows(a, c)
  {}

  /** Queues grow, and the promises about the past stay as they were. */
  ghost predicate Onward(s: Server, t: Server) { Grows(s.conns, t.conns) && t.past == s.past }

  lemma {:induction false} PutGrows(s: Server, id: ConnectionId, c: Connection)
    requires Linked(s) && id in s.conns && c.lobby == s.conns[id].lobby && s.conns[id].sent <= c.sent
    ensures Onward(s, Put(s, id, c))
  {
    hide Linked;
  }

  lemma {:induction false} SendToGrows(s: Server, luck: Luck, id: ConnectionId, message: Message)
    requires Linked(s) && id in s.conns
    ensures Onward(s, SendTo(s, luck, id, message)) && Onward(s, SendGoodbye(s, luck, id))
  {
    hide Linked;
  }

  lemma {:induction false} BroadcastGrows(s: Server, luck: Luck, ids: set<ConnectionId>, message: Message)
    requires Linked(s)
    ensures Onward(s, Broadcast(s, luck, ids, message))
  {
    hide Linked;
  }

  lemma {:induction false} EnterGrows(s: Server, luck: Luck, ref: LobbyRef, id: ConnectionId)
    requires Linked(s) && ref in s.lobbies && id in s.conns && s.conns[id].lobby.None?
    ensures Onward(s, EnterLobby(s, luck, ref, id))
  {
    EnterLobbyIs(s, luck, ref, id);
    hide Linked, EnterLobby;
  }

  lemma {:induction false} LeaveGrows(s: Server, luck: Luck, id: ConnectionId)
    requires Linked(s) && id in s.conns
    ensures Onward(s, LeaveLobby(s, luck, id))
  {
    if s.conns[id].lobby.Some? {
      LeaveLobbyIs(s, luck, id);
      hide Linked, LeaveLobby;
    }
  }

  lemma {:induction false} EvictGrows(s: Server, luck: Luck, other: ConnectionId)
    requires Linked(s) && other in s.conns
    ensures Onward(s, Evict(s, luck, other))
  {
    var told := SendGoodbye(s, luck, other);
    SendToGrows(s, luck, other, Goodbye);
    LeaveGrows(told, luck, other);
    hide SendGoodbye, LeaveLobby, Linked, Grows;
    GrowOn(s.conns, told.conns, LeaveLobby(told, luck, other).conns);
  }

  lemma {:induction false} EvictAllGrows(s: Server, luck: Luck, id: ConnectionId, member: MemberId, n: nat)
    requires Linked(s) && n <= |s.order|
    ensures Onward(s, EvictAll(s, luck, id, member, n))
  {
    hide Evict, Mutual, Grows;
    if n == 0 {
      NothingGrows(s.conns);
    } else {
      EvictAllGrows(s, luck, id, member, n - 1);
      var t, other := EvictAll(s, luck, id, member, n - 1), s.order[n - 1];
      if other != id && Evicts(t.conns[other], member) {
        EvictGrows(t, luck, other);
        GrowOn(s.conns, t.conns, Evict(t, luck, other).conns);
      }
    }
  }

  lemma {:induction false} NothingGrows(conns: Connections)
    ensures Grows(conns, conns)
  {}

  lemma {:induction false} CloseDeadGrows(s: Server, luck: Luck, n: nat)
    requires Linked(s) && n <= |s.order|
    ensures Grows(s.conns, CloseDead(s, luck, n).conns)
    ensures CloseDead(s, luck, n).past == s.past.(newcomers := CloseDead(s, luck, n).past.newcomers)
    decreases n
  {
    if n > 0 {
      if s.conns[s.order[n - 1]].dead {
        var id := s.order[n - 1];
        LeaveGrows(s, luck, id);
        var left, closed := LeaveLobby(s, luck, id), CloseConnection(s, luck, n - 1);
        assert Grows(s.conns, closed.conns) by { hide LeaveLobby, Linked; }
        hide LeaveLobby, Linked, Grows;
        CloseDeadGrows(closed, luck, n - 1);
        GrowOn(s.conns, closed.conns, CloseDead(closed, luck, n - 1).conns);
      } else {
        CloseDeadGrows(s, luck, n - 1);
      }
    }
  }

  // ---------------------------------------------------------------- one action

  /** A connection that becomes ready is a newcomer, with a key that counts as used. */
  ghost predicate Arrives(s: Server, t: Server, id: ConnectionId, key: Key)
  {
    && Grows(s.conns, t.conns) && id in s.conns && s.conns[id].stage.IdentityStage? && !s.conns[id].dead && !s.conns[id].closing
    && t.past == s.past.(newcomers := s.past.newcomers + {id}, keys := s.past.keys + {key},
                         freshKeys := s.past.freshKeys && key !in s.past.keys)
  }

  lemma {:induction false} IdentityGrows(s: Server, luck: Luck, id: ConnectionId, hello: Hello)
    requires Linked(s) && id in s.conns && s.conns[id].stage.IdentityStage? && !s.conns[id].dead && !s.conns[id].closing
    ensures var t := HandleIdentity(s, luck, id, hello);
            Onward(s, t) || (hello.parsed && hello.proven && Arrives(s, t, id, hello.peer.key))
  {
    if !hello.parsed || !hello.proven || KeyInUse(s, id, hello.peer.key) {
      SendToGrows(s, luck, id, Goodbye);
    } else {
      var known := Put(s, id, s.conns[id].(peer := hello.peer));
      var evicted := EvictAll(known, luck, id, hello.peer.id, |s.order|);
      var ready := MakeReady(evicted, id);
      PutGrows(s, id, s.conns[id].(peer := hello.peer));
      EvictAllGrows(known, luck, id, hello.peer.id, |s.order|);
      EvictAllPeers(known, luck, id, hello.peer.id, |s.order|);
      assert evicted.conns[id].peer == hello.peer;
      hide EvictAll, KeyInUse, Mutual;
      PutGrows(evicted, id, evicted.conns[id].(stage := Ready));
      SendToGrows(ready, luck, id, Welcome(hello.peer.id));
      hide Grows, MakeReady, SendTo, Put;
      GrowOn(s.conns, known.conns, evicted.conns);
      GrowOn(s.conns, evicted.conns, ready.conns);
      GrowOn(s.conns, ready.conns, SendTo(ready, luck, id, Welcome(hello.peer.id)).conns);
    }
  }

  /** What a request does besides its answer: it is noted when its sender is a newcomer. */
  ghost predicate Asked(s: Server, t: Server, id: ConnectionId)
  {
    Grows(s.conns, t.conns) && t.past == s.past.(patient := s.past.patient && id !in s.past.newcomers)
  }

  lemma {:induction false} RefusalGrows(s: Server, luck: Luck, id: ConnectionId)
    requires Linked(s) && id in s.conns
    ensures var refused := Refuse(s, luck, id);
            Onward(s, refused) && Onward(s, Put(refused, id, refused.conns[id].(closing := true)))
  {
    hide Linked;
  }

  lemma {:induction false} OpenGrows(s: Server, luck: Luck, id: ConnectionId, name: string, verifier: nat)
    requires Linked(s) && id in s.conns && s.conns[id].lobby.None?
    ensures Onward(s, EnterLobby(OpenLobby(s, name, verifier), luck, s.created + 1, id))
  {
    hide EnterLobby, Mutual, LobbyId;
    EnterGrows(OpenLobby(s, name, verifier), luck, s.created + 1, id);
  }

  lemma {:induction false} RequestGrows(s: Server, luck: Luck, id: ConnectionId, frame: Frame)
    requires Linked(s) && id in s.conns && (frame.Query? || frame.Create? || frame.Join?)
    ensures Asked(s, HandleRequest(s, luck, id, frame), id)
  {
    hide Mutual, EnterLobby, OpenLobby, LobbyId, Grows, SendTo, SendGoodbye, Put, Refuse;
    var noted := s.(past := s.past.(patient := s.past.patient && id !in s.past.newcomers));
    if s.conns[id].lobby.Some? || frame.name.None? {
      SendToGrows(noted, luck, id, Goodbye);
    } else {
      var found := Find(noted, noted.listing, frame.name.value);
      match frame
      case Query(_) => SendToGrows(noted, luck, id, LobbyInfo(found.Some?));
      case Create(name, complete, verifier) =>
        if !complete {
          SendToGrows(noted, luck, id, Goodbye);
        } else if found.Some? {
          RefusalGrows(noted, luck, id);
        } else {
          OpenGrows(noted, luck, id, name.value, verifier);
        }
      case Join(_, complete, verifier) =>
        if !complete {
          SendToGrows(noted, luck, id, Goodbye);
        } else if found.None? || verifier != noted.lobbies[found.value].verifier {
          RefusalGrows(noted, luck, id);
        } else {
          EnterGrows(noted, luck, found.value, id);
        }
    }
  }

  lemma {:induction false} SendingGrows(s: Server, luck: Luck, id: ConnectionId, frame: Frame, udp: bool)
    requires Linked(s) && id in s.conns && (frame.LobbySend? || frame.LobbySendTo? || frame.ServerSend?)
    ensures Onward(s, HandleReady(s, luck, id, frame, udp))
  {
    SendToGrows(s, luck, id, Goodbye);
    NothingGrows(s.conns);
    if s.conns[id].lobby.Some? { BroadcastGrows(s, luck, Recipients(s, id, frame), Relayed); }
    hide SendGoodbye, Broadcast, Linked, Grows, Recipients, LobbyId;
  }

  lemma {:induction false} ReadyGrows(s: Server, luck: Luck, id: ConnectionId, frame: Frame, udp: bool)
    requires Linked(s) && id in s.conns
    ensures var t := HandleReady(s, luck, id, frame, udp);
            Onward(s, t) || (!udp && (frame.Query? || frame.Create? || frame.Join?) && Asked(s, t, id))
  {
    hide HandleRequest, SendGoodbye, Broadcast, Recipients, Mutual, Grows, LobbyId;
    if frame.LobbySend? || frame.LobbySendTo? || frame.ServerSend? {
      SendingGrows(s, luck, id, frame, udp);
    } else if udp {
      NothingGrows(s.conns);
    } else if frame.Query? || frame.Create? || frame.Join? {
      RequestGrows(s, luck, id, frame);
    } else {
      SendToGrows(s, luck, id, Goodbye);
    }
  }

  /** One message of a TCP stream: something about membership is noted only for proofs and requests. */
  lemma {:induction false} FrameGrows(s: Server, luck: Luck, id: ConnectionId, frame: Frame)
    requires Linked(s) && id in s.conns
    ensures var t := HandleFrame(s, luck, id, frame);
            || Onward(s, t)
            || (Proves(Receive(id, frame)) && Arrives(s, t, id, frame.hello.peer.key))
            || (Asks(Receive(id, frame)) && Asked(s, t, id))
  {
    hide HandleIdentity, HandleReady, Linked, Grows, Put;
    var c := s.conns[id];
    NothingGrows(s.conns);
    PutGrows(s, id, c.(dead := true));
    if !c.dead && !c.closing {
      match c.stage
      case HelloStage => PutGrows(s, id, c.(stage := IdentityStage, dead := !(frame.ClientHello? && frame.accepted)));
      case IdentityStage =>
        IdentityGrows(s, luck, id, if frame.Identity? then frame.hello else Hello(false, false, c.peer));
      case Ready => ReadyGrows(s, luck, id, frame, false);
    }
  }

  lemma {:induction false} RunNext(luck: Luck, actions: seq<Action>)
    requires actions != []
    ensures Run(luck, actions) == Act(Run(luck, actions[..|actions| - 1]), luck, actions[|actions| - 1])
  {
    hide Act;
  }

  /** Queues grow, except that a connection may be new and has none. */
  ghost predicate GrowsBut(s: Server, t: Server, action: Action)
  {
    forall c <- t.conns :: if c in s.conns then s.conns[c].sent <= t.conns[c].sent else action == Accept(c) && t.conns[c].sent == []
  }

  lemma {:induction false} OnwardBut(s: Server, t: Server, action: Action)
    requires Grows(s.conns, t.conns)
    ensures GrowsBut(s, t, action)
  {}

  lemma {:induction false} ActGrows(s: Server, luck: Luck, action: Action)
    requires Linked(s) && !action.Receive?
    ensures var t := Act(s, luck, action);
            GrowsBut(s, t, action) && t.past == if action.EndRound? then s.past.(newcomers := {}) else s.past
  {
    hide Mutual, Broadcast, HandleReady, Put, CloseDead, Grows;
    if action.Accept? {
      AcceptGrows(s, action.id);
    } else {
      NothingGrows(s.conns);
      match action {
        case SendOutgoing(lobby, to) =>
          if LobbyOf(s.listing, lobby).Some? {
            var ref := LobbyOf(s.listing, lobby).value;
            MembersKnown(s, ref);
            BroadcastGrows(s, luck, set m <- s.lobbies[ref].members | s.conns[m].peer.id in to :: m, Relayed);
          }
        case Datagram(id, frame) =>
          if id in s.conns { ReadyGrows(s, luck, id, frame, true); }
        case Fail(id) =>
          if id in s.conns { PutGrows(s, id, s.conns[id].(dead := true)); }
        case Flush(id, _) =>
          if id in s.conns { PutGrows(s, id, s.conns[id].(dead := s.conns[id].dead || s.conns[id].closing)); }
        case EndRound => CloseDeadGrows(s, luck, |s.order|);
      }
      OnwardBut(s, Act(s, luck, action), action);
    }
  }

  lemma {:induction false} MembersKnown(s: Server, ref: LobbyRef)
    requires Linked(s) && ref in s.lobbies
    ensures forall m <- s.lobbies[ref].members :: m in s.conns
  {}

  lemma {:induction false} AcceptGrows(s: Server, id: ConnectionId)
    ensures GrowsBut(s, s, Accept(id))
    ensures id !in s.conns ==> GrowsBut(s, s.(order := s.order + [id], conns := s.conns[id := ACCEPTED]), Accept(id))
  {}

  // ---------------------------------------------------------------- the wire

  /** TCP keeps the order: what has left is always a beginning of what was queued. */
  lemma {:induction false} WireIsQueued(luck: Luck, actions: seq<Action>, c: ConnectionId)
    requires c in Run(luck, actions).conns
    ensures Wire(luck, actions, c) <= Run(luck, actions).conns[c].sent
  {
    var front, action := actions[..|actions| - 1], actions[|actions| - 1];
    var s := Run(luck, front);
    RunNext(luck, actions);
    hide Run, Act, Linked;
    if action.Receive? && action.id in s.conns {
      FrameGrows(s, luck, action.id, action.frame);
    } else if !action.Receive? {
      ActGrows(s, luck, action);
    }
    if c in s.conns { WireIsQueued(luck, front, c); }
  }

  // ---------------------------------------------------------------- the promises follow

  /** All that is asked of `Main` and of the clients. */
  predicate Promised(luck: Luck, actions: seq<Action>)
  {
    InRounds(actions) && ClientsWait(luck, actions) && KeysFresh(actions)
  }

  lemma {:induction false} PromisedBefore(luck: Luck, actions: seq<Action>)
    requires actions != [] && Promised(luck, actions)
    ensures Promised(luck, actions[..|actions| - 1])
  {
    var front := actions[..|actions| - 1];
    hide Wire, Next, Welcomed;
    forall j | 0 <= j < |front| && Asks(front[j]) ensures Welcomed(Wire(luck, front[..j], front[j].id)) {
      assert front[..j] == actions[..j] && front[j] == actions[j];
    }
  }

  /** Every used key was proven with. */
  ghost predicate KeysProven(actions: seq<Action>, keys: set<Key>)
  {
    forall k <- keys :: exists i :: 0 <= i < |actions| && Proves(actions[i]) && actions[i].frame.hello.peer.key == k
  }

  /** Nothing has gone out to a newcomer before the flushing part of its round. */
  ghost predicate Silent(luck: Luck, actions: seq<Action>, newcomers: set<ConnectionId>)
  {
    forall c <- newcomers :: Wire(luck, actions, c) == []
  }

  ghost predicate Orderly(luck: Luck, actions: seq<Action>, s: Server, phase: Phase)
  {
    && Kept(s.past) && KeysProven(actions, s.past.keys)
    && (phase.Accepting? ==> s.past.newcomers == {})
    && (!phase.Flushing? ==> Silent(luck, actions, s.past.newcomers))
  }

  lemma {:induction false} KeysProvenOn(actions: seq<Action>, keys: set<Key>)
    requires actions != [] && KeysProven(actions[..|actions| - 1], keys)
    ensures KeysProven(actions, keys)
    ensures var action := actions[|actions| - 1];
            Proves(action) ==> KeysProven(actions, keys + {action.frame.hello.peer.key})
  {
    var front := actions[..|actions| - 1];
    forall k <- keys ensures exists i :: 0 <= i < |actions| && Proves(actions[i]) && actions[i].frame.hello.peer.key == k {
      var i :| 0 <= i < |front| && Proves(front[i]) && front[i].frame.hello.peer.key == k;
      assert actions[i] == front[i];
    }
  }

  /** A fresh key is not among the used ones. */
  lemma {:induction false} FreshHere(actions: seq<Action>, keys: set<Key>)
    requires actions != [] && KeysProven(actions[..|actions| - 1], keys) && KeysFresh(actions) && Proves(actions[|actions| - 1])
    ensures actions[|actions| - 1].frame.hello.peer.key !in keys
  {
    var front, key := actions[..|actions| - 1], actions[|actions| - 1].frame.hello.peer.key;
    forall k <- keys ensures k != key {
      var i :| 0 <= i < |front| && Proves(front[i]) && front[i].frame.hello.peer.key == k;
      assert actions[i] == front[i];
    }
  }

  lemma {:induction false} WireStays(luck: Luck, actions: seq<Action>, newcomers: set<ConnectionId>)
    requires actions != [] && Silent(luck, actions[..|actions| - 1], newcomers)
    requires !actions[|actions| - 1].Flush?
    ensures Silent(luck, actions, newcomers)
  {
    hide Run;
  }

  /** Nothing has gone out to a connection that has yet to prove its identity. */
  lemma {:induction false} UnprovenIsSilent(luck: Luck, actions: seq<Action>, c: ConnectionId)
    requires var s := Run(luck, actions); Inv(s) && Kept(s.past) && c in s.conns
    requires var conn := Run(luck, actions).conns[c]; !conn.stage.Ready? && !conn.dead && !conn.closing
    ensures Wire(luck, actions, c) == []
  {
    WireIsQueued(luck, actions, c);
    hide Run, Wire;
    LiveFold(Run(luck, actions), c);
  }

  lemma {:induction false} OtherOrderly(luck: Luck, actions: seq<Action>, s: Server, t: Server)
    requires actions != [] && InRounds(actions) && Linked(s)
    requires s == Run(luck, actions[..|actions| - 1]) && t == Act(s, luck, actions[|actions| - 1])
    requires !actions[|actions| - 1].Receive?
    requires Orderly(luck, actions[..|actions| - 1], s, PhaseAfter(actions[..|actions| - 1]).value)
    ensures Orderly(luck, actions, t, PhaseAfter(actions).value)
  {
    var front, action := actions[..|actions| - 1], actions[|actions| - 1];
    ActGrows(s, luck, action);
    KeysProvenOn(actions, s.past.keys);
    hide Run, Act, Linked, KeysProven, Silent;
    if !PhaseAfter(actions).value.Flushing? {
      if action.EndRound? {
        NobodyHeard(luck, actions);
      } else {
        WireStays(luck, actions, s.past.newcomers);
      }
    }
  }

  lemma {:induction false} NobodyHeard(luck: Luck, actions: seq<Action>)
    ensures Silent(luck, actions, {})
  {}

  lemma {:induction false} OneMoreSilent(luck: Luck, actions: seq<Action>, newcomers: set<ConnectionId>, id: ConnectionId)
    requires Silent(luck, actions, newcomers) && Wire(luck, actions, id) == []
    ensures Silent(luck, actions, newcomers + {id})
  {
    hide Wire;
  }

  lemma {:induction false} ReceivedOrderly(luck: Luck, actions: seq<Action>, s: Server, t: Server)
    requires actions != [] && Promised(luck, actions) && Inv(s)
    requires s == Run(luck, actions[..|actions| - 1]) && t == Act(s, luck, actions[|actions| - 1])
    requires actions[|actions| - 1].Receive?
    requires Orderly(luck, actions[..|actions| - 1], s, PhaseAfter(actions[..|actions| - 1]).value)
    ensures Orderly(luck, actions, t, PhaseAfter(actions).value)
  {
    hide Run, Linked, HandleFrame, InvBut, KeysProven, PhaseAfter, Wire, Silent, Grows, Fold, ClientsWait, KeysFresh, Welcomed, Next;
    var front, action := actions[..|actions| - 1], actions[|actions| - 1];
    ReceivedPhase(actions);
    InvLinked(s);
    KeysProvenOn(actions, s.past.keys);
    WireStays(luck, actions, s.past.newcomers);
    if action.id in s.conns {
      FrameGrows(s, luck, action.id, action.frame);
      if Proves(action) && Arrives(s, t, action.id, action.frame.hello.peer.key) {
        FreshHere(actions, s.past.keys);
        UnprovenIsSilent(luck, front, action.id);
        OneMoreSilent(luck, front, s.past.newcomers, action.id);
        WireStays(luck, actions, s.past.newcomers + {action.id});
      } else if Asks(action) {
        WaitedFor(luck, actions, s.past.newcomers);
      }
    }
  }

  lemma {:induction false} ReceivedPhase(actions: seq<Action>)
    requires actions != [] && InRounds(actions) && actions[|actions| - 1].Receive?
    ensures PhaseAfter(actions) == Some(Receiving)
    ensures var phase := PhaseAfter(actions[..|actions| - 1]); phase.Some? && !phase.value.Flushing?
  {}

  /** Nobody asks whose `Welcome` has not left. */
  lemma {:induction false} WaitedFor(luck: Luck, actions: seq<Action>, newcomers: set<ConnectionId>)
    requires actions != [] && ClientsWait(luck, actions) && Asks(actions[|actions| - 1])
    requires Silent(luck, actions[..|actions| - 1], newcomers)
    ensures actions[|actions| - 1].id !in newcomers
  {
    hide Wire;
    assert Welcomed(Wire(luck, actions[..|actions| - 1], actions[|actions| - 1].id));
  }

  /** In rounds, with clients that wait and fresh keys, the past is as the replicas need it. */
  lemma {:induction false} PromisesKept(luck: Luck, actions: seq<Action>)
    requires Promised(luck, actions)
    ensures Orderly(luck, actions, Run(luck, actions), PhaseAfter(actions).value)
  {
    if actions != [] {
      var front, action := actions[..|actions| - 1], actions[|actions| - 1];
      PromisedBefore(luck, actions);
      PromisesKept(luck, front);
      RunNext(luck, actions);
      RunKeeps(luck, front);
      InvLinked(Run(luck, front));
      hide Run, Act, Linked, InvBut, Orderly;
      if action.Receive? {
        ReceivedOrderly(luck, actions, Run(luck, front), Run(luck, actions));
      } else {
        OtherOrderly(luck, actions, Run(luck, front), Run(luck, actions));
      }
    }
  }

  /**
   When `Main` keeps its rounds, signing keys are fresh, and clients ask for a lobby only after reading
   their `Welcome`: in every run, the messages queued to a live client in a lobby build exactly the lobby's
   other members, in order; and what has gone out to it is the beginning of them and was never refused.
   */
  lemma {:induction false} ReplicasAgree(luck: Luck, actions: seq<Action>, c: ConnectionId)
    requires InRounds(actions) && ClientsWait(luck, actions) && KeysFresh(actions)
    requires c in Run(luck, actions).conns && Run(luck, actions).conns[c].Live()
    ensures var s := Run(luck, actions);
            var conn := s.conns[c];
            && Fold(conn.peer, conn.sent) ==
               (match conn.lobby
                case None => Waiting
                case Some(ref) => Joined(PeersOf(s.conns, Without(s.lobbies[ref].members, c))))
            && Wire(luck, actions, c) <= conn.sent && Fold(conn.peer, Wire(luck, actions, c)) != Failed
  {
    PromisesKept(luck, actions);
    WireIsQueued(luck, actions, c);
    var wire, sent := Wire(luck, actions, c), Run(luck, actions).conns[c].sent;
    assert sent[..|wire|] == wire;
    hide Run, Wire, Fold, ClientsWait, KeysFresh;
    ReplicasAgreeWhileKept(luck, actions, c, |wire|);
  }
}
