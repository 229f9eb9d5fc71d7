/**
 What every run of the lobby server keeps about trust: a client is only ever taken for whom it proved to be,
 and only ever in a lobby that it opened or whose verifier it sent.
 */
module LobbyServerAdmission {
  import opened Machine
  import opened Options
  import opened LobbyMembers
  import opened LobbyServer
  import opened LobbyServerInvariant
  import opened LobbyServerSteps
  import opened LobbyServerArrivals
  import opened LobbyServerHandlers
  import opened LobbyServerRuns
  import opened LobbyServerAnswers

  // ---------------------------------------------------------------- one action

  /** What one message can do to a connection's standing: keep it, end its stay in a lobby, or one of three entries. */
  ghost predicate Stands(s: Server, a: Action, c: ConnectionId, now: Connection)
  {
    || (c in s.conns && now.stage == s.conns[c].stage && now.peer == s.conns[c].peer && (now.lobby == s.conns[c].lobby || now.lobby.None?))
    || (now.lobby.None? && !now.stage.Ready?)
    || (a.Receive? && a.id == c && a.frame.Identity? && a.frame.hello.parsed && a.frame.hello.proven && a.frame.hello.peer == now.peer && now.lobby.None?)
    || (a.Receive? && a.id == c && c in s.conns && now.stage == s.conns[c].stage && now.peer == s.conns[c].peer && now.lobby.Some?
        && KnewVerifier(s, a.frame, now.lobby.value))
  }

  /** The message opens this lobby, or names it and carries its verifier. */
  ghost predicate KnewVerifier(s: Server, frame: Frame, ref: LobbyRef)
  {
    || (frame.Create? && frame.name.Some? && frame.complete && ref == s.created + 1)
    || (frame.Join? && frame.complete && ref in s.lobbies && frame.name == Some(s.lobbies[ref].name) && frame.verifier == s.lobbies[ref].verifier)
  }

  lemma {:induction false} HearsStands(luck: Luck, id: ConnectionId, was: Connection, now: Connection, message: Message)
    requires Hears(luck, id, was, now, message)
    ensures now.stage == was.stage && now.peer == was.peer && now.lobby == was.lobby
  {}

  lemma {:induction false} OnlyHearsStands(s: Server, luck: Luck, id: ConnectionId, message: Message, closing: bool, t: Server, a: Action, c: ConnectionId)
    requires OnlyHears(s, luck, id, message, closing, t) && c in t.conns
    ensures Stands(s, a, c, t.conns[c])
  {}

  lemma {:induction false} AllHearStands(s: Server, luck: Luck, ids: set<ConnectionId>, t: Server, a: Action, c: ConnectionId)
    requires AllHear(s, luck, ids, t) && c in t.conns
    ensures Stands(s, a, c, t.conns[c])
  {}

  lemma {:induction false} EntersStands(s: Server, luck: Luck, id: ConnectionId, ref: LobbyRef, before: seq<ConnectionId>, frame: Frame, now: Connections, c: ConnectionId)
    requires Enters(luck, s.conns, id, ref, before, now) && KnewVerifier(s, frame, ref) && c in now
    ensures Stands(s, Receive(id, frame), c, now[c])
  {
    hide KnewVerifier, PeersOf;
  }

  lemma {:induction false} StaysStands(s: Server, luck: Luck, a: Action, c: ConnectionId, now: Connection)
    requires c in s.conns && Stays(luck, c, s.conns[c], now)
    ensures Stands(s, a, c, now)
  {}

  lemma {:induction false} ReadyStands(s: Server, luck: Luck, id: ConnectionId, frame: Frame, c: ConnectionId)
    requires Inv(s) && Linked(s) && id in s.conns && s.conns[id].Live() && c in HandleFrame(s, luck, id, frame).conns
    ensures Stands(s, Receive(id, frame), c, HandleFrame(s, luck, id, frame).conns[c])
  {
    hide InvBut, Linked, HandleFrame, OnlyHears, AllHear, Enters, Stands, KnewVerifier;
    var t, a := HandleFrame(s, luck, id, frame), Receive(id, frame);
    match frame {
      case Query(name) =>
        QueryAnswered(s, luck, id, name);
        if s.conns[id].lobby.Some? || name.None? { OnlyHearsStands(s, luck, id, Goodbye, true, t, a, c); }
        else { OnlyHearsStands(s, luck, id, LobbyInfo(Exists(s, name)), false, t, a, c); }
      case Create(name, complete, verifier) =>
        CreateAnswered(s, luck, id, name, complete, verifier);
        if s.conns[id].lobby.Some? || name.None? || !complete { OnlyHearsStands(s, luck, id, Goodbye, true, t, a, c); }
        else if Exists(s, name) { OnlyHearsStands(s, luck, id, LobbyRefused, false, t, a, c); }
        else { CreateStands(s, luck, id, name.value, verifier, t, c); }
      case Join(name, complete, verifier) => JoinStands(s, luck, id, name, complete, verifier, c);
      case LobbySend(valid) => SendStands(s, luck, id, frame, c);
      case LobbySendTo(valid, recipient) => SendStands(s, luck, id, frame, c);
      case ServerSend(valid) =>
        HostMessageAnswered(s, luck, id, valid);
        if s.conns[id].lobby.None? || !valid { OnlyHearsStands(s, luck, id, Goodbye, true, t, a, c); }
        else { SameStands(s, a, c, t.conns[c]); }
      case Garbled =>
        NonsenseAnswered(s, luck, id, frame);
        SameStands(s, a, c, t.conns[c]);
      case _ =>
        NonsenseAnswered(s, luck, id, frame);
        OnlyHearsStands(s, luck, id, Goodbye, true, t, a, c);
    }
  }

  lemma {:induction false} SameStands(s: Server, a: Action, c: ConnectionId, now: Connection)
    requires c in s.conns && now.stage == s.conns[c].stage && now.peer == s.conns[c].peer && now.lobby == s.conns[c].lobby
    ensures Stands(s, a, c, now)
  {}

  lemma {:induction false} CreateStands(s: Server, luck: Luck, id: ConnectionId, name: string, verifier: nat, t: Server, c: ConnectionId)
    requires Opens(s, luck, id, name, verifier, t) && c in t.conns
    ensures Stands(s, Receive(id, Create(Some(name), true, verifier)), c, t.conns[c])
  {
    hide Enters, Stands;
    EntersStands(s, luck, id, s.created + 1, [], Create(Some(name), true, verifier), t.conns, c);
  }

  lemma {:induction false} JoinStands(s: Server, luck: Luck, id: ConnectionId, name: Option<string>, complete: bool, verifier: nat, c: ConnectionId)
    requires Inv(s) && Linked(s) && id in s.conns && s.conns[id].Live() && c in HandleFrame(s, luck, id, Join(name, complete, verifier)).conns
    ensures Stands(s, Receive(id, Join(name, complete, verifier)), c, HandleFrame(s, luck, id, Join(name, complete, verifier)).conns[c])
  {
    hide InvBut, Linked, HandleFrame, OnlyHears, Enters, Stands, Exists;
    var t, a := HandleFrame(s, luck, id, Join(name, complete, verifier)), Receive(id, Join(name, complete, verifier));
    JoinAnswered(s, luck, id, name, complete, verifier);
    if ref: LobbyRef :| Admitted(s, id, name, complete, verifier, ref) {
      EntersStands(s, luck, id, ref, s.lobbies[ref].members, a.frame, t.conns, c);
    } else if s.conns[id].lobby.Some? || name.None? || !complete {
      OnlyHearsStands(s, luck, id, Goodbye, true, t, a, c);
    } else {
      OnlyHearsStands(s, luck, id, LobbyRefused, Exists(s, name), t, a, c);
    }
  }

  lemma {:induction false} SendStands(s: Server, luck: Luck, id: ConnectionId, frame: Frame, c: ConnectionId)
    requires Linked(s) && id in s.conns && s.conns[id].Live() && (frame.LobbySend? || frame.LobbySendTo?) && c in HandleFrame(s, luck, id, frame).conns
    ensures Stands(s, Receive(id, frame), c, HandleFrame(s, luck, id, frame).conns[c])
  {
    hide Linked, HandleFrame, OnlyHears, AllHear, Stands, Audience;
    SendAnswered(s, luck, id, frame);
    var t := HandleFrame(s, luck, id, frame);
    if s.conns[id].lobby.None? || !frame.valid { OnlyHearsStands(s, luck, id, Goodbye, true, t, Receive(id, frame), c); }
    else { AllHearStands(s, luck, Audience(s, id, frame), t, Receive(id, frame), c); }
  }

  lemma {:induction false} IdentityStands(s: Server, luck: Luck, id: ConnectionId, frame: Frame, c: ConnectionId)
    requires Inv(s) && Linked(s) && id in s.conns && s.conns[id].stage.IdentityStage? && !s.conns[id].dead && !s.conns[id].closing
    requires c in HandleFrame(s, luck, id, frame).conns
    ensures Stands(s, Receive(id, frame), c, HandleFrame(s, luck, id, frame).conns[c])
  {
    var t, a := HandleFrame(s, luck, id, frame), Receive(id, frame);
    assert s.conns[id].lobby.None? by { InvListed(s); hide InvBut, Linked, HandleFrame; }
    hide InvBut, Linked, HandleFrame, OnlyHears, Stays, Hears;
    if frame.Identity? {
      IdentityAnswered(s, luck, id, frame.hello);
      if !Proven(s, id, frame.hello) {
        OnlyHearsStands(s, luck, id, Goodbye, true, t, a, c);
      } else if c == id {
        HearsStands(luck, id, s.conns[id].(stage := Ready, peer := frame.hello.peer), t.conns[id], Welcome(frame.hello.peer.id));
      } else if !Namesake(s.conns[c], frame.hello.peer.id) {
        StaysStands(s, luck, a, c, t.conns[c]);
      }
    } else {
      EarlyAnswered(s, luck, id, frame);
      if !frame.Garbled? { OnlyHearsStands(s, luck, id, Goodbye, true, t, a, c); }
    }
  }

  /** Nothing that happens gives a connection a peer that it did not prove, or a lobby whose verifier it did not know. */
  lemma {:induction false} ActStands(s: Server, luck: Luck, a: Action, c: ConnectionId)
    requires Inv(s) && Linked(s) && c in Act(s, luck, a).conns
    ensures Stands(s, a, c, Act(s, luck, a).conns[c])
  {
    var t := Act(s, luck, a);
    hide InvBut, Linked, HandleFrame, OnlyHears, AllHear, Stays, Stands, CloseDead;
    match a {
      case SendOutgoing(lobby, to) =>
        OutgoingAnswered(s, luck, lobby, to);
        if LobbyOf(s.listing, lobby).Some? {
          var ref := LobbyOf(s.listing, lobby).value;
          AllHearStands(s, luck, (set m <- s.conns | s.conns[m].lobby == Some(ref) && s.conns[m].peer.id in to), t, a, c);
        } else {
          SameStands(s, a, c, t.conns[c]);
        }
      case Receive(id, frame) =>
        if id !in s.conns {
          SameStands(s, a, c, t.conns[c]);
        } else if s.conns[id].dead || s.conns[id].closing {
          DeafAnswered(s, luck, id, frame);
          SameStands(s, a, c, t.conns[c]);
        } else if s.conns[id].stage.HelloStage? {
          HelloStands(s, luck, id, frame, c);
        } else if s.conns[id].stage.IdentityStage? {
          IdentityStands(s, luck, id, frame, c);
        } else {
          ReadyStands(s, luck, id, frame, c);
        }
      case Datagram(id, frame) =>
        if id in s.conns && s.conns[id].Live() {
          DatagramAnswered(s, luck, id, frame);
          if s.conns[id].lobby.Some? && (frame.LobbySend? || frame.LobbySendTo? || frame.ServerSend?) && !frame.valid {
            OnlyHearsStands(s, luck, id, Goodbye, true, t, a, c);
          } else {
            SameStands(s, a, c, t.conns[c]);
          }
        } else {
          SameStands(s, a, c, t.conns[c]);
        }
      case Fail(id) => SameStands(s, a, c, t.conns[c]);
      case Flush(id, through) => SameStands(s, a, c, t.conns[c]);
      case EndRound =>
        RoundEnds(s, luck);
        StaysStands(s, luck, a, c, t.conns[c]);
      case Accept(id) => AcceptStands(s, luck, id, c);
    }
  }

  lemma {:induction false} HelloStands(s: Server, luck: Luck, id: ConnectionId, frame: Frame, c: ConnectionId)
    requires Inv(s) && Linked(s) && id in s.conns && s.conns[id].stage.HelloStage? && !s.conns[id].dead && !s.conns[id].closing
    requires c in HandleFrame(s, luck, id, frame).conns
    ensures Stands(s, Receive(id, frame), c, HandleFrame(s, luck, id, frame).conns[c])
  {
    assert s.conns[id].lobby.None? by { InvListed(s); hide InvBut, Linked, HandleFrame; }
    hide InvBut, Linked, HandleFrame;
    HelloAnswered(s, luck, id, frame);
  }

  lemma {:induction false} AcceptStands(s: Server, luck: Luck, id: ConnectionId, c: ConnectionId)
    requires Linked(s) && c in Act(s, luck, Accept(id)).conns
    ensures Stands(s, Accept(id), c, Act(s, luck, Accept(id)).conns[c])
  {
    AcceptAnswered(s, luck, id);
    hide Linked, Act;
  }

  // ---------------------------------------------------------------- lobbies keep their names and verifiers

  ghost predicate Persist(was: Lobbies, now: Lobbies)
  {
    forall ref <- now :: ref in was && now[ref].name == was[ref].name && now[ref].verifier == was[ref].verifier
  }

  lemma {:induction false} LeavePersists(s: Server, luck: Luck, id: ConnectionId)
    requires Linked(s) && id in s.conns
    ensures Persist(s.lobbies, LeaveLobby(s, luck, id).lobbies)
  {
    if s.conns[id].lobby.Some? {
      LeaveLobbyIs(s, luck, id);
      hide Linked, LeaveLobby, Without, EventsAfter, Leaving;
    }
  }

  lemma {:induction false} EvictPersists(s: Server, luck: Luck, id: ConnectionId, member: MemberId, n: nat)
    requires Linked(s) && n <= |s.order|
    ensures Persist(s.lobbies, EvictAll(s, luck, id, member, n).lobbies)
  {
    hide Linked, LeaveLobby, SendGoodbye;
    if n > 0 {
      EvictPersists(s, luck, id, member, n - 1);
      var t := EvictAll(s, luck, id, member, n - 1);
      TableListed(s, n - 1);
      GoodbyeSame(t, luck, s.order[n - 1]);
      LeavePersists(SendGoodbye(t, luck, s.order[n - 1]), luck, s.order[n - 1]);
    }
  }

  lemma {:induction false} GoodbyeSame(s: Server, luck: Luck, id: ConnectionId)
    requires Linked(s) && id in s.conns
    ensures SendGoodbye(s, luck, id).lobbies == s.lobbies && SendGoodbye(s, luck, id).conns.Keys == s.conns.Keys
  {
    hide Linked;
  }

  lemma {:induction false} ClosePersists(s: Server, luck: Luck, n: nat)
    requires Linked(s) && n <= |s.order|
    ensures Persist(s.lobbies, CloseDead(s, luck, n).lobbies)
    decreases n
  {
    hide Linked, LeaveLobby;
    if n > 0 {
      TableListed(s, n - 1);
      if s.conns[s.order[n - 1]].dead {
        LeavePersists(s, luck, s.order[n - 1]);
        ClosePersists(CloseConnection(s, luck, n - 1), luck, n - 1);
      } else {
        ClosePersists(s, luck, n - 1);
      }
    }
  }

  /** A lobby that is there after an action was there before, with its name and verifier, or was opened by it. */
  ghost predicate Lobbied(s: Server, a: Action, t: Server)
  {
    forall ref <- t.lobbies ::
      if ref in s.lobbies then t.lobbies[ref].name == s.lobbies[ref].name && t.lobbies[ref].verifier == s.lobbies[ref].verifier
      else a.Receive? && a.frame == Create(Some(t.lobbies[ref].name), true, t.lobbies[ref].verifier) && ref == s.created + 1
  }

  lemma {:induction false} PersistLobbied(s: Server, a: Action, t: Server)
    requires Persist(s.lobbies, t.lobbies)
    ensures Lobbied(s, a, t)
  {}

  lemma {:induction false} SameLobbied(s: Server, a: Action, t: Server)
    requires t.lobbies == s.lobbies
    ensures Lobbied(s, a, t)
  {}

  lemma {:induction false} OnlyHearsLobbied(s: Server, luck: Luck, id: ConnectionId, message: Message, closing: bool, t: Server, a: Action)
    requires OnlyHears(s, luck, id, message, closing, t)
    ensures Lobbied(s, a, t)
  {}

  lemma {:induction false} OpensLobbied(s: Server, luck: Luck, id: ConnectionId, name: string, verifier: nat, t: Server)
    requires Linked(s) && Opens(s, luck, id, name, verifier, t)
    ensures Lobbied(s, Receive(id, Create(Some(name), true, verifier)), t)
  {
    hide Enters, Mutual;
    assert s.created + 1 !in s.lobbies;
  }

  lemma {:induction false} JoinsLobbied(s: Server, luck: Luck, id: ConnectionId, ref: LobbyRef, t: Server, a: Action)
    requires Joins(s, luck, id, ref, t)
    ensures Lobbied(s, a, t)
  {
    hide Enters;
  }

  lemma {:induction false} RequestLobbied(s: Server, luck: Luck, id: ConnectionId, frame: Frame)
    requires Inv(s) && Linked(s) && id in s.conns && s.conns[id].Live() && (frame.Query? || frame.Create? || frame.Join?)
    ensures Lobbied(s, Receive(id, frame), HandleFrame(s, luck, id, frame))
  {
    hide InvBut, Linked, HandleFrame, OnlyHears, Joins, Opens, Exists, Lobbied;
    var t, a := HandleFrame(s, luck, id, frame), Receive(id, frame);
    match frame {
      case Query(name) =>
        QueryAnswered(s, luck, id, name);
        if s.conns[id].lobby.Some? || name.None? { OnlyHearsLobbied(s, luck, id, Goodbye, true, t, a); }
        else { OnlyHearsLobbied(s, luck, id, LobbyInfo(Exists(s, name)), false, t, a); }
      case Create(name, complete, verifier) =>
        CreateAnswered(s, luck, id, name, complete, verifier);
        if s.conns[id].lobby.Some? || name.None? || !complete { OnlyHearsLobbied(s, luck, id, Goodbye, true, t, a); }
        else if Exists(s, name) { OnlyHearsLobbied(s, luck, id, LobbyRefused, false, t, a); }
        else { OpensLobbied(s, luck, id, name.value, verifier, t); }
      case Join(name, complete, verifier) =>
        JoinAnswered(s, luck, id, name, complete, verifier);
        if ref: LobbyRef :| Admitted(s, id, name, complete, verifier, ref) {
          JoinsLobbied(s, luck, id, ref, t, a);
        } else if s.conns[id].lobby.Some? || name.None? || !complete {
          OnlyHearsLobbied(s, luck, id, Goodbye, true, t, a);
        } else {
          OnlyHearsLobbied(s, luck, id, LobbyRefused, Exists(s, name), t, a);
        }
    }
  }

  lemma {:induction false} ReadyLobbied(s: Server, luck: Luck, id: ConnectionId, frame: Frame)
    requires Inv(s) && Linked(s) && id in s.conns && s.conns[id].Live() && !frame.Query? && !frame.Create? && !frame.Join?
    ensures Lobbied(s, Receive(id, frame), HandleFrame(s, luck, id, frame))
  {
    hide InvBut, Linked, HandleFrame, Lobbied, Audience, Hears;
    var t, a := HandleFrame(s, luck, id, frame), Receive(id, frame);
    if frame.LobbySend? || frame.LobbySendTo? {
      SendAnswered(s, luck, id, frame);
    } else if frame.ServerSend? {
      HostMessageAnswered(s, luck, id, frame.valid);
    } else {
      NonsenseAnswered(s, luck, id, frame);
    }
    SameLobbied(s, a, t);
  }

  lemma {:induction false} IdentityLobbied(s: Server, luck: Luck, id: ConnectionId, frame: Frame)
    requires Inv(s) && Linked(s) && id in s.conns && s.conns[id].stage.IdentityStage? && !s.conns[id].dead && !s.conns[id].closing
    ensures Lobbied(s, Receive(id, frame), HandleFrame(s, luck, id, frame))
  {
    var t, a := HandleFrame(s, luck, id, frame), Receive(id, frame);
    hide InvBut, Linked, HandleFrame, Lobbied, Hears, MakeReady, SendTo, EvictAll;
    if frame.Identity? {
      ProvenIs(s, luck, id, frame.hello);
      if Proven(s, id, frame.hello) {
        WelcomedLobbies(s, luck, id, frame.hello.peer);
        PersistLobbied(s, a, t);
      } else {
        SameLobbied(s, a, t);
      }
    } else {
      EarlyAnswered(s, luck, id, frame);
      SameLobbied(s, a, t);
    }
  }

  lemma {:induction false} WelcomedLobbies(s: Server, luck: Luck, id: ConnectionId, peer: Peer)
    requires Linked(s) && id in s.conns
    ensures Persist(s.lobbies, SendTo(MakeReady(Evicted(s, luck, id, peer), id), luck, id, Welcome(peer.id)).lobbies)
  {
    var known := Put(s, id, s.conns[id].(peer := peer));
    EvictPersists(known, luck, id, peer.id, |s.order|);
    hide Linked, EvictAll, Persist;
  }

  lemma {:induction false} ActLobbied(s: Server, luck: Luck, a: Action)
    requires Inv(s) && Linked(s)
    ensures Lobbied(s, a, Act(s, luck, a))
  {
    var t := Act(s, luck, a);
    hide InvBut, Linked, HandleFrame, HandleReady, Hears, Lobbied, CloseDead, Broadcast, Put, Kill;
    match a {
      case SendOutgoing(lobby, to) =>
        OutgoingAnswered(s, luck, lobby, to);
        SameLobbied(s, a, t);
      case Receive(id, frame) =>
        if id !in s.conns {
          SameLobbied(s, a, t);
        } else if s.conns[id].dead || s.conns[id].closing {
          DeafAnswered(s, luck, id, frame);
          SameLobbied(s, a, t);
        } else if s.conns[id].stage.HelloStage? {
          HelloAnswered(s, luck, id, frame);
          SameLobbied(s, a, t);
        } else if s.conns[id].stage.IdentityStage? {
          IdentityLobbied(s, luck, id, frame);
        } else if frame.Query? || frame.Create? || frame.Join? {
          RequestLobbied(s, luck, id, frame);
        } else {
          ReadyLobbied(s, luck, id, frame);
        }
      case Datagram(id, frame) =>
        if id in s.conns && s.conns[id].Live() { DatagramAnswered(s, luck, id, frame); }
        SameLobbied(s, a, t);
      case EndRound =>
        ClosePersists(s, luck, |s.order|);
        PersistLobbied(s, a, t);
      case _ => OtherLobbied(s, luck, a);
    }
  }

  lemma {:induction false} OtherLobbied(s: Server, luck: Luck, a: Action)
    requires Linked(s) && (a.Fail? || a.Flush? || a.Accept?)
    ensures Lobbied(s, a, Act(s, luck, a))
  {
    hide Linked;
  }

  // ---------------------------------------------------------------- runs

  /** The `j`-th action is this client's proof that it is this peer. */
  predicate ProvedAt(actions: seq<Action>, j: nat, c: ConnectionId, peer: Peer)
  {
    j < |actions| && actions[j] == Receive(c, Identity(Hello(true, true, peer)))
  }

  /** The `j`-th action is this client's request for a lobby of this name, new or with its verifier. */
  predicate AskedAt(actions: seq<Action>, j: nat, c: ConnectionId, lobby: Lobby)
  {
    j < |actions| && (actions[j] == Receive(c, Create(Some(lobby.name), true, lobby.verifier))
                      || actions[j] == Receive(c, Join(Some(lobby.name), true, lobby.verifier)))
  }

  /** A client's standing is one it has proved and asked for. */
  ghost predicate Earned(actions: seq<Action>, s: Server, c: ConnectionId)
    requires c in s.conns
  {
    && (s.conns[c].stage.Ready? ==> exists j :: ProvedAt(actions, j, c, s.conns[c].peer))
    && (s.conns[c].lobby.Some? ==> s.conns[c].lobby.value in s.lobbies && exists j :: AskedAt(actions, j, c, s.lobbies[s.conns[c].lobby.value]))
  }

  lemma {:induction false} EarnedOn(actions: seq<Action>, s: Server, t: Server, c: ConnectionId)
    requires actions != [] && Linked(s) && Linked(t) && c in t.conns && Listed(t)
    requires var a := actions[|actions| - 1]; Stands(s, a, c, t.conns[c]) && Lobbied(s, a, t)
    requires c in s.conns ==> Earned(actions[..|actions| - 1], s, c)
    ensures Earned(actions, t, c)
  {
    var front, last := actions[..|actions| - 1], |actions| - 1;
    LobbyIsThere(t, c);
    if c in s.conns { LobbyIsThere(s, c); }
    assert s.created + 1 !in s.lobbies;
    hide Linked, Listed;
    if t.conns[c].stage.Ready? {
      if j :| c in s.conns && s.conns[c].stage.Ready? && ProvedAt(front, j, c, s.conns[c].peer) && s.conns[c].peer == t.conns[c].peer {
        assert ProvedAt(actions, j, c, t.conns[c].peer);
      } else {
        assert ProvedAt(actions, last, c, t.conns[c].peer);
      }
    }
    if t.conns[c].lobby.Some? {
      var lobby := t.lobbies[t.conns[c].lobby.value];
      if j :| c in s.conns && s.conns[c].lobby == t.conns[c].lobby && AskedAt(front, j, c, s.lobbies[s.conns[c].lobby.value]) {
        assert AskedAt(actions, j, c, lobby);
      } else {
        assert AskedAt(actions, last, c, lobby);
      }
    }
  }

  lemma {:induction false} LobbyIsThere(s: Server, c: ConnectionId)
    requires Linked(s) && c in s.conns
    ensures s.conns[c].lobby.Some? ==> s.conns[c].lobby.value in s.lobbies
  {}

  /**
   In every run: whoever counts as a client has proved the identity it has, and whoever is in a lobby has sent its
   name and its verifier, to open it or to join it.
   */
  lemma {:induction false} OnlyWithProof(luck: Luck, actions: seq<Action>, c: ConnectionId)
    requires c in Run(luck, actions).conns
    ensures Earned(actions, Run(luck, actions), c)
    decreases |actions|
  {
    hide Act, InvBut, Linked, Stands, Lobbied, Earned, Listed;
    if actions != [] {
      var front, a := actions[..|actions| - 1], actions[|actions| - 1];
      var s, t := Run(luck, front), Run(luck, actions);
      RunKeeps(luck, front);
      RunKeeps(luck, actions);
      ActStands(s, luck, a, c);
      ActLobbied(s, luck, a);
      InvListed(t);
      hide Run;
      if c in s.conns { OnlyWithProof(luck, front, c); }
      EarnedOn(actions, s, t, c);
    }
  }
}
