/** Runs of the lobby server that show why clients must wait for `Welcome` and make new signing keys. */
module LobbyServerExamples {
  import opened Machine
  import opened Options
  import opened LobbyMembers
  import opened LobbyServer
  import opened LobbyServerInvariant
  import opened LobbyServerSteps
  import opened LobbyServerRuns
  import opened LobbyServerWaiting

  const EVERY_SEND_FITS: Luck := (id, sent) => true

  const FIRST := Peer(7, "first", 1)
  const NAMESAKE := Peer(7, "again", 2)
  const KEY_SHARER := Peer(8, "other", 1)

  function Proof(peer: Peer): Frame { Identity(Hello(true, true, peer)) }

  /** A client opens a lobby; another connection is accepted and has said hello. */
  const OPENING := [EndRound, Accept(1), Receive(1, ClientHello(true)), Receive(1, Proof(FIRST)), Flush(1, 1), EndRound,
                    Accept(2), Receive(1, Create(Some("lobby"), true, 5)), Receive(2, ClientHello(true)), Flush(1, 2), EndRound]

  const JOINING := Receive(2, Join(Some("lobby"), true, 5))

  /** The first client's connection breaks, and its owner proves itself and asks for the lobby in one go. */
  const IMPATIENT := OPENING + [Fail(1), Receive(2, Proof(NAMESAKE)), JOINING]

  /** The first client is being sent away, and somebody with its key arrives and waits for the welcome. */
  const REUSING := OPENING + [Receive(1, Unknown), Receive(2, Proof(KEY_SHARER)), Flush(2, 1), EndRound, JOINING]

  const KNOCKING := ACCEPTED.(stage := IdentityStage)
  const FIRST_READY := Connection(Ready, FIRST, None, false, false, [Welcome(7)])
  const FIRST_IN := Connection(Ready, FIRST, Some(1), false, false, [Welcome(7), LobbyJoined([])])
  const NOTHING_USED := Past({}, {}, true, true)
  const ONE_KEY := Past({}, {1}, true, true)

  const ONE_ACCEPTED := Server([1], map[1 := ACCEPTED], [], map[], 0, [], NOTHING_USED)
  const ONE_KNOCKING := Server([1], map[1 := KNOCKING], [], map[], 0, [], NOTHING_USED)
  const ONE_READY := Server([1], map[1 := FIRST_READY], [], map[], 0, [], ONE_KEY)
  const ONE_NEW := ONE_READY.(past := ONE_KEY.(newcomers := {1}))
  const TWO_ACCEPTED := Server([1, 2], map[1 := FIRST_READY, 2 := ACCEPTED], [], map[], 0, [], ONE_KEY)
  const OPENED := Server([1, 2], map[1 := FIRST_IN, 2 := ACCEPTED], [1], map[1 := Lobby("lobby", 5, [1])], 1,
                         [Opened(1, "lobby"), Arrived(1, Member(7, "first"))], ONE_KEY)
  const TWO_KNOCKING := OPENED.(conns := map[1 := FIRST_IN, 2 := KNOCKING])

  /** The proof of a connection that has no namesake and no rival for its key. */
  lemma {:induction false} Welcomes(s: Server, luck: Luck, id: ConnectionId, peer: Peer)
    requires Linked(s) && id in s.conns && s.conns[id] == KNOCKING && luck(id, 0)
    requires forall o <- s.order :: o != id ==> !Evicts(s.conns[o], peer.id) && !(s.conns[o].Live() && s.conns[o].peer.key == peer.key)
    ensures HandleIdentity(s, luck, id, Hello(true, true, peer)) ==
            s.(conns := s.conns[id := Greeted(peer)],
               past := s.past.(newcomers := s.past.newcomers + {id}, keys := s.past.keys + {peer.key},
                               freshKeys := s.past.freshKeys && peer.key !in s.past.keys))
  {
    var known := Put(s, id, KNOCKING.(peer := peer));
    NobodyEvicted(known, luck, id, peer.id, |s.order|);
    assert !KeyInUse(s, id, peer.key);
    hide Linked, EvictAll, KeyInUse;
    assert known.conns == s.conns[id := KNOCKING.(peer := peer)] && known.past == s.past;
    BecomesReady(known, luck, id, peer);
    assert s.conns[id := KNOCKING.(peer := peer)][id := Greeted(peer)] == s.conns[id := Greeted(peer)];
  }

  function Greeted(peer: Peer): Connection { Connection(Ready, peer, None, false, false, [Welcome(peer.id)]) }

  lemma {:induction false} BecomesReady(s: Server, luck: Luck, id: ConnectionId, peer: Peer)
    requires Linked(s) && id in s.conns && s.conns[id] == KNOCKING.(peer := peer) && luck(id, 0)
    ensures SendTo(MakeReady(s, id), luck, id, Welcome(peer.id)) ==
            s.(conns := s.conns[id := Greeted(peer)],
               past := s.past.(newcomers := s.past.newcomers + {id}, keys := s.past.keys + {peer.key},
                               freshKeys := s.past.freshKeys && peer.key !in s.past.keys))
  {
    var ready := MakeReady(s, id);
    hide Linked;
    assert ready.conns == s.conns[id := KNOCKING.(peer := peer, stage := Ready)];
    assert Sent(luck, id, ready.conns[id], Welcome(peer.id)) == Greeted(peer);
    assert SendTo(ready, luck, id, Welcome(peer.id)).conns == s.conns[id := Greeted(peer)];
  }

  lemma {:induction false} NobodyEvicted(s: Server, luck: Luck, id: ConnectionId, member: MemberId, n: nat)
    requires Linked(s) && n <= |s.order| && forall o <- s.order :: o != id ==> !Evicts(s.conns[o], member)
    ensures EvictAll(s, luck, id, member, n) == s
  {
    hide Mutual, Evict;
    if n > 0 {
      NobodyEvicted(s, luck, id, member, n - 1);
      assert s.order[n - 1] in s.order;
    }
  }

  /** The first member of a lobby is handed an empty list. */
  lemma {:induction false} EntersEmpty(s: Server, luck: Luck, ref: LobbyRef, id: ConnectionId)
    requires Linked(s) && ref in s.lobbies && s.lobbies[ref].members == [] && id in s.conns && s.conns[id].Live()
    requires s.conns[id].lobby.None? && luck(id, |s.conns[id].sent|)
    ensures var c := s.conns[id];
            EnterLobby(s, luck, ref, id) ==
            s.(conns := s.conns[id := c.(lobby := Some(ref), sent := c.sent + [LobbyJoined([])])],
               lobbies := s.lobbies[ref := s.lobbies[ref].(members := [id])],
               events := s.events + [Arrived(LobbyId(ref), MemberOf(c))])
  {
    EnterLobbyIs(s, luck, ref, id);
    hide EnterLobby, Mutual, LobbyId;
    assert [] + [id] == [id];
    assert EnterLobby(s, luck, ref, id).conns ==
           s.conns[id := s.conns[id].(lobby := Some(ref), sent := s.conns[id].sent + [LobbyJoined([])])];
  }

  lemma {:induction false} CreateIs(s: Server, luck: Luck, id: ConnectionId, name: string, verifier: nat)
    requires Linked(s) && id in s.conns && s.conns[id].lobby.None? && s.listing == [] && id !in s.past.newcomers
    ensures var empty := OpenLobby(s, name, verifier);
            && empty.conns == s.conns && s.created + 1 in empty.lobbies
            && HandleRequest(s, luck, id, Create(Some(name), true, verifier)) == EnterLobby(empty, luck, s.created + 1, id)
  {
    hide Linked, EnterLobby, SendTo, SendGoodbye, Refuse, Put;
    assert s.(past := s.past.(patient := s.past.patient && id !in s.past.newcomers)) == s;
  }

  /** A live client opens the only lobby. */
  lemma {:induction false} Opens(s: Server, luck: Luck, id: ConnectionId, name: string, verifier: nat)
    requires Linked(s) && id in s.conns && s.conns[id].Live() && s.conns[id].lobby.None? && luck(id, |s.conns[id].sent|)
    requires s.listing == [] && s.created + 1 < TWO_32 && id !in s.past.newcomers
    ensures HandleRequest(s, luck, id, Create(Some(name), true, verifier)) == Alone(s, id, name, verifier)
  {
    CreateIs(s, luck, id, name, verifier);
    FirstMember(s, luck, id, name, verifier);
    hide *;
  }

  lemma {:induction false} FirstMember(s: Server, luck: Luck, id: ConnectionId, name: string, verifier: nat)
    requires Linked(s) && id in s.conns && s.conns[id].Live() && s.conns[id].lobby.None? && luck(id, |s.conns[id].sent|)
    requires s.listing == [] && s.created + 1 < TWO_32
    ensures var empty := OpenLobby(s, name, verifier);
            && empty.conns == s.conns && s.created + 1 in empty.lobbies
            && EnterLobby(empty, luck, s.created + 1, id) == Alone(s, id, name, verifier)
  {
    hide Linked, EnterLobby, LobbyId, Alone;
    SmallId(s.created + 1);
    EntersEmpty(OpenLobby(s, name, verifier), luck, s.created + 1, id);
    AloneIs(s, id, name, verifier);
  }

  /** The server after its only lobby was opened. */
  function Alone(s: Server, id: ConnectionId, name: string, verifier: nat): Server
    requires id in s.conns && s.created + 1 < TWO_32
  {
    var ref, c := s.created + 1, s.conns[id];
    s.(conns := s.conns[id := c.(lobby := Some(ref), sent := c.sent + [LobbyJoined([])])], created := ref, listing := [ref],
       lobbies := s.lobbies[ref := Lobby(name, verifier, [id])],
       events := s.events + [Opened(ref, name), Arrived(ref, MemberOf(c))])
  }

  lemma {:induction false} AloneIs(s: Server, id: ConnectionId, name: string, verifier: nat)
    requires id in s.conns && s.created + 1 < TWO_32 && s.listing == []
    ensures var ref, c := s.created + 1, s.conns[id];
            s.(listing := s.listing + [ref], created := ref,
               conns := s.conns[id := c.(lobby := Some(ref), sent := c.sent + [LobbyJoined([])])],
               lobbies := s.lobbies[ref := Lobby(name, verifier, [])][ref := Lobby(name, verifier, [id])],
               events := s.events + [Opened(ref, name)] + [Arrived(ref, MemberOf(c))]) == Alone(s, id, name, verifier)
  {
    var ref := s.created + 1;
    assert s.listing + [ref] == [ref];
    assert s.events + [Opened(ref, name)] + [Arrived(ref, MemberOf(s.conns[id]))] ==
           s.events + [Opened(ref, name), Arrived(ref, MemberOf(s.conns[id]))];
    assert s.lobbies[ref := Lobby(name, verifier, [])][ref := Lobby(name, verifier, [id])] == s.lobbies[ref := Lobby(name, verifier, [id])];
  }

  /** What a live client that asks for the only lobby is told. */
  lemma {:induction false} Joins(s: Server, luck: Luck, id: ConnectionId, ref: LobbyRef, peer: Peer)
    requires Linked(s) && id in s.conns && s.conns[id].Live() && s.conns[id].lobby.None? && luck(id, |s.conns[id].sent|)
    requires s.listing == [ref] && PeersOf(s.conns, s.lobbies[ref].members) == [peer]
    ensures var lobby := s.lobbies[ref];
            HandleRequest(s, luck, id, Join(Some(lobby.name), true, lobby.verifier)).conns[id] ==
            s.conns[id].(lobby := Some(ref), sent := s.conns[id].sent + [LobbyJoined([peer])])
  {
    var noted := s.(past := s.past.(patient := s.past.patient && id !in s.past.newcomers));
    JoinIs(s, luck, id, ref);
    EnterLobbyIs(noted, luck, ref, id);
    hide HandleRequest, EnterLobby, Linked, LobbyId;
  }

  lemma {:induction false} JoinIs(s: Server, luck: Luck, id: ConnectionId, ref: LobbyRef)
    requires Linked(s) && id in s.conns && s.conns[id].lobby.None? && s.listing == [ref]
    ensures ref in s.lobbies
    ensures var noted := s.(past := s.past.(patient := s.past.patient && id !in s.past.newcomers));
            && Linked(noted)
            && HandleRequest(s, luck, id, Join(Some(s.lobbies[ref].name), true, s.lobbies[ref].verifier)) == EnterLobby(noted, luck, ref, id)
  {
    assert ref in s.listing;
    hide Tabled, Mutual, EnterLobby, SendTo, SendGoodbye, Refuse, Put, OpenLobby;
  }

  // The steps of the runs, one action at a time.

  lemma {:induction false} Step1()
    ensures Act(STARTED, EVERY_SEND_FITS, EndRound) == STARTED
  {}

  lemma {:induction false} Step2()
    ensures Act(STARTED, EVERY_SEND_FITS, Accept(1)) == ONE_ACCEPTED
  {}

  lemma {:induction false} Step3()
    ensures Linked(ONE_ACCEPTED) && Act(ONE_ACCEPTED, EVERY_SEND_FITS, Receive(1, ClientHello(true))) == ONE_KNOCKING
  {}

  lemma {:induction false} OneLinked()
    ensures Linked(ONE_KNOCKING)
  {}

  lemma {:induction false} Step4()
    ensures Linked(ONE_KNOCKING)
    ensures Act(ONE_KNOCKING, EVERY_SEND_FITS, Receive(1, Proof(FIRST))) == ONE_NEW
  {
    OneLinked();
    hide Linked;
    Welcomes(ONE_KNOCKING, EVERY_SEND_FITS, 1, FIRST);
    hide HandleIdentity;
    assert {} + {1} == {1} && map[1 := KNOCKING][1 := FIRST_READY] == map[1 := FIRST_READY];
  }

  lemma {:induction false} Step5()
    ensures Linked(ONE_NEW) && Act(ONE_NEW, EVERY_SEND_FITS, Flush(1, 1)) == ONE_NEW
    ensures Act(ONE_NEW, EVERY_SEND_FITS, EndRound) == ONE_READY
  {
    assert ONE_NEW.conns[1 := FIRST_READY] == ONE_NEW.conns;
    assert CloseDead(ONE_NEW, EVERY_SEND_FITS, 0) == ONE_NEW;
  }

  lemma {:induction false} Step6()
    ensures Linked(ONE_READY) && Act(ONE_READY, EVERY_SEND_FITS, Accept(2)) == TWO_ACCEPTED
  {}

  lemma {:induction false} Step7()
    ensures Linked(TWO_ACCEPTED)
    ensures Act(TWO_ACCEPTED, EVERY_SEND_FITS, Receive(1, Create(Some("lobby"), true, 5))) == OPENED
  {
    TwoLinked();
    hide Linked;
    Opens(TWO_ACCEPTED, EVERY_SEND_FITS, 1, "lobby", 5);
    hide HandleRequest, Alone;
    AloneIsOpened();
  }

  lemma {:induction false} TwoLinked()
    ensures Linked(TWO_ACCEPTED)
  {}

  lemma {:induction false} AloneIsOpened()
    ensures Alone(TWO_ACCEPTED, 1, "lobby", 5) == OPENED
  {
    assert TWO_ACCEPTED.conns[1 := FIRST_IN] == OPENED.conns;
    assert map[][1 := Lobby("lobby", 5, [1])] == OPENED.lobbies;
    assert FIRST_READY.sent + [LobbyJoined([])] == FIRST_IN.sent;
    assert [] + [Opened(1, "lobby"), Arrived(1, MemberOf(FIRST_READY))] == OPENED.events;
  }

  lemma {:induction false} OpenedLinked()
    ensures Linked(OPENED)
  {
    assert LobbyId(1) == 1;
  }

  /** Other stages and flags, but the lobby as it was opened. */
  lemma {:induction false} TwoInLobbyLinked(s: Server)
    requires s.order == [1, 2] && s.conns.Keys == {1, 2} && s.conns[1].lobby == Some(1) && s.conns[2].lobby == None
    requires s.listing == OPENED.listing && s.lobbies == OPENED.lobbies && s.created == 1
    ensures Linked(s)
  {
    OpenedLinked();
    assert SameLobbies(OPENED.conns, s.conns);
    SameLobbiesLinked(OPENED, s.conns);
  }

  lemma {:induction false} Step8()
    ensures Linked(OPENED) && Act(OPENED, EVERY_SEND_FITS, Receive(2, ClientHello(true))) == TWO_KNOCKING
  {
    OpenedLinked();
    hide Linked;
    assert OPENED.conns[2 := KNOCKING] == TWO_KNOCKING.conns;
  }

  lemma {:induction false} Step9()
    ensures Linked(TWO_KNOCKING) && Act(TWO_KNOCKING, EVERY_SEND_FITS, Flush(1, 2)) == TWO_KNOCKING
    ensures Act(TWO_KNOCKING, EVERY_SEND_FITS, EndRound) == TWO_KNOCKING
  {
    TwoInLobbyLinked(TWO_KNOCKING);
    NoneDead(TWO_KNOCKING);
    hide Linked, CloseDead;
    assert TWO_KNOCKING.conns[1 := FIRST_IN] == TWO_KNOCKING.conns;
  }

  lemma {:induction false} NoneDead(s: Server)
    requires Linked(s) && |s.order| == 2 && forall c <- s.order :: !s.conns[c].dead
    ensures CloseDead(s, EVERY_SEND_FITS, 2) == s
  {
    hide Linked;
    assert CloseDead(s, EVERY_SEND_FITS, 0) == CloseDead(s, EVERY_SEND_FITS, 1) == s;
  }

  // ---------------------------------------------------------------- a client that does not wait

  const BROKEN := TWO_KNOCKING.(conns := map[1 := FIRST_IN.(dead := true), 2 := KNOCKING])
  const NAMESAKE_READY := FIRST_READY.(peer := NAMESAKE)
  const BROKEN_READY := BROKEN.(conns := map[1 := FIRST_IN.(dead := true), 2 := NAMESAKE_READY], past := Past({2}, {1, 2}, true, true))

  lemma {:induction false} Step10()
    ensures Act(TWO_KNOCKING, EVERY_SEND_FITS, Fail(1)) == BROKEN
  {}

  lemma {:induction false} BrokenAlone()
    ensures Linked(BROKEN)
    ensures forall o <- BROKEN.order :: o != 2 ==> !Evicts(BROKEN.conns[o], 7) && !BROKEN.conns[o].Live()
  {
    TwoInLobbyLinked(BROKEN);
  }

  lemma {:induction false} Step11()
    ensures Linked(BROKEN) && Act(BROKEN, EVERY_SEND_FITS, Receive(2, Proof(NAMESAKE))) == BROKEN_READY
  {
    BrokenAlone();
    hide Linked;
    Welcomes(BROKEN, EVERY_SEND_FITS, 2, NAMESAKE);
    hide HandleIdentity;
    assert {1} + {2} == {1, 2} && {} + {2} == {2};
    assert BROKEN.conns[2 := NAMESAKE_READY] == BROKEN_READY.conns;
  }

  lemma {:induction false} Step12()
    ensures Linked(BROKEN_READY) && 2 in Act(BROKEN_READY, EVERY_SEND_FITS, JOINING).conns
    ensures var c := Act(BROKEN_READY, EVERY_SEND_FITS, JOINING).conns[2];
            c.Live() && c.peer == NAMESAKE && c.sent == [Welcome(7), LobbyJoined([FIRST])]
  {
    TwoInLobbyLinked(BROKEN_READY);
    hide Linked;
    JoinsFirst(BROKEN_READY);
    assert [Welcome(7)] + [LobbyJoined([FIRST])] == [Welcome(7), LobbyJoined([FIRST])];
  }

  /** The second client asks for the lobby and is told of the first. */
  lemma {:induction false} JoinsFirst(s: Server)
    requires Linked(s) && s.listing == [1] && s.lobbies == OPENED.lobbies && 1 in s.conns && s.conns[1].peer == FIRST
    requires 2 in s.conns && s.conns[2].Live() && s.conns[2].lobby.None?
    ensures 2 in Act(s, EVERY_SEND_FITS, JOINING).conns
    ensures Act(s, EVERY_SEND_FITS, JOINING).conns[2] ==
            s.conns[2].(lobby := Some(1), sent := s.conns[2].sent + [LobbyJoined([FIRST])])
  {
    hide Linked;
    OnlyMember(s.conns, 1);
    Joins(s, EVERY_SEND_FITS, 2, 1, FIRST);
    hide HandleRequest;
  }

  lemma {:induction false} OnlyMember(conns: Connections, m: ConnectionId)
    requires m in conns
    ensures PeersOf(conns, [m]) == [conns[m].peer]
  {}

  // ---------------------------------------------------------------- a key that is used again

  const FIRST_LEAVING := FIRST_IN.(closing := true, sent := FIRST_IN.sent + [Goodbye])
  const SHARER_READY := Connection(Ready, KEY_SHARER, None, false, false, [Welcome(8)])
  const LEAVING := TWO_KNOCKING.(conns := map[1 := FIRST_LEAVING, 2 := KNOCKING])
  const LEAVING_READY := LEAVING.(conns := map[1 := FIRST_LEAVING, 2 := SHARER_READY], past := Past({}, {1}, true, false))
  const SHARING := LEAVING_READY.(past := LEAVING_READY.past.(newcomers := {2}))

  lemma {:induction false} Step13()
    ensures Linked(TWO_KNOCKING) && Act(TWO_KNOCKING, EVERY_SEND_FITS, Receive(1, Unknown)) == LEAVING
  {
    TwoInLobbyLinked(TWO_KNOCKING);
    hide Linked;
    assert SendGoodbye(TWO_KNOCKING, EVERY_SEND_FITS, 1).conns == LEAVING.conns;
  }

  lemma {:induction false} LeavingAlone()
    ensures Linked(LEAVING)
    ensures forall o <- LEAVING.order :: o != 2 ==> !Evicts(LEAVING.conns[o], 8) && !LEAVING.conns[o].Live()
  {
    TwoInLobbyLinked(LEAVING);
  }

  lemma {:induction false} Step14()
    ensures Linked(LEAVING)
    ensures Act(LEAVING, EVERY_SEND_FITS, Receive(2, Proof(KEY_SHARER))) == SHARING
  {
    LeavingAlone();
    hide Linked;
    Welcomes(LEAVING, EVERY_SEND_FITS, 2, KEY_SHARER);
    hide HandleIdentity;
    assert {1} + {1} == {1} && {} + {2} == {2};
    assert LEAVING.conns[2 := SHARER_READY] == LEAVING_READY.conns;
  }

  lemma {:induction false} Step15()
    ensures Linked(SHARING) && Act(SHARING, EVERY_SEND_FITS, Flush(2, 1)) == SHARING
    ensures Act(SHARING, EVERY_SEND_FITS, EndRound) == LEAVING_READY
  {
    TwoInLobbyLinked(SHARING);
    NoneDead(SHARING);
    hide Linked, CloseDead;
    assert SHARING.conns[2 := SHARER_READY] == SHARING.conns;
  }

  lemma {:induction false} Step16()
    ensures Linked(LEAVING_READY) && 2 in Act(LEAVING_READY, EVERY_SEND_FITS, JOINING).conns
    ensures var c := Act(LEAVING_READY, EVERY_SEND_FITS, JOINING).conns[2];
            c.Live() && c.peer == KEY_SHARER && c.sent == [Welcome(8), LobbyJoined([FIRST])]
  {
    TwoInLobbyLinked(LEAVING_READY);
    hide Linked;
    JoinsFirst(LEAVING_READY);
    assert [Welcome(8)] + [LobbyJoined([FIRST])] == [Welcome(8), LobbyJoined([FIRST])];
  }

  // ---------------------------------------------------------------- the runs

  lemma {:induction false} RunBy(luck: Luck, actions: seq<Action>, k: nat, s: Server, t: Server)
    requires k < |actions| && Linked(s) && Run(luck, actions[..k]) == s && Act(s, luck, actions[k]) == t
    ensures Run(luck, actions[..k + 1]) == t
  {
    assert actions[..k + 1][..k] == actions[..k];
    RunNext(luck, actions[..k + 1]);
  }

  lemma {:induction false} OpeningIs()
    ensures |OPENING| == 11 && OPENING[0] == EndRound && OPENING[1] == Accept(1) && OPENING[2] == Receive(1, ClientHello(true))
    ensures OPENING[3] == Receive(1, Proof(FIRST)) && OPENING[4] == Flush(1, 1) && OPENING[5] == EndRound
    ensures OPENING[6] == Accept(2) && OPENING[7] == Receive(1, Create(Some("lobby"), true, 5))
    ensures OPENING[8] == Receive(2, ClientHello(true)) && OPENING[9] == Flush(1, 2) && OPENING[10] == EndRound
  {}

  lemma {:induction false} OpeningRuns()
    ensures |OPENING| == 11 && Run(EVERY_SEND_FITS, OPENING[..4]) == ONE_NEW && Run(EVERY_SEND_FITS, OPENING) == TWO_KNOCKING
  {
    hide *;
    var l := EVERY_SEND_FITS;
    OpeningIs();
    NothingRuns(l);
    assert OPENING[..0] == [] && OPENING[..11] == OPENING;
    Step1(); RunBy(l, OPENING, 0, STARTED, STARTED);
    Step2(); RunBy(l, OPENING, 1, STARTED, ONE_ACCEPTED);
    Step3(); RunBy(l, OPENING, 2, ONE_ACCEPTED, ONE_KNOCKING);
    Step4(); RunBy(l, OPENING, 3, ONE_KNOCKING, ONE_NEW);
    Step5(); RunBy(l, OPENING, 4, ONE_NEW, ONE_NEW); RunBy(l, OPENING, 5, ONE_NEW, ONE_READY);
    Step6(); RunBy(l, OPENING, 6, ONE_READY, TWO_ACCEPTED);
    Step7(); RunBy(l, OPENING, 7, TWO_ACCEPTED, OPENED);
    Step8(); RunBy(l, OPENING, 8, OPENED, TWO_KNOCKING);
    Step9(); RunBy(l, OPENING, 9, TWO_KNOCKING, TWO_KNOCKING); RunBy(l, OPENING, 10, TWO_KNOCKING, TWO_KNOCKING);
  }

  lemma {:induction false} NothingRuns(luck: Luck)
    ensures Linked(STARTED) && Run(luck, []) == STARTED
  {}

  // ---------------------------------------------------------------- what the runs keep and break

  /** One more action. */
  lemma {:induction false} OneMore(luck: Luck, actions: seq<Action>, action: Action, s: Server, t: Server, phase: Phase, next: Phase)
    requires Linked(s) && Run(luck, actions) == s && Act(s, luck, action) == t
    requires PhaseAfter(actions) == Some(phase) && Next(phase, action) == Some(next)
    ensures Run(luck, actions + [action]) == t && PhaseAfter(actions + [action]) == Some(next)
  {
    assert (actions + [action])[..|actions|] == actions;
    RunNext(luck, actions + [action]);
  }

  lemma {:induction false} PhaseBy(actions: seq<Action>, k: nat, phase: Phase)
    requires k < |actions| && PhaseAfter(actions[..k]) == Some(phase) && Next(phase, actions[k]).Some?
    ensures PhaseAfter(actions[..k + 1]) == Next(phase, actions[k])
  {
    assert actions[..k + 1][..k] == actions[..k];
  }

  lemma {:induction false} OpeningPhases()
    ensures PhaseAfter(OPENING) == Some(Accepting)
  {
    OpeningIs();
    hide PhaseAfter, OPENING;
    assert PhaseAfter(OPENING[..0]) == Some(Outgoing) by { NoPhases(); assert OPENING[..0] == []; }
    PhaseBy(OPENING, 0, Outgoing);
    PhaseBy(OPENING, 1, Accepting);
    PhaseBy(OPENING, 2, Accepting);
    PhaseBy(OPENING, 3, Receiving);
    PhaseBy(OPENING, 4, Receiving);
    PhaseBy(OPENING, 5, Flushing);
    PhaseBy(OPENING, 6, Accepting);
    PhaseBy(OPENING, 7, Accepting);
    PhaseBy(OPENING, 8, Receiving);
    PhaseBy(OPENING, 9, Receiving);
    PhaseBy(OPENING, 10, Flushing);
    assert OPENING[..11] == OPENING;
  }

  lemma {:induction false} NoPhases()
    ensures PhaseAfter([]) == Some(Outgoing)
  {}

  /** One more action keeps what clients promise when it is neither a proof nor a request, or keeps to it. */
  lemma {:induction false} OneMoreWaits(luck: Luck, actions: seq<Action>, action: Action)
    requires ClientsWait(luck, actions) && (Asks(action) ==> Welcomed(Wire(luck, actions, action.id)))
    ensures ClientsWait(luck, actions + [action])
  {
    var more := actions + [action];
    hide Wire;
    forall j | 0 <= j < |more| && Asks(more[j]) ensures Welcomed(Wire(luck, more[..j], more[j].id)) {
      if j < |actions| {
        assert more[..j] == actions[..j] && more[j] == actions[j];
      } else {
        assert more[..j] == actions;
      }
    }
  }

  /** No proof used a key other than these two, each at most once. */
  lemma {:induction false} OneMoreFresh(actions: seq<Action>, action: Action)
    requires KeysFresh(actions)
    requires Proves(action) ==> forall i :: 0 <= i < |actions| && Proves(actions[i]) ==> actions[i].frame.hello.peer.key != action.frame.hello.peer.key
    ensures KeysFresh(actions + [action])
  {}

  /** The first client's `Welcome` has left before it asks. */
  lemma {:induction false} OpeningWelcomes()
    ensures Welcomed(Wire(EVERY_SEND_FITS, OPENING[..7], 1))
  {
    hide OPENING, Run, Wire;
    var l := EVERY_SEND_FITS;
    OpeningIs();
    OpeningRuns();
    WireFlushed(l, OPENING, 4, ONE_NEW, 1, 1);
    WireKept(l, OPENING, 5, 1);
    WireKept(l, OPENING, 6, 1);
  }

  lemma {:induction false} WireFlushed(luck: Luck, actions: seq<Action>, k: nat, s: Server, id: ConnectionId, through: nat)
    requires k < |actions| && actions[k] == Flush(id, through) && Run(luck, actions[..k]) == s
    requires id in s.conns && !s.conns[id].dead && |s.conns[id].sent| <= through
    ensures Wire(luck, actions[..k + 1], id) == s.conns[id].sent
  {
    hide Run;
    assert actions[..k + 1][..k] == actions[..k];
  }

  lemma {:induction false} WireKept(luck: Luck, actions: seq<Action>, k: nat, id: ConnectionId)
    requires k < |actions| && !actions[k].Flush? && actions[k] != Accept(id)
    ensures Wire(luck, actions[..k + 1], id) == Wire(luck, actions[..k], id)
  {
    hide Run;
    assert actions[..k + 1][..k] == actions[..k];
  }

  lemma {:induction false} OpeningPromises()
    ensures ClientsWait(EVERY_SEND_FITS, OPENING) && KeysFresh(OPENING)
    ensures forall i :: 0 <= i < |OPENING| && Proves(OPENING[i]) ==> i == 3
    ensures |OPENING| == 11 && OPENING[3] == Receive(1, Proof(FIRST))
  {
    OpeningIs();
    OpeningWelcomes();
    hide OPENING, Wire, Welcomed;
  }

  /** Nothing has gone out to a connection that was never flushed. */
  lemma {:induction false} NeverFlushed(luck: Luck, actions: seq<Action>, id: ConnectionId)
    requires forall i :: 0 <= i < |actions| && actions[i].Flush? ==> actions[i].id != id
    ensures Wire(luck, actions, id) == []
  {
    hide Run;
    if actions != [] {
      var front := actions[..|actions| - 1];
      forall i | 0 <= i < |front| && front[i].Flush? ensures front[i].id != id { assert front[i] == actions[i]; }
      NeverFlushed(luck, front, id);
    }
  }

  /** A client that is handed a list with its own identifier or key fails. */
  lemma {:induction false} HandedItself(self: Peer, peer: Peer)
    requires peer.id == self.id || peer.key == self.key
    ensures Fold(self, [Welcome(self.id), LobbyJoined([peer])]) == Failed
  {
    assert Fold(self, []) == Waiting;
    FoldNext(self, [], Welcome(self.id));
    assert [] + [Welcome(self.id)] == [Welcome(self.id)];
    FoldNext(self, [Welcome(self.id)], LobbyJoined([peer]));
    assert [Welcome(self.id)] + [LobbyJoined([peer])] == [Welcome(self.id), LobbyJoined([peer])];
    KnownPeerRefused(self, [peer], 0);
  }

  /** Which steps the runs take between phases. */
  lemma {:induction false} ReceivingOn()
    ensures forall id, frame :: Next(Receiving, Receive(id, frame)) == Some(Receiving)
    ensures forall id, frame :: Next(Accepting, Receive(id, frame)) == Some(Receiving)
    ensures Next(Accepting, Fail(1)) == Some(Receiving) && Next(Receiving, Flush(2, 1)) == Some(Flushing)
    ensures Next(Flushing, EndRound) == Some(Accepting) && JOINING.Receive? && JOINING.id == 2 && Asks(JOINING) && !Proves(JOINING)
  {}

  lemma {:induction false} ImpatientRuns(broken: seq<Action>, proven: seq<Action>)
    requires broken == OPENING + [Fail(1)] && proven == broken + [Receive(2, Proof(NAMESAKE))]
    ensures InRounds(proven + [JOINING])
    ensures var s := Run(EVERY_SEND_FITS, proven + [JOINING]);
            2 in s.conns && s.conns[2].Live() && s.conns[2].peer == NAMESAKE && s.conns[2].sent == [Welcome(7), LobbyJoined([FIRST])]
  {
    hide Run, Act, Linked, PhaseAfter, Next, OPENING, JOINING, BROKEN_READY, BROKEN, TWO_KNOCKING, Proof;
    var l := EVERY_SEND_FITS;
    OpeningRuns();
    OpeningPhases();
    ReceivingOn();
    Step9(); Step10(); Step11(); Step12();
    OneMore(l, OPENING, Fail(1), TWO_KNOCKING, BROKEN, Accepting, Receiving);
    OneMore(l, broken, Receive(2, Proof(NAMESAKE)), BROKEN, BROKEN_READY, Receiving, Receiving);
    OneMore(l, proven, JOINING, BROKEN_READY, Act(BROKEN_READY, l, JOINING), Receiving, Receiving);
  }

  lemma {:induction false} ImpatientPromises(broken: seq<Action>, proven: seq<Action>)
    requires broken == OPENING + [Fail(1)] && proven == broken + [Receive(2, Proof(NAMESAKE))]
    ensures KeysFresh(proven + [JOINING]) && ClientsWait(EVERY_SEND_FITS, proven) && !ClientsWait(EVERY_SEND_FITS, proven + [JOINING])
  {
    var l := EVERY_SEND_FITS;
    OpeningIs();
    OpeningPromises();
    ReceivingOn();
    hide OPENING, JOINING, Wire, ClientsWait, KeysFresh;
    OneMoreWaits(l, OPENING, Fail(1));
    OneMoreWaits(l, broken, Receive(2, Proof(NAMESAKE)));
    OneMoreFresh(OPENING, Fail(1));
    OneMoreFresh(broken, Receive(2, Proof(NAMESAKE)));
    OneMoreFresh(proven, JOINING);
    NeverFlushed(l, proven, 2);
    EarlyRequest(l, proven, JOINING);
  }

  lemma {:induction false} EarlyRequest(luck: Luck, actions: seq<Action>, action: Action)
    requires Asks(action) && !Welcomed(Wire(luck, actions, action.id))
    ensures !ClientsWait(luck, actions + [action])
  {
    hide Wire;
    var more := actions + [action];
    assert more[..|actions|] == actions && Asks(more[|actions|]);
  }

  /**
   A client that asks for a lobby before it has read its `Welcome`, and nothing else wrong: it is let in
   and handed the list with its own broken connection still in it.
   */
  lemma {:induction false} ImpatientClientFails()
    ensures InRounds(IMPATIENT) && KeysFresh(IMPATIENT)
    ensures ClientsWait(EVERY_SEND_FITS, IMPATIENT[..|IMPATIENT| - 1]) && !ClientsWait(EVERY_SEND_FITS, IMPATIENT)
    ensures var s := Run(EVERY_SEND_FITS, IMPATIENT);
            2 in s.conns && s.conns[2].Live() && Fold(s.conns[2].peer, s.conns[2].sent) == Failed
  {
    var broken := OPENING + [Fail(1)];
    var proven := broken + [Receive(2, Proof(NAMESAKE))];
    assert IMPATIENT == proven + [JOINING] && IMPATIENT[..|IMPATIENT| - 1] == proven;
    hide OPENING, IMPATIENT, ClientsWait, KeysFresh, PhaseAfter, Run, Fold;
    ImpatientRuns(broken, proven);
    ImpatientPromises(broken, proven);
    HandedItself(NAMESAKE, FIRST);
  }

  lemma {:induction false} ReusingRuns(leaving: seq<Action>, proven: seq<Action>, flushed: seq<Action>, ended: seq<Action>)
    requires leaving == OPENING + [Receive(1, Unknown)] && proven == leaving + [Receive(2, Proof(KEY_SHARER))]
    requires flushed == proven + [Flush(2, 1)] && ended == flushed + [EndRound]
    ensures InRounds(ended + [JOINING]) && Run(EVERY_SEND_FITS, proven) == SHARING
    ensures var s := Run(EVERY_SEND_FITS, ended + [JOINING]);
            2 in s.conns && s.conns[2].Live() && s.conns[2].peer == KEY_SHARER && s.conns[2].sent == [Welcome(8), LobbyJoined([FIRST])]
  {
    hide Run, Act, Linked, PhaseAfter, Next, OPENING, JOINING, LEAVING_READY, LEAVING, SHARING, TWO_KNOCKING, Proof;
    var l := EVERY_SEND_FITS;
    OpeningRuns();
    OpeningPhases();
    ReceivingOn();
    Step9(); Step13(); Step14(); Step15(); Step16();
    OneMore(l, OPENING, Receive(1, Unknown), TWO_KNOCKING, LEAVING, Accepting, Receiving);
    OneMore(l, leaving, Receive(2, Proof(KEY_SHARER)), LEAVING, SHARING, Receiving, Receiving);
    OneMore(l, proven, Flush(2, 1), SHARING, SHARING, Receiving, Flushing);
    OneMore(l, flushed, EndRound, SHARING, LEAVING_READY, Flushing, Accepting);
    OneMore(l, ended, JOINING, LEAVING_READY, Act(LEAVING_READY, l, JOINING), Accepting, Receiving);
  }

  lemma {:induction false} ReusingPromises(leaving: seq<Action>, proven: seq<Action>, flushed: seq<Action>, ended: seq<Action>)
    requires leaving == OPENING + [Receive(1, Unknown)] && proven == leaving + [Receive(2, Proof(KEY_SHARER))]
    requires flushed == proven + [Flush(2, 1)] && ended == flushed + [EndRound]
    requires Run(EVERY_SEND_FITS, proven) == SHARING
    ensures ClientsWait(EVERY_SEND_FITS, ended + [JOINING]) && !KeysFresh(ended + [JOINING])
  {
    var l := EVERY_SEND_FITS;
    OpeningIs();
    OpeningPromises();
    ReceivingOn();
    hide OPENING, JOINING, Wire, ClientsWait, KeysFresh, Run;
    OneMoreWaits(l, OPENING, Receive(1, Unknown));
    OneMoreWaits(l, leaving, Receive(2, Proof(KEY_SHARER)));
    OneMoreWaits(l, proven, Flush(2, 1));
    OneMoreWaits(l, flushed, EndRound);
    SharerHears(proven);
    OneMoreWaits(l, ended, JOINING);
    SameKeyTwice(ended + [JOINING], 3, 12);
  }

  lemma {:induction false} SharerHears(proven: seq<Action>)
    requires Run(EVERY_SEND_FITS, proven) == SHARING
    ensures Wire(EVERY_SEND_FITS, proven + [Flush(2, 1)] + [EndRound], 2) == [Welcome(8)]
  {
    var l := EVERY_SEND_FITS;
    assert SHARING.conns[2] == SHARER_READY;
    hide Run;
    var flushed := proven + [Flush(2, 1)];
    assert flushed[..|proven|] == proven && (flushed + [EndRound])[..|flushed|] == flushed;
    assert Wire(l, flushed, 2) == [Welcome(8)];
  }

  lemma {:induction false} SameKeyTwice(actions: seq<Action>, i: nat, j: nat)
    requires i < j < |actions| && Proves(actions[i]) && Proves(actions[j])
    requires actions[i].frame.hello.peer.key == actions[j].frame.hello.peer.key
    ensures !KeysFresh(actions)
  {}

  /**
   A client that waits, but with a signing key that was used before, and nothing else wrong: it is handed
   the list with the other owner of its key, who was told to leave but is still being sent to.
   */
  lemma {:induction false} ReusedKeyFails()
    ensures InRounds(REUSING) && ClientsWait(EVERY_SEND_FITS, REUSING) && !KeysFresh(REUSING)
    ensures var s := Run(EVERY_SEND_FITS, REUSING);
            2 in s.conns && s.conns[2].Live() && Fold(s.conns[2].peer, s.conns[2].sent) == Failed
  {
    var leaving := OPENING + [Receive(1, Unknown)];
    var proven := leaving + [Receive(2, Proof(KEY_SHARER))];
    var flushed := proven + [Flush(2, 1)];
    var ended := flushed + [EndRound];
    assert REUSING == ended + [JOINING];
    hide OPENING, REUSING, ClientsWait, KeysFresh, PhaseAfter, Run, Fold;
    ReusingRuns(leaving, proven, flushed, ended);
    ReusingPromises(leaving, proven, flushed, ended);
    HandedItself(KEY_SHARER, FIRST);
  }
}
