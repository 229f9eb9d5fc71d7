/** Rounds and runs of the lobby server, and what holds in every run. */
module LobbyServerRuns {
  import opened Machine
  import opened Options
  import opened LobbyMembers
  import opened LobbyServer
  import opened LobbyServerInvariant
  import opened LobbyServerSteps
  import opened LobbyServerHandlers
  import opened LobbyServerArrivals

  // ---------------------------------------------------------------- closing

  /** Taking a connection that is in no lobby out of the table. */
  lemma {:induction false} RemoveKeeps(s: Server, t: Server, id: ConnectionId)
    requires Inv(s) && id in s.conns && s.conns[id].lobby.None? && Linked(t)
    requires t == s.(order := t.order, conns := s.conns - {id}, past := s.past.(newcomers := s.past.newcomers - {id}))
    requires forall c <- s.order :: c != id ==> c in t.order
    requires |t.order| <= |s.order|
    ensures Inv(t)
  {
    hide Logged, AllInStep, Fold, Mutual, Unique, Furnished, KeysDistinct, LobbiedDistinct, Displaced;
    RemoveLogged(s, t, id);
    RemoveFewer(s.conns, id, s.past);
    if Kept(s.past) { RemoveInStep(s, t, id); }
  }

  lemma {:induction false} RemoveFewer(conns: Connections, id: ConnectionId, past: Past)
    requires Unique(conns)
    ensures Unique(conns - {id})
    ensures KeysDistinct(conns, past.keys) ==> KeysDistinct(conns - {id}, past.keys)
    ensures LobbiedDistinct(conns) ==> LobbiedDistinct(conns - {id})
    ensures Displaced(conns, past.newcomers) ==> Displaced(conns - {id}, past.newcomers - {id})
  {}

  lemma {:induction false} RemoveLogged(s: Server, t: Server, id: ConnectionId)
    requires Linked(s) && Linked(t) && id in s.conns && s.conns[id].lobby.None? && t.conns == s.conns - {id}
    requires t.lobbies == s.lobbies && t.events == s.events && t.created == s.created && Logged(s)
    ensures Logged(t)
  {
    forall ref <- s.lobbies ensures MembersOf(t.conns, s.lobbies[ref].members) == MembersOf(s.conns, s.lobbies[ref].members) {
      MembersSame(s.conns, t.conns, s.lobbies[ref].members);
    }
  }

  lemma {:induction false} RemoveInStep(s: Server, t: Server, id: ConnectionId)
    requires Linked(s) && Linked(t) && id in s.conns && s.conns[id].lobby.None? && t.conns == s.conns - {id}
    requires t.lobbies == s.lobbies && AllInStep(s.conns, s.lobbies)
    ensures AllInStep(t.conns, t.lobbies)
  {
    hide Fold;
    forall c <- t.conns ensures InStep(t.conns[c], c, t.conns, t.lobbies) {
      assert InStep(s.conns[c], c, s.conns, s.lobbies);
      if t.conns[c].Live() && t.conns[c].lobby.Some? {
        PeersSame(s.conns, t.conns, Without(s.lobbies[t.conns[c].lobby.value].members, c));
      }
    }
  }

  /** Closing a dead connection; `doomed` are connections that were dead, all of them before position `index`. */
  lemma {:induction false} CloseKeeps(s: Server, luck: Luck, index: nat)
    requires Inv(s) && index < |s.order| && s.order[index] in s.conns && s.conns[s.order[index]].dead
    ensures var t := CloseConnection(s, luck, index);
            Inv(t) && AllWane(s.conns, t.conns) && t.past == s.past.(newcomers := s.past.newcomers - {s.order[index]})
  {
    InvLinked(s);
    var id := s.order[index];
    LeaveKeeps(s, luck, id);
    var left := LeaveLobby(s, luck, id);
    assert AllWane(s.conns, left.conns);
    hide InvBut, Fold, LeaveLobby, Mutual, Wanes;
    var t := CloseConnection(s, luck, index);
    forall c <- s.order | c != id ensures c in t.order {
      var k :| 0 <= k < |s.order| && s.order[k] == c;
      assert k != |s.order| - 1 ==> t.order[k] == c;
      assert k == |s.order| - 1 ==> t.order[index] == c;
    }
    RemoveKeeps(left, t, id);
  }

  /** Every connection that was dead when the loop began is gone when it ends. */
  ghost predicate Doomed(s: Server, doomed: set<ConnectionId>, n: nat)
    requires n <= |s.order|
  {
    && (forall c <- doomed :: c in s.conns ==> s.conns[c].dead)
    && (forall j :: n <= j < |s.order| ==> s.order[j] !in doomed)
  }

  lemma {:induction false} DoomedNext(s: Server, luck: Luck, doomed: set<ConnectionId>, n: nat)
    requires Inv(s) && 0 < n <= |s.order| && s.order[n - 1] in s.conns && s.conns[s.order[n - 1]].dead && Doomed(s, doomed, n)
    ensures n - 1 <= |CloseConnection(s, luck, n - 1).order| && Doomed(CloseConnection(s, luck, n - 1), doomed, n - 1)
  {
    InvLinked(s);
    CloseKeeps(s, luck, n - 1);
    hide InvBut, CloseConnection, Linked;
  }

  lemma {:induction false} CloseDeadKeeps(s: Server, luck: Luck, doomed: set<ConnectionId>, n: nat)
    requires Inv(s) && n <= |s.order| && Doomed(s, doomed, n)
    ensures var t := CloseDead(s, luck, n);
            && Inv(t) && AllWane(s.conns, t.conns) && (forall c <- doomed :: c !in t.conns)
            && t.past == s.past.(newcomers := t.past.newcomers)
    decreases n
  {
    InvLinked(s);
    if n == 0 {
      NothingWanes(s.conns);
      assert forall c <- s.conns :: c in s.order;
    } else {
      assert s.order[n - 1] in s.order;
      if s.conns[s.order[n - 1]].dead {
        CloseKeeps(s, luck, n - 1);
        DoomedNext(s, luck, doomed, n);
        hide InvBut, CloseConnection, AllWane, Doomed, Linked;
        var closed := CloseConnection(s, luck, n - 1);
        CloseDeadKeeps(closed, luck, doomed, n - 1);
        WaneOn(s.conns, closed.conns, CloseDead(closed, luck, n - 1).conns);
      } else {
        hide InvBut, CloseConnection, AllWane, Linked;
        CloseDeadKeeps(s, luck, doomed, n - 1);
      }
    }
  }

  /** With the dead gone, nobody is a newcomer any more: all namesakes are in no lobby. */
  lemma {:induction false} SettledDisplaced(was: Connections, now: Connections, newcomers: set<ConnectionId>)
    requires Displaced(was, newcomers) && AllWane(was, now) && forall c <- now :: !was[c].dead
    ensures Displaced(now, {})
  {
    forall c <- now, o <- now | c != o && now[c].Live() && now[o].stage.Ready? && now[o].peer.id == now[c].peer.id
      ensures now[o].lobby.None?
    {
      assert Wanes(was[c], now[c]) && Wanes(was[o], now[o]);
    }
  }

  lemma {:induction false} EndRoundKeeps(s: Server, luck: Luck)
    requires Inv(s)
    ensures var t := CloseDead(s, luck, |s.order|);
            Inv(t.(past := t.past.(newcomers := {})))
  {
    InvLinked(s);
    var doomed := set c <- s.conns | s.conns[c].dead;
    CloseDeadKeeps(s, luck, doomed, |s.order|);
    var t := CloseDead(s, luck, |s.order|);
    hide CloseDead, AllWane, Fold, Mutual, AllInStep, LobbiedDistinct, KeysDistinct, Logged, Unique, Furnished, Displaced;
    assert forall c <- t.conns :: !s.conns[c].dead by { Survivors(s.conns, t.conns, doomed); }
    if Kept(s.past) { SettledDisplaced(s.conns, t.conns, s.past.newcomers); }
    Settle(t);
  }

  lemma {:induction false} Survivors(was: Connections, now: Connections, doomed: set<ConnectionId>)
    requires doomed == (set c <- was | was[c].dead) && (forall c <- doomed :: c !in now) && AllWane(was, now)
    ensures forall c <- now :: c in was && !was[c].dead
  {}

  lemma {:induction false} Settle(s: Server)
    requires Inv(s) && (Kept(s.past) ==> Displaced(s.conns, {}))
    ensures Inv(s.(past := s.past.(newcomers := {})))
  {
    hide Fold, Mutual, AllInStep, LobbiedDistinct, KeysDistinct, Matches, Replay, Unique, Furnished, Displaced;
  }

  // ---------------------------------------------------------------- one action

  lemma {:induction false} FrameKeeps(s: Server, luck: Luck, id: ConnectionId, frame: Frame)
    requires Inv(s) && id in s.conns
    ensures Inv(HandleFrame(s, luck, id, frame))
  {
    InvLinked(s);
    hide InvBut, HandleReady, HandleIdentity, Linked, Fold;
    var c := s.conns[id];
    if !c.dead && !c.closing {
      match c.stage
      case HelloStage =>
        PutKeeps(s, id, c.(stage := IdentityStage, dead := !(frame.ClientHello? && frame.accepted)), 0);
      case IdentityStage =>
        if frame.Garbled? {
          KillKeeps(s, id);
        } else {
          IdentityKeeps(s, luck, id, if frame.Identity? then frame.hello else Hello(false, false, c.peer));
        }
      case Ready =>
        if frame.Garbled? { KillKeeps(s, id); } else { ReadyKeeps(s, luck, id, frame, false); }
    }
  }

  lemma {:induction false} AcceptKeeps(s: Server, id: ConnectionId)
    requires Inv(s) && id !in s.conns && |s.order| < MAX_CONNECTIONS && id !in s.order
    ensures var t := s.(order := s.order + [id], conns := s.conns[id := ACCEPTED]);
            Linked(t) && Inv(t)
  {
    var t := s.(order := s.order + [id], conns := s.conns[id := ACCEPTED]);
    AcceptLinked(s, id);
    AcceptLogged(s, t, id);
    AcceptListed(s, id);
    hide Logged, Fold, Mutual, Furnished, Unique, Listed, AllInStep, KeysDistinct, Displaced, LobbiedDistinct;
    if Kept(s.past) {
      AcceptInStep(s, t, id);
      AcceptReplicas(s.conns, id, s.past);
    }
  }

  lemma {:induction false} AcceptListed(s: Server, id: ConnectionId)
    requires Listed(s) && id !in s.conns && |s.order| < MAX_CONNECTIONS && Unique(s.conns)
    ensures Listed(s.(order := s.order + [id], conns := s.conns[id := ACCEPTED]))
    ensures Unique(s.conns[id := ACCEPTED])
  {}

  lemma {:induction false} AcceptReplicas(conns: Connections, id: ConnectionId, past: Past)
    requires id !in conns && KeysDistinct(conns, past.keys) && LobbiedDistinct(conns) && Displaced(conns, past.newcomers)
    ensures KeysDistinct(conns[id := ACCEPTED], past.keys)
    ensures LobbiedDistinct(conns[id := ACCEPTED]) && Displaced(conns[id := ACCEPTED], past.newcomers)
  {}

  lemma {:induction false} AcceptLinked(s: Server, id: ConnectionId)
    requires Linked(s) && id !in s.conns && id !in s.order
    ensures Linked(s.(order := s.order + [id], conns := s.conns[id := ACCEPTED]))
  {}

  lemma {:induction false} AcceptLogged(s: Server, t: Server, id: ConnectionId)
    requires Linked(s) && Linked(t) && id !in s.conns && t.conns == s.conns[id := ACCEPTED]
    requires t.lobbies == s.lobbies && t.events == s.events && t.created == s.created && Logged(s)
    ensures Logged(t)
  {
    forall ref <- s.lobbies ensures MembersOf(t.conns, s.lobbies[ref].members) == MembersOf(s.conns, s.lobbies[ref].members) {
      MembersSame(s.conns, t.conns, s.lobbies[ref].members);
    }
  }

  lemma {:induction false} AcceptInStep(s: Server, t: Server, id: ConnectionId)
    requires Linked(s) && Linked(t) && id !in s.conns && t.conns == s.conns[id := ACCEPTED]
    requires t.lobbies == s.lobbies && AllInStep(s.conns, s.lobbies)
    ensures AllInStep(t.conns, t.lobbies)
  {
    hide Fold;
    forall c <- t.conns ensures InStep(t.conns[c], c, t.conns, t.lobbies) {
      if c != id {
        assert InStep(s.conns[c], c, s.conns, s.lobbies);
        if t.conns[c].Live() && t.conns[c].lobby.Some? {
          PeersSame(s.conns, t.conns, Without(s.lobbies[t.conns[c].lobby.value].members, c));
        }
      }
    }
  }

  lemma {:induction false} ActKeeps(s: Server, luck: Luck, action: Action)
    requires Inv(s)
    ensures Inv(Act(s, luck, action))
  {
    InvLinked(s);
    match action
    case SendOutgoing(lobby, to) =>
      hide InvBut, Broadcast;
      if LobbyOf(s.listing, lobby).Some? {
        var ref := LobbyOf(s.listing, lobby).value;
        RelayKeeps(s, luck, set m <- s.lobbies[ref].members | s.conns[m].peer.id in to :: m);
      }
    case Receive(id, frame) =>
      hide InvBut, HandleFrame;
      if id in s.conns { FrameKeeps(s, luck, id, frame); }
    case Datagram(id, frame) =>
      hide InvBut, HandleReady;
      if id in s.conns && s.conns[id].Live() && s.conns[id].lobby.Some? { ReadyKeeps(s, luck, id, frame, true); }
    case Fail(id) =>
      hide InvBut;
      if id in s.conns { KillKeeps(s, id); }
    case Flush(id, through) =>
      hide InvBut;
      if id in s.conns && |s.conns[id].sent| <= through { PutKeeps(s, id, s.conns[id].(dead := s.conns[id].dead || s.conns[id].closing), 0); }
    case EndRound =>
      hide InvBut, CloseDead;
      EndRoundKeeps(s, luck);
    case Accept(id) =>
      if id !in s.conns && |s.order| < MAX_CONNECTIONS {
        assert id !in s.order by { hide InvBut; }
        hide InvBut, Linked;
        AcceptKeeps(s, id);
      }
  }

  lemma {:induction false} RunKeeps(luck: Luck, actions: seq<Action>)
    ensures Inv(Run(luck, actions))
  {
    hide InvBut, Act;
    if actions == [] {
      StartedInv();
    } else {
      RunKeeps(luck, actions[..|actions| - 1]);
      ActKeeps(Run(luck, actions[..|actions| - 1]), luck, actions[|actions| - 1]);
    }
  }

  // ---------------------------------------------------------------- what holds in every run

  /**
   Whatever clients send, whichever sends fail, in any order: a connection is in a lobby exactly when the
   lobby lists it, once; no lobby is empty; names are unique; live clients differ in identifier and key.
   */
  lemma {:induction false} LobbiesAlwaysConsistent(luck: Luck, actions: seq<Action>)
    ensures var s := Run(luck, actions);
            && (forall c <- s.conns, ref <- s.lobbies :: s.conns[c].lobby == Some(ref) <==> c in s.lobbies[ref].members)
            && (forall c <- s.conns :: s.conns[c].lobby.Some? ==> s.conns[c].lobby.value in s.lobbies)
            && (forall ref <- s.lobbies :: Distinct(s.lobbies[ref].members) && s.lobbies[ref].members != [])
            && (forall p <- s.lobbies, q <- s.lobbies :: s.lobbies[p].name == s.lobbies[q].name ==> p == q)
            && Unique(s.conns)
  {
    RunKeeps(luck, actions);
    hide Run, Logged, Replicated, Fold;
  }

  /** Before identifiers wrap, no two lobbies share one, so a host message reaches the lobby it names. */
  lemma {:induction false} LobbyIdsUnique(luck: Luck, actions: seq<Action>)
    requires Run(luck, actions).created < TWO_32
    ensures var s := Run(luck, actions);
            && (forall p <- s.lobbies, q <- s.lobbies :: LobbyId(p) == LobbyId(q) ==> p == q)
            && (forall ref <- s.lobbies :: LobbyOf(s.listing, LobbyId(ref)) == Some(ref))
  {
    RunKeeps(luck, actions);
    hide Run, Logged, Replicated, Fold, Mutual;
    var s := Run(luck, actions);
    forall ref <- s.lobbies ensures LobbyId(ref) == ref { SmallId(ref); }
    hide LobbyId;
    forall ref <- s.lobbies ensures LobbyOf(s.listing, LobbyId(ref)) == Some(ref) { ListedIsFound(s.listing, ref, s.created); }
  }

  lemma {:induction false} SmallId(ref: LobbyRef)
    requires ref < TWO_32
    ensures LobbyId(ref) == ref
  {}

  lemma {:induction false} ListedIsFound(listing: seq<LobbyRef>, ref: LobbyRef, created: nat)
    requires ref in listing && created < TWO_32 && ref <= created && forall r <- listing :: r <= created
    ensures LobbyOf(listing, LobbyId(ref)) == Some(ref)
  {
    assert listing[0] in listing && forall r <- listing[1..] :: r in listing;
    SmallId(ref);
    SmallId(listing[0]);
    if listing[0] != ref { ListedIsFound(listing[1..], ref, created); }
  }

  /** Before identifiers wrap, replaying the events gives the lobbies, their names and their members. */
  lemma {:induction false} LogTellsTheLobbies(luck: Luck, actions: seq<Action>)
    requires Run(luck, actions).created < TWO_32
    ensures Matches(Replay(Run(luck, actions).events), Run(luck, actions).conns, Run(luck, actions).lobbies)
  {
    RunKeeps(luck, actions);
    hide Run, Matches, Replicated, Fold;
  }

  /**
   While keys were fresh and no request came in the round of its sender's hello: the messages queued to a
   live client in a lobby build exactly the lobby's other members, in order, and none was ever refused.
   */
  lemma {:induction false} ReplicasAgreeWhileKept(luck: Luck, actions: seq<Action>, c: ConnectionId, k: nat)
    requires var s := Run(luck, actions); Kept(s.past) && c in s.conns && s.conns[c].Live() && k <= |s.conns[c].sent|
    ensures var s := Run(luck, actions);
            var conn := s.conns[c];
            && Fold(conn.peer, conn.sent) ==
               (match conn.lobby
                case None => Waiting
                case Some(ref) => Joined(PeersOf(s.conns, Without(s.lobbies[ref].members, c))))
            && Fold(conn.peer, conn.sent[..k]) != Failed
  {
    RunKeeps(luck, actions);
    var s := Run(luck, actions);
    hide Run;
    assert InStep(s.conns[c], c, s.conns, s.lobbies);
    hide Fold;
    FoldPrefix(s.conns[c].peer, s.conns[c].sent, k);
  }

  /** The sixteen-bit member count of `Lobby_Joined` never truncates. */
  lemma {:induction false} MemberCountFits(luck: Luck, actions: seq<Action>, ref: LobbyRef)
    requires ref in Run(luck, actions).lobbies
    ensures |Run(luck, actions).lobbies[ref].members| <= MAX_CONNECTIONS < 0x1_0000
  {
    RunKeeps(luck, actions);
    var s := Run(luck, actions);
    hide Run, Logged, Replicated, Fold;
    FewerThan(s.lobbies[ref].members, s.order);
  }

  lemma {:induction false} FewerThan(few: seq<nat>, many: seq<nat>)
    requires Distinct(few) && forall x <- few :: x in many
    ensures |few| <= |many|
  {
    if few != [] {
      var front, last := few[..|few| - 1], few[|few| - 1];
      assert last in few && last in many && forall x <- front :: x in few;
      var k :| 0 <= k < |many| && many[k] == last;
      var rest := many[..k] + many[k + 1..];
      forall x <- front ensures x in rest {
        var i :| 0 <= i < |front| && front[i] == x;
        assert few[i] == x && x != last && x in many;
      }
      FewerThan(front, rest);
    }
  }

  // ---------------------------------------------------------------- why clients must wait

  lemma {:induction false} KnownPeerRefused(self: Peer, more: seq<Peer>, k: nat)
    requires k < |more| && (more[k].id == self.id || more[k].key == self.key)
    ensures AddPeers(self, [], more) == None
  {
    if k < |more| - 1 { KnownPeerRefused(self, more[..|more| - 1], k); }
  }

  lemma {:induction false} NamesakeRefused(conns: Connections, members: seq<ConnectionId>, id: ConnectionId)
    requires id in conns && (forall m <- members :: m in conns) && !Strangers(conns, members, id)
    ensures AddPeers(conns[id].peer, [], PeersOf(conns, members)) == None
  {
    hide AddPeers;
    var peers, self := PeersOf(conns, members), conns[id].peer;
    var m :| m in members && (conns[m].peer.id == self.id || conns[m].peer.key == self.key);
    var k :| 0 <= k < |members| && members[k] == m;
    assert peers[k] == conns[m].peer;
    KnownPeerRefused(self, peers, k);
  }

  lemma {:induction false} ListTakenOver(conns: Connections, members: seq<ConnectionId>, id: ConnectionId)
    requires id in conns && (forall m <- members :: m in conns) && Distinct(members) && Apart(conns, members)
    requires Fold(conns[id].peer, conns[id].sent) == Waiting
    ensures Fold(conns[id].peer, conns[id].sent + [LobbyJoined(PeersOf(conns, members))])
            == if Strangers(conns, members, id) then Joined(PeersOf(conns, members)) else Failed
  {
    hide Fold, AddPeers, Separate, Foreign, Apart, Distinct, Strangers, PeersOf;
    FoldNext(conns[id].peer, conns[id].sent, LobbyJoined(PeersOf(conns, members)));
    if Strangers(conns, members, id) {
      SeparatePeers(conns, members, id);
      AddPeersExactly(conns[id].peer, PeersOf(conns, members));
    } else {
      NamesakeRefused(conns, members, id);
    }
  }

  lemma {:induction false} EntererHears(s: Server, luck: Luck, ref: LobbyRef, id: ConnectionId)
    requires Linked(s) && ref in s.lobbies && id in s.conns && s.conns[id].Live() && s.conns[id].lobby.None?
    requires luck(id, |s.conns[id].sent|)
    ensures var c := EnterLobby(s, luck, ref, id).conns[id];
            c.peer == s.conns[id].peer && c.sent == s.conns[id].sent + [LobbyJoined(PeersOf(s.conns, s.lobbies[ref].members))]
    ensures forall m <- s.lobbies[ref].members :: m in s.conns
  {
    assert id !in s.lobbies[ref].members;
    EnterLobbyIs(s, luck, ref, id);
  }

  /**
   A client that enters a lobby keeps the list it is handed exactly when no member has its identifier or
   key. A namesake whose connection has broken is a member until the round ends, so a client that asks for
   a lobby in the round of its own hello can be handed a list it refuses.
   */
  lemma {:induction false} EntryAcceptedIffStranger(s: Server, luck: Luck, ref: LobbyRef, id: ConnectionId)
    requires Linked(s) && ref in s.lobbies && id in s.conns && s.conns[id].Live() && s.conns[id].lobby.None?
    requires Distinct(s.lobbies[ref].members) && Apart(s.conns, s.lobbies[ref].members)
    requires Fold(s.conns[id].peer, s.conns[id].sent) == Waiting && luck(id, |s.conns[id].sent|)
    ensures var c := EnterLobby(s, luck, ref, id).conns[id];
            Fold(c.peer, c.sent) == if Strangers(s.conns, s.lobbies[ref].members, id)
                                    then Joined(PeersOf(s.conns, s.lobbies[ref].members)) else Failed
  {
    hide *;
    EntererHears(s, luck, ref, id);
    ListTakenOver(s.conns, s.lobbies[ref].members, id);
  }
}
