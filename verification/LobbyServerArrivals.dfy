/** A client that proves its identity displaces its namesakes, and the invariant is kept. */
module LobbyServerArrivals {
  import opened LobbyMembers
  import opened LobbyServer
  import opened LobbyServerInvariant
  import opened LobbyServerSteps
  import opened LobbyServerHandlers

  // ---------------------------------------------------------------- what changes little by little

  /** Connections keep stages and peers, do not come back to life, and change lobbies only by leaving. */
  ghost predicate Wanes(was: Connection, now: Connection)
  {
    Fades(was, now) && (now.lobby == was.lobby || now.lobby.None?)
  }

  /** True of the connections that remain. */
  ghost predicate AllWane(was: Connections, now: Connections)
  {
    forall c <- now :: c in was && Wanes(was[c], now[c])
  }

  lemma {:induction false} WaneOn(a: Connections, b: Connections, c: Connections)
    requires AllWane(a, b) && AllWane(b, c)
    ensures AllWane(a, c)
  {
    forall x <- c ensures x in a && Wanes(a[x], c[x]) {
      assert Wanes(b[x], c[x]) && Wanes(a[x], b[x]);
    }
  }

  // ---------------------------------------------------------------- eviction

  /** A namesake that no longer counts: dead, or told to leave and in no lobby. */
  ghost predicate Displacing(c: Connection)
  {
    c.dead || (c.closing && c.lobby.None?)
  }

  ghost predicate Spared(c: Connection, member: MemberId)
  {
    c.stage.Ready? && c.peer.id == member ==> Displacing(c)
  }

  ghost predicate EvictedFirst(s: Server, t: Server, id: ConnectionId, member: MemberId, n: nat)
    requires n <= |s.order|
  {
    forall j :: 0 <= j < n ==> s.order[j] != id ==> s.order[j] in t.conns ==> Spared(t.conns[s.order[j]], member)
  }

  lemma {:induction false} GoodbyeWanes(s: Server, luck: Luck, id: ConnectionId)
    requires Linked(s) && id in s.conns
    ensures AllWane(s.conns, SendGoodbye(s, luck, id).conns) && SendGoodbye(s, luck, id).past == s.past
    ensures SendGoodbye(s, luck, id).order == s.order
    ensures SendGoodbye(s, luck, id).conns[id].closing
  {
    hide Linked;
  }

  /** Evicting one connection: it is closing and in no lobby; an unready connection is not touched. */
  lemma {:induction false} EvictOne(s: Server, luck: Luck, other: ConnectionId, id: ConnectionId)
    requires Inv(s) && other in s.conns && id in s.conns && id != other && !s.conns[id].stage.Ready?
    ensures var t := Evict(s, luck, other);
            && Inv(t) && AllWane(s.conns, t.conns) && t.past == s.past && t.conns[id] == s.conns[id]
            && t.conns[other].closing && t.conns[other].lobby.None?
  {
    var told := SendGoodbye(s, luck, other);
    assert Linked(s);
    GoodbyeKeeps(s, luck, other);
    GoodbyeWanes(s, luck, other);
    LeaveKeeps(told, luck, other);
    LeaveSpares(told, luck, other, id);
    hide InvBut, Fold, LeaveLobby, SendGoodbye, Mutual;
    var t := LeaveLobby(told, luck, other);
    assert AllWane(told.conns, t.conns);
    WaneOn(s.conns, told.conns, t.conns);
  }

  lemma {:induction false} LeaveSpares(s: Server, luck: Luck, other: ConnectionId, id: ConnectionId)
    requires Linked(s) && Listed(s) && other in s.conns && id in s.conns && id != other && !s.conns[id].stage.Ready?
    ensures LeaveLobby(s, luck, other).conns[id] == s.conns[id]
  {
    if s.conns[other].lobby.Some? { LeaveLobbyIs(s, luck, other); }
  }

  lemma {:induction false} EvictAllKeeps(s: Server, luck: Luck, id: ConnectionId, member: MemberId, n: nat)
    requires Inv(s) && n <= |s.order| && id in s.conns && !s.conns[id].stage.Ready?
    ensures var t := EvictAll(s, luck, id, member, n);
            && Inv(t) && AllWane(s.conns, t.conns) && t.past == s.past && t.conns[id] == s.conns[id]
            && EvictedFirst(s, t, id, member, n)
  {
    hide InvBut, Evict, Fold, Mutual, Wanes;
    assert Linked(s) by { InvLinked(s); }
    if n == 0 {
      assert AllWane(s.conns, s.conns) by { NothingWanes(s.conns); }
    } else {
      EvictAllKeeps(s, luck, id, member, n - 1);
      EvictNext(s, EvictAll(s, luck, id, member, n - 1), luck, id, member, n);
    }
  }

  lemma {:induction false} InvLinked(s: Server)
    requires Inv(s)
    ensures Linked(s)
  {}

  lemma {:induction false} NothingWanes(conns: Connections)
    ensures AllWane(conns, conns)
  {}

  lemma {:induction false} EvictNext(s: Server, t: Server, luck: Luck, id: ConnectionId, member: MemberId, n: nat)
    requires Inv(t) && Linked(s) && 0 < n <= |s.order| && t.order == s.order && t.conns.Keys == s.conns.Keys
    requires AllWane(s.conns, t.conns) && id in t.conns && !t.conns[id].stage.Ready? && EvictedFirst(s, t, id, member, n - 1)
    ensures s.order[n - 1] in t.conns
    ensures var other := s.order[n - 1];
            var u := if other != id && Evicts(t.conns[other], member) then Evict(t, luck, other) else t;
            && Inv(u) && AllWane(s.conns, u.conns) && u.past == t.past && u.conns[id] == t.conns[id]
            && EvictedFirst(s, u, id, member, n)
  {
    assert Linked(t);
    var other := s.order[n - 1];
    assert other in s.order;
    if other != id && Evicts(t.conns[other], member) {
      EvictOne(t, luck, other, id);
      hide InvBut, Evict, Linked;
      var u := Evict(t, luck, other);
      WaneOn(s.conns, t.conns, u.conns);
      EvictedStay(s, t, u, id, member, n);
    }
  }

  lemma {:induction false} EvictedStay(s: Server, t: Server, u: Server, id: ConnectionId, member: MemberId, n: nat)
    requires 0 < n <= |s.order| && EvictedFirst(s, t, id, member, n - 1) && AllWane(t.conns, u.conns)
    requires s.order[n - 1] in u.conns ==> Displacing(u.conns[s.order[n - 1]])
    ensures EvictedFirst(s, u, id, member, n)
  {
    forall j | 0 <= j < n && s.order[j] != id && s.order[j] in u.conns ensures Spared(u.conns[s.order[j]], member) {
      assert Wanes(t.conns[s.order[j]], u.conns[s.order[j]]);
    }
  }

  // ---------------------------------------------------------------- becoming ready

  /** Setting the peer of a connection that is not ready changes nothing anyone relies on. */
  lemma {:induction false} KnownKeeps(s: Server, id: ConnectionId, peer: Peer)
    requires Inv(s) && id in s.conns && !s.conns[id].stage.Ready?
    ensures Inv(Put(s, id, s.conns[id].(peer := peer)))
  {
    var t := Put(s, id, s.conns[id].(peer := peer));
    assert s.conns[id].lobby.None?;
    KnownLogged(s, t, id);
    hide Logged, AllInStep, Fold, Mutual, Matches;
    assert Unique(t.conns);
    hide Unique, Furnished;
    if Kept(s.past) {
      KnownInStep(s, t, id);
      KnownReplicas(s.conns, t.conns, id, s.past);
    }
    hide KeysDistinct, Displaced, LobbiedDistinct;
  }

  lemma {:induction false} KnownReplicas(was: Connections, now: Connections, id: ConnectionId, past: Past)
    requires OneDiffers(was, now, id) && !was[id].stage.Ready? && !now[id].stage.Ready?
    requires KeysDistinct(was, past.keys) && LobbiedDistinct(was) && Displaced(was, past.newcomers)
    ensures KeysDistinct(now, past.keys) && LobbiedDistinct(now) && Displaced(now, past.newcomers)
  {}

  /** The tables agree but for one connection that is in no lobby. */
  ghost predicate OneDiffers(was: Connections, now: Connections, id: ConnectionId)
  {
    && now.Keys == was.Keys && id in was && was[id].lobby.None? && now[id].lobby.None?
    && forall c <- was :: c != id ==> now[c] == was[c]
  }

  lemma {:induction false} KnownLogged(s: Server, t: Server, id: ConnectionId)
    requires Linked(s) && Linked(t) && OneDiffers(s.conns, t.conns, id)
    requires t.lobbies == s.lobbies && t.events == s.events && t.created == s.created && Logged(s)
    ensures Logged(t)
  {
    forall ref <- s.lobbies ensures MembersOf(t.conns, s.lobbies[ref].members) == MembersOf(s.conns, s.lobbies[ref].members) {
      MembersSame(s.conns, t.conns, s.lobbies[ref].members);
    }
  }

  lemma {:induction false} KnownInStep(s: Server, t: Server, id: ConnectionId)
    requires Linked(s) && Linked(t) && OneDiffers(s.conns, t.conns, id) && t.lobbies == s.lobbies
    requires AllInStep(s.conns, s.lobbies) && !s.conns[id].stage.Ready?
    requires t.conns[id].stage.Ready? ==> s.conns[id].sent == []
    requires t.conns[id].sent == s.conns[id].sent && t.conns[id].dead == s.conns[id].dead && t.conns[id].closing == s.conns[id].closing
    ensures AllInStep(t.conns, t.lobbies)
  {
    forall c <- t.conns ensures InStep(t.conns[c], c, t.conns, t.lobbies) {
      assert InStep(s.conns[c], c, s.conns, s.lobbies);
      if c == id {
        assert Fold(t.conns[id].peer, []) == Waiting;
      } else if t.conns[c].Live() && t.conns[c].lobby.Some? {
        hide Fold;
        PeersSame(s.conns, t.conns, Without(s.lobbies[t.conns[c].lobby.value].members, c));
      }
    }
  }

  /** No live connection shares the key, and every namesake has been displaced. */
  ghost predicate Unrivalled(conns: Connections, id: ConnectionId)
    requires id in conns
  {
    && (forall o <- conns :: o != id && conns[o].Live() ==> conns[o].peer.key != conns[id].peer.key)
    && (forall o <- conns :: o != id && conns[o].stage.Ready? && conns[o].peer.id == conns[id].peer.id ==> Displacing(conns[o]))
  }

  lemma {:induction false} MakeReadyKeeps(s: Server, id: ConnectionId)
    requires Inv(s) && id in s.conns && !s.conns[id].stage.Ready? && !s.conns[id].dead && !s.conns[id].closing
    requires Unrivalled(s.conns, id)
    ensures Inv(MakeReady(s, id))
  {
    var t := MakeReady(s, id);
    MakeReadyIs(s, id);
    hide MakeReady, Logged, Linked, Listed, Unique, Unrivalled, Furnished, Replicated, OneDiffers;
    KnownLogged(s, t, id);
    ReadyListed(s, t, id);
    ReadyUnique(s.conns, t.conns, id);
    ReadyReplicated(s, t, id);
  }

  lemma {:induction false} MakeReadyIs(s: Server, id: ConnectionId)
    requires Linked(s) && Listed(s) && id in s.conns && !s.conns[id].stage.Ready?
    ensures var t, key := MakeReady(s, id), s.conns[id].peer.key;
            && OneDiffers(s.conns, t.conns, id) && t.conns[id] == s.conns[id].(stage := Ready)
            && t == s.(conns := t.conns, past := Past(s.past.newcomers + {id}, s.past.keys + {key}, s.past.patient,
                                                      s.past.freshKeys && key !in s.past.keys))
  {
    hide Linked;
  }

  lemma {:induction false} ReadyListed(s: Server, t: Server, id: ConnectionId)
    requires Listed(s) && OneDiffers(s.conns, t.conns, id) && t.conns[id] == s.conns[id].(stage := Ready)
    requires t.order == s.order && t.lobbies == s.lobbies && t.listing == s.listing
    ensures Listed(t)
  {}

  lemma {:induction false} ReadyReplicated(s: Server, t: Server, id: ConnectionId)
    requires Linked(s) && Linked(t) && Replicated(s) && OneDiffers(s.conns, t.conns, id)
    requires t.conns[id] == s.conns[id].(stage := Ready) && t.lobbies == s.lobbies && Unrivalled(s.conns, id)
    requires !s.conns[id].stage.Ready? && !s.conns[id].dead && !s.conns[id].closing
    requires var key := s.conns[id].peer.key;
             t.past == Past(s.past.newcomers + {id}, s.past.keys + {key}, s.past.patient, s.past.freshKeys && key !in s.past.keys)
    ensures Replicated(t)
  {
    hide Unrivalled, KeysDistinct, LobbiedDistinct, Displaced, Fold;
    if Kept(t.past) {
      ReadyReplicas(s, t, id);
      assert s.conns[id].sent == [] by { assert InStep(s.conns[id], id, s.conns, s.lobbies); }
      hide AllInStep;
      KnownInStep(s, t, id);
    }
  }

  lemma {:induction false} ReadyUnique(was: Connections, now: Connections, id: ConnectionId)
    requires OneDiffers(was, now, id) && now[id] == was[id].(stage := Ready) && Unique(was) && Unrivalled(was, id)
    ensures Unique(now)
  {}

  lemma {:induction false} ReadyReplicas(s: Server, t: Server, id: ConnectionId)
    requires Linked(s) && OneDiffers(s.conns, t.conns, id) && t.conns[id] == s.conns[id].(stage := Ready)
    requires KeysDistinct(s.conns, s.past.keys) && LobbiedDistinct(s.conns) && Displaced(s.conns, s.past.newcomers)
    requires Unrivalled(s.conns, id) && s.conns[id].peer.key !in s.past.keys
    requires t.past.keys == s.past.keys + {s.conns[id].peer.key} && t.past.newcomers == s.past.newcomers + {id}
    ensures KeysDistinct(t.conns, t.past.keys) && LobbiedDistinct(t.conns) && Displaced(t.conns, t.past.newcomers)
  {
    ReadyKeys(s.conns, t.conns, id, s.past.keys);
    hide KeysDistinct, Linked;
    ReadyDisplaced(s.conns, t.conns, id, s.past.newcomers);
    hide Displaced;
  }

  lemma {:induction false} ReadyKeys(was: Connections, now: Connections, id: ConnectionId, keys: set<Key>)
    requires OneDiffers(was, now, id) && now[id] == was[id].(stage := Ready)
    requires KeysDistinct(was, keys) && was[id].peer.key !in keys
    ensures KeysDistinct(now, keys + {was[id].peer.key})
  {}

  lemma {:induction false} ReadyDisplaced(was: Connections, now: Connections, id: ConnectionId, newcomers: set<ConnectionId>)
    requires OneDiffers(was, now, id) && now[id] == was[id].(stage := Ready)
    requires Displaced(was, newcomers) && Unrivalled(was, id)
    ensures Displaced(now, newcomers + {id})
  {}

  // ---------------------------------------------------------------- the identity message

  lemma {:induction false} UnrivalledAfter(s: Server, t: Server, id: ConnectionId, peer: Peer)
    requires Linked(s) && Listed(s) && id in s.conns && !KeyInUse(s, id, peer.key)
    requires AllWane(s.conns[id := s.conns[id].(peer := peer)], t.conns) && t.order == s.order && t.conns.Keys == s.conns.Keys
    requires t.conns[id].peer == peer && EvictedFirst(s, t, id, peer.id, |s.order|)
    ensures Unrivalled(t.conns, id)
  {
    forall o <- t.conns | o != id ensures o in s.order && Wanes(s.conns[o], t.conns[o]) {}
    forall o <- t.conns | o != id && t.conns[o].stage.Ready? && t.conns[o].peer.id == peer.id ensures Displacing(t.conns[o]) {
      var j :| 0 <= j < |s.order| && s.order[j] == o;
    }
  }

  /** The identity is known and every namesake displaced. */
  function Evicted(s: Server, luck: Luck, id: ConnectionId, peer: Peer): (t: Server)
    requires Linked(s) && id in s.conns
    ensures Linked(t) && t.order == s.order && t.conns.Keys == s.conns.Keys
  {
    EvictAll(Put(s, id, s.conns[id].(peer := peer)), luck, id, peer.id, |s.order|)
  }

  lemma {:induction false} EvictedKeeps(s: Server, luck: Luck, id: ConnectionId, peer: Peer)
    requires Inv(s) && id in s.conns && s.conns[id].stage.IdentityStage? && !KeyInUse(s, id, peer.key)
    ensures var t := Evicted(s, luck, id, peer);
            Inv(t) && t.conns[id] == s.conns[id].(peer := peer) && Unrivalled(t.conns, id)
  {
    InvLinked(s);
    var known := Put(s, id, s.conns[id].(peer := peer));
    KnownKeeps(s, id, peer);
    assert Listed(s);
    hide InvBut, EvictAll, KeyInUse, Unrivalled, Mutual, EvictedFirst, AllWane, Listed, Fold;
    EvictAllKeeps(known, luck, id, peer.id, |s.order|);
    UnrivalledAfter(s, Evicted(s, luck, id, peer), id, peer);
  }

  lemma {:induction false} IdentityKeeps(s: Server, luck: Luck, id: ConnectionId, hello: Hello)
    requires Inv(s) && id in s.conns && s.conns[id].stage.IdentityStage? && !s.conns[id].dead && !s.conns[id].closing
    ensures Inv(HandleIdentity(s, luck, id, hello))
  {
    InvLinked(s);
    if !hello.parsed || !hello.proven || KeyInUse(s, id, hello.peer.key) {
      GoodbyeKeeps(s, luck, id);
    } else {
      assert s.conns[id].lobby.None?;
      EvictedKeeps(s, luck, id, hello.peer);
      hide InvBut, EvictAll, KeyInUse, Unrivalled, Linked;
      var evicted := Evicted(s, luck, id, hello.peer);
      MakeReadyKeeps(evicted, id);
      WelcomeKeeps(evicted, luck, id);
    }
  }

  lemma {:induction false} WelcomeKeeps(s: Server, luck: Luck, id: ConnectionId)
    requires Linked(s) && id in s.conns && Inv(MakeReady(s, id))
    requires !s.conns[id].dead && !s.conns[id].closing && s.conns[id].lobby.None?
    ensures Inv(SendTo(MakeReady(s, id), luck, id, Welcome(s.conns[id].peer.id)))
  {
    hide InvBut;
    AnswerKeeps(MakeReady(s, id), luck, id, Welcome(s.conns[id].peer.id));
  }
}
