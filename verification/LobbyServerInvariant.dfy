/**
 What every action of the lobby server keeps: the shape of the lobbies, the uniqueness of live clients,
 the agreement of the event log with the lobbies, and the agreement of every live member's replica.
 */
module LobbyServerInvariant {
  import opened Machine
  import opened LobbyMembers
  import opened LobbyServer

  type Connections = map<ConnectionId, Connection>
  type Lobbies = map<LobbyRef, Lobby>

  ghost predicate Distinct(list: seq<nat>)
  {
    forall i, j :: 0 <= i < j < |list| ==> list[i] != list[j]
  }

  // ---------------------------------------------------------------- lists of members

  lemma {:induction false} WithoutAbsent(list: seq<nat>, x: nat)
    requires x !in list
    ensures Without(list, x) == list
  {
    if list != [] {
      WithoutAbsent(list[..|list| - 1], x);
      assert list == list[..|list| - 1] + [list[|list| - 1]];
    }
  }

  lemma {:induction false} WithoutNext(list: seq<nat>, y: nat, x: nat)
    ensures Without(list + [y], x) == if y == x then Without(list, x) else Without(list, x) + [y]
  {
    assert (list + [y])[..|list|] == list;
  }

  lemma {:induction false} WithoutCommutes(list: seq<nat>, x: nat, y: nat)
    ensures Without(Without(list, x), y) == Without(Without(list, y), x)
  {
    if list != [] {
      var front, last := list[..|list| - 1], list[|list| - 1];
      WithoutCommutes(front, x, y);
      WithoutNext(Without(front, x), last, y);
      WithoutNext(Without(front, y), last, x);
    }
  }

  lemma {:induction false} WithoutDistinct(list: seq<nat>, x: nat)
    requires Distinct(list)
    ensures Distinct(Without(list, x))
  {
    if list != [] {
      WithoutDistinct(list[..|list| - 1], x);
      assert list[|list| - 1] !in list[..|list| - 1];
    }
  }

  /** A list that names `x` once is what comes before it, `x`, and what comes after it. */
  lemma {:induction false} WithoutSplits(list: seq<nat>, x: nat) returns (before: seq<nat>, after: seq<nat>)
    requires Distinct(list) && x in list
    ensures list == before + [x] + after && Without(list, x) == before + after
    ensures x !in before && x !in after
  {
    var front, last := list[..|list| - 1], list[|list| - 1];
    assert list == front + [last];
    if last == x {
      WithoutAbsent(front, x);
      before, after := front, [];
    } else {
      before, after := WithoutSplits(front, x);
      after := after + [last];
    }
  }

  lemma {:induction false} PeersSame(was: Connections, now: Connections, members: seq<ConnectionId>)
    requires forall m <- members :: m in was && m in now && now[m].peer == was[m].peer
    ensures PeersOf(was, members) == PeersOf(now, members)
  {}

  lemma {:induction false} PeersConcat(conns: Connections, left: seq<ConnectionId>, right: seq<ConnectionId>)
    requires (forall m <- left :: m in conns) && (forall m <- right :: m in conns)
    ensures forall m <- left + right :: m in conns
    ensures PeersOf(conns, left + right) == PeersOf(conns, left) + PeersOf(conns, right)
  {
    forall k | 0 <= k < |left + right|
      ensures PeersOf(conns, left + right)[k] == (PeersOf(conns, left) + PeersOf(conns, right))[k] {}
  }

  function MembersOf(conns: Connections, members: seq<ConnectionId>): seq<Member>
    requires forall m <- members :: m in conns
  {
    if members == [] then []
    else MembersOf(conns, members[..|members| - 1]) + [MemberOf(conns[members[|members| - 1]])]
  }

  lemma {:induction false} MembersSame(was: Connections, now: Connections, members: seq<ConnectionId>)
    requires forall m <- members :: m in was && m in now && now[m].peer == was[m].peer
    ensures MembersOf(was, members) == MembersOf(now, members)
  {
    if members != [] { MembersSame(was, now, members[..|members| - 1]); }
  }

  lemma {:induction false} MembersConcat(conns: Connections, left: seq<ConnectionId>, right: seq<ConnectionId>)
    requires forall m <- left + right :: m in conns
    ensures (forall m <- left :: m in conns) && (forall m <- right :: m in conns)
    ensures MembersOf(conns, left + right) == MembersOf(conns, left) + MembersOf(conns, right)
  {
    assert forall m <- left :: m in left + right;
    assert forall m <- right :: m in left + right;
    if right == [] {
      assert left + right == left;
    } else {
      assert (left + right)[..|left + right| - 1] == left + right[..|right| - 1];
      assert forall m <- left + right[..|right| - 1] :: m in left + right;
      MembersConcat(conns, left, right[..|right| - 1]);
    }
  }

  // ---------------------------------------------------------------- the invariant

  ghost predicate Listed(s: Server)
  {
    && (forall c <- s.conns :: c in s.order)
    && |s.order| <= MAX_CONNECTIONS
    && (forall ref <- s.lobbies :: ref in s.listing)
    && (forall c <- s.conns :: s.conns[c].lobby.Some? ==> s.conns[c].stage.Ready?)
  }

  /** Every lobby but possibly one that is being opened has a member; members are listed once; names are unique. */
  ghost predicate Furnished(lobbies: Lobbies, opening: LobbyRef)
  {
    && (forall ref <- lobbies :: Distinct(lobbies[ref].members) && (ref != opening ==> lobbies[ref].members != []))
    && (forall p <- lobbies, q <- lobbies :: lobbies[p].name == lobbies[q].name ==> p == q)
  }

  /** Live clients have different identifiers and different signing keys. */
  ghost predicate Unique(conns: Connections)
  {
    forall a <- conns, b <- conns :: a != b && conns[a].Live() && conns[b].Live() ==>
      conns[a].peer.id != conns[b].peer.id && conns[a].peer.key != conns[b].peer.key
  }

  // ---------------------------------------------------------------- the event log

  datatype Room = Room(name: string, members: multiset<Member>)

  /** What a reader of the event log knows after one more event. */
  function Observe(rooms: map<int, Room>, event: Event): map<int, Room>
  {
    match event
    case Opened(lobby, name) => rooms[lobby := Room(name, multiset{})]
    case Arrived(lobby, member) =>
      if lobby in rooms then rooms[lobby := rooms[lobby].(members := rooms[lobby].members + multiset{member})] else rooms
    case Left(lobby, member) =>
      if lobby in rooms then rooms[lobby := rooms[lobby].(members := rooms[lobby].members - multiset{member})] else rooms
    case Closed(lobby) => rooms - {lobby}
    case Delivered(_) => rooms
  }

  function Replay(events: seq<Event>): map<int, Room>
  {
    if events == [] then map[] else Observe(Replay(events[..|events| - 1]), events[|events| - 1])
  }

  lemma {:induction false} ReplayNext(events: seq<Event>, event: Event)
    ensures Replay(events + [event]) == Observe(Replay(events), event)
  {
    assert (events + [event])[..|events|] == events;
  }

  ghost predicate Matches(rooms: map<int, Room>, conns: Connections, lobbies: Lobbies)
    requires forall ref <- lobbies :: forall m <- lobbies[ref].members :: m in conns
  {
    && (forall ref <- lobbies :: ref in rooms
          && rooms[ref] == Room(lobbies[ref].name, multiset(MembersOf(conns, lobbies[ref].members))))
    && (forall k <- rooms :: k in lobbies)
  }

  /** While identifiers have not wrapped, replaying the log gives the lobbies and their members. */
  ghost predicate Logged(s: Server)
    requires Linked(s)
  {
    s.created < TWO_32 ==> Matches(Replay(s.events), s.conns, s.lobbies)
  }

  // ---------------------------------------------------------------- the replicas

  /** The promises about the past hold: keys were fresh and clients waited for their welcome. */
  predicate Kept(past: Past) { past.patient && past.freshKeys }

  ghost predicate KeysDistinct(conns: Connections, keys: set<Key>)
  {
    && (forall a <- conns, b <- conns :: a != b && conns[a].stage.Ready? && conns[b].stage.Ready? ==>
          conns[a].peer.key != conns[b].peer.key)
    && (forall c <- conns :: conns[c].stage.Ready? ==> conns[c].peer.key in keys)
  }

  /** Among clients that are in lobbies, identifiers are unique. */
  ghost predicate LobbiedDistinct(conns: Connections)
  {
    forall a <- conns, b <- conns :: a != b && conns[a].lobby.Some? && conns[b].lobby.Some? ==>
      conns[a].peer.id != conns[b].peer.id
  }

  /**
   A live client has displaced its namesakes: they are in no lobby, or, if the client arrived in this
   very round, they are dead and about to be closed.
   */
  ghost predicate Displaced(conns: Connections, newcomers: set<ConnectionId>)
  {
    && (forall c <- newcomers :: c in conns && conns[c].lobby.None?)
    && (forall c <- conns, o <- conns :: c != o && conns[c].Live() && conns[o].stage.Ready? && conns[o].peer.id == conns[c].peer.id ==>
          conns[o].lobby.None? || (c in newcomers && conns[o].dead))
  }

  /** What the messages queued to a live client tell it is what the server knows. */
  ghost predicate InStep(c: Connection, id: ConnectionId, conns: Connections, lobbies: Lobbies)
    requires Mutual(conns, lobbies) && id in conns && conns[id] == c
  {
    && (!c.stage.Ready? && !c.dead && !c.closing ==> c.sent == [])
    && (c.Live() ==>
          Fold(c.peer, c.sent) ==
          match c.lobby
          case None => Waiting
          case Some(ref) => Joined(PeersOf(conns, Without(lobbies[ref].members, id))))
  }

  ghost predicate AllInStep(conns: Connections, lobbies: Lobbies)
    requires Mutual(conns, lobbies)
  {
    forall c <- conns :: InStep(conns[c], c, conns, lobbies)
  }

  ghost predicate Replicated(s: Server)
    requires Linked(s)
  {
    Kept(s.past) ==>
      && KeysDistinct(s.conns, s.past.keys)
      && LobbiedDistinct(s.conns)
      && Displaced(s.conns, s.past.newcomers)
      && AllInStep(s.conns, s.lobbies)
  }

  /** The invariant while a lobby may be opening; `0` is no lobby. */
  ghost predicate InvBut(s: Server, opening: LobbyRef)
  {
    Linked(s) && Listed(s) && Furnished(s.lobbies, opening) && Unique(s.conns) && Logged(s) && Replicated(s)
  }

  ghost predicate Inv(s: Server) { InvBut(s, 0) }

  lemma {:induction false} StartedInv()
    ensures Linked(STARTED) && Inv(STARTED)
  {}

  // ---------------------------------------------------------------- evictions

  /** Evictions change no connection's peer. */
  lemma {:induction false} EvictAllPeers(s: Server, luck: Luck, id: ConnectionId, member: MemberId, n: nat)
    requires Linked(s) && n <= |s.order|
    ensures forall c <- s.conns :: EvictAll(s, luck, id, member, n).conns[c].peer == s.conns[c].peer
  {
    hide Mutual, Evict;
    if n > 0 {
      EvictAllPeers(s, luck, id, member, n - 1);
      var t := EvictAll(s, luck, id, member, n - 1);
      if s.order[n - 1] != id && Evicts(t.conns[s.order[n - 1]], member) { EvictPeers(t, luck, s.order[n - 1]); }
    }
  }

  lemma {:induction false} EvictPeers(s: Server, luck: Luck, other: ConnectionId)
    requires Linked(s) && other in s.conns
    ensures forall c <- s.conns :: Evict(s, luck, other).conns[c].peer == s.conns[c].peer
  {
    var told := SendGoodbye(s, luck, other);
    GoodbyePeers(s, luck, other);
    LeavePeers(told, luck, other);
    hide SendGoodbye, LeaveLobby, Linked;
  }

  lemma {:induction false} GoodbyePeers(s: Server, luck: Luck, other: ConnectionId)
    requires Linked(s) && other in s.conns
    ensures SendGoodbye(s, luck, other).conns.Keys == s.conns.Keys
    ensures forall c <- s.conns :: SendGoodbye(s, luck, other).conns[c].peer == s.conns[c].peer
  {
    hide Linked;
  }

  lemma {:induction false} LeavePeers(s: Server, luck: Luck, other: ConnectionId)
    requires Linked(s) && other in s.conns
    ensures forall c <- s.conns :: LeaveLobby(s, luck, other).conns[c].peer == s.conns[c].peer
  {
    hide Tabled, Numbered;
  }

  // ---------------------------------------------------------------- quiet changes

  /** The connection keeps its peer and lobby, does not become ready, and never comes back to life. */
  ghost predicate Calm(was: Connection, now: Connection)
  {
    && now.stage.Ready? == was.stage.Ready? && now.peer == was.peer && now.lobby == was.lobby
    && (!now.dead && !now.closing ==> !was.dead && !was.closing)
    && (was.dead ==> now.dead)
  }

  /** And its client learns nothing about members. */
  ghost predicate Quiet(was: Connection, now: Connection)
  {
    && (!now.dead && !now.closing && !now.stage.Ready? ==> now.sent == was.sent)
    && (now.Live() ==> Fold(now.peer, now.sent) == Fold(was.peer, was.sent))
  }

  ghost predicate AllCalm(was: Connections, now: Connections)
  {
    now.Keys == was.Keys && forall c <- was :: Calm(was[c], now[c])
  }

  ghost predicate AllQuiet(was: Connections, now: Connections)
    requires AllCalm(was, now)
  {
    forall c <- was :: Quiet(was[c], now[c])
  }

  lemma {:induction false} QuietUnique(was: Connections, now: Connections)
    requires AllCalm(was, now) && Unique(was)
    ensures Unique(now)
  {}

  lemma {:induction false} QuietMatches(rooms: map<int, Room>, was: Connections, now: Connections, lobbies: Lobbies)
    requires AllCalm(was, now) && Mutual(was, lobbies) && Mutual(now, lobbies) && Matches(rooms, was, lobbies)
    ensures Matches(rooms, now, lobbies)
  {
    hide Observe;
    forall ref <- lobbies ensures MembersOf(was, lobbies[ref].members) == MembersOf(now, lobbies[ref].members) {
      MembersSame(was, now, lobbies[ref].members);
    }
  }

  lemma {:induction false} QuietReplicas(was: Connections, now: Connections, lobbies: Lobbies, past: Past)
    requires AllCalm(was, now) && AllQuiet(was, now) && Mutual(was, lobbies) && Mutual(now, lobbies)
    ensures KeysDistinct(was, past.keys) ==> KeysDistinct(now, past.keys)
    ensures LobbiedDistinct(was) ==> LobbiedDistinct(now)
    ensures Displaced(was, past.newcomers) ==> Displaced(now, past.newcomers)
    ensures AllInStep(was, lobbies) ==> AllInStep(now, lobbies)
  {
    hide Fold;
    if AllInStep(was, lobbies) {
      forall c <- now ensures InStep(now[c], c, now, lobbies) {
        assert InStep(was[c], c, was, lobbies);
        if now[c].Live() && now[c].lobby.Some? {
          PeersSame(was, now, Without(lobbies[now[c].lobby.value].members, c));
        }
      }
    }
  }

  lemma {:induction false} QuietKeeps(s: Server, conns: Connections, opening: LobbyRef)
    requires InvBut(s, opening) && AllCalm(s.conns, conns) && (Kept(s.past) ==> AllQuiet(s.conns, conns))
    ensures InvBut(s.(conns := conns), opening)
  {
    assert SameLobbies(s.conns, conns);
    SameLobbiesLinked(s, conns);
    QuietListed(s, conns);
    hide AllCalm, AllQuiet, Linked, Listed, Furnished, Unique, Matches, KeysDistinct, LobbiedDistinct, Displaced, AllInStep, Fold;
    QuietUnique(s.conns, conns);
    QuietLogged(s, conns);
    QuietReplicated(s, conns);
  }

  lemma {:induction false} QuietListed(s: Server, conns: Connections)
    requires Listed(s) && AllCalm(s.conns, conns)
    ensures Listed(s.(conns := conns))
  {}

  lemma {:induction false} QuietLogged(s: Server, conns: Connections)
    requires Linked(s) && Linked(s.(conns := conns)) && AllCalm(s.conns, conns) && Logged(s)
    ensures Logged(s.(conns := conns))
  {
    hide AllCalm, Matches, Replay;
    if s.created < TWO_32 { QuietMatches(Replay(s.events), s.conns, conns, s.lobbies); }
  }

  lemma {:induction false} QuietReplicated(s: Server, conns: Connections)
    requires Linked(s) && Linked(s.(conns := conns)) && AllCalm(s.conns, conns) && Replicated(s)
    requires Kept(s.past) ==> AllQuiet(s.conns, conns)
    ensures Replicated(s.(conns := conns))
  {
    hide AllCalm, AllQuiet, KeysDistinct, LobbiedDistinct, Displaced, AllInStep;
    if Kept(s.past) { QuietReplicas(s.conns, conns, s.lobbies, s.past); }
  }
}
