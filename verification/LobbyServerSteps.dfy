/** Every handler of the lobby server keeps the invariant: entering and leaving lobbies first. */
module LobbyServerSteps {
  import opened Machine
  import opened Options
  import opened LobbyMembers
  import opened LobbyServer
  import opened LobbyServerInvariant

  // ---------------------------------------------------------------- entering

  /** What an entry does to each connection. */
  ghost predicate Entering(conns: Connections, luck: Luck, members: seq<ConnectionId>, id: ConnectionId, ref: LobbyRef, now: Connections)
  {
    && id in conns && id !in members && (forall m <- members :: m in conns)
    && now.Keys == conns.Keys
    && now[id] == Sent(luck, id, conns[id], LobbyJoined(PeersOf(conns, members))).(lobby := Some(ref))
    && forall c <- conns :: c != id ==>
         now[c] == if c in members then Sent(luck, c, conns[c], MemberJoined(conns[id].peer)) else conns[c]
  }

  lemma {:induction false} EnterLobbyIs(s: Server, luck: Luck, ref: LobbyRef, id: ConnectionId)
    requires Linked(s) && ref in s.lobbies && id in s.conns && s.conns[id].lobby.None?
    ensures var t := EnterLobby(s, luck, ref, id);
            && t == s.(conns := t.conns, lobbies := s.lobbies[ref := s.lobbies[ref].(members := s.lobbies[ref].members + [id])],
                       events := s.events + [Arrived(LobbyId(ref), MemberOf(s.conns[id]))])
            && Entering(s.conns, luck, s.lobbies[ref].members, id, ref, t.conns)
  {}

  lemma {:induction false} EnteringFades(conns: Connections, luck: Luck, members: seq<ConnectionId>, id: ConnectionId, ref: LobbyRef, now: Connections)
    requires Entering(conns, luck, members, id, ref, now)
    ensures AllFade(conns, now)
    ensures forall c <- conns :: now[c].lobby == if c == id then Some(ref) else conns[c].lobby
  {}

  /** The connections keep their stages and peers; none comes back to life; others keep their lobby. */
  ghost predicate Fades(was: Connection, now: Connection)
  {
    now.stage == was.stage && now.peer == was.peer && (now.Live() ==> was.Live()) && (was.dead ==> now.dead)
    && (was.closing ==> now.closing)
  }

  ghost predicate AllFade(was: Connections, now: Connections)
  {
    now.Keys == was.Keys && forall c <- was :: Fades(was[c], now[c])
  }

  lemma {:induction false} FadingUnique(was: Connections, now: Connections)
    requires AllFade(was, now) && Unique(was)
    ensures Unique(now)
  {}

  lemma {:induction false} FadingKeys(was: Connections, now: Connections, keys: set<Key>)
    requires AllFade(was, now) && KeysDistinct(was, keys)
    ensures KeysDistinct(now, keys)
  {}

  /** The lists before and after: everyone else keeps theirs, and the newcomer's peers are the old members. */
  lemma {:induction false} EnterReplicas(conns: Connections, lobbies: Lobbies, luck: Luck, ref: LobbyRef, id: ConnectionId, now: Connections, after: Lobbies)
    requires Mutual(conns, lobbies) && Mutual(now, after) && ref in lobbies && id in conns
    requires conns[id].Live() && conns[id].lobby.None? && Distinct(lobbies[ref].members)
    requires forall m <- lobbies[ref].members :: conns[m].stage.Ready?
    requires Entering(conns, luck, lobbies[ref].members, id, ref, now)
    requires after == lobbies[ref := lobbies[ref].(members := lobbies[ref].members + [id])]
    requires Strangers(conns, lobbies[ref].members, id) && Apart(conns, lobbies[ref].members)
    requires AllInStep(conns, lobbies)
    ensures AllInStep(now, after)
  {
    hide Fold, Handle, Strangers, Apart, InStep, Sent;
    var members := lobbies[ref].members;
    EnteringFades(conns, luck, members, id, ref, now);
    assert forall c <- conns :: Fades(conns[c], now[c]);
    forall c <- now ensures InStep(now[c], c, now, after) {
      assert InStep(conns[c], c, conns, lobbies);
      if c == id {
        NewcomerInStep(conns, lobbies, luck, ref, id, now, after);
      } else if c in members {
        OldMemberInStep(conns, lobbies, luck, ref, id, now, after, c);
      } else {
        BystanderInStep(conns, lobbies, ref, id, now, after, c);
      }
    }
  }

  lemma {:induction false} BystanderInStep(conns: Connections, lobbies: Lobbies, ref: LobbyRef, id: ConnectionId, now: Connections, after: Lobbies,
                        c: ConnectionId)
    requires Mutual(conns, lobbies) && Mutual(now, after) && c in conns && c != id && ref in lobbies && c !in lobbies[ref].members
    requires forall r <- after :: r != ref ==> r in lobbies && after[r] == lobbies[r]
    requires ref in after ==> forall m <- after[ref].members :: m == id || m in lobbies[ref].members
    requires now.Keys == conns.Keys && (forall d <- conns :: now[d].peer == conns[d].peer) && now[c] == conns[c]
    requires InStep(conns[c], c, conns, lobbies)
    ensures InStep(now[c], c, now, after)
  {
    hide Fold;
    if now[c].Live() && now[c].lobby.Some? {
      assert now[c].lobby.value != ref;
      PeersSame(conns, now, Without(lobbies[now[c].lobby.value].members, c));
    }
  }

  /** The one who enters has nobody's identifier or key. */
  ghost predicate Strangers(conns: Connections, members: seq<ConnectionId>, id: ConnectionId)
    requires id in conns && forall m <- members :: m in conns
  {
    forall m <- members :: conns[m].peer.id != conns[id].peer.id && conns[m].peer.key != conns[id].peer.key
  }

  /** The members differ in identifier and key. */
  ghost predicate Apart(conns: Connections, members: seq<ConnectionId>)
    requires forall m <- members :: m in conns
  {
    forall a <- members, b <- members :: a != b ==> conns[a].peer.id != conns[b].peer.id && conns[a].peer.key != conns[b].peer.key
  }

  lemma {:induction false} NewcomerInStep(conns: Connections, lobbies: Lobbies, luck: Luck, ref: LobbyRef, id: ConnectionId, now: Connections, after: Lobbies)
    requires Mutual(conns, lobbies) && Mutual(now, after) && ref in lobbies && id in conns && id !in lobbies[ref].members
    requires after == lobbies[ref := lobbies[ref].(members := lobbies[ref].members + [id])]
    requires now.Keys == conns.Keys && (forall c <- conns :: now[c].peer == conns[c].peer) && Distinct(lobbies[ref].members)
    requires Strangers(conns, lobbies[ref].members, id) && Apart(conns, lobbies[ref].members)
    requires conns[id].Live() && conns[id].lobby.None? && InStep(conns[id], id, conns, lobbies)
    requires now[id] == Sent(luck, id, conns[id], LobbyJoined(PeersOf(conns, lobbies[ref].members))).(lobby := Some(ref))
    ensures InStep(now[id], id, now, after)
  {
    hide Fold, Strangers, Apart, Without, PeersOf;
    if now[id].Live() {
      NewcomerFold(conns, lobbies[ref].members, id, now);
    }
  }

  lemma {:induction false} NewcomerFold(conns: Connections, members: seq<ConnectionId>, id: ConnectionId, now: Connections)
    requires id in conns && id !in members && (forall m <- members :: m in conns) && Distinct(members)
    requires now.Keys == conns.Keys && forall c <- conns :: now[c].peer == conns[c].peer
    requires Strangers(conns, members, id) && Apart(conns, members)
    requires Fold(conns[id].peer, conns[id].sent) == Waiting
    ensures forall m <- Without(members + [id], id) :: m in now
    ensures Fold(conns[id].peer, conns[id].sent + [LobbyJoined(PeersOf(conns, members))])
            == Joined(PeersOf(now, Without(members + [id], id)))
  {
    hide Fold, AddPeers, PeersOf, Without, Strangers, Apart, Separate, Foreign, Distinct;
    var peers := PeersOf(conns, members);
    SeparatePeers(conns, members, id);
    AddPeersExactly(conns[id].peer, peers);
    FoldNext(conns[id].peer, conns[id].sent, LobbyJoined(peers));
    WithoutNext(members, id, id);
    WithoutAbsent(members, id);
    PeersSame(conns, now, members);
  }

  lemma {:induction false} SeparatePeers(conns: Connections, members: seq<ConnectionId>, id: ConnectionId)
    requires id in conns && (forall m <- members :: m in conns) && Distinct(members)
    requires Strangers(conns, members, id) && Apart(conns, members)
    ensures Separate(PeersOf(conns, members)) && Foreign(conns[id].peer, PeersOf(conns, members))
  {
    var peers := PeersOf(conns, members);
    forall i, j | 0 <= i < j < |peers| ensures peers[i].id != peers[j].id && peers[i].key != peers[j].key {
      assert members[i] in members && members[j] in members;
    }
    forall p <- peers ensures p.id != conns[id].peer.id && p.key != conns[id].peer.key {
      var i :| 0 <= i < |peers| && peers[i] == p;
      assert members[i] in members;
    }
  }

  lemma {:induction false} OldMemberInStep(conns: Connections, lobbies: Lobbies, luck: Luck, ref: LobbyRef, id: ConnectionId, now: Connections,
                        after: Lobbies, c: ConnectionId)
    requires Mutual(conns, lobbies) && Mutual(now, after) && ref in lobbies && id in conns && id !in lobbies[ref].members
    requires c in lobbies[ref].members && c != id && conns[c].stage.Ready?
    requires after == lobbies[ref := lobbies[ref].(members := lobbies[ref].members + [id])]
    requires now.Keys == conns.Keys && forall d <- conns :: now[d].peer == conns[d].peer
    requires now[c] == Sent(luck, c, conns[c], MemberJoined(conns[id].peer))
    requires Strangers(conns, lobbies[ref].members, id)
    requires InStep(conns[c], c, conns, lobbies)
    ensures InStep(now[c], c, now, after)
  {
    hide Fold, DropPeers, AddPeers, Without, Strangers, PeersOf, Clashes;
    if now[c].Live() {
      StrangersToFew(conns, lobbies[ref].members, id, c);
      var others := Without(lobbies[ref].members, c);
      OneMorePeer(conns, others, id, now, conns[c].peer);
      FoldNext(conns[c].peer, conns[c].sent, MemberJoined(conns[id].peer));
      WithoutNext(lobbies[ref].members, id, c);
    }
  }

  lemma {:induction false} StrangersToFew(conns: Connections, members: seq<ConnectionId>, id: ConnectionId, c: ConnectionId)
    requires id in conns && (forall m <- members :: m in conns) && Strangers(conns, members, id) && c in members
    ensures Strangers(conns, Without(members, c), id)
    ensures conns[id].peer.id != conns[c].peer.id && conns[id].peer.key != conns[c].peer.key
  {}

  lemma {:induction false} OneMorePeer(conns: Connections, others: seq<ConnectionId>, id: ConnectionId, now: Connections, self: Peer)
    requires id in conns && forall m <- others :: m in conns
    requires now.Keys == conns.Keys && forall d <- conns :: now[d].peer == conns[d].peer
    requires Strangers(conns, others, id) && conns[id].peer.id != self.id && conns[id].peer.key != self.key
    ensures AddPeer(self, PeersOf(conns, others), conns[id].peer) == Some(PeersOf(now, others + [id]))
  {
    var peers, peer := PeersOf(conns, others), conns[id].peer;
    forall p <- peers ensures p.id != peer.id && p.key != peer.key {
      var i :| 0 <= i < |peers| && peers[i] == p;
      assert others[i] in others;
    }
    PeersSame(conns, now, others);
    assert (others + [id])[..|others|] == others;
  }

  lemma {:induction false} EnterMatches(rooms: map<int, Room>, conns: Connections, lobbies: Lobbies, ref: LobbyRef, id: ConnectionId,
                     now: Connections, after: Lobbies)
    requires Mutual(conns, lobbies) && Mutual(now, after) && ref in lobbies && id in conns && conns[id].lobby.None?
    requires after == lobbies[ref := lobbies[ref].(members := lobbies[ref].members + [id])]
    requires now.Keys == conns.Keys && forall d <- conns :: now[d].peer == conns[d].peer
    requires ref < TWO_32 && Matches(rooms, conns, lobbies)
    ensures Matches(Observe(rooms, Arrived(LobbyId(ref), MemberOf(conns[id]))), now, after)
  {
    var members := lobbies[ref].members;
    assert forall r <- lobbies :: forall m <- lobbies[r].members :: m in conns;
    assert forall m <- members + [id] :: m in now;
    ArrivedIn(rooms, ref, MemberOf(conns[id]));
    hide Observe, Mutual, LobbyId;
    MembersConcat(now, members, [id]);
    MembersSame(conns, now, members);
    assert MembersOf(now, [id]) == [MemberOf(now[id])] by { assert MembersOf(now, []) == []; }
    hide MembersOf;
    var room := Room(rooms[ref].name, rooms[ref].members + multiset{MemberOf(conns[id])});
    LobbyChanged(rooms, conns, lobbies, ref, now, members + [id], room);
  }

  lemma {:induction false} ArrivedIn(rooms: map<int, Room>, ref: LobbyRef, member: Member)
    requires ref in rooms && ref < TWO_32
    ensures Observe(rooms, Arrived(LobbyId(ref), member)) ==
            rooms[ref := Room(rooms[ref].name, rooms[ref].members + multiset{member})]
  {}

  lemma {:induction false} EnterKeeps(s: Server, luck: Luck, ref: LobbyRef, id: ConnectionId)
    requires InvBut(s, ref) && ref in s.lobbies && id in s.conns && s.conns[id].Live() && s.conns[id].lobby.None?
    requires Kept(s.past) ==> id !in s.past.newcomers
    ensures Inv(EnterLobby(s, luck, ref, id))
  {
    var t := EnterLobby(s, luck, ref, id);
    if Kept(s.past) { EnterReplicated(s, luck, ref, id, t); }
    EnterRest(s, luck, ref, id, t);
    hide Fold, Unique, Furnished, Logged, Linked, Listed, Replicated, EnterLobby;
    assert t.past == s.past by { EnterLobbyIs(s, luck, ref, id); }
    assert Replicated(t) by { if !Kept(s.past) { NotKept(t); } }
  }

  lemma {:induction false} NotKept(s: Server)
    requires Linked(s) && !Kept(s.past)
    ensures Replicated(s)
  {}

  lemma {:induction false} EnterRest(s: Server, luck: Luck, ref: LobbyRef, id: ConnectionId, t: Server)
    requires InvBut(s, ref) && ref in s.lobbies && id in s.conns && s.conns[id].Live() && s.conns[id].lobby.None?
    requires t == EnterLobby(s, luck, ref, id)
    ensures Listed(t) && Furnished(t.lobbies, 0) && Unique(t.conns) && Logged(t)
  {
    hide EnterLobby, Entering, Fold, Unique, Furnished, Logged, Listed, Replicated, Mutual;
    EnterLobbyIs(s, luck, ref, id);
    EnteringFades(s.conns, luck, s.lobbies[ref].members, id, ref, t.conns);
    EnterShape(s, t, ref, id);
    FadingUnique(s.conns, t.conns);
    EnterLogged(s, t, ref, id);
  }

  lemma {:induction false} EnterShape(s: Server, t: Server, ref: LobbyRef, id: ConnectionId)
    requires InvBut(s, ref) && ref in s.lobbies && id in s.conns && s.conns[id].lobby.None? && s.conns[id].stage.Ready?
    requires AllFade(s.conns, t.conns) && t.order == s.order && t.listing == s.listing
    requires forall c <- s.conns :: c != id ==> t.conns[c].lobby == s.conns[c].lobby
    requires t.lobbies == s.lobbies[ref := s.lobbies[ref].(members := s.lobbies[ref].members + [id])]
    ensures Listed(t) && Furnished(t.lobbies, 0)
  {
    hide Logged, Replicated, Unique;
    assert id !in s.lobbies[ref].members;
    EnterFurnished(s.lobbies, ref, id);
  }

  lemma {:induction false} EnterFurnished(lobbies: Lobbies, ref: LobbyRef, id: ConnectionId)
    requires ref in lobbies && Furnished(lobbies, ref) && id !in lobbies[ref].members
    ensures Furnished(lobbies[ref := lobbies[ref].(members := lobbies[ref].members + [id])], 0)
  {}

  lemma {:induction false} EnterLogged(s: Server, t: Server, ref: LobbyRef, id: ConnectionId)
    requires Linked(s) && Linked(t) && Logged(s) && ref in s.lobbies && id in s.conns && s.conns[id].lobby.None?
    requires t.conns.Keys == s.conns.Keys && forall d <- s.conns :: t.conns[d].peer == s.conns[d].peer
    requires t.lobbies == s.lobbies[ref := s.lobbies[ref].(members := s.lobbies[ref].members + [id])]
    requires t.created == s.created && t.events == s.events + [Arrived(LobbyId(ref), MemberOf(s.conns[id]))]
    ensures Logged(t)
  {
    hide Matches;
    if s.created < TWO_32 {
      EnterMatches(Replay(s.events), s.conns, s.lobbies, ref, id, t.conns, t.lobbies);
      ReplayNext(s.events, Arrived(LobbyId(ref), MemberOf(s.conns[id])));
    }
  }

  lemma {:induction false} EnterReplicated(s: Server, luck: Luck, ref: LobbyRef, id: ConnectionId, t: Server)
    requires InvBut(s, ref) && ref in s.lobbies && id in s.conns && s.conns[id].Live() && s.conns[id].lobby.None?
    requires Kept(s.past) && id !in s.past.newcomers && t == EnterLobby(s, luck, ref, id)
    ensures Replicated(t)
  {
    hide EnterLobby, Entering, Fold, Logged, Listed, Unique, AllInStep, Displaced, LobbiedDistinct, KeysDistinct, Mutual;
    EnterLobbyIs(s, luck, ref, id);
    EnteringFades(s.conns, luck, s.lobbies[ref].members, id, ref, t.conns);
    LobbiedReady(s);
    FadingKeys(s.conns, t.conns, s.past.keys);
    MembersReady(s, ref);
    AmongStrangers(s, ref, id);
    EnterReplicas(s.conns, s.lobbies, luck, ref, id, t.conns, t.lobbies);
    EnterDisplaced(s.conns, t.conns, s.past.newcomers, id, ref);
  }

  lemma {:induction false} AmongStrangers(s: Server, ref: LobbyRef, id: ConnectionId)
    requires Linked(s) && Listed(s) && Replicated(s) && Kept(s.past) && ref in s.lobbies && id in s.conns
    requires s.conns[id].Live() && s.conns[id].lobby.None? && id !in s.past.newcomers
    ensures Strangers(s.conns, s.lobbies[ref].members, id) && Apart(s.conns, s.lobbies[ref].members)
  {
    hide AllInStep;
    MembersReady(s, ref);
    MembersApart(s, ref);
    var members := s.lobbies[ref].members;
    forall m <- members ensures s.conns[m].peer.id != s.conns[id].peer.id && s.conns[m].peer.key != s.conns[id].peer.key {
      assert s.conns[m].lobby == Some(ref);
    }
  }

  lemma {:induction false} LobbiedReady(s: Server)
    requires Listed(s)
    ensures forall c <- s.conns :: s.conns[c].lobby.Some? ==> s.conns[c].stage.Ready?
  {}

  lemma {:induction false} MembersReady(s: Server, ref: LobbyRef)
    requires Linked(s) && Listed(s) && ref in s.lobbies
    ensures forall m <- s.lobbies[ref].members :: m in s.conns && s.conns[m].stage.Ready?
  {}

  lemma {:induction false} EnterDisplaced(conns: Connections, now: Connections, newcomers: set<ConnectionId>, id: ConnectionId, ref: LobbyRef)
    requires AllFade(conns, now) && id in conns && conns[id].Live() && id !in newcomers
    requires forall c <- conns :: now[c].lobby == if c == id then Some(ref) else conns[c].lobby
    requires forall c <- conns :: conns[c].lobby.Some? ==> conns[c].stage.Ready?
    requires LobbiedDistinct(conns) && Displaced(conns, newcomers) && Unique(conns)
    ensures LobbiedDistinct(now) && Displaced(now, newcomers)
  {
    forall a <- now, b <- now | a != b && now[a].lobby.Some? && now[b].lobby.Some? ensures now[a].peer.id != now[b].peer.id {
      if a == id {
        assert conns[b].stage.Ready?;
      } else if b == id {
        assert conns[a].stage.Ready?;
      }
    }
    forall c <- now, o <- now | c != o && now[c].Live() && now[o].stage.Ready? && now[o].peer.id == now[c].peer.id
      ensures now[o].lobby.None? || (c in newcomers && now[o].dead)
    {
    }
  }

  // ---------------------------------------------------------------- leaving

  /** What a departure does to each connection. */
  ghost predicate Leaving(conns: Connections, luck: Luck, members: seq<ConnectionId>, id: ConnectionId, now: Connections)
  {
    && id in conns && (forall m <- members :: m in conns) && now.Keys == conns.Keys
    && now[id] == conns[id].(lobby := None)
    && forall c <- conns :: c != id ==>
         now[c] == if c in members then Sent(luck, c, conns[c], MemberLeft(conns[id].peer.id)) else conns[c]
  }

  /** The lobbies after a departure: the list without the one who left, or no such lobby. */
  function LobbiesAfter(lobbies: Lobbies, ref: LobbyRef, id: ConnectionId): Lobbies
    requires ref in lobbies
  {
    var members := Without(lobbies[ref].members, id);
    if members == [] then lobbies - {ref} else lobbies[ref := lobbies[ref].(members := members)]
  }

  function EventsAfter(s: Server, ref: LobbyRef, id: ConnectionId): seq<Event>
    requires ref in s.lobbies && id in s.conns
  {
    var left := s.events + [Left(LobbyId(ref), MemberOf(s.conns[id]))];
    if Without(s.lobbies[ref].members, id) == [] then left + [Closed(LobbyId(ref))] else left
  }

  lemma {:induction false} LeaveLobbyIs(s: Server, luck: Luck, id: ConnectionId)
    requires Linked(s) && id in s.conns && s.conns[id].lobby.Some?
    ensures s.conns[id].lobby.value in s.lobbies
    ensures var ref := s.conns[id].lobby.value;
            var t := LeaveLobby(s, luck, id);
            && t == s.(conns := t.conns, lobbies := LobbiesAfter(s.lobbies, ref, id), listing := t.listing,
                       events := EventsAfter(s, ref, id))
            && t.listing == (if Without(s.lobbies[ref].members, id) == [] then Without(s.listing, ref) else s.listing)
            && Leaving(s.conns, luck, s.lobbies[ref].members, id, t.conns)
  {}

  lemma {:induction false} LeavingFades(conns: Connections, luck: Luck, members: seq<ConnectionId>, id: ConnectionId, now: Connections)
    requires Leaving(conns, luck, members, id, now)
    ensures AllFade(conns, now)
    ensures forall c <- conns :: now[c].lobby == if c == id then None else conns[c].lobby
  {}

  lemma {:induction false} LeaveShape(s: Server, t: Server, ref: LobbyRef, id: ConnectionId)
    requires Linked(s) && Listed(s) && Furnished(s.lobbies, 0) && ref in s.lobbies && id in s.conns
    requires AllFade(s.conns, t.conns) && t.order == s.order
    requires forall c <- s.conns :: t.conns[c].lobby == if c == id then None else s.conns[c].lobby
    requires t.lobbies == LobbiesAfter(s.lobbies, ref, id)
    requires t.listing == if Without(s.lobbies[ref].members, id) == [] then Without(s.listing, ref) else s.listing
    ensures Listed(t) && Furnished(t.lobbies, 0)
  {
    hide Mutual;
    LeaveFurnished(s.lobbies, ref, id);
  }

  lemma {:induction false} LeaveFurnished(lobbies: Lobbies, ref: LobbyRef, id: ConnectionId)
    requires ref in lobbies && Furnished(lobbies, 0)
    ensures Furnished(LobbiesAfter(lobbies, ref, id), 0)
  {
    WithoutDistinct(lobbies[ref].members, id);
  }

  lemma {:induction false} LeaveDisplaced(conns: Connections, now: Connections, newcomers: set<ConnectionId>, id: ConnectionId)
    requires AllFade(conns, now)
    requires forall c <- conns :: now[c].lobby == if c == id then None else conns[c].lobby
    requires LobbiedDistinct(conns) && Displaced(conns, newcomers)
    ensures LobbiedDistinct(now) && Displaced(now, newcomers)
  {}

  /** One member's list loses the one who left. */
  lemma {:induction false} OneLessPeer(conns: Connections, members: seq<ConnectionId>, id: ConnectionId, c: ConnectionId, now: Connections)
    requires (forall m <- members :: m in conns) && Distinct(members) && Apart(conns, members)
    requires now.Keys == conns.Keys && forall d <- conns :: now[d].peer == conns[d].peer
    requires id in members && c in members && c != id
    ensures DropPeers(PeersOf(conns, Without(members, c)), conns[id].peer.id) == PeersOf(now, Without(Without(members, id), c))
  {
    hide DropPeers, Apart, Distinct;
    WithoutDistinct(members, c);
    var before, after := WithoutSplits(Without(members, c), id);
    WithoutCommutes(members, c, id);
    assert forall m <- before + [id] + after :: m in members;
    PeersSplit(conns, before, id, after);
    OthersApart(conns, members, id, before + after);
    DropOnePeer(PeersOf(conns, before), conns[id].peer, PeersOf(conns, after));
    PeersSame(conns, now, before + after);
  }

  lemma {:induction false} PeersSplit(conns: Connections, before: seq<ConnectionId>, id: ConnectionId, after: seq<ConnectionId>)
    requires forall m <- before + [id] + after :: m in conns
    ensures (forall m <- before :: m in conns) && (forall m <- after :: m in conns) && (forall m <- before + after :: m in conns)
    ensures PeersOf(conns, before + [id] + after) == PeersOf(conns, before) + [conns[id].peer] + PeersOf(conns, after)
    ensures PeersOf(conns, before + after) == PeersOf(conns, before) + PeersOf(conns, after)
  {
    assert forall m <- before :: m in before + [id] + after;
    assert forall m <- after :: m in before + [id] + after;
    assert id in before + [id] + after;
    PeersConcat(conns, before, [id]);
    PeersConcat(conns, before + [id], after);
    PeersConcat(conns, before, after);
  }

  lemma {:induction false} OthersApart(conns: Connections, members: seq<ConnectionId>, id: ConnectionId, others: seq<ConnectionId>)
    requires (forall m <- members :: m in conns) && Apart(conns, members) && id in members
    requires forall m <- others :: m in members && m != id
    ensures forall x: Peer <- PeersOf(conns, others) :: x.id != conns[id].peer.id
  {
    var peers := PeersOf(conns, others);
    forall x: Peer <- peers ensures x.id != conns[id].peer.id {
      var k :| 0 <= k < |peers| && peers[k] == x;
      assert others[k] in others;
    }
  }

  lemma {:induction false} StayerInStep(conns: Connections, lobbies: Lobbies, luck: Luck, ref: LobbyRef, id: ConnectionId,
                                        now: Connections, after: Lobbies, c: ConnectionId)
    requires Mutual(conns, lobbies) && Mutual(now, after) && ref in lobbies && c in lobbies[ref].members && c != id
    requires id in lobbies[ref].members && after == LobbiesAfter(lobbies, ref, id)
    requires now.Keys == conns.Keys && forall d <- conns :: now[d].peer == conns[d].peer
    requires now[c] == Sent(luck, c, conns[c], MemberLeft(conns[id].peer.id)) && conns[c].stage.Ready?
    requires Distinct(lobbies[ref].members) && Apart(conns, lobbies[ref].members)
    requires InStep(conns[c], c, conns, lobbies)
    ensures InStep(now[c], c, now, after)
  {
    hide Fold, DropPeers, AddPeers, PeersOf, Apart, Distinct, AddPeer, Without;
    if now[c].Live() {
      var left := Without(lobbies[ref].members, id);
      assert c in left && after[ref].members == left;
      assert conns[c].Live() && conns[c].lobby == Some(ref) == now[c].lobby;
      OneLessPeer(conns, lobbies[ref].members, id, c, now);
      FoldNext(conns[c].peer, conns[c].sent, MemberLeft(conns[id].peer.id));
      assert now[c].sent == conns[c].sent + [MemberLeft(conns[id].peer.id)];
      hide Mutual;
    }
  }

  lemma {:induction false} LeaveReplicas(conns: Connections, lobbies: Lobbies, luck: Luck, ref: LobbyRef, id: ConnectionId,
                                         now: Connections, after: Lobbies)
    requires Mutual(conns, lobbies) && Mutual(now, after) && ref in lobbies && id in lobbies[ref].members
    requires Distinct(lobbies[ref].members) && Apart(conns, lobbies[ref].members)
    requires forall m <- lobbies[ref].members :: conns[m].stage.Ready?
    requires Leaving(conns, luck, lobbies[ref].members, id, now) && !conns[id].Live()
    requires after == LobbiesAfter(lobbies, ref, id)
    requires AllInStep(conns, lobbies)
    ensures AllInStep(now, after)
  {
    hide Fold, Handle, Apart, InStep, Sent;
    var members := lobbies[ref].members;
    LeavingFades(conns, luck, members, id, now);
    assert forall c <- conns :: Fades(conns[c], now[c]);
    forall c <- now ensures InStep(now[c], c, now, after) {
      assert InStep(conns[c], c, conns, lobbies);
      if c == id {
        GoneInStep(conns[id], id, conns, lobbies, now, after);
      } else if c in members {
        StayerInStep(conns, lobbies, luck, ref, id, now, after, c);
      } else {
        BystanderInStep(conns, lobbies, ref, id, now, after, c);
      }
    }
  }

  lemma {:induction false} GoneInStep(c: Connection, id: ConnectionId, conns: Connections, lobbies: Lobbies, now: Connections, after: Lobbies)
    requires Mutual(conns, lobbies) && Mutual(now, after) && id in conns && id in now && conns[id] == c
    requires now[id] == c.(lobby := None) && !c.Live() && InStep(c, id, conns, lobbies)
    ensures InStep(now[id], id, now, after)
  {}

  lemma {:induction false} LeaveMatches(rooms: map<int, Room>, conns: Connections, lobbies: Lobbies, ref: LobbyRef, id: ConnectionId,
                                        now: Connections)
    requires ref in lobbies && Mutual(conns, lobbies) && Mutual(now, LobbiesAfter(lobbies, ref, id)) && id in lobbies[ref].members
    requires now.Keys == conns.Keys && forall d <- conns :: now[d].peer == conns[d].peer
    requires ref < TWO_32 && Matches(rooms, conns, lobbies) && Distinct(lobbies[ref].members)
    ensures var left := Observe(rooms, Left(LobbyId(ref), MemberOf(conns[id])));
            Matches(if Without(lobbies[ref].members, id) == [] then Observe(left, Closed(LobbyId(ref))) else left,
                    now, LobbiesAfter(lobbies, ref, id))
  {
    var members := lobbies[ref].members;
    MembersWithout(conns, members, id);
    LeftFrom(rooms, ref, MemberOf(conns[id]));
    hide Observe, Distinct, Without, MembersOf, LobbyId;
    var left := Room(rooms[ref].name, rooms[ref].members - multiset{MemberOf(conns[id])});
    assert forall m <- Without(members, id) :: m in members;
    assert forall r <- lobbies :: forall m <- lobbies[r].members :: m in conns;
    hide Mutual;
    MembersSame(conns, now, Without(members, id));
    LobbyChanged(rooms, conns, lobbies, ref, now, Without(members, id), left);
  }

  /** One lobby's entry changes with its list, or goes with it. */
  lemma {:induction false} LobbyChanged(rooms: map<int, Room>, conns: Connections, lobbies: Lobbies, ref: LobbyRef, now: Connections,
                                        members: seq<ConnectionId>, room: Room)
    requires forall r <- lobbies :: forall m <- lobbies[r].members :: m in conns
    requires now.Keys == conns.Keys && forall d <- conns :: now[d].peer == conns[d].peer
    requires ref in lobbies && Matches(rooms, conns, lobbies) && forall m <- members :: m in now
    requires room == Room(lobbies[ref].name, multiset(MembersOf(now, members)))
    ensures Matches(rooms[ref := room], now, lobbies[ref := lobbies[ref].(members := members)])
    ensures Matches(rooms - {ref}, now, lobbies - {ref})
  {
    hide MembersOf;
    forall r <- lobbies ensures MembersOf(now, lobbies[r].members) == MembersOf(conns, lobbies[r].members) {
      MembersSame(conns, now, lobbies[r].members);
    }
  }

  lemma {:induction false} MembersWithout(conns: Connections, members: seq<ConnectionId>, id: ConnectionId)
    requires Distinct(members) && id in members && forall m <- members :: m in conns
    ensures multiset(MembersOf(conns, Without(members, id))) == multiset(MembersOf(conns, members)) - multiset{MemberOf(conns[id])}
  {
    var before, after := WithoutSplits(members, id);
    assert forall m <- before + [id] :: m in members;
    assert forall m <- before + after :: m in members;
    MembersConcat(conns, before + [id], after);
    MembersConcat(conns, before, [id]);
    MembersConcat(conns, before, after);
    assert MembersOf(conns, [id]) == [MemberOf(conns[id])] by { assert MembersOf(conns, []) == []; }
  }

  lemma {:induction false} LeftFrom(rooms: map<int, Room>, ref: LobbyRef, member: Member)
    requires ref in rooms && ref < TWO_32
    ensures Observe(rooms, Left(LobbyId(ref), member)) ==
            rooms[ref := Room(rooms[ref].name, rooms[ref].members - multiset{member})]
    ensures Observe(Observe(rooms, Left(LobbyId(ref), member)), Closed(LobbyId(ref))) == rooms - {ref}
  {}

  lemma {:induction false} LeaveLogged(s: Server, t: Server, ref: LobbyRef, id: ConnectionId)
    requires Linked(s) && Linked(t) && Logged(s) && ref in s.lobbies && id in s.lobbies[ref].members && id in s.conns
    requires Distinct(s.lobbies[ref].members)
    requires t.conns.Keys == s.conns.Keys && forall d <- s.conns :: t.conns[d].peer == s.conns[d].peer
    requires t.lobbies == LobbiesAfter(s.lobbies, ref, id) && t.created == s.created && t.events == EventsAfter(s, ref, id)
    ensures Logged(t)
  {
    hide Matches, Mutual;
    if s.created < TWO_32 {
      LeaveMatches(Replay(s.events), s.conns, s.lobbies, ref, id, t.conns);
      var left := Left(LobbyId(ref), MemberOf(s.conns[id]));
      ReplayNext(s.events, left);
      ReplayNext(s.events + [left], Closed(LobbyId(ref)));
    }
  }

  lemma {:induction false} LeaveKeeps(s: Server, luck: Luck, id: ConnectionId)
    requires Inv(s) && id in s.conns && !s.conns[id].Live()
    ensures Inv(LeaveLobby(s, luck, id))
    ensures AllFade(s.conns, LeaveLobby(s, luck, id).conns) && LeaveLobby(s, luck, id).past == s.past
    ensures forall c <- s.conns :: LeaveLobby(s, luck, id).conns[c].lobby == if c == id then None else s.conns[c].lobby
  {
    if s.conns[id].lobby.Some? {
      var t := LeaveLobby(s, luck, id);
      var ref := s.conns[id].lobby.value;
      LeaveLobbyIs(s, luck, id);
      LeavingFades(s.conns, luck, s.lobbies[ref].members, id, t.conns);
      LeaveRest(s, t, ref, id);
      if Kept(s.past) { LeaveReplicated(s, luck, ref, id, t); }
      hide Fold, Unique, Furnished, Logged, Linked, Listed, Replicated, Leaving, AllFade, LobbiesAfter, EventsAfter, LeaveLobby;
      assert Replicated(t) by { if !Kept(s.past) { NotKept(t); } }
    }
  }

  lemma {:induction false} LeaveRest(s: Server, t: Server, ref: LobbyRef, id: ConnectionId)
    requires Inv(s) && Linked(t) && ref in s.lobbies && id in s.lobbies[ref].members && id in s.conns
    requires AllFade(s.conns, t.conns) && t.order == s.order && t.created == s.created && t.events == EventsAfter(s, ref, id)
    requires forall c <- s.conns :: t.conns[c].lobby == if c == id then None else s.conns[c].lobby
    requires t.lobbies == LobbiesAfter(s.lobbies, ref, id)
    requires t.listing == if Without(s.lobbies[ref].members, id) == [] then Without(s.listing, ref) else s.listing
    ensures Listed(t) && Furnished(t.lobbies, 0) && Unique(t.conns) && Logged(t)
  {
    hide Logged, Unique, Replicated, Mutual, LobbiesAfter, EventsAfter;
    assert Distinct(s.lobbies[ref].members);
    LeaveShape(s, t, ref, id);
    FadingUnique(s.conns, t.conns);
    LeaveLogged(s, t, ref, id);
  }

  lemma {:induction false} LeaveReplicated(s: Server, luck: Luck, ref: LobbyRef, id: ConnectionId, t: Server)
    requires Inv(s) && Linked(t) && Kept(s.past) && ref in s.lobbies && id in s.lobbies[ref].members && id in s.conns
    requires !s.conns[id].Live() && t.past == s.past && t.lobbies == LobbiesAfter(s.lobbies, ref, id)
    requires Leaving(s.conns, luck, s.lobbies[ref].members, id, t.conns)
    ensures Replicated(t)
  {
    hide Leaving, Fold, Logged, Listed, Unique, AllInStep, Displaced, LobbiedDistinct, KeysDistinct, Mutual, LobbiesAfter;
    LeavingFades(s.conns, luck, s.lobbies[ref].members, id, t.conns);
    FadingKeys(s.conns, t.conns, s.past.keys);
    MembersReady(s, ref);
    MembersApart(s, ref);
    assert Distinct(s.lobbies[ref].members);
    LeaveReplicas(s.conns, s.lobbies, luck, ref, id, t.conns, t.lobbies);
    LeaveDisplaced(s.conns, t.conns, s.past.newcomers, id);
  }

  lemma {:induction false} MembersApart(s: Server, ref: LobbyRef)
    requires Linked(s) && Listed(s) && Replicated(s) && Kept(s.past) && ref in s.lobbies
    ensures Apart(s.conns, s.lobbies[ref].members)
  {
    hide AllInStep, Displaced;
    MembersReady(s, ref);
    var members := s.lobbies[ref].members;
    forall a <- members, b <- members | a != b
      ensures s.conns[a].peer.id != s.conns[b].peer.id && s.conns[a].peer.key != s.conns[b].peer.key
    {
      assert s.conns[a].lobby == Some(ref) && s.conns[b].lobby == Some(ref);
    }
  }
}
