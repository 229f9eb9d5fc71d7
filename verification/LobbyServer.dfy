/**
 The lobby server of client/src/network/lobby_server.cpp as a transition system: connections, lobbies,
 the event log, and the handlers that change them, up to one round of `Main`.

 Connections and lobbies are named by numbers that are never reused; they stand for the pointers of the
 source. Whether the `n`-th message queued to a connection fits its send queue is decided by an oracle,
 so every pattern of dropped connections is some oracle. Authentication is ideal.
 */
module LobbyServer {
  import opened Machine
  import opened Options
  import opened LobbyMembers

  type ConnectionId = nat
  type LobbyRef = nat

  const MAX_CONNECTIONS: nat := 1024

  /** Whether the next message can be queued to a connection that has been queued this many. */
  type Luck = (ConnectionId, nat) -> bool

  datatype Stage = HelloStage | IdentityStage | Ready

  datatype Connection = Connection(stage: Stage, peer: Peer, lobby: Option<LobbyRef>, closing: bool, dead: bool,
                                   sent: seq<Message>)
  {
    predicate Live() { stage.Ready? && !dead && !closing }
  }

  const ACCEPTED := Connection(HelloStage, Peer(0, "", 0), None, false, false, [])

  datatype Lobby = Lobby(name: string, verifier: nat, members: seq<ConnectionId>)

  /** `Lobby_Member` as events carry it. */
  datatype Member = Member(id: MemberId, nickname: string)

  datatype Event =
    | Opened(lobby: u32, name: string)
    | Arrived(lobby: u32, member: Member)
    | Left(lobby: u32, member: Member)
    | Closed(lobby: u32)
    | Delivered(lobby: u32)

  /** Facts about the past that the promises depend on. */
  datatype Past = Past(newcomers: set<ConnectionId>, keys: set<Key>, patient: bool, freshKeys: bool)

  datatype Server = Server(order: seq<ConnectionId>, conns: map<ConnectionId, Connection>,
                           listing: seq<LobbyRef>, lobbies: map<LobbyRef, Lobby>, created: nat,
                           events: seq<Event>, past: Past)

  const STARTED := Server([], map[], [], map[], 0, [], Past({}, {}, true, true))

  /** `++nextLobbyId` in 32 bits: the identifier of the `ref`-th lobby created. */
  function LobbyId(ref: LobbyRef): u32 { ref % TWO_32 }

  function MemberOf(c: Connection): Member { Member(c.peer.id, c.peer.nickname) }

  // ---------------------------------------------------------------- sending

  /** `Connection::Send`. */
  function Sent(luck: Luck, id: ConnectionId, c: Connection, message: Message): Connection
  {
    if c.dead || c.closing then c
    else if luck(id, |c.sent|) then c.(sent := c.sent + [message])
    else c.(dead := true)
  }

  // ---------------------------------------------------------------- lobbies

  function Find(s: Server, listing: seq<LobbyRef>, name: string): (r: Option<LobbyRef>)
    requires forall k <- listing :: k in s.lobbies
    ensures r.Some? ==> r.value in listing && s.lobbies[r.value].name == name
    ensures r.None? ==> forall k <- listing :: s.lobbies[k].name != name
  {
    if listing == [] then None
    else if s.lobbies[listing[0]].name == name then Some(listing[0])
    else Find(s, listing[1..], name)
  }

  function Ids(members: seq<ConnectionId>): set<ConnectionId> { set m <- members }

  function Without(list: seq<nat>, x: nat): (r: seq<nat>)
    ensures forall y :: y in r <==> y in list && y != x
  {
    if list == [] then []
    else
      var rest := Without(list[..|list| - 1], x);
      if list[|list| - 1] == x then rest else rest + [list[|list| - 1]]
  }

  function PeersOf(conns: map<ConnectionId, Connection>, members: seq<ConnectionId>): (r: seq<Peer>)
    requires forall m <- members :: m in conns
    ensures |r| == |members| && forall k :: 0 <= k < |members| ==> r[k] == conns[members[k]].peer
  {
    if members == [] then []
    else PeersOf(conns, members[..|members| - 1]) + [conns[members[|members| - 1]].peer]
  }

  /** The table lists connections, each once. */
  predicate Tabled(s: Server)
  {
    && (forall c <- s.order :: c in s.conns)
    && (forall i, j :: 0 <= i < j < |s.order| ==> s.order[i] != s.order[j])
  }

  /** A connection refers to a lobby exactly when the lobby lists it. */
  predicate Mutual(conns: map<ConnectionId, Connection>, lobbies: map<LobbyRef, Lobby>)
  {
    && (forall c <- conns :: conns[c].lobby.Some? ==>
          conns[c].lobby.value in lobbies && c in lobbies[conns[c].lobby.value].members)
    && (forall ref <- lobbies :: forall m <- lobbies[ref].members :: m in conns && conns[m].lobby == Some(ref))
  }

  predicate Numbered(s: Server)
  {
    && (forall ref <- s.listing :: ref in s.lobbies)
    && (forall ref <- s.lobbies :: 1 <= ref <= s.created)
  }

  /** References are followed only to what exists. */
  predicate Linked(s: Server)
  {
    Tabled(s) && Mutual(s.conns, s.lobbies) && Numbered(s)
  }

  /** The same connections in the same lobbies. */
  predicate SameLobbies(was: map<ConnectionId, Connection>, now: map<ConnectionId, Connection>)
  {
    now.Keys == was.Keys && forall c <- was :: now[c].lobby == was[c].lobby
  }

  lemma {:induction false} SameLobbiesMutual(was: map<ConnectionId, Connection>, now: map<ConnectionId, Connection>, lobbies: map<LobbyRef, Lobby>)
    requires SameLobbies(was, now)
    ensures Mutual(was, lobbies) <==> Mutual(now, lobbies)
  {}

  /** A change of stages, flags, peers or queues keeps every reference. */
  lemma {:induction false} SameLobbiesLinked(s: Server, conns: map<ConnectionId, Connection>)
    requires Linked(s) && SameLobbies(s.conns, conns)
    ensures Linked(s.(conns := conns))
  {
    hide Mutual;
    SameLobbiesMutual(s.conns, conns, s.lobbies);
  }

  /** Change one connection, but not its lobby. */
  function Put(s: Server, id: ConnectionId, c: Connection): (t: Server)
    requires Linked(s) && id in s.conns && c.lobby == s.conns[id].lobby
    ensures Linked(t)
  {
    SameLobbiesLinked(s, s.conns[id := c]);
    s.(conns := s.conns[id := c])
  }

  function SendTo(s: Server, luck: Luck, id: ConnectionId, message: Message): (t: Server)
    requires Linked(s) && id in s.conns
    ensures Linked(t)
  {
    Put(s, id, Sent(luck, id, s.conns[id], message))
  }

  /** The table after one message was sent to every listed connection. */
  function Told(conns: map<ConnectionId, Connection>, luck: Luck, ids: set<ConnectionId>, message: Message)
    : map<ConnectionId, Connection>
  {
    map id <- conns :: if id in ids then Sent(luck, id, conns[id], message) else conns[id]
  }

  function Broadcast(s: Server, luck: Luck, ids: set<ConnectionId>, message: Message): (t: Server)
    requires Linked(s)
    ensures Linked(t)
  {
    SameLobbiesLinked(s, Told(s.conns, luck, ids, message));
    s.(conns := Told(s.conns, luck, ids, message))
  }

  function SendGoodbye(s: Server, luck: Luck, id: ConnectionId): (t: Server)
    requires Linked(s) && id in s.conns
    ensures Linked(t)
  {
    Put(s, id, Sent(luck, id, s.conns[id], Goodbye).(closing := true))
  }

  function Kill(s: Server, id: ConnectionId): (t: Server)
    requires Linked(s) && id in s.conns
    ensures Linked(t)
  {
    Put(s, id, s.conns[id].(dead := true))
  }

  // ---------------------------------------------------------------- entering and leaving

  function EnterLobby(s: Server, luck: Luck, ref: LobbyRef, id: ConnectionId): (t: Server)
    requires Linked(s) && ref in s.lobbies && id in s.conns && s.conns[id].lobby.None?
    ensures Linked(t) && t.order == s.order && t.conns.Keys == s.conns.Keys
  {
    var lobby := s.lobbies[ref];
    var welcomed := SendTo(s, luck, id, LobbyJoined(PeersOf(s.conns, lobby.members)));
    var told := Broadcast(welcomed, luck, Ids(lobby.members), MemberJoined(s.conns[id].peer));
    EnterLinked(told, ref, id);
    told.(conns := told.conns[id := told.conns[id].(lobby := Some(ref))],
          lobbies := told.lobbies[ref := lobby.(members := lobby.members + [id])],
          events := s.events + [Arrived(LobbyId(ref), MemberOf(s.conns[id]))])
  }

  lemma {:induction false} EnterLinked(s: Server, ref: LobbyRef, id: ConnectionId)
    requires Linked(s) && ref in s.lobbies && id in s.conns && s.conns[id].lobby.None?
    ensures Mutual(s.conns[id := s.conns[id].(lobby := Some(ref))],
                   s.lobbies[ref := s.lobbies[ref].(members := s.lobbies[ref].members + [id])])
  {}

  function LeaveLobby(s: Server, luck: Luck, id: ConnectionId): (t: Server)
    requires Linked(s) && id in s.conns
    ensures Linked(t) && t.order == s.order && t.conns.Keys == s.conns.Keys && t.conns[id].lobby.None?
  {
    match s.conns[id].lobby
    case None => s
    case Some(ref) =>
      var lobby := s.lobbies[ref];
      var members := Without(lobby.members, id);
      var left := s.(conns := s.conns[id := s.conns[id].(lobby := None)],
                     events := s.events + [Left(LobbyId(ref), MemberOf(s.conns[id]))]);
      LeaveLinked(s, ref, id);
      if members != []
      then Broadcast(left.(lobbies := s.lobbies[ref := lobby.(members := members)]), luck, Ids(members), MemberLeft(s.conns[id].peer.id))
      else left.(lobbies := s.lobbies - {ref}, listing := Without(s.listing, ref), events := left.events + [Closed(LobbyId(ref))])
  }

  lemma {:induction false} LeaveLinked(s: Server, ref: LobbyRef, id: ConnectionId)
    requires Linked(s) && ref in s.lobbies && id in s.conns && s.conns[id].lobby == Some(ref)
    ensures var conns := s.conns[id := s.conns[id].(lobby := None)];
            var members := Without(s.lobbies[ref].members, id);
            if members != [] then Mutual(conns, s.lobbies[ref := s.lobbies[ref].(members := members)])
            else Mutual(conns, s.lobbies - {ref})
  {}

  // ---------------------------------------------------------------- handlers

  /** The identity message: whether it parsed, whether the proof held, and what it claims. */
  datatype Hello = Hello(parsed: bool, proven: bool, peer: Peer)

  /** Messages from a client; flags say whether the rest of the payload was read and is in bounds. */
  datatype Frame =
    | ClientHello(accepted: bool)
    | Identity(hello: Hello)
    | Query(name: Option<string>)
    | Create(name: Option<string>, complete: bool, verifier: nat)
    | Join(name: Option<string>, complete: bool, verifier: nat)
    | LobbySend(valid: bool)
    | LobbySendTo(valid: bool, recipient: MemberId)
    | ServerSend(valid: bool)
    | Unknown
    | Garbled               // a frame that does not authenticate, or an impossible length

  /** Another live connection already has the signing key. */
  predicate KeyInUse(s: Server, id: ConnectionId, key: Key)
    requires Linked(s)
  {
    exists other <- s.order :: other != id && s.conns[other].Live() && s.conns[other].peer.key == key
  }

  predicate Evicts(c: Connection, id: MemberId)
  {
    c.stage.Ready? && !c.dead && c.peer.id == id
  }

  function Evict(s: Server, luck: Luck, other: ConnectionId): (t: Server)
    requires Linked(s) && other in s.conns
    ensures Linked(t) && t.order == s.order && t.conns.Keys == s.conns.Keys
  {
    LeaveLobby(SendGoodbye(s, luck, other), luck, other)
  }

  /** The eviction loop of `Handle_Identity` over the first `n` connections. */
  function EvictAll(s: Server, luck: Luck, id: ConnectionId, member: MemberId, n: nat): (t: Server)
    requires Linked(s) && n <= |s.order|
    ensures Linked(t) && t.order == s.order && t.conns.Keys == s.conns.Keys
  {
    if n == 0 then s
    else
      var t := EvictAll(s, luck, id, member, n - 1);
      var other := s.order[n - 1];
      if other != id && Evicts(t.conns[other], member) then Evict(t, luck, other) else t
  }

  function HandleIdentity(s: Server, luck: Luck, id: ConnectionId, hello: Hello): (t: Server)
    requires Linked(s) && id in s.conns
    ensures Linked(t) && t.order == s.order && t.conns.Keys == s.conns.Keys
  {
    if !hello.parsed || !hello.proven || KeyInUse(s, id, hello.peer.key) then SendGoodbye(s, luck, id)
    else
      var known := Put(s, id, s.conns[id].(peer := hello.peer));
      var evicted := EvictAll(known, luck, id, hello.peer.id, |s.order|);
      SendTo(MakeReady(evicted, id), luck, id, Welcome(hello.peer.id))
  }

  function MakeReady(s: Server, id: ConnectionId): (t: Server)
    requires Linked(s) && id in s.conns
    ensures Linked(t) && t.order == s.order && t.conns.Keys == s.conns.Keys
  {
    var key := s.conns[id].peer.key;
    Put(s, id, s.conns[id].(stage := Ready))
      .(past := s.past.(newcomers := s.past.newcomers + {id}, keys := s.past.keys + {key},
                        freshKeys := s.past.freshKeys && key !in s.past.keys))
  }

  function Refuse(s: Server, luck: Luck, id: ConnectionId): (t: Server)
    requires Linked(s) && id in s.conns
    ensures Linked(t)
  {
    SendTo(s, luck, id, LobbyRefused)
  }

  /** A new lobby without members, and its `Lobby_Opened` event. */
  function OpenLobby(s: Server, name: string, verifier: nat): (t: Server)
    requires Linked(s)
    ensures Linked(t)
  {
    var ref := s.created + 1;
    s.(lobbies := s.lobbies[ref := Lobby(name, verifier, [])], listing := s.listing + [ref], created := ref,
       events := s.events + [Opened(LobbyId(ref), name)])
  }

  /** `Handle_Lobby_Request`; the past notes a request handled in the round of its sender's own hello. */
  function HandleRequest(s: Server, luck: Luck, id: ConnectionId, frame: Frame): (t: Server)
    requires Linked(s) && id in s.conns && (frame.Query? || frame.Create? || frame.Join?)
    ensures Linked(t) && t.order == s.order && t.conns.Keys == s.conns.Keys
  {
    var s := s.(past := s.past.(patient := s.past.patient && id !in s.past.newcomers));
    if s.conns[id].lobby.Some? || frame.name.None? then SendGoodbye(s, luck, id)
    else
      var found := Find(s, s.listing, frame.name.value);
      match frame
      case Query(_) => SendTo(s, luck, id, LobbyInfo(found.Some?))
      case Create(name, complete, verifier) =>
        if !complete then SendGoodbye(s, luck, id)
        else if found.Some? then Refuse(s, luck, id)
        else EnterLobby(OpenLobby(s, name.value, verifier), luck, s.created + 1, id)
      case Join(_, complete, verifier) =>
        if !complete then SendGoodbye(s, luck, id)
        else if found.None? then Refuse(s, luck, id)
        else if verifier == s.lobbies[found.value].verifier then EnterLobby(s, luck, found.value, id)
        else
          var refused := Refuse(s, luck, id);
          Put(refused, id, refused.conns[id].(closing := true))
  }

  /** The members a relayed message goes to. */
  function Recipients(s: Server, id: ConnectionId, frame: Frame): set<ConnectionId>
    requires Linked(s) && id in s.conns && s.conns[id].lobby.Some?
  {
    set m <- s.lobbies[s.conns[id].lobby.value].members |
      (if frame.LobbySendTo? then s.conns[m].peer.id == frame.recipient else m != id) :: m
  }

  /** `Handle_Ready`. Over UDP only relayed messages are looked at, and they are relayed over UDP. */
  function HandleReady(s: Server, luck: Luck, id: ConnectionId, frame: Frame, udp: bool): (t: Server)
    requires Linked(s) && id in s.conns
    ensures Linked(t) && t.order == s.order && t.conns.Keys == s.conns.Keys
  {
    if frame.LobbySend? || frame.LobbySendTo? || frame.ServerSend? then
      if s.conns[id].lobby.None? || !frame.valid then SendGoodbye(s, luck, id)
      else if frame.ServerSend? then s.(events := s.events + [Delivered(LobbyId(s.conns[id].lobby.value))])
      else if udp then s
      else Broadcast(s, luck, Recipients(s, id, frame), Relayed)
    else if udp then s
    else if frame.Query? || frame.Create? || frame.Join? then HandleRequest(s, luck, id, frame)
    else SendGoodbye(s, luck, id)
  }

  /** One message from a connection's TCP stream, by stage. */
  function HandleFrame(s: Server, luck: Luck, id: ConnectionId, frame: Frame): (t: Server)
    requires Linked(s) && id in s.conns
    ensures Linked(t) && t.order == s.order && t.conns.Keys == s.conns.Keys
  {
    var c := s.conns[id];
    if c.dead || c.closing then s
    else
      match c.stage
      case HelloStage =>
        Put(s, id, c.(stage := IdentityStage, dead := !(frame.ClientHello? && frame.accepted)))
      case IdentityStage =>
        if frame.Garbled? then Kill(s, id)
        else HandleIdentity(s, luck, id, if frame.Identity? then frame.hello else Hello(false, false, c.peer))
      case Ready => if frame.Garbled? then Kill(s, id) else HandleReady(s, luck, id, frame, false)
  }

  // ---------------------------------------------------------------- a round of Main

  /** `Close_Connection`: the last connection of the table takes the place of the closed one. */
  function CloseConnection(s: Server, luck: Luck, index: nat): (t: Server)
    requires Linked(s) && index < |s.order|
    ensures Linked(t) && |t.order| == |s.order| - 1
    ensures t.order == s.order[index := s.order[|s.order| - 1]][..|s.order| - 1]
    ensures t.conns.Keys == s.conns.Keys - {s.order[index]}
  {
    var id := s.order[index];
    var left := LeaveLobby(s, luck, id);
    CloseTabled(left, index);
    left.(order := s.order[index := s.order[|s.order| - 1]][..|s.order| - 1],
          conns := left.conns - {id}, past := left.past.(newcomers := left.past.newcomers - {id}))
  }

  lemma {:induction false} CloseTabled(s: Server, index: nat)
    requires Linked(s) && index < |s.order| && s.conns[s.order[index]].lobby.None?
    ensures var order := s.order[index := s.order[|s.order| - 1]][..|s.order| - 1];
            && s.order[index] !in order
            && (forall c <- order :: c in s.order)
            && (forall i, j :: 0 <= i < j < |order| ==> order[i] != order[j])
            && Mutual(s.conns - {s.order[index]}, s.lobbies)
  {}

  /** The closing loop at the end of a round, from position `n` down. */
  function CloseDead(s: Server, luck: Luck, n: nat): (t: Server)
    requires Linked(s) && n <= |s.order|
    ensures Linked(t)
    decreases n
  {
    if n == 0 then s
    else if s.conns[s.order[n - 1]].dead then CloseDead(CloseConnection(s, luck, n - 1), luck, n - 1)
    else CloseDead(s, luck, n - 1)
  }

  /** `Lobby_Of`: the first listed lobby with this identifier. */
  function LobbyOf(listing: seq<LobbyRef>, id: u32): (r: Option<LobbyRef>)
    ensures r.Some? ==> r.value in listing && LobbyId(r.value) == id
  {
    if listing == [] then None
    else if LobbyId(listing[0]) == id then Some(listing[0])
    else LobbyOf(listing[1..], id)
  }

  /** What happens inside a round, one thing at a time, and the end of a round. */
  datatype Action =
    | SendOutgoing(lobby: u32, to: set<MemberId>)  // one queued host message; `to` selects members
    | Receive(id: ConnectionId, frame: Frame)      // one message of a connection's TCP stream
    | Datagram(id: ConnectionId, frame: Frame)     // one authentic UDP message
    | Fail(id: ConnectionId)                       // a socket error, or the hello timeout
    | Flush(id: ConnectionId, through: nat)        // the first `through` queued messages are all sent
    | EndRound                                     // dead connections are closed
    | Accept(id: ConnectionId)                     // a new connection, under a fresh name

  function Act(s: Server, luck: Luck, action: Action): (t: Server)
    requires Linked(s)
    ensures Linked(t)
  {
    match action
    case SendOutgoing(lobby, to) =>
      (match LobbyOf(s.listing, lobby)
       case None => s
       case Some(ref) => Broadcast(s, luck, set m <- s.lobbies[ref].members | s.conns[m].peer.id in to :: m, Relayed))
    case Receive(id, frame) => if id in s.conns then HandleFrame(s, luck, id, frame) else s
    case Datagram(id, frame) =>
      if id in s.conns && s.conns[id].Live() && s.conns[id].lobby.Some? then HandleReady(s, luck, id, frame, true) else s
    case Fail(id) => if id in s.conns then Kill(s, id) else s
    case Flush(id, through) =>
      if id in s.conns && |s.conns[id].sent| <= through
      then Put(s, id, s.conns[id].(dead := s.conns[id].dead || s.conns[id].closing))
      else s
    case EndRound =>
      var t := CloseDead(s, luck, |s.order|);
      t.(past := t.past.(newcomers := {}))
    case Accept(id) =>
      if id !in s.conns && |s.order| < MAX_CONNECTIONS
      then s.(order := s.order + [id], conns := s.conns[id := ACCEPTED])
      else s
  }

  /** The server after a sequence of actions; every run of `Main` is one. */
  function Run(luck: Luck, actions: seq<Action>): (s: Server)
    ensures Linked(s)
  {
    if actions == [] then STARTED
    else Act(Run(luck, actions[..|actions| - 1]), luck, actions[|actions| - 1])
  }
}
