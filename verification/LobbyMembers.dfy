/**
 The member list a lobby client keeps, client/src/network/lobby_client.cpp: what each message the server
 queues to it does to the list.

 Identifiers and signing keys are numbers; the cryptography that binds them is taken as ideal.
 */
module LobbyMembers {
  import opened Options

  type MemberId = nat
  type Key = nat

  datatype Peer = Peer(id: MemberId, nickname: string, key: Key)

  /** The messages a server queues to a connection, as far as membership tells them apart. */
  datatype Message =
    | Welcome(id: MemberId)
    | LobbyInfo(found: bool)
    | LobbyJoined(peers: seq<Peer>)
    | LobbyRefused
    | MemberJoined(peer: Peer)
    | MemberLeft(id: MemberId)
    | Relayed
    | Goodbye

  /** A client before it is in a lobby, in one with these peers, or failed. */
  datatype Replica = Waiting | Joined(peers: seq<Peer>) | Failed

  /** `Add_Peer` refuses a peer with the client's own or a known identifier or signing key. */
  predicate Clashes(self: Peer, peers: seq<Peer>, peer: Peer)
  {
    peer.id == self.id || peer.key == self.key || exists p <- peers :: p.id == peer.id || p.key == peer.key
  }

  function AddPeer(self: Peer, peers: seq<Peer>, peer: Peer): (r: Option<seq<Peer>>)
  {
    if Clashes(self, peers, peer) then None else Some(peers + [peer])
  }

  /** `Read_Members`: add the listed peers one by one. */
  function AddPeers(self: Peer, peers: seq<Peer>, more: seq<Peer>): Option<seq<Peer>>
  {
    if more == [] then Some(peers)
    else
      match AddPeers(self, peers, more[..|more| - 1])
      case None => None
      case Some(added) => AddPeer(self, added, more[|more| - 1])
  }

  function DropPeers(peers: seq<Peer>, id: MemberId): (r: seq<Peer>)
    ensures forall p <- r :: p in peers && p.id != id
  {
    if peers == [] then []
    else
      var rest := DropPeers(peers[..|peers| - 1], id);
      if peers[|peers| - 1].id == id then rest else rest + [peers[|peers| - 1]]
  }

  /** One message from the server. */
  function Handle(self: Peer, replica: Replica, message: Message): Replica
  {
    match replica
    case Failed => Failed
    case Waiting =>
      (match message
       case Welcome(id) => if id == self.id then Waiting else Failed
       case LobbyInfo(_) => Waiting
       case LobbyRefused => Waiting
       case LobbyJoined(members) =>
         (match AddPeers(self, [], members) case None => Failed case Some(peers) => Joined(peers))
       case _ => Failed)
    case Joined(peers) =>
      (match message
       case MemberJoined(peer) =>
         (match AddPeer(self, peers, peer) case None => Failed case Some(more) => Joined(more))
       case MemberLeft(id) => Joined(DropPeers(peers, id))
       case Relayed => replica
       case _ => Failed)
  }

  /** The client after all messages, from the start of its connection. */
  function Fold(self: Peer, messages: seq<Message>): Replica
  {
    if messages == [] then Waiting
    else Handle(self, Fold(self, messages[..|messages| - 1]), messages[|messages| - 1])
  }

  lemma {:induction false} FoldNext(self: Peer, messages: seq<Message>, message: Message)
    ensures Fold(self, messages + [message]) == Handle(self, Fold(self, messages), message)
  {
    assert (messages + [message])[..|messages|] == messages;
  }

  /** A failed client stays failed, so a client that has not failed never refused an earlier message. */
  lemma {:induction false} FoldPrefix(self: Peer, messages: seq<Message>, k: nat)
    requires k <= |messages| && !Fold(self, messages).Failed?
    ensures !Fold(self, messages[..k]).Failed?
  {
    if k < |messages| {
      var front := messages[..|messages| - 1];
      FoldPrefix(self, front, k);
      assert front[..k] == messages[..k];
    } else {
      assert messages[..k] == messages;
    }
  }

  /** Peers that differ from each other and from the client in identifier and key are all added, in order. */
  ghost predicate Separate(peers: seq<Peer>)
  {
    forall i, j :: 0 <= i < j < |peers| ==> peers[i].id != peers[j].id && peers[i].key != peers[j].key
  }

  ghost predicate Foreign(self: Peer, peers: seq<Peer>)
  {
    forall p <- peers :: p.id != self.id && p.key != self.key
  }

  /** A listed membership is taken whole, or refused: when two peers, or a peer and the client, share an identifier or a key. */
  lemma {:induction false} AddPeersExactly(self: Peer, more: seq<Peer>)
    ensures AddPeers(self, [], more) == if Separate(more) && Foreign(self, more) then Some(more) else None
  {
    if more != [] {
      var front, last := more[..|more| - 1], more[|more| - 1];
      assert more == front + [last];
      AddPeersExactly(self, front);
      assert Separate(more) && Foreign(self, more) ==> Separate(front) && Foreign(self, front);
      if Separate(front) && Foreign(self, front) {
        if Clashes(self, front, last) && last.id != self.id && last.key != self.key {
          var p :| p in front && (p.id == last.id || p.key == last.key);
          var i :| 0 <= i < |front| && front[i] == p;
          assert more[i] == p && more[|more| - 1] == last;
        } else if !Clashes(self, front, last) {
          forall i | 0 <= i < |front| ensures more[i].id != last.id && more[i].key != last.key { assert front[i] in front; }
        }
      }
    }
  }

  /** Dropping an identifier that occurs once removes just that peer. */
  lemma {:induction false} DropOnePeer(before: seq<Peer>, gone: Peer, after: seq<Peer>)
    requires forall p <- before + after :: p.id != gone.id
    ensures DropPeers(before + [gone] + after, gone.id) == before + after
  {
    if after == [] {
      assert (before + [gone])[..|before|] == before;
      assert before + [gone] + after == before + [gone] && before + after == before;
      DropNoPeer(before, gone.id);
    } else {
      var front, last := after[..|after| - 1], after[|after| - 1];
      assert before + [gone] + after == (before + [gone] + front) + [last];
      assert before + after == (before + front) + [last];
      assert last in before + after;
      forall p <- before + front ensures p.id != gone.id { assert p in before + after; }
      DropOnePeer(before, gone, front);
      DropNext(before + [gone] + front, last, gone.id);
    }
  }

  lemma {:induction false} DropNext(peers: seq<Peer>, last: Peer, id: MemberId)
    ensures DropPeers(peers + [last], id) == if last.id == id then DropPeers(peers, id) else DropPeers(peers, id) + [last]
  {
    assert (peers + [last])[..|peers|] == peers;
  }

  lemma {:induction false} DropNoPeer(peers: seq<Peer>, id: MemberId)
    requires forall p <- peers :: p.id != id
    ensures DropPeers(peers, id) == peers
  {
    if peers != [] {
      DropNoPeer(peers[..|peers| - 1], id);
      assert peers[|peers| - 1] in peers;
      assert peers == peers[..|peers| - 1] + [peers[|peers| - 1]];
    }
  }
}
