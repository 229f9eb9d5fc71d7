/** The lobby client's peer list as the object of client/src/network/lobby_client.cpp keeps it. */
module LobbyClient {
  import opened Options
  import opened LobbyMembers

  class Client {
    const self: Peer
    var peers: seq<Peer>
    var joined: bool
    var failed: bool

    /** What the replica functions call this client's state. */
    ghost function State(): Replica
      reads this
    {
      if failed then Failed else if joined then Joined(peers) else Waiting
    }

    constructor (self: Peer)
      ensures this.self == self && State() == Fold(self, []) && peers == []
    {
      this.self := self;
      peers, joined, failed := [], false, false;
    }

    /** `Add_Peer`: refuse the client's own and every known identifier and key. */
    method AddPeer(peer: Peer) returns (ok: bool)
      modifies this`peers
      ensures ok == !Clashes(self, old(peers), peer)
      ensures peers == if ok then old(peers) + [peer] else old(peers)
    {
      if peer.id == self.id || peer.key == self.key { return false; }
      for i := 0 to |peers|
        invariant peers == old(peers)
        invariant forall k :: 0 <= k < i ==> peers[k].id != peer.id && peers[k].key != peer.key
      {
        if peers[i].id == peer.id || peers[i].key == peer.key {
          assert peers[i] in peers;
          return false;
        }
      }
      peers := peers + [peer];
      return true;
    }

    /** `Read_Members`: on failure the peers read so far stay. */
    method ReadMembers(members: seq<Peer>) returns (ok: bool)
      modifies this`peers
      ensures ok == AddPeers(self, old(peers), members).Some?
      ensures ok ==> AddPeers(self, old(peers), members) == Some(peers)
    {
      for i := 0 to |members|
        invariant AddPeers(self, old(peers), members[..i]) == Some(peers)
      {
        assert members[..i + 1][..i] == members[..i];
        ok := AddPeer(members[i]);
        if !ok {
          RefusedEarly(self, old(peers), members, i + 1);
          return;
        }
      }
      assert members[..|members|] == members;
      return true;
    }

    /** `std::erase_if` over the list. */
    method ErasePeers(id: MemberId)
      modifies this`peers
      ensures peers == DropPeers(old(peers), id)
    {
      var kept: seq<Peer> := [];
      for i := 0 to |peers|
        invariant peers == old(peers) && kept == DropPeers(peers[..i], id)
      {
        assert peers[..i + 1][..i] == peers[..i];
        if peers[i].id != id { kept := kept + [peers[i]]; }
      }
      assert peers[..|peers|] == peers;
      peers := kept;
    }

    /** What `Connect`, `Join_Lobby` and `Handle_Message` do with one message. */
    method HandleMessage(message: Message) returns (ok: bool)
      requires !failed && (!joined ==> peers == [])
      modifies this`peers, this`joined, this`failed
      ensures State() == Handle(self, old(State()), message)
      ensures ok == !failed && (ok ==> !joined ==> peers == [])
    {
      match message {
        case Welcome(id) =>
          ok := !joined && id == self.id;
        case LobbyInfo(_) =>
          ok := !joined;
        case LobbyRefused =>
          ok := !joined;
        case LobbyJoined(members) =>
          if joined {
            ok := false;
          } else {
            ok := ReadMembers(members);
            joined := ok;
          }
        case MemberJoined(peer) =>
          if joined { ok := AddPeer(peer); } else { ok := false; }
        case MemberLeft(id) =>
          ok := joined;
          if joined { ErasePeers(id); }
        case Relayed =>
          ok := joined;
        case Goodbye =>
          ok := false;
      }
      failed := !ok;
    }

    /** All messages of a connection, up to the first failure. */
    method HandleAll(messages: seq<Message>) returns (ok: bool)
      requires State() == Waiting && peers == []
      modifies this`peers, this`joined, this`failed
      ensures ok == !Fold(self, messages).Failed?
      ensures ok ==> State() == Fold(self, messages)
    {
      for i := 0 to |messages|
        invariant !failed && (!joined ==> peers == []) && State() == Fold(self, messages[..i])
      {
        FoldNext(self, messages[..i], messages[i]);
        assert messages[..i + 1] == messages[..i] + [messages[i]];
        ok := HandleMessage(messages[i]);
        if !ok {
          if !Fold(self, messages).Failed? { FoldPrefix(self, messages, i + 1); }
          return;
        }
      }
      assert messages[..|messages|] == messages;
      return true;
    }
  }

  lemma {:induction false} RefusedEarly(self: Peer, peers: seq<Peer>, members: seq<Peer>, n: nat)
    requires n <= |members| && AddPeers(self, peers, members[..n]) == None
    ensures AddPeers(self, peers, members) == None
  {
    if n < |members| {
      var front := members[..|members| - 1];
      assert front[..n] == members[..n];
      RefusedEarly(self, peers, front, n);
    } else {
      assert members[..n] == members;
    }
  }
}
