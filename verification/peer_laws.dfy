/** Which peers a frame reaches, and what stays true of the neighbour table. */
module PeerLaws {
  import opened Types
  import opened RouterSpec
  import SeenLaws

  /** The peers that would take a frame, in table order. */
  function Accepting(peers: seq<Peer>, up: set<PubKey>): seq<PubKey> {
    if peers == [] then []
    else (if peers[0].pubkey in up then [peers[0].pubkey] else []) + Accepting(peers[1..], up)
  }

  function Min(a: nat, b: nat): nat { if a < b then a else b }

  /** Forwarding reaches exactly the first min(fanout, accepting) accepting peers, in table order. */
  lemma {:induction false} ForwardPicksFirst(peers: seq<Peer>, up: set<PubKey>, n: nat)
    ensures var all := Accepting(peers, up);
            Chosen(peers, up, n) == all[..Min(n, |all|)]
  {
    if n > 0 && peers != [] {
      if peers[0].pubkey in up {
        ForwardPicksFirst(peers[1..], up, n - 1);
      } else {
        ForwardPicksFirst(peers[1..], up, n);
        assert [] + Accepting(peers[1..], up) == Accepting(peers[1..], up);
      }
    }
  }

  lemma {:induction false} AcceptingKeys(peers: seq<Peer>, up: set<PubKey>, key: PubKey)
    ensures key in Accepting(peers, up) <==> key in up && key in Keys(peers)
  {
    if peers != [] {
      AcceptingKeys(peers[1..], up, key);
      assert Keys(peers) == [peers[0].pubkey] + Keys(peers[1..]);
    }
  }

  /** With distinct keys, no peer is contacted twice for one frame. */
  lemma {:induction false} ForwardContactsOnce(peers: seq<Peer>, up: set<PubKey>)
    requires Distinct(Keys(peers))
    ensures Distinct(Accepting(peers, up))
  {
    if peers != [] {
      assert Keys(peers) == [peers[0].pubkey] + Keys(peers[1..]);
      assert forall i :: 0 <= i < |peers| - 1 ==> Keys(peers)[i + 1] == Keys(peers[1..])[i];
      ForwardContactsOnce(peers[1..], up);
      AcceptingKeys(peers[1..], up, peers[0].pubkey);
    }
  }

  /** The table keeps distinct keys and its bound, and a key never moves once placed. */
  lemma UpsertKeepsTable(peers: seq<Peer>, p: Peer, now: Time)
    requires Distinct(Keys(peers)) && |peers| <= MAX_PEERS
    ensures var after := Upsert(peers, p, now);
            && Distinct(Keys(after))
            && |after| <= 64
            && Keys(peers) <= Keys(after)
            && (p.pubkey in Keys(after) <==> p.pubkey in Keys(peers) || |peers| < 64)
            && (p.pubkey !in Keys(peers) && |peers| < 64 ==> after == peers + [p])
            && (p.pubkey in Keys(peers) || |peers| >= 64 ==> |after| == |peers|)
            && forall i :: 0 <= i < |peers| ==>
                 after[i] == if peers[i].pubkey == p.pubkey then p.(lastSeen := now) else peers[i]
  {
    var i := IndexOf(peers, p.pubkey);
    var after := Upsert(peers, p, now);
    if i < |peers| {
      assert Keys(after) == Keys(peers);
      assert Keys(peers)[i] == p.pubkey;
      assert forall j :: 0 <= j < |peers| && j != i ==> Keys(peers)[j] != Keys(peers)[i];
    } else if |peers| < MAX_PEERS {
      assert Keys(after) == Keys(peers) + [p.pubkey];
    }
  }

  lemma OnlyAddPeerTouchesTable(r: Router, e: Event)
    ensures !e.AddPeer? ==> Step(r, e).router.peers == r.peers
  {
  }

  /** In every reachable state the table has distinct keys, at most 64 of them, at stable positions. */
  lemma {:induction false} TableOverRuns(r: Router, evs: seq<Event>)
    requires Distinct(Keys(r.peers)) && |r.peers| <= MAX_PEERS
    ensures var peers := Exec(r, evs).peers;
            Distinct(Keys(peers)) && |peers| <= 64 && Keys(r.peers) <= Keys(peers)
  {
    if evs != [] {
      var front, e := evs[..|evs| - 1], evs[|evs| - 1];
      TableOverRuns(r, front);
      var s := Exec(r, front);
      OnlyAddPeerTouchesTable(s, e);
      if e.AddPeer? {
        UpsertKeepsTable(s.peers, e.peer, e.now);
      }
    }
  }

  /** Any frame a router sends, in any run, goes at most once to any one peer, in table order, fanout-bounded. */
  lemma ForwardOverRuns(r: Router, evs: seq<Event>, data: bytes, up: set<PubKey>)
    requires Distinct(Keys(r.peers)) && |r.peers| <= MAX_PEERS
    requires r.cfg.hasTransport
    ensures var now := Exec(r, evs);
            var all := Accepting(now.peers, up);
            && Broadside(now, data, up) == Address(all[..Min(r.cfg.fanout, |all|)], data)
            && Distinct(all)
  {
    hide Exec;
    TableOverRuns(r, evs);
    SeenLaws.CfgFixed(r, evs);
    ForwardPicksFirst(Exec(r, evs).peers, up, r.cfg.fanout);
    ForwardContactsOnce(Exec(r, evs).peers, up);
  }
}
