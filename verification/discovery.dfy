/** Peer discovery: each scan upserts what the transport found and announces newcomers once. */
module Discovery {
  import opened Types

  /** What one found peer does to the table. */
  function Note(peers: seq<Peer>, p: Peer, now: Time): seq<Peer> {
    var j := IndexOf(peers, p.pubkey);
    if j < |peers| then peers[j := peers[j].(lastSeen := now, rssi := p.rssi)]
    else if |peers| < MAX_PEERS then peers + [p]
    else peers
  }

  function NoteAll(peers: seq<Peer>, found: seq<Peer>, now: Time): seq<Peer> {
    if found == [] then peers
    else Note(NoteAll(peers, found[..|found| - 1], now), found[|found| - 1], now)
  }

  predicate Sound(peers: seq<Peer>) {
    Distinct(Keys(peers)) && |peers| <= MAX_PEERS
  }

  /** A known key keeps its place; a new one is appended while there is room. */
  lemma NoteKeys(peers: seq<Peer>, p: Peer, now: Time)
    requires Sound(peers)
    ensures Sound(Note(peers, p, now))
    ensures Keys(Note(peers, p, now)) ==
            Keys(peers) + if p.pubkey !in Keys(peers) && |peers| < 64 then [p.pubkey] else []
    ensures p.pubkey !in Keys(peers) && |peers| < 64 ==> Note(peers, p, now) == peers + [p]
    ensures forall i :: 0 <= i < |peers| ==>
              Note(peers, p, now)[i] ==
              if peers[i].pubkey == p.pubkey then peers[i].(lastSeen := now, rssi := p.rssi) else peers[i]
  {
    var j := IndexOf(peers, p.pubkey);
    if j < |peers| {
      assert Keys(peers)[j] == p.pubkey;
      assert Keys(Note(peers, p, now)) == Keys(peers);
      assert forall i :: 0 <= i < |peers| && i != j ==> Keys(peers)[i] != Keys(peers)[j];
    } else if |peers| < MAX_PEERS {
      assert Keys(peers + [p]) == Keys(peers) + [p.pubkey];
    }
  }

  datatype ScanInput = ScanInput(found: seq<Peer>, now: Time)

  function Scans(peers: seq<Peer>, inputs: seq<ScanInput>): seq<Peer> {
    if inputs == [] then peers
    else
      var last := inputs[|inputs| - 1];
      NoteAll(Scans(peers, inputs[..|inputs| - 1]), last.found, last.now)
  }

  /** The callbacks of one scan, in order: exactly the keys by which the table grew. */
  function Announced(peers: seq<Peer>, found: seq<Peer>, now: Time): seq<PubKey> {
    if found == [] then []
    else
      var before := NoteAll(peers, found[..|found| - 1], now);
      Announced(peers, found[..|found| - 1], now)
      + if IndexOf(before, found[|found| - 1].pubkey) == |before| && |before| < MAX_PEERS
        then [found[|found| - 1].pubkey] else []
  }

  function AnnouncedBy(peers: seq<Peer>, inputs: seq<ScanInput>): seq<PubKey> {
    if inputs == [] then []
    else
      var front, last := inputs[..|inputs| - 1], inputs[|inputs| - 1];
      AnnouncedBy(peers, front) + Announced(Scans(peers, front), last.found, last.now)
  }

  lemma {:induction false} AnnouncedIsGrowth(peers: seq<Peer>, found: seq<Peer>, now: Time)
    requires Sound(peers)
    ensures Sound(NoteAll(peers, found, now))
    ensures Keys(NoteAll(peers, found, now)) == Keys(peers) + Announced(peers, found, now)
  {
    if found != [] {
      var front, p := found[..|found| - 1], found[|found| - 1];
      AnnouncedIsGrowth(peers, front, now);
      var before := NoteAll(peers, front, now);
      NoteKeys(before, p, now);
      assert p.pubkey in Keys(before) <==> IndexOf(before, p.pubkey) < |before| by {
        var j := IndexOf(before, p.pubkey);
        if j < |before| {
          assert Keys(before)[j] == p.pubkey;
        }
      }
    }
  }

  /** One found peer after the other: a scan of two batches is the scan of the first, then of the second. */
  lemma {:induction false} NoteInTurn(peers: seq<Peer>, a: seq<Peer>, b: seq<Peer>, now: Time)
    ensures NoteAll(peers, a + b, now) == NoteAll(NoteAll(peers, a, now), b, now)
  {
    if b == [] {
      assert a + b == a;
    } else {
      NoteInTurn(peers, a, b[..|b| - 1], now);
      assert (a + b)[..|a + b| - 1] == a + b[..|b| - 1];
    }
  }

  /** The entry of every peer found: in the table once scanned, unless 64 others fill it. */
  lemma {:induction false} FoundIsKnown(peers: seq<Peer>, found: seq<Peer>, now: Time, i: nat)
    requires Sound(peers) && i < |found|
    ensures var after := NoteAll(peers, found, now);
            found[i].pubkey in Keys(after) || |after| == 64
  {
    var front, p := found[..|found| - 1], found[|found| - 1];
    AnnouncedIsGrowth(peers, front, now);
    NoteKeys(NoteAll(peers, front, now), p, now);
    if i < |front| {
      FoundIsKnown(peers, front, now, i);
    }
  }

  /** Over any sequence of scans the callback log is exactly the table's keys in order, each once, at most 64. */
  lemma {:induction false} LogIsTable(inputs: seq<ScanInput>)
    ensures Sound(Scans([], inputs)) && |Scans([], inputs)| <= 64
    ensures AnnouncedBy([], inputs) == Keys(Scans([], inputs))
  {
    if inputs != [] {
      var front, last := inputs[..|inputs| - 1], inputs[|inputs| - 1];
      LogIsTable(front);
      AnnouncedIsGrowth(Scans([], front), last.found, last.now);
    }
  }

  class PeerDiscovery {
    const peers: array<Peer>
    var peerCount: nat
    var log: seq<PubKey>
    const hasTransport: bool
    const hasCallback: bool

    ghost predicate Valid()
      reads this, peers
    {
      peers.Length == MAX_PEERS && peerCount <= MAX_PEERS && Distinct(Keys(peers[..peerCount]))
    }

    ghost function Table(): seq<Peer>
      requires Valid()
      reads this, peers
    {
      peers[..peerCount]
    }

    constructor (hasTransport: bool, hasCallback: bool)
      ensures Valid() && fresh(peers) && Table() == [] && log == []
      ensures this.hasTransport == hasTransport && this.hasCallback == hasCallback
    {
      this.hasTransport, this.hasCallback := hasTransport, hasCallback;
      peers := new Peer[MAX_PEERS](_ => Peer(seq(32, _ => 0), 0, Ble, 0));
      peerCount, log := 0, [];
    }

    /** The inner loop: find the key and refresh it, or append and announce. */
    method NoteOne(p: Peer, now: Time)
      requires Valid()
      modifies this, peers
      ensures Valid()
      ensures Table() == Note(old(Table()), p, now)
      ensures log == old(log) + if hasCallback then Announced(old(Table()), [p], now) else []
    {
      ghost var t := Table();
      NoteKeys(t, p, now);
      AnnouncedOne(t, p, now);
      for j := 0 to peerCount
        invariant peers[..peerCount] == t && peerCount == |t| && log == old(log)
        invariant forall i :: 0 <= i < j ==> t[i].pubkey != p.pubkey
      {
        if peers[j].pubkey == p.pubkey {
          peers[j] := peers[j].(lastSeen := now);
          peers[j] := peers[j].(rssi := p.rssi);
          assert peers[..peerCount] == t[j := t[j].(lastSeen := now, rssi := p.rssi)];
          return;
        }
      }
      if peerCount < MAX_PEERS {
        peers[peerCount] := p;
        peerCount := peerCount + 1;
        assert peers[..peerCount] == t + [p];
        if hasCallback {
          log := log + [p.pubkey];
        }
      }
    }

    /** `rc` and `found` are what the transport answered. */
    method Scan(rc: Code, found: seq<Peer>, now: Time) returns (code: Code)
      requires Valid() && |found| <= MAX_PEERS
      modifies this, peers
      ensures Valid()
      ensures code == if !hasTransport then Invalid else rc
      ensures Table() == if code.Ok? then NoteAll(old(Table()), found, now) else old(Table())
      ensures log == old(log) + if code.Ok? && hasCallback then Announced(old(Table()), found, now) else []
    {
      hide NoteAll;
      hide Announced;
      hide Note;
      if !hasTransport {
        return Invalid;
      }
      if !rc.Ok? {
        return rc;
      }
      ghost var t := Table();
      ScanNone(t, now);
      assert found[..0] == [];
      for i := 0 to |found|
        invariant Valid()
        invariant Table() == NoteAll(t, found[..i], now)
        invariant log == old(log) + if hasCallback then Announced(t, found[..i], now) else []
      {
        ScanExtend(t, found, i, now);
        NoteOne(found[i], now);
      }
      assert found[..|found|] == found;
      return Ok;
    }

    method GetPeers(max: nat) returns (out: seq<Peer>)
      requires Valid()
      ensures out <= Table() && |out| == if peerCount < max then peerCount else max
    {
      var n := if peerCount < max then peerCount else max;
      out := peers[..n];
    }
  }

  lemma ScanNone(t: seq<Peer>, now: Time)
    ensures NoteAll(t, [], now) == t && Announced(t, [], now) == []
  {
  }

  lemma ScanExtend(t: seq<Peer>, found: seq<Peer>, i: nat, now: Time)
    requires i < |found|
    ensures var mid := NoteAll(t, found[..i], now);
            && NoteAll(t, found[..i + 1], now) == Note(mid, found[i], now)
            && Announced(t, found[..i + 1], now) == Announced(t, found[..i], now) + Announced(mid, [found[i]], now)
  {
    assert found[..i + 1][..i] == found[..i];
    AnnouncedOne(NoteAll(t, found[..i], now), found[i], now);
  }

  lemma AnnouncedOne(t: seq<Peer>, p: Peer, now: Time)
    ensures Announced(t, [p], now) ==
            if IndexOf(t, p.pubkey) == |t| && |t| < MAX_PEERS then [p.pubkey] else []
  {
    assert [p][..0] == [];
  }
}
