/**
 * Why the flood needs synchronous rounds: a copy that took a long way round, arriving first with its TTL
 * spent, keeps a direct neighbour from ever getting the message.
 */
module Overtaking {
  import opened Types
  import opened Codec
  import opened RouterSpec
  import opened Network
  import opened NetworkLaws
  import Dedup
  import DedupLaws
  import Flood

  /** A router at `n` that has not marked `u` and forwards to exactly `next`, all of them reachable. */
  predicate Forwarder(r: Router, n: PubKey, u: Uuid, next: seq<PubKey>, up: set<PubKey>) {
    && r.cfg.me == n && r.cfg.hasTransport && !Dedup.Contains(r.dedup, u)
    && Keys(r.peers) == next && |next| <= r.cfg.fanout
    && forall i :: 0 <= i < |next| ==> next[i] in up
  }

  /** Whom node `i` of the detour forwards to: the next one, and for the origin also the recipient directly. */
  function Links(chain: seq<PubKey>, i: nat): seq<PubKey>
    requires i + 1 < |chain|
  {
    if i == 0 then [chain[1], chain[|chain| - 1]] else [chain[i + 1]]
  }

  /**
   * A chain of forwarders from the origin to the recipient, one hop longer than the TTL allows, and a direct
   * link from the origin to the recipient beside it.
   */
  predicate Detour(s: Net, chain: seq<PubKey>, m: Message, up: set<PubKey>) {
    && m.ttl >= 1 && |chain| == m.ttl + 2 && Distinct(chain)
    && HEADER + |m.payload| <= RECV_BUFFER && m.receiver == chain[|chain| - 1]
    && s.flight == [] && m.uuid !in s.origins
    && (forall i :: 0 <= i < |chain| ==> chain[i] in s.nodes)
    && (forall i :: 0 <= i < |chain| - 1 ==>
          Forwarder(s.nodes[chain[i]].router, chain[i], m.uuid, Links(chain, i), up))
    && !Dedup.Contains(s.nodes[m.receiver].router.dedup, m.uuid)
  }

  lemma ForwarderSends(r: Router, n: PubKey, u: Uuid, next: seq<PubKey>, data: bytes, up: set<PubKey>)
    requires Forwarder(r, n, u, next, up)
    ensures Broadside(r, data, up) == Address(next, data)
  {
    Flood.EveryPeerChosen(r.peers, up, r.cfg.fanout);
  }

  lemma ClippedCopy(m: Message, ttl: byte)
    requires HEADER + |m.payload| <= RECV_BUFFER
    ensures Decode(Clip(Encode(m.(ttl := ttl)))) == Accept(m.(ttl := ttl))
  {
    DecodeEncode(m.(ttl := ttl));
  }

  /** A forwarder that is not the addressee passes a first copy on with one TTL less. */
  lemma Relays(r: Router, n: PubKey, next: seq<PubKey>, m: Message, ttl: byte, now: Time, up: set<PubKey>)
    requires Forwarder(r, n, m.uuid, next, up) && n != m.receiver && ttl > 0
    requires HEADER + |m.payload| <= RECV_BUFFER
    ensures var eff := ReceiveEffect(r, Clip(Encode(m.(ttl := ttl))), now, up);
            eff.sends == Address(next, Encode(m.(ttl := ttl - 1))) && eff.delivered == []
  {
    hide Encode;
    hide Decode;
    hide Clip;
    hide Dedup.Contains;
    hide Dedup.Insert;
    hide Forwarder;
    ClippedCopy(m, ttl);
    ForwarderParts(r, n, m.uuid, next, up);
    ForwarderSends(r, n, m.uuid, next, Encode(m.(ttl := ttl - 1)), up);
  }

  lemma ForwarderParts(r: Router, n: PubKey, u: Uuid, next: seq<PubKey>, up: set<PubKey>)
    requires Forwarder(r, n, u, next, up)
    ensures r.cfg.me == n && !Dedup.Contains(r.dedup, u)
  {
  }

  /** `f` carries `m` with `ttl` left to `n`. */
  predicate Bears(f: Frame, n: PubKey, m: Message, ttl: byte) {
    f.dst == n && f.data == Encode(m.(ttl := ttl))
  }

  /** The copy on the detour has been relayed by nodes up to `j`; the direct copy is still in flight. */
  predicate OnTheWay(s: Net, t: Net, chain: seq<PubKey>, m: Message, j: nat)
    requires |chain| == m.ttl + 2 && j <= m.ttl
  {
    && t.nodes.Keys == s.nodes.Keys && t.deliveries == s.deliveries
    && |t.flight| == 2
    && Bears(t.flight[0], m.receiver, m, m.ttl)
    && Bears(t.flight[1], chain[j + 1], m, m.ttl - j)
    && forall i :: j < i < |chain| && chain[i] in s.nodes ==> t.nodes[chain[i]] == s.nodes[chain[i]]
  }

  lemma Departure(s: Net, chain: seq<PubKey>, m: Message, up: set<PubKey>)
    requires Detour(s, chain, m, up)
    ensures var t := Originated(s, chain[0], m, up);
            && t.nodes.Keys == s.nodes.Keys && t.deliveries == s.deliveries && |t.flight| == 2
            && Bears(t.flight[0], chain[1], m, m.ttl) && Bears(t.flight[1], m.receiver, m, m.ttl)
            && forall i :: 0 < i < |chain| ==> t.nodes[chain[i]] == s.nodes[chain[i]]
  {
    hide Originated;
    hide Encode;
    hide Dedup.Contains;
    hide Dedup.Insert;
    var eff, fs := OriginatedParts(s, chain[0], m, up);
    ForwarderSends(s.nodes[chain[0]].router, chain[0], m.uuid, Links(chain, 0), Encode(m), up);
    assert m.(ttl := m.ttl) == m;
  }

  /** The first relay of the detour. */
  lemma FirstRelay(s: Net, t: Net, chain: seq<PubKey>, m: Message, up: set<PubKey>)
    requires Detour(s, chain, m, up)
    requires t == Originated(s, chain[0], m, up)
    ensures |t.flight| == 2 && t.flight[0].dst in t.nodes
    ensures OnTheWay(s, Arrived(t, 0, up), chain, m, 1)
  {
    hide Originated;
    hide Arrived;
    hide Encode;
    hide ReceiveEffect;
    hide Clip;
    Departure(s, chain, m, up);
    var eff, fs, ds := ArrivedParts(t, 0, up);
    assert chain[1] != chain[|chain| - 1];
    Relays(s.nodes[chain[1]].router, chain[1], Links(chain, 1), m, m.ttl, t.now, up);
    assert ds == [];
    assert Drop(t.flight, 0) == [t.flight[1]];
  }

  /** One more relay on the detour overtakes the direct copy again. */
  lemma NextRelay(s: Net, t: Net, chain: seq<PubKey>, m: Message, j: nat, up: set<PubKey>)
    requires Detour(s, chain, m, up) && j < m.ttl && OnTheWay(s, t, chain, m, j)
    ensures t.flight[1].dst in t.nodes
    ensures OnTheWay(s, Arrived(t, 1, up), chain, m, j + 1)
  {
    hide Arrived;
    hide Encode;
    hide ReceiveEffect;
    hide Clip;
    hide Forwarder;
    var n := chain[j + 1];
    var eff, fs, ds := ArrivedParts(t, 1, up);
    assert n != chain[|chain| - 1];
    Relays(s.nodes[n].router, n, Links(chain, j + 1), m, m.ttl - j, t.now, up);
    assert ds == [];
    assert Drop(t.flight, 1) == [t.flight[0]];
  }

  /** At the recipient the spent copy is marked and dropped, and the direct one is then a duplicate. */
  lemma BothArrive(s: Net, t: Net, chain: seq<PubKey>, m: Message, up: set<PubKey>)
    requires Detour(s, chain, m, up) && OnTheWay(s, t, chain, m, m.ttl)
    ensures t.flight[1].dst in t.nodes
    ensures var t1 := Arrived(t, 1, up);
            && |t1.flight| == 1 && t1.flight[0].dst in t1.nodes
            && var t2 := Arrived(t1, 0, up);
               && t2.flight == [] && t2.deliveries == s.deliveries && m.receiver in t2.nodes
               && Dedup.Contains(t2.nodes[m.receiver].router.dedup, m.uuid)
  {
    hide Arrived;
    hide Encode;
    hide Decode;
    hide Clip;
    hide Dedup.Contains;
    hide Dedup.Insert;
    hide Forwarder;
    var eff, fs, ds := ArrivedParts(t, 1, up);
    var r := s.nodes[m.receiver].router;
    ClippedCopy(m, 0);
    DedupLaws.InsertedIsFound(r.dedup, m.uuid, t.now, r.cfg.maxAge);
    var t1 := Arrived(t, 1, up);
    assert ds == [] && fs == [];
    assert t1.flight == [t.flight[0]];
    var eff1, fs1, ds1 := ArrivedParts(t1, 0, up);
    ClippedCopy(m, m.ttl);
    assert ds1 == [] && fs1 == [];
    assert Drop(t1.flight, 0) == [];
  }

  /** The broadcast, the first relay, and `k` further arrivals on the detour. */
  function DetourRun(chain: seq<PubKey>, m: Message, up: set<PubKey>, k: nat): seq<Action>
    requires chain != []
  {
    if k == 0 then [Originate(chain[0], m, up)] + [Arrive(0, up)]
    else DetourRun(chain, m, up, k - 1) + [Arrive(1, up)]
  }

  lemma {:induction false} DetourRuns(s: Net, chain: seq<PubKey>, m: Message, up: set<PubKey>, delay: nat, j: nat)
    requires Detour(s, chain, m, up) && 1 <= j <= m.ttl
    ensures OnTheWay(s, NetExec(s, DetourRun(chain, m, up, j - 1), delay), chain, m, j)
  {
    hide NetExec;
    hide Arrived;
    hide Originated;
    hide OnTheWay;
    hide Forwarder;
    if j == 1 {
      Departs(s, chain, m, up, delay);
      FirstRelay(s, NetExec(s, [Originate(chain[0], m, up)], delay), chain, m, up);
      OneMoreAction(s, [Originate(chain[0], m, up)], Arrive(0, up), delay);
    } else {
      DetourRuns(s, chain, m, up, delay, j - 1);
      var acts := DetourRun(chain, m, up, j - 2);
      OnTheWayParts(s, NetExec(s, acts, delay), chain, m, j - 1);
      NextRelay(s, NetExec(s, acts, delay), chain, m, j - 1, up);
      OneMoreAction(s, acts, Arrive(1, up), delay);
    }
  }

  lemma Departs(s: Net, chain: seq<PubKey>, m: Message, up: set<PubKey>, delay: nat)
    requires Detour(s, chain, m, up)
    ensures NetExec(s, [Originate(chain[0], m, up)], delay) == Originated(s, chain[0], m, up)
  {
    hide Originated;
    hide Forwarder;
    assert [Originate(chain[0], m, up)][..0] == [];
  }

  lemma OnTheWayParts(s: Net, t: Net, chain: seq<PubKey>, m: Message, j: nat)
    requires |chain| == m.ttl + 2 && j <= m.ttl && OnTheWay(s, t, chain, m, j)
    ensures |t.flight| == 2
  {
  }

  /**
   * For every TTL of at least 1 and every such network there is a run without loss or delay in which the
   * recipient, a direct neighbour of the origin, marks the message, nothing is left in flight, and nothing
   * was delivered.
   */
  lemma Overtaken(s: Net, chain: seq<PubKey>, m: Message, up: set<PubKey>, delay: nat)
    requires Detour(s, chain, m, up)
    ensures var t := NetExec(s, DetourRun(chain, m, up, m.ttl) + [Arrive(0, up)], delay);
            && t.flight == [] && t.deliveries == s.deliveries && m.receiver in t.nodes
            && Dedup.Contains(t.nodes[m.receiver].router.dedup, m.uuid)
  {
    hide NetExec;
    hide Arrived;
    hide OnTheWay;
    hide Forwarder;
    hide Dedup.Contains;
    var acts := DetourRun(chain, m, up, m.ttl - 1);
    DetourRuns(s, chain, m, up, delay, m.ttl);
    OnTheWayParts(s, NetExec(s, acts, delay), chain, m, m.ttl);
    BothArrive(s, NetExec(s, acts, delay), chain, m, up);
    OneMoreAction(s, acts, Arrive(1, up), delay);
    OneMoreAction(s, DetourRun(chain, m, up, m.ttl), Arrive(0, up), delay);
  }

  /** In the very same network the recipient gets the message when its direct copy arrives first. */
  lemma DirectDelivers(s: Net, chain: seq<PubKey>, m: Message, up: set<PubKey>, delay: nat) returns (ds: seq<Delivery>)
    requires Detour(s, chain, m, up)
    requires s.nodes[m.receiver].router.cfg.me == m.receiver && s.nodes[m.receiver].router.cfg.hasCallback
    ensures NetExec(s, [Originate(chain[0], m, up)] + [Arrive(1, up)], delay).deliveries == s.deliveries + ds
    ensures Flood.Handed(ds, m.receiver, m.(ttl := m.ttl - 1))
  {
    hide NetExec;
    hide Arrived;
    hide Originated;
    hide Encode;
    hide Decode;
    hide Clip;
    hide Dedup.Contains;
    hide Dedup.Insert;
    hide Forwarder;
    Departs(s, chain, m, up, delay);
    Departure(s, chain, m, up);
    var t := Originated(s, chain[0], m, up);
    OneMoreAction(s, [Originate(chain[0], m, up)], Arrive(1, up), delay);
    ClippedCopy(m, m.ttl);
    var eff, fs, more := ArrivedParts(t, 1, up);
    ds := more;
  }
}
