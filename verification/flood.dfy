/**
 * How far one message gets by flooding: lossless synchronous rounds, every peer within the
 * fanout. The rounds run the network's own arrivals, oldest frame first.
 */
module Flood {
  import opened Types
  import opened Codec
  import opened RouterSpec
  import opened Network
  import NetworkLaws
  import Dedup
  import DedupLaws

  // ---------- the graph the peers form ----------

  datatype Graph = Graph(nodes: set<PubKey>, out: map<PubKey, set<PubKey>>, origin: PubKey, recipient: PubKey)

  /** The recipient keeps what it gets; everyone else, and the origin in any case, passes it on. */
  predicate Forwards(g: Graph, n: PubKey) {
    n == g.origin || n != g.recipient
  }

  predicate Edge(g: Graph, n: PubKey, w: PubKey) {
    n in g.out && w in g.out[n]
  }

  function Next(g: Graph, from: set<PubKey>): set<PubKey> {
    set w | w in g.nodes && exists n :: n in from && Forwards(g, n) && Edge(g, n, w)
  }

  /** The nodes within `k` hops of the origin. */
  function Ball(g: Graph, k: nat): set<PubKey> {
    if k == 0 then {g.origin} else Ball(g, k - 1) + Next(g, Ball(g, k - 1))
  }

  /** The nodes at distance exactly `k`. */
  function Layer(g: Graph, k: nat): set<PubKey> {
    if k == 0 then {g.origin} else Ball(g, k) - Ball(g, k - 1)
  }

  /** A route from the origin to `n` along edges, all of whose nodes but the last pass the message on. */
  predicate Route(g: Graph, p: seq<PubKey>, n: PubKey) {
    && |p| >= 1 && p[0] == g.origin && p[|p| - 1] == n
    && forall i :: 0 <= i < |p| - 1 ==> Hop(g, p, i)
  }

  predicate Hop(g: Graph, p: seq<PubKey>, i: nat)
    requires i + 1 < |p|
  {
    Forwards(g, p[i]) && Edge(g, p[i], p[i + 1]) && p[i + 1] in g.nodes
  }

  lemma {:induction false} BallHasRoute(g: Graph, k: nat, n: PubKey) returns (p: seq<PubKey>)
    requires n in Ball(g, k)
    ensures Route(g, p, n) && |p| - 1 <= k
  {
    if k == 0 {
      p := [n];
    } else if n in Ball(g, k - 1) {
      p := BallHasRoute(g, k - 1, n);
    } else {
      var m :| m in Ball(g, k - 1) && Forwards(g, m) && Edge(g, m, n);
      var q := BallHasRoute(g, k - 1, m);
      p := q + [n];
      forall i | 0 <= i < |p| - 1 ensures Hop(g, p, i) {
        assert i < |q| - 1 ==> Hop(g, q, i);
      }
    }
  }

  lemma {:induction false} RouteStaysInBall(g: Graph, p: seq<PubKey>, n: PubKey, k: nat)
    requires Route(g, p, n) && |p| - 1 <= k
    ensures n in Ball(g, k)
  {
    if k > 0 {
      if |p| - 1 < k {
        RouteStaysInBall(g, p, n, k - 1);
      } else {
        var q := p[..|p| - 1];
        forall i | 0 <= i < |q| - 1 ensures Hop(g, q, i) {
          assert Hop(g, p, i);
        }
        RouteStaysInBall(g, q, q[|q| - 1], k - 1);
        assert Hop(g, p, |p| - 2);
      }
    }
  }

  /** The distance layers of the flood are the shortest routes of the graph. */
  lemma BallIsRoutes(g: Graph, k: nat, n: PubKey)
    ensures n in Ball(g, k) <==> Within(g, n, k)
  {
    if n in Ball(g, k) {
      var p := BallHasRoute(g, k, n);
    }
    if p :| Route(g, p, n) && |p| - 1 <= k {
      RouteStaysInBall(g, p, n, k);
    }
  }

  /** How many hops `n` is from the origin, given that it is within `k`. */
  function Distance(g: Graph, n: PubKey, k: nat): (d: nat)
    requires n in Ball(g, k)
    ensures d <= k && n in Layer(g, d) && n in Ball(g, d)
  {
    if k == 0 then 0
    else if n in Ball(g, k - 1) then Distance(g, n, k - 1)
    else k
  }

  /** Some route of at most `k` hops leads from the origin to `n`. */
  ghost predicate Within(g: Graph, n: PubKey, k: nat) {
    exists p :: Route(g, p, n) && |p| - 1 <= k
  }

  ghost predicate Shortest(g: Graph, p: seq<PubKey>, n: PubKey) {
    Route(g, p, n) && forall q :: Route(g, q, n) ==> |p| <= |q|
  }

  lemma DistanceIsShortest(g: Graph, n: PubKey, k: nat) returns (p: seq<PubKey>)
    requires n in Ball(g, k)
    ensures Shortest(g, p, n) && |p| - 1 == Distance(g, n, k)
    ensures n != g.origin ==> |p| - 1 >= 1
  {
    hide Route;
    hide Next;
    var d := Distance(g, n, k);
    p := BallHasRoute(g, d, n);
    forall q | Route(g, q, n) ensures |q| - 1 >= d {
      if |q| - 1 < d {
        RouteNonEmpty(g, q, n);
        RouteStaysInBall(g, q, n, d - 1);
      }
    }
  }

  lemma RouteNonEmpty(g: Graph, p: seq<PubKey>, n: PubKey)
    requires Route(g, p, n)
    ensures |p| >= 1
  {
  }

  lemma BallGrows(g: Graph, k: nat)
    ensures Ball(g, k + 1) == Ball(g, k) + Next(g, Layer(g, k))
    ensures Ball(g, k + 1) == Ball(g, k) + Layer(g, k + 1)
    ensures Layer(g, k + 1) !! Ball(g, k)
    ensures g.origin in Ball(g, k)
  {
    OriginInBall(g, k);
    if k > 0 {
      forall w | w in Next(g, Ball(g, k)) ensures w in Ball(g, k) + Next(g, Layer(g, k)) {
        var n :| n in Ball(g, k) && Forwards(g, n) && Edge(g, n, w);
        if n in Ball(g, k - 1) {
          assert w in Next(g, Ball(g, k - 1));
        } else {
          assert n in Layer(g, k);
        }
      }
    }
  }

  lemma {:induction false} OriginInBall(g: Graph, k: nat)
    ensures g.origin in Ball(g, k)
  {
    if k > 0 {
      OriginInBall(g, k - 1);
    }
  }

  // ---------- the network realises the graph ----------

  function KeySet(peers: seq<Peer>): set<PubKey> {
    set i | 0 <= i < |peers| :: peers[i].pubkey
  }

  predicate Wired(r: Router, n: PubKey, out: set<PubKey>) {
    && r.cfg.me == n && r.cfg.hasTransport && r.cfg.hasCallback
    && |r.peers| <= r.cfg.fanout && KeySet(r.peers) == out
  }

  predicate Topology(s: Net, g: Graph) {
    && s.nodes.Keys == g.nodes && g.out.Keys == g.nodes && g.origin in g.nodes
    && forall n :: n in s.nodes ==> g.out[n] <= g.nodes && Wired(s.nodes[n].router, n, g.out[n])
  }

  function Seen(s: Net, u: Uuid): set<PubKey> {
    set n | n in s.nodes && Dedup.Contains(s.nodes[n].router.dedup, u)
  }

  function Dsts(fs: seq<Frame>): set<PubKey> {
    set i | 0 <= i < |fs| :: fs[i].dst
  }

  function Copy(m: Message, ttl: byte): Message { m.(ttl := ttl) }

  predicate AllCarry(fs: seq<Frame>, m: Message, ttl: byte) {
    forall i :: 0 <= i < |fs| ==> fs[i].data == Encode(Copy(m, ttl))
  }

  /** A message that fits the receive buffer. */
  predicate Floodable(m: Message, g: Graph) {
    HEADER + |m.payload| <= RECV_BUFFER && m.receiver == g.recipient
  }

  // ---------- one router ----------

  lemma {:induction false} EveryPeerChosen(peers: seq<Peer>, up: set<PubKey>, n: nat)
    requires |peers| <= n && KeySet(peers) <= up
    ensures Chosen(peers, up, n) == Keys(peers)
  {
    if peers != [] {
      assert peers[0].pubkey in KeySet(peers);
      forall k | k in KeySet(peers[1..]) ensures k in up {
        var i :| 0 <= i < |peers| - 1 && peers[1..][i].pubkey == k;
        assert peers[i + 1].pubkey in KeySet(peers);
      }
      EveryPeerChosen(peers[1..], up, n - 1);
      assert Keys(peers) == [peers[0].pubkey] + Keys(peers[1..]);
    }
  }

  function Targets(sends: seq<RouterSpec.Send>): set<PubKey> {
    set i | 0 <= i < |sends| :: sends[i].to
  }

  lemma BroadsideReachesAll(r: Router, n: PubKey, out: set<PubKey>, data: bytes, up: set<PubKey>)
    requires Wired(r, n, out) && out <= up
    ensures Targets(Broadside(r, data, up)) == out
  {
    EveryPeerChosen(r.peers, up, r.cfg.fanout);
    var sends := Broadside(r, data, up);
    assert |sends| == |r.peers| && forall i :: 0 <= i < |sends| ==> sends[i].to == r.peers[i].pubkey;
    forall k ensures k in Targets(sends) <==> k in out {
      if k in out {
        var i :| 0 <= i < |r.peers| && r.peers[i].pubkey == k;
        assert sends[i].to == k;
      }
      if k in Targets(sends) {
        var i :| 0 <= i < |sends| && sends[i].to == k;
        assert r.peers[i].pubkey == k;
      }
    }
  }

  lemma CopyDecodes(m: Message, g: Graph, ttl: byte)
    requires Floodable(m, g)
    ensures Decode(Clip(Encode(Copy(m, ttl)))) == Accept(Copy(m, ttl))
  {
    DecodeEncode(Copy(m, ttl));
  }

  /** What a first copy with `ttl` left makes a node do: mark it, and deliver or pass it on unless the TTL is spent. */
  predicate FirstCopy(eff: Effect, n: PubKey, out: set<PubKey>, m: Message, ttl: byte) {
    && Dedup.Contains(eff.router.dedup, m.uuid)
    && Wired(eff.router, n, out)
    && (ttl == 0 ==> eff.sends == [] && eff.delivered == [])
    && (ttl > 0 && m.receiver == n ==> eff.sends == [] && eff.delivered == [Copy(m, ttl - 1)])
    && (ttl > 0 && m.receiver != n ==>
          && eff.delivered == [] && Targets(eff.sends) == out
          && forall i :: 0 <= i < |eff.sends| ==> eff.sends[i].data == Encode(Copy(m, ttl - 1)))
  }

  lemma MarkKeepsWiring(r: Router, n: PubKey, out: set<PubKey>, m: Message, now: Time)
    requires Wired(r, n, out)
    ensures Wired(Mark(r, m.uuid, now), n, out) && Wired(Keep(Mark(r, m.uuid, now), m, now), n, out)
    ensures Dedup.Contains(Mark(r, m.uuid, now).dedup, m.uuid)
  {
    hide Dedup.Insert;
    hide KeySet;
    DedupLaws.InsertedIsFound(r.dedup, m.uuid, now, r.cfg.maxAge);
  }

  lemma AcceptCopy(r: Router, n: PubKey, out: set<PubKey>, m: Message, ttl: byte, now: Time, up: set<PubKey>)
    requires Wired(r, n, out) && out <= up && !Dedup.Contains(r.dedup, m.uuid)
    ensures FirstCopy(AcceptEffect(r, Copy(m, ttl), now, up), n, out, m, ttl)
  {
    hide Encode;
    hide Dedup.Contains;
    hide Dedup.Insert;
    hide KeySet;
    hide Targets;
    MarkKeepsWiring(r, n, out, m, now);
    if ttl > 0 {
      MarkKeepsWiring(r, n, out, Copy(m, ttl - 1), now);
      BroadsideReachesAll(Mark(r, m.uuid, now), n, out, Encode(Copy(m, ttl - 1)), up);
    }
  }

  lemma ReceiveCopy(r: Router, n: PubKey, out: set<PubKey>, m: Message, g: Graph, ttl: byte, now: Time, up: set<PubKey>)
    requires Wired(r, n, out) && out <= up && Floodable(m, g)
    ensures var eff := ReceiveEffect(r, Clip(Encode(Copy(m, ttl))), now, up);
            if Dedup.Contains(r.dedup, m.uuid) then eff.router == r && eff.sends == [] && eff.delivered == []
            else FirstCopy(eff, n, out, m, ttl)
  {
    hide Clip;
    hide Decode;
    hide Encode;
    hide Dedup.Contains;
    hide FirstCopy;
    hide Wired;
    CopyDecodes(m, g, ttl);
    if Dedup.Contains(r.dedup, m.uuid) {
      assert AcceptEffect(r, Copy(m, ttl), now, up) == Effect(r, Duplicate, [], []);
    } else {
      AcceptCopy(r, n, out, m, ttl, now, up);
    }
  }

  // ---------- one round, frame by frame ----------

  /** The state after the oldest `j` frames in flight have arrived. */
  function Drive(s: Net, g: Graph, j: nat): Net
    requires j <= |s.flight|
    requires s.nodes.Keys == g.nodes
  {
    if j == 0 then s
    else
      var t := Drive(s, g, j - 1);
      if |t.flight| > 0 && t.flight[0].dst in t.nodes then Arrived(t, 0, g.nodes) else t
  }

  /** One synchronous round: everything now in flight arrives. */
  function SyncRound(s: Net, g: Graph): Net
    requires s.nodes.Keys == g.nodes
  {
    Drive(s, g, |s.flight|)
  }

  /**
   * Midway through a round whose frames all carry TTL `ttl`: the first `j` destinations are marked,
   * the newly marked ones have passed the message on, and the recipient, if among them, got it.
   */
  predicate Midway(s0: Net, s: Net, g: Graph, m: Message, ttl: byte, j: nat, passed: seq<Frame>, ds: seq<Delivery>) {
    && j <= |s0.flight|
    && Topology(s, g)
    && Seen(s, m.uuid) == Seen(s0, m.uuid) + Dsts(s0.flight[..j])
    && s.flight == s0.flight[j..] + passed
    && s.deliveries == s0.deliveries + ds
    && Passed(g, m, ttl, passed, Seen(s, m.uuid) - Seen(s0, m.uuid))
    && Got(g, m, ttl, ds, Seen(s, m.uuid) - Seen(s0, m.uuid))
  }

  /** `passed` is what the nodes in `reached` send on after a first copy with `ttl` left. */
  predicate Passed(g: Graph, m: Message, ttl: byte, passed: seq<Frame>, reached: set<PubKey>) {
    if ttl == 0 then passed == [] else AllCarry(passed, m, ttl - 1) && Dsts(passed) == Next(g, reached)
  }

  /** `ds` is exactly one delivery: `m`, at node `n`. */
  predicate Handed(ds: seq<Delivery>, n: PubKey, m: Message) {
    |ds| == 1 && ds[0].node == n && ds[0].msg == m
  }

  /** `ds` is what first copies with `ttl` left cause to be delivered at the nodes in `reached`. */
  predicate Got(g: Graph, m: Message, ttl: byte, ds: seq<Delivery>, reached: set<PubKey>) {
    if ttl > 0 && g.recipient in reached then Handed(ds, g.recipient, Copy(m, ttl - 1)) else ds == []
  }

  lemma DstsExtend(fs: seq<Frame>, j: nat)
    requires j < |fs|
    ensures Dsts(fs[..j + 1]) == Dsts(fs[..j]) + {fs[j].dst}
  {
    forall k ensures k in Dsts(fs[..j + 1]) <==> k in Dsts(fs[..j]) + {fs[j].dst} {
      if k in Dsts(fs[..j]) {
        var i :| 0 <= i < j && fs[..j][i].dst == k;
        assert fs[..j + 1][i].dst == k;
      }
      if k == fs[j].dst {
        assert fs[..j + 1][j].dst == k;
      }
    }
  }

  lemma DstsConcat(a: seq<Frame>, b: seq<Frame>)
    ensures Dsts(a + b) == Dsts(a) + Dsts(b)
  {
    forall k ensures k in Dsts(a + b) <==> k in Dsts(a) + Dsts(b) {
      if k in Dsts(a) {
        var i :| 0 <= i < |a| && a[i].dst == k;
        assert (a + b)[i].dst == k;
      }
      if k in Dsts(b) {
        var i :| 0 <= i < |b| && b[i].dst == k;
        assert (a + b)[|a| + i].dst == k;
      }
    }
  }

  lemma DstsAreTargets(fs: seq<Frame>, sends: seq<RouterSpec.Send>)
    requires NetworkLaws.Carry(fs, sends)
    ensures Dsts(fs) == Targets(sends)
  {
    forall k ensures k in Dsts(fs) <==> k in Targets(sends) {
      if k in Dsts(fs) {
        var i :| 0 <= i < |fs| && fs[i].dst == k;
        assert sends[i].to == k;
      }
      if k in Targets(sends) {
        var i :| 0 <= i < |sends| && sends[i].to == k;
        assert fs[i].dst == k;
      }
    }
  }

  /** The new nodes reached from one more forwarding node. */
  lemma NextExtend(g: Graph, from: set<PubKey>, n: PubKey)
    requires n in g.out && g.out[n] <= g.nodes
    ensures Next(g, from + {n}) == Next(g, from) + if Forwards(g, n) then g.out[n] else {}
  {
    forall w ensures w in Next(g, from + {n}) <==> w in Next(g, from) + if Forwards(g, n) then g.out[n] else {} {
      if w in Next(g, from + {n}) {
        var k :| k in from + {n} && Forwards(g, k) && Edge(g, k, w);
      }
      if Forwards(g, n) && w in g.out[n] {
        assert Edge(g, n, w);
      }
    }
  }

  lemma SeenAfter(s: Net, t: Net, d: PubKey, u: Uuid)
    requires t.nodes.Keys == s.nodes.Keys && d in s.nodes
    requires forall n :: n in s.nodes && n != d ==> t.nodes[n] == s.nodes[n]
    requires Dedup.Contains(t.nodes[d].router.dedup, u)
    ensures Seen(t, u) == Seen(s, u) + {d}
  {
    hide Dedup.Contains;
  }

  lemma TopologyAfter(s: Net, t: Net, g: Graph, d: PubKey)
    requires Topology(s, g) && t.nodes.Keys == s.nodes.Keys && d in s.nodes
    requires forall n :: n in s.nodes && n != d ==> t.nodes[n] == s.nodes[n]
    requires Wired(t.nodes[d].router, d, g.out[d])
    ensures Topology(t, g)
  {
    hide KeySet;
  }

  /** What the arrival of the oldest frame does to the whole network. */
  lemma ArrivalEffect(s: Net, g: Graph, m: Message, ttl: byte) returns (fs: seq<Frame>, ds: seq<Delivery>)
    requires Topology(s, g) && Floodable(m, g) && |s.flight| > 0
    requires s.flight[0].dst in s.nodes && s.flight[0].data == Encode(Copy(m, ttl))
    ensures var d := s.flight[0].dst;
            var t := Arrived(s, 0, g.nodes);
            && Topology(t, g)
            && Seen(t, m.uuid) == Seen(s, m.uuid) + {d}
            && t.flight == s.flight[1..] + fs
            && t.deliveries == s.deliveries + ds
            && (if d in Seen(s, m.uuid) || ttl == 0 then
                  fs == [] && ds == []
                else if m.receiver == d then
                  fs == [] && Handed(ds, d, Copy(m, ttl - 1))
                else
                  AllCarry(fs, m, ttl - 1) && Dsts(fs) == g.out[d] && ds == [])
  {
    hide Arrived;
    hide ReceiveEffect;
    hide Clip;
    hide Encode;
    hide Dedup.Contains;
    hide Wired;
    hide Dsts;
    hide Targets;
    hide Seen;
    hide Topology;
    var d := s.flight[0].dst;
    var r := s.nodes[d].router;
    TopologyAt(s, g, d);
    SeenAt(s, m.uuid, d);
    ReceiveCopy(r, d, g.out[d], m, g, ttl, s.now, g.nodes);
    var eff;
    eff, fs, ds := NetworkLaws.ArrivedParts(s, 0, g.nodes);
    DstsAreTargets(fs, eff.sends);
    assert Drop(s.flight, 0) == s.flight[1..];
    var t := Arrived(s, 0, g.nodes);
    SeenAfter(s, t, d, m.uuid);
    TopologyAfter(s, t, g, d);
  }

  lemma TopologyAt(s: Net, g: Graph, n: PubKey)
    requires Topology(s, g)
    ensures s.nodes.Keys == g.nodes == g.out.Keys
    ensures n in s.nodes ==> n in g.out && g.out[n] <= g.nodes && Wired(s.nodes[n].router, n, g.out[n])
  {
    hide Wired;
  }

  lemma SeenAt(s: Net, u: Uuid, n: PubKey)
    ensures n in Seen(s, u) <==> n in s.nodes && Dedup.Contains(s.nodes[n].router.dedup, u)
  {
    hide Dedup.Contains;
  }

  lemma DstsAt(fs: seq<Frame>, j: nat)
    requires j < |fs|
    ensures fs[j].dst in Dsts(fs)
  {
  }

  lemma MidwayStep(s0: Net, s: Net, g: Graph, m: Message, ttl: byte, j: nat, passed: seq<Frame>, ds: seq<Delivery>)
    returns (passed': seq<Frame>, ds': seq<Delivery>)
    requires Midway(s0, s, g, m, ttl, j, passed, ds) && j < |s0.flight| && Floodable(m, g)
    requires AllCarry(s0.flight, m, ttl) && Dsts(s0.flight) <= g.nodes && g.origin in Seen(s0, m.uuid)
    ensures s.flight[0].dst in s.nodes && Midway(s0, Arrived(s, 0, g.nodes), g, m, ttl, j + 1, passed', ds')
  {
    hide Arrived;
    hide Encode;
    hide Topology;
    hide Seen;
    hide Dsts;
    hide Passed;
    hide Got;
    hide Handed;
    var d := s0.flight[j].dst;
    DstsAt(s0.flight, j);
    TopologyAt(s, g, d);
    assert s.flight[0] == s0.flight[j];
    var fs, more := ArrivalEffect(s, g, m, ttl);
    var t := Arrived(s, 0, g.nodes);
    DstsExtend(s0.flight, j);
    passed', ds' := passed + fs, ds + more;
    assert s.flight[1..] == s0.flight[j + 1..] + passed;
    assert t.flight == s0.flight[j + 1..] + passed';
    assert t.deliveries == s0.deliveries + ds';
    PassedStep(g, m, ttl, passed, fs, Seen(s0, m.uuid), Seen(s, m.uuid), d);
    GotStep(g, m, ttl, ds, more, Seen(s0, m.uuid), Seen(s, m.uuid), d);
  }

  /** A newly marked `d` adds a delivery exactly if it is the recipient and the TTL is not spent. */
  lemma GotStep(g: Graph, m: Message, ttl: byte, ds: seq<Delivery>, more: seq<Delivery>,
                seen0: set<PubKey>, seen: set<PubKey>, d: PubKey)
    requires Got(g, m, ttl, ds, seen - seen0) && seen0 <= seen && m.receiver == g.recipient
    requires if d in seen || ttl == 0 || m.receiver != d then more == [] else Handed(more, d, Copy(m, ttl - 1))
    ensures Got(g, m, ttl, ds + more, seen + {d} - seen0)
  {
    if more == [] {
      assert ds + more == ds;
    } else {
      assert ds == [] && ds + more == more;
    }
  }

  /** One more marked destination `d` extends what has been passed on by what `d` passes on. */
  lemma PassedStep(g: Graph, m: Message, ttl: byte, passed: seq<Frame>, fs: seq<Frame>,
                   seen0: set<PubKey>, seen: set<PubKey>, d: PubKey)
    requires Passed(g, m, ttl, passed, seen - seen0)
    requires seen0 <= seen && g.origin in seen0 && m.receiver == g.recipient
    requires d in g.out && g.out[d] <= g.nodes
    requires d in seen || ttl == 0 || m.receiver == d ==> fs == []
    requires !(d in seen || ttl == 0 || m.receiver == d) ==> AllCarry(fs, m, ttl - 1) && Dsts(fs) == g.out[d]
    ensures Passed(g, m, ttl, passed + fs, seen + {d} - seen0)
  {
    hide Encode;
    hide Next;
    DstsConcat(passed, fs);
    NextExtend(g, seen - seen0, d);
    if d in seen {
      assert seen + {d} - seen0 == seen - seen0;
      assert passed + fs == passed;
    } else {
      assert seen + {d} - seen0 == seen - seen0 + {d};
      if fs == [] {
        assert passed + fs == passed && Dsts([]) == {};
      }
    }
  }

  lemma {:induction false} DriveMidway(s0: Net, g: Graph, m: Message, ttl: byte, j: nat)
    returns (passed: seq<Frame>, ds: seq<Delivery>)
    requires Topology(s0, g) && Floodable(m, g) && j <= |s0.flight|
    requires AllCarry(s0.flight, m, ttl) && Dsts(s0.flight) <= g.nodes && g.origin in Seen(s0, m.uuid)
    ensures Midway(s0, Drive(s0, g, j), g, m, ttl, j, passed, ds)
  {
    hide Midway;
    hide Arrived;
    hide Topology;
    hide Seen;
    hide Dsts;
    hide AllCarry;
    TopologyAt(s0, g, g.origin);
    if j == 0 {
      passed, ds := [], [];
      MidwayStart(s0, g, m, ttl);
    } else {
      passed, ds := DriveMidway(s0, g, m, ttl, j - 1);
      MidwayFlight(s0, Drive(s0, g, j - 1), g, m, ttl, j - 1, passed, ds);
      passed, ds := MidwayStep(s0, Drive(s0, g, j - 1), g, m, ttl, j - 1, passed, ds);
    }
  }

  lemma MidwayStart(s0: Net, g: Graph, m: Message, ttl: byte)
    requires Topology(s0, g)
    ensures Midway(s0, s0, g, m, ttl, 0, [], [])
  {
    hide Topology;
    hide Encode;
    hide Seen;
    var seen := Seen(s0, m.uuid);
    assert s0.flight[0..] + [] == s0.flight;
    assert s0.deliveries + [] == s0.deliveries;
    assert seen - seen == {};
    assert Next(g, {}) == {};
    assert s0.flight[..0] == [];
    assert Dsts([]) == {};
  }

  lemma MidwayFlight(s0: Net, s: Net, g: Graph, m: Message, ttl: byte, j: nat, passed: seq<Frame>, ds: seq<Delivery>)
    requires Midway(s0, s, g, m, ttl, j, passed, ds) && j < |s0.flight|
    ensures |s.flight| > 0
  {
  }

  // ---------- rounds and distances ----------

  /** After `k` rounds exactly the nodes within `k` hops are marked; the frames in flight go on from distance `k`. */
  predicate Flooded(s: Net, g: Graph, m: Message, k: nat) {
    && k <= m.ttl
    && Topology(s, g)
    && Seen(s, m.uuid) == Ball(g, k)
    && AllCarry(s.flight, m, m.ttl - k)
    && Dsts(s.flight) == Next(g, Layer(g, k))
  }

  lemma NextInNodes(g: Graph, from: set<PubKey>)
    ensures Next(g, from) <= g.nodes
  {
  }

  lemma OwnCopy(r: Router, n: PubKey, out: set<PubKey>, m: Message, now: Time, up: set<PubKey>)
    requires Wired(r, n, out) && out <= up
    ensures var eff := BroadcastEffect(r, m, now, up);
            && Dedup.Contains(eff.router.dedup, m.uuid) && Wired(eff.router, n, out)
            && Targets(eff.sends) == out
            && forall i :: 0 <= i < |eff.sends| ==> eff.sends[i].data == Encode(m)
  {
    hide Encode;
    hide Dedup.Contains;
    hide Dedup.Insert;
    hide Wired;
    hide Targets;
    MarkKeepsWiring(r, n, out, m, now);
    BroadsideReachesAll(Mark(r, m.uuid, now), n, out, Encode(m), up);
  }

  lemma NextOfOrigin(g: Graph)
    requires g.origin in g.out && g.out[g.origin] <= g.nodes
    ensures Next(g, {g.origin}) == g.out[g.origin]
  {
    NextExtend(g, {}, g.origin);
    assert {} + {g.origin} == {g.origin} && Next(g, {}) == {};
  }

  lemma FloodStart(s: Net, g: Graph, m: Message)
    requires Topology(s, g) && Floodable(m, g) && g.origin in s.nodes
    requires s.flight == [] && Seen(s, m.uuid) == {}
    ensures var t := Originated(s, g.origin, m, g.nodes);
            Flooded(t, g, m, 0) && t.deliveries == s.deliveries
  {
    hide Originated;
    hide BroadcastEffect;
    hide Encode;
    hide Dedup.Contains;
    hide Wired;
    hide Dsts;
    hide Targets;
    hide Seen;
    hide Topology;
    hide Next;
    var o := g.origin;
    TopologyAt(s, g, o);
    OwnCopy(s.nodes[o].router, o, g.out[o], m, s.now, g.nodes);
    var eff, fs := NetworkLaws.OriginatedParts(s, o, m, g.nodes);
    DstsAreTargets(fs, eff.sends);
    var t := Originated(s, o, m, g.nodes);
    SeenAfter(s, t, o, m.uuid);
    TopologyAfter(s, t, g, o);
    NextOfOrigin(g);
    assert t.flight == fs && Copy(m, m.ttl) == m;
    assert {} + {o} == {o};
  }

  lemma MidwayEnd(s0: Net, s: Net, g: Graph, m: Message, ttl: byte, passed: seq<Frame>, ds: seq<Delivery>)
    requires Midway(s0, s, g, m, ttl, |s0.flight|, passed, ds)
    ensures Topology(s, g) && s.flight == passed && s.deliveries == s0.deliveries + ds
    ensures Seen(s, m.uuid) == Seen(s0, m.uuid) + Dsts(s0.flight)
    ensures Passed(g, m, ttl, s.flight, Seen(s, m.uuid) - Seen(s0, m.uuid))
    ensures Got(g, m, ttl, ds, Seen(s, m.uuid) - Seen(s0, m.uuid))
  {
    hide Topology;
    hide Seen;
    hide Dsts;
    hide Passed;
    hide Got;
    assert s0.flight[|s0.flight|..] == [] && s0.flight[..|s0.flight|] == s0.flight;
  }

  /** What one round does, in terms of the layers. */
  lemma RoundEffects(s: Net, g: Graph, m: Message, k: nat) returns (ds: seq<Delivery>)
    requires Flooded(s, g, m, k) && Floodable(m, g)
    ensures s.nodes.Keys == g.nodes
    ensures var t := SyncRound(s, g);
            && Topology(t, g)
            && Seen(t, m.uuid) == Ball(g, k + 1)
            && Passed(g, m, m.ttl - k, t.flight, Layer(g, k + 1))
            && t.deliveries == s.deliveries + ds
            && Got(g, m, m.ttl - k, ds, Layer(g, k + 1))
  {
    hide Topology;
    hide Seen;
    hide Dsts;
    hide Passed;
    hide Got;
    hide Midway;
    hide AllCarry;
    hide Next;
    hide Drive;
    TopologyAt(s, g, g.origin);
    NextInNodes(g, Layer(g, k));
    BallGrows(g, k);
    var passed;
    passed, ds := DriveMidway(s, g, m, m.ttl - k, |s.flight|);
    var t := SyncRound(s, g);
    MidwayEnd(s, t, g, m, m.ttl - k, passed, ds);
    assert Seen(t, m.uuid) - Seen(s, m.uuid) == Layer(g, k + 1);
  }

  lemma FloodRound(s: Net, g: Graph, m: Message, k: nat) returns (ds: seq<Delivery>)
    requires Flooded(s, g, m, k) && Floodable(m, g) && k < m.ttl
    ensures s.nodes.Keys == g.nodes
    ensures Flooded(SyncRound(s, g), g, m, k + 1)
    ensures SyncRound(s, g).deliveries == s.deliveries + ds
    ensures if g.recipient in Layer(g, k + 1) then Handed(ds, g.recipient, Copy(m, m.ttl - (k + 1))) else ds == []
  {
    hide SyncRound;
    hide Topology;
    hide Seen;
    hide Dsts;
    hide Next;
    ds := RoundEffects(s, g, m, k);
  }

  /** The frames that left distance T arrive with TTL 0: they mark one more layer, deliver nothing and go no further. */
  lemma FloodLast(s: Net, g: Graph, m: Message)
    requires Flooded(s, g, m, m.ttl) && Floodable(m, g)
    ensures s.nodes.Keys == g.nodes
    ensures SyncRound(s, g).flight == [] && Seen(SyncRound(s, g), m.uuid) == Ball(g, m.ttl + 1)
    ensures SyncRound(s, g).deliveries == s.deliveries
  {
    hide SyncRound;
    hide Topology;
    hide Seen;
    hide Dsts;
    hide Next;
    var ds := RoundEffects(s, g, m, m.ttl);
    assert s.deliveries + [] == s.deliveries;
  }

  // ---------- the whole flood ----------

  /** `k` synchronous rounds after the broadcast; the nodes never change, so neither does the graph. */
  function After(s: Net, g: Graph, m: Message, k: nat): (t: Net)
    requires s.nodes.Keys == g.nodes && g.origin in s.nodes
    ensures t.nodes.Keys == g.nodes
  {
    if k == 0 then Originated(s, g.origin, m, g.nodes)
    else
      var before := After(s, g, m, k - 1);
      DriveKeepsNodes(before, g, |before.flight|);
      SyncRound(before, g)
  }

  lemma {:induction false} DriveKeepsNodes(s: Net, g: Graph, j: nat)
    requires j <= |s.flight| && s.nodes.Keys == g.nodes
    ensures Drive(s, g, j).nodes.Keys == g.nodes
  {
    hide ReceiveEffect;
    hide Clip;
    hide Decode;
    if j > 0 {
      DriveKeepsNodes(s, g, j - 1);
    }
  }

  predicate Quiet(s: Net, g: Graph, m: Message) {
    Topology(s, g) && Floodable(m, g) && s.flight == [] && Seen(s, m.uuid) == {}
  }

  /** What the first `k` rounds deliver: one copy to the recipient, at the TTL its distance leaves, or nothing. */
  predicate Received(g: Graph, m: Message, k: nat, ds: seq<Delivery>)
    requires k <= m.ttl
  {
    if g.recipient != g.origin && g.recipient in Ball(g, k)
    then Handed(ds, g.recipient, Copy(m, m.ttl - Distance(g, g.recipient, k)))
    else ds == []
  }

  lemma ReceivedGrows(g: Graph, m: Message, k: nat, ds: seq<Delivery>, more: seq<Delivery>)
    requires k < m.ttl && Received(g, m, k, ds)
    requires if g.recipient in Layer(g, k + 1) then Handed(more, g.recipient, Copy(m, m.ttl - (k + 1))) else more == []
    ensures Received(g, m, k + 1, ds + more)
  {
    hide Next;
    BallGrows(g, k);
    if g.recipient in Layer(g, k + 1) {
      assert ds == [] && ds + more == more;
    } else {
      assert ds + more == ds;
    }
  }

  lemma QuietParts(s: Net, g: Graph, m: Message)
    requires Quiet(s, g, m)
    ensures s.nodes.Keys == g.nodes && g.origin in s.nodes
  {
    hide Wired;
  }

  /** In every round up to the TTL, the flood has reached exactly that round's distance, and delivered accordingly. */
  lemma {:induction false} FloodReaches(s: Net, g: Graph, m: Message, k: nat) returns (ds: seq<Delivery>)
    requires Quiet(s, g, m) && k <= m.ttl
    ensures s.nodes.Keys == g.nodes && g.origin in s.nodes
    ensures Flooded(After(s, g, m, k), g, m, k)
    ensures After(s, g, m, k).deliveries == s.deliveries + ds && Received(g, m, k, ds)
  {
    hide SyncRound;
    hide Originated;
    hide After;
    hide Flooded;
    hide Topology;
    hide Seen;
    hide Handed;
    hide Received;
    hide Layer;
    QuietParts(s, g, m);
    if k == 0 {
      FloodStart(s, g, m);
      AfterNone(s, g, m);
      ReceivedNothing(g, m);
      ds := [];
      assert s.deliveries + [] == s.deliveries;
    } else {
      var before := FloodReaches(s, g, m, k - 1);
      var more := FloodRound(After(s, g, m, k - 1), g, m, k - 1);
      AfterNext(s, g, m, k - 1);
      ReceivedGrows(g, m, k - 1, before, more);
      ds := before + more;
      assert s.deliveries + before + more == s.deliveries + ds;
    }
  }

  lemma AfterNone(s: Net, g: Graph, m: Message)
    requires s.nodes.Keys == g.nodes && g.origin in s.nodes
    ensures After(s, g, m, 0) == Originated(s, g.origin, m, g.nodes)
  {
    hide Originated;
  }

  lemma AfterNext(s: Net, g: Graph, m: Message, k: nat)
    requires s.nodes.Keys == g.nodes && g.origin in s.nodes
    ensures After(s, g, m, k + 1) == SyncRound(After(s, g, m, k), g)
  {
    hide Originated;
    hide SyncRound;
  }

  lemma ReceivedNothing(g: Graph, m: Message)
    ensures Received(g, m, 0, [])
  {
  }

  lemma DstsWitness(fs: seq<Frame>, n: PubKey) returns (i: nat)
    requires n in Dsts(fs)
    ensures i < |fs| && fs[i].dst == n
  {
    i :| 0 <= i < |fs| && fs[i].dst == n;
  }

  lemma LayerIsNext(g: Graph, k: nat, n: PubKey)
    requires k >= 1 && n in Layer(g, k)
    ensures n in Next(g, Layer(g, k - 1)) && n !in Ball(g, k - 1) && n in Ball(g, k)
  {
    hide Next;
    BallGrows(g, k - 1);
  }

  lemma FloodedParts(s: Net, g: Graph, m: Message, k: nat, n: PubKey) returns (i: nat)
    requires Flooded(s, g, m, k)
    ensures Seen(s, m.uuid) == Ball(g, k)
    ensures n in Next(g, Layer(g, k)) ==>
              && i < |s.flight| && s.flight[i].dst == n
              && s.flight[i].data == Encode(Copy(m, m.ttl - k))
  {
    hide Topology;
    hide Seen;
    hide Dsts;
    hide Next;
    hide Encode;
    i := 0;
    if n in Next(g, Layer(g, k)) {
      i := DstsWitness(s.flight, n);
    }
  }

  predicate CopyFor(f: Frame, n: PubKey, m: Message, ttl: byte) {
    f.dst == n && f.data == Encode(Copy(m, ttl))
  }

  predicate HoldsCopy(fs: seq<Frame>, n: PubKey, m: Message, ttl: byte) {
    exists i :: 0 <= i < |fs| && CopyFor(fs[i], n, m, ttl)
  }

  /** A node at distance k has not been reached before round k, and in round k accepts a copy with TTL T + 1 - k. */
  lemma AcceptedAtDistance(s: Net, g: Graph, m: Message, k: nat, n: PubKey)
    requires Quiet(s, g, m) && 1 <= k <= m.ttl && n in Layer(g, k)
    ensures s.nodes.Keys == g.nodes && g.origin in s.nodes
    ensures n !in Seen(After(s, g, m, k - 1), m.uuid) && n in Seen(After(s, g, m, k), m.uuid)
    ensures HoldsCopy(After(s, g, m, k - 1).flight, n, m, m.ttl + 1 - k)
  {
    hide After;
    hide Quiet;
    hide Flooded;
    hide Seen;
    hide Next;
    hide Ball;
    hide Layer;
    hide Encode;
    QuietParts(s, g, m);
    var d0 := FloodReaches(s, g, m, k - 1);
    var d1 := FloodReaches(s, g, m, k);
    LayerIsNext(g, k, n);
    var i := FloodedParts(After(s, g, m, k - 1), g, m, k - 1, n);
    var j := FloodedParts(After(s, g, m, k), g, m, k, n);
    assert CopyFor(After(s, g, m, k - 1).flight[i], n, m, m.ttl + 1 - k);
  }

  /**
   * When the flood is over nothing is in flight. A recipient other than the origin that some route of at
   * most T hops reaches has got this very message once, with as much TTL as the shortest such route
   * leaves; otherwise nothing has been delivered to anyone.
   */
  lemma RecipientReached(s: Net, g: Graph, m: Message) returns (ds: seq<Delivery>, p: seq<PubKey>)
    requires Quiet(s, g, m)
    ensures s.nodes.Keys == g.nodes && g.origin in s.nodes
    ensures After(s, g, m, m.ttl + 1).flight == []
    ensures After(s, g, m, m.ttl + 1).deliveries == s.deliveries + ds
    ensures if g.recipient != g.origin && Within(g, g.recipient, m.ttl)
            then Shortest(g, p, g.recipient) && 1 <= |p| - 1 <= m.ttl
                 && Handed(ds, g.recipient, Copy(m, m.ttl - (|p| - 1)))
            else ds == []
  {
    hide Quiet;
    hide Flooded;
    hide Seen;
    hide Ball;
    hide Within;
    hide Shortest;
    hide Handed;
    hide Originated;
    hide SyncRound;
    QuietFits(s, g, m);
    ds := FloodReaches(s, g, m, m.ttl);
    FloodLast(After(s, g, m, m.ttl), g, m);
    BallIsRoutes(g, m.ttl, g.recipient);
    p := [];
    if g.recipient in Ball(g, m.ttl) {
      p := DistanceIsShortest(g, g.recipient, m.ttl);
    }
  }

  lemma QuietFits(s: Net, g: Graph, m: Message)
    requires Quiet(s, g, m)
    ensures Floodable(m, g) && s.nodes.Keys == g.nodes && g.origin in s.nodes
  {
    QuietParts(s, g, m);
  }

  // ---------- the flood is a run of the network ----------

  lemma {:induction false} DriveIsRun(s0: Net, acts0: seq<Action>, g: Graph, j: nat, delay: nat)
    returns (acts: seq<Action>)
    requires NetExec(s0, acts0, delay).nodes.Keys == g.nodes
    requires j <= |NetExec(s0, acts0, delay).flight|
    ensures NetExec(s0, acts, delay) == Drive(NetExec(s0, acts0, delay), g, j)
  {
    hide NetExec;
    hide Arrived;
    if j == 0 {
      acts := acts0;
    } else {
      acts := DriveIsRun(s0, acts0, g, j - 1, delay);
      NetworkLaws.OneMoreAction(s0, acts, Arrive(0, g.nodes), delay);
      acts := acts + [Arrive(0, g.nodes)];
    }
  }

  /** Every state of the flood is reached by network actions alone, so all network-wide results hold of it. */
  lemma {:induction false} FloodIsRun(s: Net, g: Graph, m: Message, k: nat, delay: nat) returns (acts: seq<Action>)
    requires s.nodes.Keys == g.nodes && g.origin in s.nodes && m.uuid !in s.origins && Floodable(m, g)
    ensures NetExec(s, acts, delay) == After(s, g, m, k)
  {
    hide Drive;
    hide Originated;
    if k == 0 {
      acts := [Originate(g.origin, m, g.nodes)];
      NetworkLaws.OneMoreAction(s, [], Originate(g.origin, m, g.nodes), delay);
      assert [] + acts == acts;
    } else {
      var before := FloodIsRun(s, g, m, k - 1, delay);
      acts := DriveIsRun(s, before, g, |After(s, g, m, k - 1).flight|, delay);
    }
  }
}
