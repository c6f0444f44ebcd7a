/** What holds of every message in every reachable state of the network. */
module Survival {
  import opened Types
  import opened Codec
  import opened Network
  import NetworkLaws
  import Store

  /** The message a frame carries. */
  function Carried(f: Frame): Message
    requires Decode(f.data).Accept?
  {
    Decode(f.data).msg
  }

  /** Every relay a copy went through cost it exactly one TTL, counted from its broadcast. */
  predicate TtlAccounted(origins: map<Uuid, Origin>, m: Message, trail: Trail) {
    m.uuid in origins && |trail| >= 1 && m.ttl + (|trail| - 1) == origins[m.uuid].msg.ttl
  }

  /**
   * TTL conservation: in every reachable state each frame ever sent, each stored row and each
   * delivered message satisfies ttl + relay depth = origin TTL.
   */
  lemma TtlConserved(s: Net, acts: seq<Action>, delay: nat)
    requires Init(s)
    ensures var t := NetExec(s, acts, delay);
            && (forall i :: 0 <= i < |t.launched| ==>
                  && Decode(t.launched[i].data).Accept?
                  && TtlAccounted(t.origins, Carried(t.launched[i]), t.launched[i].trail))
            && (forall n, u :: n in t.nodes && u in t.nodes[n].router.rows ==>
                  && u in t.nodes[n].trails
                  && TtlAccounted(t.origins, Store.Reload(u, t.nodes[n].router.rows[u]), t.nodes[n].trails[u]))
            && (forall i :: 0 <= i < |t.deliveries| ==>
                  TtlAccounted(t.origins, t.deliveries[i].msg, t.deliveries[i].trail))
  {
    hide NetExec;
    hide Decode;
    NetworkLaws.RunOk(s, acts, delay);
    var t := NetExec(s, acts, delay);
    forall i | 0 <= i < |t.launched|
      ensures Decode(t.launched[i].data).Accept? && TtlAccounted(t.origins, Carried(t.launched[i]), t.launched[i].trail)
    {
      assert FrameOk(t.origins, t.launched[i], delay);
    }
    forall n, u | n in t.nodes && u in t.nodes[n].router.rows
      ensures u in t.nodes[n].trails
      ensures TtlAccounted(t.origins, Store.Reload(u, t.nodes[n].router.rows[u]), t.nodes[n].trails[u])
    {
      assert NodeOk(t.origins, n, t.nodes[n], delay);
      assert RowOk(t.origins, u, t.nodes[n].router.rows[u], t.nodes[n].trails[u], delay);
    }
    forall i | 0 <= i < |t.deliveries|
      ensures TtlAccounted(t.origins, t.deliveries[i].msg, t.deliveries[i].trail)
    {
      assert DeliveryOk(t.origins, t.deliveries[i]);
    }
  }

  /** A message broadcast with the default TTL is relayed along no causal chain of more than 10 hops. */
  lemma TenHops(s: Net, acts: seq<Action>, delay: nat, i: nat)
    requires Init(s) && i < |NetExec(s, acts, delay).launched|
    ensures var t := NetExec(s, acts, delay);
            var f := t.launched[i];
            && Decode(f.data).Accept? && Carried(f).uuid in t.origins
            && (t.origins[Carried(f).uuid].msg.ttl == DEFAULT_TTL ==> |f.trail| - 1 <= 10)
  {
    hide NetExec;
    hide Decode;
    TtlConserved(s, acts, delay);
    var t := NetExec(s, acts, delay);
    assert TtlAccounted(t.origins, Carried(t.launched[i]), t.launched[i].trail);
  }

  /**
   * Content integrity: whatever mix of serialising, relaying, storing, reloading and replaying it
   * went through, a copy carries the sender, receiver and payload of its one broadcast.
   */
  lemma ContentKept(s: Net, acts: seq<Action>, delay: nat)
    requires Init(s)
    ensures var t := NetExec(s, acts, delay);
            && (forall i :: 0 <= i < |t.launched| ==>
                  && Decode(t.launched[i].data).Accept?
                  && var m := Carried(t.launched[i]);
                     m.uuid in t.origins && SameContent(m, t.origins[m.uuid].msg))
            && (forall n, u :: n in t.nodes && u in t.nodes[n].router.rows ==>
                  u in t.origins && SameContent(Store.Reload(u, t.nodes[n].router.rows[u]), t.origins[u].msg))
            && (forall i :: 0 <= i < |t.deliveries| ==>
                  && var d := t.deliveries[i];
                     && d.msg.uuid in t.origins && SameContent(d.msg, t.origins[d.msg.uuid].msg)
                     && d.msg.receiver == d.node)
  {
    hide NetExec;
    hide Decode;
    NetworkLaws.RunOk(s, acts, delay);
    var t := NetExec(s, acts, delay);
    forall i | 0 <= i < |t.launched|
      ensures Decode(t.launched[i].data).Accept?
      ensures Carried(t.launched[i]).uuid in t.origins
      ensures SameContent(Carried(t.launched[i]), t.origins[Carried(t.launched[i]).uuid].msg)
    {
      assert FrameOk(t.origins, t.launched[i], delay);
    }
    forall n, u | n in t.nodes && u in t.nodes[n].router.rows
      ensures u in t.origins && SameContent(Store.Reload(u, t.nodes[n].router.rows[u]), t.origins[u].msg)
    {
      assert NodeOk(t.origins, n, t.nodes[n], delay);
      assert RowOk(t.origins, u, t.nodes[n].router.rows[u], t.nodes[n].trails[u], delay);
    }
    forall i | 0 <= i < |t.deliveries|
      ensures t.deliveries[i].msg.uuid in t.origins
      ensures SameContent(t.deliveries[i].msg, t.origins[t.deliveries[i].msg.uuid].msg)
      ensures t.deliveries[i].msg.receiver == t.deliveries[i].node
    {
      assert DeliveryOk(t.origins, t.deliveries[i]);
    }
  }

  // ---------- lifetime ----------

  lemma {:induction false} DeadlineClosed(o: Origin, hops: nat, delay: nat)
    ensures Deadline(o, hops, delay) == o.at + (hops + 1) * Store.RETENTION + hops * delay
  {
    if hops > 0 {
      DeadlineClosed(o, hops - 1, delay);
      assert (hops - 1) * delay + delay == hops * delay;
    }
  }

  lemma {:induction false} DeadlineMonotone(o: Origin, a: nat, b: nat, delay: nat)
    requires a <= b
    ensures Deadline(o, a, delay) <= Deadline(o, b, delay)
  {
    if a < b {
      DeadlineMonotone(o, a, b - 1, delay);
    }
  }

  function RowDeadline(o: Origin, ttl: byte, delay: nat): int {
    o.at + (o.msg.ttl - ttl + 1) * 259200 + (o.msg.ttl - ttl) * delay
  }

  /**
   * A row with TTL t of a message broadcast at c with TTL T expires by c + (T-t+1)*72h + (T-t)*delay, on any
   * node of any run.
   */
  lemma RowLifetime(s: Net, acts: seq<Action>, delay: nat, n: PubKey, u: Uuid)
    requires Init(s)
    requires n in NetExec(s, acts, delay).nodes && u in NetExec(s, acts, delay).nodes[n].router.rows
    ensures var t := NetExec(s, acts, delay);
            var row := t.nodes[n].router.rows[u];
            && u in t.origins
            && var o := t.origins[u];
               && row.ttl <= o.msg.ttl
               && row.expiresAt <= RowDeadline(o, row.ttl, delay)
  {
    hide NetExec;
    hide Good;
    hide RowDeadline;
    NetworkLaws.RunOk(s, acts, delay);
    GoodRowLifetime(NetExec(s, acts, delay), delay, n, u);
  }

  lemma GoodRowLifetime(t: Net, delay: nat, n: PubKey, u: Uuid)
    requires Good(t, delay) && n in t.nodes && u in t.nodes[n].router.rows
    ensures var row := t.nodes[n].router.rows[u];
            && u in t.origins
            && var o := t.origins[u];
               && row.ttl <= o.msg.ttl
               && row.expiresAt <= RowDeadline(o, row.ttl, delay)
  {
    hide Deadline;
    assert NodeOk(t.origins, n, t.nodes[n], delay);
    assert RowOk(t.origins, u, t.nodes[n].router.rows[u], t.nodes[n].trails[u], delay);
    var hops := |t.nodes[n].trails[u]| - 1;
    assert hops == t.origins[u].msg.ttl - t.nodes[n].router.rows[u].ttl;
    DeadlineClosed(t.origins[u], hops, delay);
  }

  /** The last moment at which anything of a message can be stored or sent. */
  function LastMoment(o: Origin, delay: nat): nat {
    Deadline(o, o.msg.ttl, delay)
  }

  lemma LastMomentClosed(o: Origin, delay: nat)
    ensures LastMoment(o, delay) == o.at + (o.msg.ttl + 1) * 259200 + o.msg.ttl * delay
  {
    DeadlineClosed(o, o.msg.ttl, delay);
  }

  lemma CopyBound(origins: map<Uuid, Origin>, m: Message, trail: Trail, delay: nat)
    requires IsCopy(origins, m, trail)
    ensures Deadline(origins[m.uuid], |trail| - 1, delay) <= LastMoment(origins[m.uuid], delay)
  {
    DeadlineMonotone(origins[m.uuid], |trail| - 1, origins[m.uuid].msg.ttl, delay);
  }

  /** No frame of the message is ever sent after that moment, whatever the caches forget. */
  lemma NothingSentAfter(s: Net, acts: seq<Action>, delay: nat, i: nat)
    requires Init(s) && i < |NetExec(s, acts, delay).launched|
    ensures var t := NetExec(s, acts, delay);
            var f := t.launched[i];
            && Decode(f.data).Accept? && Carried(f).uuid in t.origins
            && f.sentAt <= LastMoment(t.origins[Carried(f).uuid], delay)
  {
    hide NetExec;
    NetworkLaws.RunOk(s, acts, delay);
    GoodFrameBound(NetExec(s, acts, delay), NetExec(s, acts, delay).launched, delay, i);
  }

  lemma GoodFrameBound(t: Net, fs: seq<Frame>, delay: nat, i: nat)
    requires FramesOk(t.origins, fs, delay) && i < |fs|
    ensures var f := fs[i];
            && Decode(f.data).Accept? && Carried(f).uuid in t.origins
            && f.sentAt <= LastMoment(t.origins[Carried(f).uuid], delay)
  {
    hide Decode;
    hide Deadline;
    var f := fs[i];
    assert FrameOk(t.origins, f, delay);
    CopyBound(t.origins, Carried(f), f.trail, delay);
  }

  /**
   * Once the clock passes that moment plus one transit delay, the message is gone: no frame of it is
   * in flight, no node would replay it, and the next expiry sweep of any node leaves no row of it.
   */
  lemma Vanished(s: Net, acts: seq<Action>, delay: nat, u: Uuid)
    requires Init(s) && u in NetExec(s, acts, delay).origins
    requires NetExec(s, acts, delay).now > LastMoment(NetExec(s, acts, delay).origins[u], delay) + delay
    ensures var t := NetExec(s, acts, delay);
            && (forall i :: 0 <= i < |t.flight| ==> UuidOf(t.flight[i].data) != Some(u))
            && (forall n :: n in t.nodes ==>
                  && u !in Store.Select(t.nodes[n].router.rows, None, t.now)
                  && u !in Store.Evict(t.nodes[n].router.rows, t.now))
  {
    hide NetExec;
    hide Good;
    NetworkLaws.RunOk(s, acts, delay);
    GoodVanished(NetExec(s, acts, delay), delay, u);
  }

  lemma GoodVanished(t: Net, delay: nat, u: Uuid)
    requires Good(t, delay) && u in t.origins && t.now > LastMoment(t.origins[u], delay) + delay
    ensures forall i :: 0 <= i < |t.flight| ==> UuidOf(t.flight[i].data) != Some(u)
    ensures forall n :: n in t.nodes ==>
              && u !in Store.Select(t.nodes[n].router.rows, None, t.now)
              && u !in Store.Evict(t.nodes[n].router.rows, t.now)
  {
    hide Decode;
    hide LastMoment;
    forall i | 0 <= i < |t.flight| ensures UuidOf(t.flight[i].data) != Some(u) {
      GoodFrameBound(t, t.flight, delay, i);
      assert t.now <= t.flight[i].sentAt + delay;
    }
    forall n | n in t.nodes && u in t.nodes[n].router.rows
      ensures t.nodes[n].router.rows[u].expiresAt < t.now
    {
      GoodRowBound(t.origins, n, t.nodes[n], delay, u);
    }
  }

  lemma GoodRowBound(origins: map<Uuid, Origin>, n: PubKey, node: Node, delay: nat, u: Uuid)
    requires NodeOk(origins, n, node, delay) && u in node.router.rows
    ensures u in origins && node.router.rows[u].expiresAt <= LastMoment(origins[u], delay)
  {
    hide Deadline;
    var row := node.router.rows[u];
    assert RowOk(origins, u, row, node.trails[u], delay);
    CopyBound(origins, Store.Reload(u, row), node.trails[u], delay);
  }
}
