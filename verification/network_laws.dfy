/** Every step of the network keeps every copy faithful to its broadcast, TTL-accounted and on time. */
module NetworkLaws {
  import opened Types
  import opened Codec
  import opened RouterSpec
  import opened Network
  import Store

  // ---------- what one router may do with one message ----------

  /** All that `eff` adds to `r` is one message: as a row, in frames, or to the application. */
  predicate PassesOn(r: Router, eff: Effect, m: Message, now: Time) {
    && eff.router.cfg == r.cfg
    && (forall u :: u in eff.router.rows ==>
          (u in r.rows && eff.router.rows[u] == r.rows[u])
          || (u == m.uuid && u !in r.rows && eff.router.rows[u] == Store.RowOf(m, now)))
    && (forall i :: 0 <= i < |eff.sends| ==> eff.sends[i].data == Encode(m))
    && (forall i :: 0 <= i < |eff.delivered| ==> eff.delivered[i] == m && m.receiver == r.cfg.me)
  }

  /** `eff` adds nothing to `r`. */
  predicate Idle(r: Router, eff: Effect) {
    && eff.router.cfg == r.cfg
    && (forall u :: u in eff.router.rows ==> u in r.rows && eff.router.rows[u] == r.rows[u])
    && eff.sends == [] && eff.delivered == []
  }

  lemma BroadcastPassesOn(r: Router, m: Message, now: Time, up: set<PubKey>)
    ensures PassesOn(r, BroadcastEffect(r, m, now, up), m, now)
    ensures BroadcastEffect(r, m, now, up).delivered == []
  {
    hide Encode;
  }

  /** A receive passes on the message it accepted, one TTL lower, or does nothing. */
  lemma ReceivePassesOn(r: Router, data: bytes, now: Time, up: set<PubKey>)
    ensures var eff := ReceiveEffect(r, data, now, up);
            if Decode(data).Accept? && Decode(data).msg.ttl > 0
            then PassesOn(r, eff, Decode(data).msg.(ttl := Decode(data).msg.ttl - 1), now)
            else Idle(r, eff)
  {
    hide Encode;
    hide Decode;
  }

  lemma UpkeepIsIdle(r: Router, e: Event)
    requires e.AddPeer? || e.SweepCache? || e.Expire?
    ensures Idle(r, Step(r, e))
  {
  }

  // ---------- an emitted copy keeps the invariant ----------

  lemma CopyOfEncode(origins: map<Uuid, Origin>, m: Message, trail: Trail, now: Time)
    requires OriginsOk(origins, now) && IsCopy(origins, m, trail)
    ensures Decode(Encode(m)) == Accept(m)
  {
    DecodeEncode(m);
  }

  lemma NewFramesOk(origins: map<Uuid, Origin>, sends: seq<RouterSpec.Send>, m: Message, trail: Trail, now: Time,
                    replayed: bool, delay: nat)
    requires OriginsOk(origins, now) && IsCopy(origins, m, trail)
    requires now <= Deadline(origins[m.uuid], |trail| - 1, delay)
    requires forall i :: 0 <= i < |sends| ==> sends[i].data == Encode(m)
    ensures FramesOk(origins, Launch(sends, now, map[m.uuid := trail], replayed), delay)
    ensures InTime(Launch(sends, now, map[m.uuid := trail], replayed), now, delay)
  {
    hide Encode;
    hide Decode;
    hide Deadline;
    hide IsCopy;
    CopyOfEncode(origins, m, trail, now);
    var fs := Launch(sends, now, map[m.uuid := trail], replayed);
    forall i | 0 <= i < |fs| ensures FrameOk(origins, fs[i], delay) {
      assert fs[i].trail == trail && fs[i].data == Encode(m);
    }
  }

  lemma NewNodeOk(origins: map<Uuid, Origin>, n: PubKey, node: Node, eff: Effect, m: Message, trail: Trail, now: Time,
                  delay: nat)
    requires NodeOk(origins, n, node, delay)
    requires PassesOn(node.router, eff, m, now)
    requires IsCopy(origins, m, trail)
    requires now + Store.RETENTION <= Deadline(origins[m.uuid], |trail| - 1, delay)
    ensures NodeOk(origins, n, Node(eff.router, NewTrails(node, eff.router, map[m.uuid := trail])), delay)
  {
    hide Encode;
    hide Deadline;
    var trails := NewTrails(node, eff.router, map[m.uuid := trail]);
    forall u | u in eff.router.rows
      ensures u in trails && RowOk(origins, u, eff.router.rows[u], trails[u], delay)
    {
      if u in node.router.rows {
        assert RowOk(origins, u, node.router.rows[u], node.trails[u], delay);
        assert trails[u] == node.trails[u];
      } else {
        assert trails[u] == trail;
      }
    }
  }

  lemma IdleNodeOk(origins: map<Uuid, Origin>, n: PubKey, node: Node, eff: Effect, trails: map<Uuid, Trail>, delay: nat)
    requires NodeOk(origins, n, node, delay) && Idle(node.router, eff)
    ensures NodeOk(origins, n, Node(eff.router, NewTrails(node, eff.router, trails)), delay)
  {
    hide RowOk;
  }

  lemma FramesConcat(origins: map<Uuid, Origin>, a: seq<Frame>, b: seq<Frame>, now: Time, delay: nat)
    requires FramesOk(origins, a, delay) && FramesOk(origins, b, delay)
    ensures FramesOk(origins, a + b, delay)
    ensures InTime(a, now, delay) && InTime(b, now, delay) ==> InTime(a + b, now, delay)
  {
    hide FrameOk;
  }

  /** Emitting copies of one message, with a trail that accounts for it, keeps the invariant. */
  lemma EmitOk(s: Net, n: PubKey, eff: Effect, m: Message, trail: Trail, replayed: bool, delay: nat)
    requires Good(s, delay) && n in s.nodes
    requires PassesOn(s.nodes[n].router, eff, m, s.now)
    requires IsCopy(s.origins, m, trail)
    requires s.now + Store.RETENTION <= Deadline(s.origins[m.uuid], |trail| - 1, delay)
    requires eff.delivered != [] ==> |trail| >= 2
    ensures Good(Emit(s, n, eff, map[m.uuid := trail], replayed), delay)
  {
    hide FrameOk;
    hide NodeOk;
    hide Encode;
    hide IsCopy;
    hide Deadline;
    var trails := map[m.uuid := trail];
    NewFramesOk(s.origins, eff.sends, m, trail, s.now, replayed, delay);
    NewNodeOk(s.origins, n, s.nodes[n], eff, m, trail, s.now, delay);
    var t := Emit(s, n, eff, trails, replayed);
    FramesConcat(s.origins, s.launched, Launch(eff.sends, s.now, trails, replayed), s.now, delay);
    FramesConcat(s.origins, s.flight, Launch(eff.sends, s.now, trails, replayed), s.now, delay);
    assert NodeOk(s.origins, n, t.nodes[n], delay);
    EmitDeliveries(s, n, eff, m, trail, replayed, delay);
  }

  lemma EmitDeliveries(s: Net, n: PubKey, eff: Effect, m: Message, trail: Trail, replayed: bool, delay: nat)
    requires DeliveriesOk(s.origins, s.deliveries) && n in s.nodes && NodeOk(s.origins, n, s.nodes[n], delay)
    requires PassesOn(s.nodes[n].router, eff, m, s.now) && IsCopy(s.origins, m, trail)
    requires eff.delivered != [] ==> |trail| >= 2
    ensures DeliveriesOk(s.origins, Emit(s, n, eff, map[m.uuid := trail], replayed).deliveries)
  {
    hide IsCopy;
    hide Encode;
    var ds := Emit(s, n, eff, map[m.uuid := trail], replayed).deliveries;
    forall i | 0 <= i < |ds| ensures DeliveryOk(s.origins, ds[i]) {
      if i < |s.deliveries| {
        assert ds[i] == s.deliveries[i];
      } else {
        assert ds[i] == Delivery(n, m, trail);
      }
    }
  }

  lemma EmitIdleOk(s: Net, n: PubKey, eff: Effect, trails: map<Uuid, Trail>, replayed: bool, delay: nat)
    requires Good(s, delay) && n in s.nodes && Idle(s.nodes[n].router, eff)
    ensures Good(Emit(s, n, eff, trails, replayed), delay)
  {
    hide FrameOk;
    hide NodeOk;
    hide DeliveryOk;
    IdleNodeOk(s.origins, n, s.nodes[n], eff, trails, delay);
    var t := Emit(s, n, eff, trails, replayed);
    assert Launch(eff.sends, s.now, trails, replayed) == [];
    assert s.launched + [] == s.launched && s.flight + [] == s.flight;
    assert t.launched == s.launched && t.flight == s.flight && t.deliveries == s.deliveries;
  }

  // ---------- the six kinds of step ----------

  lemma CopyKept(origins: map<Uuid, Origin>, u: Uuid, o: Origin, m: Message, trail: Trail)
    requires u !in origins && IsCopy(origins, m, trail)
    ensures IsCopy(origins[u := o], m, trail) && origins[u := o][m.uuid] == origins[m.uuid]
  {
  }

  /** A broadcast with a fresh UUID disturbs no existing copy. */
  lemma FreshOriginKeepsGood(s: Net, u: Uuid, o: Origin, delay: nat)
    requires Good(s, delay) && u !in s.origins
    requires o.msg.uuid == u && |o.msg.payload| <= Store.INT_MAX && o.at == s.now
    ensures Good(s.(origins := s.origins[u := o]), delay)
  {
    hide Encode;
    hide Decode;
    hide Deadline;
    var origins := s.origins[u := o];
    forall i | 0 <= i < |s.launched| ensures FrameOk(origins, s.launched[i], delay) {
      FrameKept(s.origins, u, o, s.launched[i], delay);
    }
    forall i | 0 <= i < |s.flight| ensures FrameOk(origins, s.flight[i], delay) {
      FrameKept(s.origins, u, o, s.flight[i], delay);
    }
    forall n | n in s.nodes ensures NodeOk(origins, n, s.nodes[n], delay) {
      NodeKept(s.origins, u, o, n, s.nodes[n], delay);
    }
    forall i | 0 <= i < |s.deliveries| ensures DeliveryOk(origins, s.deliveries[i]) {
      assert DeliveryOk(s.origins, s.deliveries[i]);
      CopyKept(s.origins, u, o, s.deliveries[i].msg, s.deliveries[i].trail);
    }
  }

  lemma FrameKept(origins: map<Uuid, Origin>, u: Uuid, o: Origin, f: Frame, delay: nat)
    requires u !in origins && FrameOk(origins, f, delay)
    ensures FrameOk(origins[u := o], f, delay)
  {
    hide Encode;
    hide Decode;
    hide IsCopy;
    CopyKept(origins, u, o, Decode(f.data).msg, f.trail);
  }

  lemma NodeKept(origins: map<Uuid, Origin>, u: Uuid, o: Origin, n: PubKey, node: Node, delay: nat)
    requires u !in origins && NodeOk(origins, n, node, delay)
    ensures NodeOk(origins[u := o], n, node, delay)
  {
    forall v | v in node.router.rows
      ensures RowOk(origins[u := o], v, node.router.rows[v], node.trails[v], delay)
    {
      assert RowOk(origins, v, node.router.rows[v], node.trails[v], delay);
      CopyKept(origins, u, o, Store.Reload(v, node.router.rows[v]), node.trails[v]);
    }
  }

  lemma OriginateOk(s: Net, n: PubKey, m: Message, up: set<PubKey>, delay: nat)
    requires Good(s, delay) && Possible(s, Originate(n, m, up), delay)
    ensures Good(Originated(s, n, m, up), delay)
  {
    hide Good;
    hide BroadcastEffect;
    hide PassesOn;
    var o := Origin(n, m, s.now);
    var s1 := s.(origins := s.origins[m.uuid := o]);
    FreshOriginKeepsGood(s, m.uuid, o, delay);
    BroadcastPassesOn(s.nodes[n].router, m, s.now, up);
    assert IsCopy(s1.origins, m, [n]);
    assert Deadline(o, 0, delay) == s.now + Store.RETENTION;
    EmitOk(s1, n, BroadcastEffect(s.nodes[n].router, m, s.now, up), m, [n], false, delay);
  }

  lemma DropOk(origins: map<Uuid, Origin>, fs: seq<Frame>, i: nat, now: Time, delay: nat)
    requires i < |fs| && FramesOk(origins, fs, delay) && InTime(fs, now, delay)
    ensures FramesOk(origins, Drop(fs, i), delay) && InTime(Drop(fs, i), now, delay)
  {
    hide FrameOk;
    var gs := Drop(fs, i);
    forall j | 0 <= j < |gs| ensures FrameOk(origins, gs[j], delay) && now <= gs[j].sentAt + delay {
      var k := if j < i then j else j + 1;
      assert gs[j] == fs[k];
    }
  }

  /** A frame too long for the receive buffer reaches the router as a prefix that it cannot accept. */
  lemma ClippedIsNotAccepted(m: Message)
    requires |m.payload| <= Store.INT_MAX
    ensures Decode(Clip(Encode(m))) == if |Encode(m)| <= RECV_BUFFER then Accept(m) else Reject
  {
    DecodeEncode(m);
    if |Encode(m)| > RECV_BUFFER {
      ProperPrefix(m, RECV_BUFFER);
    }
  }

  lemma CopyHasTrail(origins: map<Uuid, Origin>, m: Message, trail: Trail)
    requires IsCopy(origins, m, trail)
    ensures m.uuid in origins && |trail| >= 1
  {
  }

  lemma RelayedCopy(origins: map<Uuid, Origin>, m: Message, trail: Trail, n: PubKey, delay: nat)
    requires IsCopy(origins, m, trail) && m.ttl > 0
    ensures IsCopy(origins, m.(ttl := m.ttl - 1), trail + [n])
    ensures Deadline(origins[m.uuid], |trail + [n]| - 1, delay)
            == Deadline(origins[m.uuid], |trail| - 1, delay) + delay + Store.RETENTION
  {
  }

  /** What a frame in a good network becomes when it is read into the receive buffer. */
  lemma ArrivingFrame(s: Net, i: nat, delay: nat) returns (m: Message)
    requires Good(s, delay) && i < |s.flight|
    ensures var f := s.flight[i];
            && Good(s.(flight := Drop(s.flight, i)), delay)
            && IsCopy(s.origins, m, f.trail)
            && s.now <= Deadline(s.origins[m.uuid], |f.trail| - 1, delay) + delay
            && Decode(Clip(f.data)) == if |f.data| <= RECV_BUFFER then Accept(m) else Reject
  {
    var f := s.flight[i];
    assert FrameOk(s.origins, f, delay);
    m := Decode(f.data).msg;
    DropOk(s.origins, s.flight, i, s.now, delay);
    ClippedIsNotAccepted(m);
  }

  lemma ArriveOk(s: Net, i: nat, up: set<PubKey>, delay: nat)
    requires Good(s, delay) && Possible(s, Arrive(i, up), delay)
    ensures Good(Arrived(s, i, up), delay)
  {
    hide Good;
    hide PassesOn;
    hide Idle;
    hide Clip;
    hide Decode;
    hide ReceiveEffect;
    hide Emit;
    hide Drop;
    hide Deadline;
    hide IsCopy;
    var m := ArrivingFrame(s, i, delay);
    var f := s.flight[i];
    var data := Clip(f.data);
    var eff := ReceiveEffect(s.nodes[f.dst].router, data, s.now, up);
    ReceivePassesOn(s.nodes[f.dst].router, data, s.now, up);
    var s1 := s.(flight := Drop(s.flight, i));
    if Decode(data).Accept? && m.ttl > 0 {
      RelayedCopy(s.origins, m, f.trail, f.dst, delay);
      CopyHasTrail(s.origins, m, f.trail);
      EmitOk(s1, f.dst, eff, m.(ttl := m.ttl - 1), f.trail + [f.dst], f.replayed, delay);
    } else {
      var u := UuidOf(data);
      EmitIdleOk(s1, f.dst, eff, if u.Some? then map[u.value := f.trail + [f.dst]] else map[], f.replayed, delay);
    }
  }

  lemma {:induction false} RoundFramesOk(origins: map<Uuid, Origin>, n: PubKey, node: Node, picks: seq<Pick>, now: Time,
                                         delay: nat)
    requires NodeOk(origins, n, node, delay) && OriginsOk(origins, now)
    requires forall i :: 0 <= i < |picks| ==>
               picks[i].uuid in node.router.rows && now <= node.router.rows[picks[i].uuid].expiresAt
    ensures FramesOk(origins, Launch(RoundSends(node.router, picks), now, node.trails, true), delay)
    ensures InTime(Launch(RoundSends(node.router, picks), now, node.trails, true), now, delay)
  {
    hide Encode;
    hide Decode;
    hide Deadline;
    hide Broadside;
    hide IsCopy;
    if picks != [] {
      var front, last := picks[..|picks| - 1], picks[|picks| - 1];
      RoundFramesOk(origins, n, node, front, now, delay);
      var row := node.router.rows[last.uuid];
      var m := Store.Reload(last.uuid, row);
      assert RowOk(origins, last.uuid, row, node.trails[last.uuid], delay);
      CopyOfEncode(origins, m, node.trails[last.uuid], now);
      var out := Broadside(node.router, Encode(m), last.up);
      var a, b := RoundSends(node.router, front), out;
      assert RoundSends(node.router, picks) == a + b;
      assert Launch(a + b, now, node.trails, true)
          == Launch(a, now, node.trails, true) + Launch(b, now, node.trails, true);
      var fs := Launch(b, now, node.trails, true);
      forall i | 0 <= i < |fs| ensures FrameOk(origins, fs[i], delay) {
        assert fs[i].data == Encode(m) && fs[i].trail == node.trails[last.uuid];
      }
      FramesConcat(origins, Launch(a, now, node.trails, true), fs, now, delay);
    }
  }

  /** Sending only, with no change to the rows. */
  lemma EmitFramesOk(s: Net, n: PubKey, eff: Effect, trails: map<Uuid, Trail>, replayed: bool, delay: nat)
    requires Good(s, delay) && n in s.nodes
    requires eff.router.cfg == s.nodes[n].router.cfg && eff.router.rows == s.nodes[n].router.rows && eff.delivered == []
    requires FramesOk(s.origins, Launch(eff.sends, s.now, trails, replayed), delay)
    requires InTime(Launch(eff.sends, s.now, trails, replayed), s.now, delay)
    ensures Good(Emit(s, n, eff, trails, replayed), delay)
  {
    hide FrameOk;
    hide RowOk;
    hide DeliveryOk;
    var fs := Launch(eff.sends, s.now, trails, replayed);
    FramesConcat(s.origins, s.launched, fs, s.now, delay);
    FramesConcat(s.origins, s.flight, fs, s.now, delay);
    var t := Emit(s, n, eff, trails, replayed);
    assert t.deliveries == s.deliveries;
    assert t.nodes[n].trails == s.nodes[n].trails;
    assert NodeOk(s.origins, n, s.nodes[n], delay);
    assert NodeOk(s.origins, n, t.nodes[n], delay);
  }

  lemma ReplayOk(s: Net, n: PubKey, picks: seq<Pick>, delay: nat)
    requires Good(s, delay) && Possible(s, Replay(n, picks), delay)
    ensures Good(Apply(s, Replay(n, picks), delay), delay)
  {
    hide Emit;
    hide FramesOk;
    hide NodeOk;
    hide RoundSends;
    var node := s.nodes[n];
    var eff := RoundEffect(node.router, picks, s.now);
    if !RoundDue(node.router, s.now) {
      EmitIdleOk(s, n, eff, node.trails, true, delay);
    } else {
      RoundFramesOk(s.origins, n, node, picks, s.now, delay);
      EmitFramesOk(s, n, eff, node.trails, true, delay);
    }
  }

  lemma StepOk(s: Net, a: Action, delay: nat)
    requires Good(s, delay)
    ensures Good(Apply(s, a, delay), delay)
  {
    if Possible(s, a, delay) {
      PossibleStepOk(s, a, delay);
    }
  }

  lemma PossibleStepOk(s: Net, a: Action, delay: nat)
    requires Good(s, delay) && Possible(s, a, delay)
    ensures Good(Apply(s, a, delay), delay)
  {
    match a
    case Originate(n, m, up) => OriginateOk(s, n, m, up, delay);
    case Arrive(i, up) => ArriveOk(s, i, up, delay);
    case Replay(n, picks) => ReplayOk(s, n, picks, delay);
    case Local(n, e) =>
      UpkeepIsIdle(s.nodes[n].router, e);
      EmitIdleOk(s, n, Step(s.nodes[n].router, e), s.nodes[n].trails, false, delay);
    case Lose(i) =>
      DropOk(s.origins, s.flight, i, s.now, delay);
    case Advance(t) =>
  }

  lemma InitOk(s: Net, delay: nat)
    requires Init(s)
    ensures Good(s, delay)
  {
  }

  /** Every reachable state of the network is good. */
  lemma {:induction false} RunOk(s: Net, acts: seq<Action>, delay: nat)
    requires Init(s)
    ensures Good(NetExec(s, acts, delay), delay)
  {
    hide Good;
    hide Apply;
    hide Init;
    if acts == [] {
      InitOk(s, delay);
    } else {
      RunOk(s, acts[..|acts| - 1], delay);
      StepOk(NetExec(s, acts[..|acts| - 1], delay), acts[|acts| - 1], delay);
    }
  }

  // ---------- the parts of a step ----------

  /** `fs` are the frames of the sends `sends`. */
  predicate Carry(fs: seq<Frame>, sends: seq<RouterSpec.Send>) {
    |fs| == |sends| && forall i :: 0 <= i < |fs| ==> fs[i].dst == sends[i].to && fs[i].data == sends[i].data
  }

  /** Only node `n` differs between `s` and `t`, and its router is now `r`. */
  predicate OnlyAt(s: Net, t: Net, n: PubKey, r: Router) {
    && t.nodes.Keys == s.nodes.Keys && n in s.nodes
    && t.nodes[n].router == r
    && forall k :: k in s.nodes && k != n ==> t.nodes[k] == s.nodes[k]
  }

  lemma ArrivedParts(s: Net, i: nat, up: set<PubKey>) returns (eff: Effect, fs: seq<Frame>, ds: seq<Delivery>)
    requires i < |s.flight| && s.flight[i].dst in s.nodes
    ensures var d, t := s.flight[i].dst, Arrived(s, i, up);
            && eff == ReceiveEffect(s.nodes[d].router, Clip(s.flight[i].data), s.now, up)
            && Carry(fs, eff.sends)
            && t.flight == Drop(s.flight, i) + fs
            && OnlyAt(s, t, d, eff.router)
            && t.deliveries == s.deliveries + ds && |ds| == |eff.delivered|
            && (forall k :: 0 <= k < |ds| ==> ds[k].node == d && ds[k].msg == eff.delivered[k])
  {
    hide ReceiveEffect;
    hide Clip;
    hide Decode;
    hide Drop;
    var f := s.flight[i];
    eff := ReceiveEffect(s.nodes[f.dst].router, Clip(f.data), s.now, up);
    var u := UuidOf(Clip(f.data));
    fs := Launch(eff.sends, s.now, if u.Some? then map[u.value := f.trail + [f.dst]] else map[], f.replayed);
    ds := Arrived(s, i, up).deliveries[|s.deliveries|..];
  }

  lemma OriginatedParts(s: Net, n: PubKey, m: Message, up: set<PubKey>) returns (eff: Effect, fs: seq<Frame>)
    requires n in s.nodes
    ensures var t := Originated(s, n, m, up);
            && eff == BroadcastEffect(s.nodes[n].router, m, s.now, up)
            && Carry(fs, eff.sends)
            && t.flight == s.flight + fs
            && OnlyAt(s, t, n, eff.router)
            && t.deliveries == s.deliveries
  {
    hide Encode;
    hide Decode;
    eff := BroadcastEffect(s.nodes[n].router, m, s.now, up);
    fs := Launch(eff.sends, s.now, map[m.uuid := [n]], false);
  }

  lemma OneMoreAction(s0: Net, acts: seq<Action>, a: Action, delay: nat)
    ensures NetExec(s0, acts + [a], delay) == Apply(NetExec(s0, acts, delay), a, delay)
  {
    hide Apply;
    assert (acts + [a])[..|acts|] == acts;
  }
}
