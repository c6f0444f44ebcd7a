/** What one node sees of a network run: a run of its own router. */
module NodeView {
  import opened Types
  import opened Codec
  import opened RouterSpec
  import opened Network
  import opened SeenLaws
  import NetworkLaws
  import OperationLaws
  import Dedup

  /** The router event that action `a` is for node `n`, if it is one. */
  function EventAt(s: Net, a: Action, delay: nat, n: PubKey): Option<Event> {
    if !Possible(s, a, delay) then None
    else match a
      case Originate(x, m, up) => if x == n then Some(Broadcast(m, s.now, up)) else None
      case Arrive(i, up) =>
        if s.flight[i].dst == n then Some(Receive(Clip(s.flight[i].data), s.now, up)) else None
      case Replay(x, picks) => if x == n then Some(Round(picks, s.now)) else None
      case Local(x, e) => if x == n then Some(e) else None
      case Lose(_) => None
      case Advance(_) => None
  }

  function EventsAt(s: Net, acts: seq<Action>, delay: nat, n: PubKey): seq<Event> {
    if acts == [] then []
    else
      var front := acts[..|acts| - 1];
      EventsAt(s, front, delay, n)
      + match EventAt(NetExec(s, front, delay), acts[|acts| - 1], delay, n)
        case Some(e) => [e]
        case None => []
  }

  /** What node `n` handed to its application. */
  function DeliveredAt(ds: seq<Delivery>, n: PubKey): seq<Message> {
    if ds == [] then []
    else
      DeliveredAt(ds[..|ds| - 1], n) + if ds[|ds| - 1].node == n then [ds[|ds| - 1].msg] else []
  }

  lemma {:induction false} DeliveredAtMore(ds: seq<Delivery>, more: seq<Delivery>, msgs: seq<Message>,
                                           x: PubKey, n: PubKey)
    requires |more| == |msgs| && forall i :: 0 <= i < |more| ==> more[i].node == x && more[i].msg == msgs[i]
    ensures DeliveredAt(ds + more, n) == DeliveredAt(ds, n) + if x == n then msgs else []
  {
    if more == [] {
      assert ds + more == ds;
    } else {
      var k := |more| - 1;
      DeliveredAtMore(ds, more[..k], msgs[..k], x, n);
      assert (ds + more)[..|ds + more| - 1] == ds + more[..k];
      assert msgs == msgs[..k] + [msgs[k]];
    }
  }

  /** The part of a step that a single node sees. */
  predicate SeesStep(s: Net, t: Net, e: Option<Event>, n: PubKey)
    requires n in s.nodes
  {
    && n in t.nodes
    && match e
       case None => t.nodes[n] == s.nodes[n] && DeliveredAt(t.deliveries, n) == DeliveredAt(s.deliveries, n)
       case Some(e) =>
         && e.now == s.now && Enabled(s.nodes[n].router, e)
         && t.nodes[n].router == Step(s.nodes[n].router, e).router
         && DeliveredAt(t.deliveries, n)
            == DeliveredAt(s.deliveries, n) + Step(s.nodes[n].router, e).delivered
  }

  lemma EmitAt(s: Net, x: PubKey, eff: Effect, trails: map<Uuid, Trail>, replayed: bool, n: PubKey)
    requires x in s.nodes && n in s.nodes
    ensures var t := Emit(s, x, eff, trails, replayed);
            && n in t.nodes
            && (if x == n then t.nodes[n].router == eff.router else t.nodes[n] == s.nodes[n])
            && DeliveredAt(t.deliveries, n)
               == DeliveredAt(s.deliveries, n) + if x == n then eff.delivered else []
  {
    hide DeliveredAt;
    hide NewTrails;
    var t := Emit(s, x, eff, trails, replayed);
    var more := t.deliveries[|s.deliveries|..];
    assert t.deliveries == s.deliveries + more;
    DeliveredAtMore(s.deliveries, more, eff.delivered, x, n);
  }

  lemma NodeStep(s: Net, a: Action, delay: nat, n: PubKey)
    requires n in s.nodes
    ensures SeesStep(s, Apply(s, a, delay), EventAt(s, a, delay, n), n)
    ensures s.now <= Apply(s, a, delay).now
  {
    hide Emit;
    hide DeliveredAt;
    hide ReceiveEffect;
    hide BroadcastEffect;
    hide RoundEffect;
    hide Clip;
    hide UuidOf;
    if Possible(s, a, delay) {
      match a
      case Originate(x, m, up) =>
        var s1 := s.(origins := s.origins[m.uuid := Origin(x, m, s.now)]);
        EmitAt(s1, x, BroadcastEffect(s.nodes[x].router, m, s.now, up), map[m.uuid := [x]], false, n);
        EmitClock(s1, x, BroadcastEffect(s.nodes[x].router, m, s.now, up), map[m.uuid := [x]], false);
      case Arrive(i, up) =>
        ArriveAt(s, i, up, n);
      case Replay(x, picks) =>
        EmitAt(s, x, RoundEffect(s.nodes[x].router, picks, s.now), s.nodes[x].trails, true, n);
        EmitClock(s, x, RoundEffect(s.nodes[x].router, picks, s.now), s.nodes[x].trails, true);
      case Local(x, e) =>
        EmitAt(s, x, Step(s.nodes[x].router, e), s.nodes[x].trails, false, n);
        EmitClock(s, x, Step(s.nodes[x].router, e), s.nodes[x].trails, false);
      case Lose(_) =>
      case Advance(_) =>
    }
  }

  lemma EmitClock(s: Net, x: PubKey, eff: Effect, trails: map<Uuid, Trail>, replayed: bool)
    requires x in s.nodes
    ensures Emit(s, x, eff, trails, replayed).now == s.now
  {
  }

  lemma ArriveAt(s: Net, i: nat, up: set<PubKey>, n: PubKey)
    requires i < |s.flight| && s.flight[i].dst in s.nodes && n in s.nodes
    ensures var d, t := s.flight[i].dst, Arrived(s, i, up);
            var eff := ReceiveEffect(s.nodes[d].router, Clip(s.flight[i].data), s.now, up);
            && n in t.nodes && t.now == s.now
            && (if d == n then t.nodes[n].router == eff.router else t.nodes[n] == s.nodes[n])
            && DeliveredAt(t.deliveries, n)
               == DeliveredAt(s.deliveries, n) + if d == n then eff.delivered else []
  {
    hide Emit;
    hide DeliveredAt;
    hide ReceiveEffect;
    hide Clip;
    hide UuidOf;
    var f := s.flight[i];
    var s1 := s.(flight := Drop(s.flight, i));
    var u := UuidOf(Clip(f.data));
    var trails := if u.Some? then map[u.value := f.trail + [f.dst]] else map[];
    var eff := ReceiveEffect(s.nodes[f.dst].router, Clip(f.data), s.now, up);
    EmitAt(s1, f.dst, eff, trails, f.replayed, n);
    EmitClock(s1, f.dst, eff, trails, f.replayed);
  }

  /** `evs` happen one after the other between `lo` and `hi`. */
  predicate InOrderWithin(evs: seq<Event>, lo: Time, hi: Time) {
    && lo <= hi
    && (forall i :: 0 <= i < |evs| ==> lo <= evs[i].now <= hi)
    && (forall i, j :: 0 <= i < j < |evs| ==> evs[i].now <= evs[j].now)
  }

  /**
   * Restricted to one node, a network run is a run of that node's router: same state, same deliveries, every
   * event possible at its turn, on a clock that does not step back.
   */
  lemma {:induction false} NodeRun(s: Net, acts: seq<Action>, delay: nat, n: PubKey)
    requires n in s.nodes
    ensures var t := NetExec(s, acts, delay);
            var r, evs := s.nodes[n].router, EventsAt(s, acts, delay, n);
            && n in t.nodes
            && t.nodes[n].router == Exec(r, evs)
            && DeliveredAt(t.deliveries, n) == DeliveredAt(s.deliveries, n) + DeliveredBy(r, evs)
            && AllEnabled(r, evs)
            && InOrderWithin(evs, s.now, t.now)
  {
    hide Apply;
    hide DeliveredAt;
    hide DeliveredBy;
    hide Exec;
    hide AllEnabled;
    hide Step;
    hide EventAt;
    hide EventsAt;
    hide Enabled;
    var r := s.nodes[n].router;
    if acts == [] {
      NoEvents(s, delay, n);
      assert DeliveredAt(s.deliveries, n) + [] == DeliveredAt(s.deliveries, n);
    } else {
      var front, a := acts[..|acts| - 1], acts[|acts| - 1];
      NodeRun(s, front, delay, n);
      var mid := NetExec(s, front, delay);
      NodeStep(mid, a, delay, n);
      EventsStep(s, acts, delay, n);
      if EventAt(mid, a, delay, n).Some? {
        OneMoreEvent(r, EventsAt(s, front, delay, n), EventAt(mid, a, delay, n).value);
      }
    }
  }

  lemma NoEvents(s: Net, delay: nat, n: PubKey)
    requires n in s.nodes
    ensures var r := s.nodes[n].router;
            EventsAt(s, [], delay, n) == [] && Exec(r, []) == r && DeliveredBy(r, []) == [] && AllEnabled(r, [])
  {
  }

  lemma EventsStep(s: Net, acts: seq<Action>, delay: nat, n: PubKey)
    requires acts != []
    ensures var front := acts[..|acts| - 1];
            var e := EventAt(NetExec(s, front, delay), acts[|acts| - 1], delay, n);
            EventsAt(s, acts, delay, n)
            == if e.Some? then EventsAt(s, front, delay, n) + [e.value] else EventsAt(s, front, delay, n)
  {
    hide EventAt;
    hide NetExec;
  }

  lemma OneMoreEvent(r: Router, evs: seq<Event>, e: Event)
    ensures Exec(r, evs + [e]) == Step(Exec(r, evs), e).router
    ensures DeliveredBy(r, evs + [e]) == DeliveredBy(r, evs) + Step(Exec(r, evs), e).delivered
    ensures AllEnabled(r, evs + [e]) <==> AllEnabled(r, evs) && Enabled(Exec(r, evs), e)
  {
    hide Step;
    hide Enabled;
    assert (evs + [e])[..|evs + [e]| - 1] == evs;
  }

  // ---------- at most once, network-wide ----------

  /** The UUIDs that a run of a router marks. */
  function MarkedSet(r: Router, evs: seq<Event>): set<Uuid> {
    if evs == [] then {}
    else
      var front := evs[..|evs| - 1];
      MarkedSet(r, front)
      + match Marked(Exec(r, front), evs[|evs| - 1])
        case Some(v) => {v}
        case None => {}
  }

  lemma {:induction false} MarkedSetIsMarked(r: Router, evs: seq<Event>, u: Uuid)
    ensures u in MarkedSet(r, evs) <==> MarkedIn(r, evs, u)
  {
    hide Exec;
    hide Marks;
    if evs != [] {
      MarkedSetIsMarked(r, evs[..|evs| - 1], u);
    }
  }

  lemma MarkedSetLast(r: Router, evs: seq<Event>, e: Event)
    ensures MarkedSet(r, evs + [e])
            == MarkedSet(r, evs) + match Marked(Exec(r, evs), e) case Some(v) => {v} case None => {}
    ensures MarkCount(r, evs + [e]) == MarkCount(r, evs) + if Marked(Exec(r, evs), e).Some? then 1 else 0
  {
    hide Exec;
    hide Marked;
    assert (evs + [e])[..|evs + [e]| - 1] == evs;
  }

  /** Node `n` starts with a new router whose cache has `cap` slots. */
  predicate NewNode(s: Net, n: PubKey, cap: nat) {
    cap >= 1 && n in s.nodes && s.nodes[n].router == Fresh(s.nodes[n].router.cfg, cap)
  }

  lemma OriginsGrow(s: Net, a: Action, delay: nat)
    ensures s.origins.Keys <= Apply(s, a, delay).origins.Keys
  {
    hide BroadcastEffect;
    hide ReceiveEffect;
    hide RoundEffect;
    hide Step;
    hide UuidOf;
    hide Launch;
    hide NewTrails;
  }

  /** Whatever a node marks was broadcast in the network, and a broadcast never repeats a UUID. */
  lemma MarkIsBroadcast(s: Net, a: Action, delay: nat, n: PubKey, u: Uuid)
    requires Good(s, delay) && n in s.nodes
    requires var e := EventAt(s, a, delay, n);
             e.Some? && Marks(s.nodes[n].router, e.value, u)
    ensures u in Apply(s, a, delay).origins
    ensures u in s.origins ==> AcceptsNew(s.nodes[n].router, EventAt(s, a, delay, n).value, u)
  {
    hide Emit;
    hide Decode;
    hide Clip;
    hide Good;
    OriginsGrow(s, a, delay);
    if a.Originate? {
      OriginateAdds(s, a.n, a.msg, a.up);
    } else {
      var m := NetworkLaws.ArrivingFrame(s, a.i, delay);
      NetworkLaws.CopyHasTrail(s.origins, m, s.flight[a.i].trail);
    }
  }

  lemma OriginateAdds(s: Net, n: PubKey, m: Message, up: set<PubKey>)
    requires n in s.nodes
    ensures m.uuid in Originated(s, n, m, up).origins
  {
    hide BroadcastEffect;
    hide Launch;
    hide NewTrails;
  }

  /** One more event of a node whose router has run `evs` so far. */
  lemma MarksStep(s: Net, a: Action, delay: nat, n: PubKey, cfg: Config, cap: nat, evs: seq<Event>, lo: Time)
    requires Good(s, delay) && n in s.nodes && cap >= 1
    requires EventAt(s, a, delay, n).Some?
    requires s.nodes[n].router == Exec(Fresh(cfg, cap), evs) && ClockWithin(evs, lo, cfg.maxAge)
    requires MarkedSet(Fresh(cfg, cap), evs) <= s.origins.Keys
    requires MarkCount(Fresh(cfg, cap), evs) == |MarkedSet(Fresh(cfg, cap), evs)| <= cap
    ensures var r, evs1 := Fresh(cfg, cap), evs + [EventAt(s, a, delay, n).value];
            && MarkedSet(r, evs1) <= Apply(s, a, delay).origins.Keys
            && MarkCount(r, evs1) == |MarkedSet(r, evs1)|
  {
    hide Apply;
    hide EventAt;
    hide Exec;
    hide MarkedSet;
    hide MarkCount;
    hide Good;
    hide Marked;
    hide Marks;
    hide Dedup.Contains;
    var r, e := Fresh(cfg, cap), EventAt(s, a, delay, n).value;
    OriginsGrow(s, a, delay);
    MarkedSetLast(r, evs, e);
    if Marked(s.nodes[n].router, e).Some? {
      var u := Marked(s.nodes[n].router, e).value;
      MarkIsBroadcast(s, a, delay, n, u);
      if u in MarkedSet(r, evs) {
        MarkedSetIsMarked(r, evs, u);
        QuietRemembers(cfg, cap, evs, lo, u);
        assert false;
      }
    }
  }

  lemma NoMarks(r: Router)
    ensures MarkedSet(r, []) == {} && MarkCount(r, []) == 0
  {
  }

  lemma {:induction false} SmallerSet<T>(a: set<T>, b: set<T>)
    requires a <= b
    ensures |a| <= |b|
  {
    if a != {} {
      var x :| x in a;
      SmallerSet(a - {x}, b - {x});
    }
  }

  lemma OrderedWithin(evs: seq<Event>, lo: Time, hi: Time, span: u64)
    requires InOrderWithin(evs, lo, hi) && hi <= lo + span
    ensures ClockWithin(evs, lo, span)
  {
  }

  /** While no more messages are broadcast than its cache has slots, a node marks each at most once. */
  lemma {:induction false} MarksWithinBroadcasts(s: Net, acts: seq<Action>, delay: nat, n: PubKey, cap: nat)
    requires Init(s) && NewNode(s, n, cap)
    requires var t := NetExec(s, acts, delay);
             |t.origins| <= cap && t.now <= s.now + s.nodes[n].router.cfg.maxAge
    ensures var r, evs := s.nodes[n].router, EventsAt(s, acts, delay, n);
            && MarkedSet(r, evs) <= NetExec(s, acts, delay).origins.Keys
            && MarkCount(r, evs) == |MarkedSet(r, evs)| <= cap
            && ClockWithin(evs, s.now, r.cfg.maxAge)
  {
    hide Apply;
    hide InOrderWithin;
    hide ClockWithin;
    hide SeesStep;
    hide DeliveredBy;
    hide DeliveredAt;
    hide EventAt;
    hide EventsAt;
    hide Exec;
    hide MarkedSet;
    hide MarkCount;
    hide Init;
    hide Good;
    hide AllEnabled;
    var r := s.nodes[n].router;
    NodeRun(s, acts, delay, n);
    var t := NetExec(s, acts, delay);
    OrderedWithin(EventsAt(s, acts, delay, n), s.now, t.now, r.cfg.maxAge);
    if acts == [] {
      NoEvents(s, delay, n);
      NoMarks(r);
    } else {
      var front, a := acts[..|acts| - 1], acts[|acts| - 1];
      var mid := NetExec(s, front, delay);
      OriginsGrow(mid, a, delay);
      SmallerSet(mid.origins.Keys, t.origins.Keys);
      NodeRun(s, front, delay, n);
      NodeStep(mid, a, delay, n);
      MarksWithinBroadcasts(s, front, delay, n, cap);
      EventsStep(s, acts, delay, n);
      if EventAt(mid, a, delay, n).Some? {
        NetworkLaws.RunOk(s, front, delay);
        MarksStep(mid, a, delay, n, r.cfg, cap, EventsAt(s, front, delay, n), s.now);
      }
    }
    SmallerSet(MarkedSet(r, EventsAt(s, acts, delay, n)), t.origins.Keys);
  }

  lemma {:induction false} DeliveredPosition(ds: seq<Delivery>, n: PubKey, i: nat) returns (k: nat)
    requires i < |ds| && ds[i].node == n
    ensures k < |DeliveredAt(ds, n)| && DeliveredAt(ds, n)[k] == ds[i].msg
  {
    var front := ds[..|ds| - 1];
    if i < |front| {
      k := DeliveredPosition(front, n, i);
    } else {
      k := |DeliveredAt(front, n)|;
    }
  }

  lemma {:induction false} DeliveredPositions(ds: seq<Delivery>, n: PubKey, i: nat, j: nat) returns (k: nat, l: nat)
    requires i < j < |ds| && ds[i].node == n && ds[j].node == n
    ensures k < l < |DeliveredAt(ds, n)|
    ensures DeliveredAt(ds, n)[k] == ds[i].msg && DeliveredAt(ds, n)[l] == ds[j].msg
  {
    var front := ds[..|ds| - 1];
    if j < |front| {
      k, l := DeliveredPositions(front, n, i, j);
    } else {
      k := DeliveredPosition(front, n, i);
      l := |DeliveredAt(front, n)|;
    }
  }

  /** All copies of one message are delivered at its one addressee. */
  lemma SameAddressee(s: Net, delay: nat, i: nat, j: nat)
    requires Good(s, delay) && i < |s.deliveries| && j < |s.deliveries|
    requires s.deliveries[i].msg.uuid == s.deliveries[j].msg.uuid
    ensures s.deliveries[i].node == s.deliveries[j].node
  {
    assert DeliveryOk(s.origins, s.deliveries[i]) && DeliveryOk(s.origins, s.deliveries[j]);
  }

  /**
   * In any network run that is no longer than the maximum age of the addressee's cache and in which no more
   * messages are broadcast than that cache has slots, a message is delivered at most once in the whole network,
   * whatever is lost, delayed, looped back and replayed.
   */
  lemma DeliveredOnce(s: Net, acts: seq<Action>, delay: nat, cap: nat, i: nat, j: nat)
    requires Init(s) && i < j < |NetExec(s, acts, delay).deliveries|
    requires var t := NetExec(s, acts, delay);
             var n := t.deliveries[i].node;
             NewNode(s, n, cap) && |t.origins| <= cap && t.now <= s.now + s.nodes[n].router.cfg.maxAge
    ensures var ds := NetExec(s, acts, delay).deliveries;
            ds[i].msg.uuid != ds[j].msg.uuid
  {
    hide NetExec;
    hide Init;
    hide InOrderWithin;
    hide ClockWithin;
    hide DeliveredBy;
    hide EventsAt;
    hide DeliveredAt;
    hide Good;
    hide Exec;
    hide AllEnabled;
    hide MarkedSet;
    hide MarkCount;
    var t := NetExec(s, acts, delay);
    var n := t.deliveries[i].node;
    var evs := EventsAt(s, acts, delay, n);
    NetworkLaws.RunOk(s, acts, delay);
    if t.deliveries[i].msg.uuid == t.deliveries[j].msg.uuid {
      SameAddressee(t, delay, i, j);
      NodeRun(s, acts, delay, n);
      NoneDelivered(s, n);
      MarksWithinBroadcasts(s, acts, delay, n, cap);
      var k, l := DeliveredPositions(t.deliveries, n, i, j);
      DeliveredAtMostOnce(s.nodes[n].router.cfg, cap, evs, s.now, k, l);
      assert false;
    }
  }

  lemma NoneDelivered(s: Net, n: PubKey)
    requires Init(s)
    ensures DeliveredAt(s.deliveries, n) == []
  {
  }

  // ---------- nobody stores mail addressed to it ----------

  /** A row of `n` that is addressed to `n` belongs to a message that `n` itself broadcast. */
  predicate OwnMail(s: Net, n: PubKey, u: Uuid) {
    n in s.nodes && u in s.nodes[n].router.rows && s.nodes[n].router.rows[u].receiver == n ==>
      u in s.origins && s.origins[u].node == n
  }

  lemma OriginKept(s: Net, a: Action, delay: nat, u: Uuid)
    ensures u in s.origins ==> u in Apply(s, a, delay).origins && Apply(s, a, delay).origins[u] == s.origins[u]
    ensures a.Originate? && Possible(s, a, delay) && a.msg.uuid == u ==>
              u in Apply(s, a, delay).origins && Apply(s, a, delay).origins[u].node == a.n
  {
    hide BroadcastEffect;
    hide ReceiveEffect;
    hide RoundEffect;
    hide Step;
    hide UuidOf;
    hide Launch;
    hide NewTrails;
  }

  lemma OwnMailStep(s: Net, a: Action, delay: nat, n: PubKey, u: Uuid)
    requires Good(s, delay) && n in s.nodes && OwnMail(s, n, u)
    ensures OwnMail(Apply(s, a, delay), n, u)
  {
    hide Apply;
    hide Step;
    hide DeliveredAt;
    hide Clip;
    NodeStep(s, a, delay, n);
    OriginKept(s, a, delay, u);
    var t := Apply(s, a, delay);
    assert NodeOk(s.origins, n, s.nodes[n], delay);
    if EventAt(s, a, delay, n).Some? && u in t.nodes[n].router.rows {
      OperationLaws.NewRow(s.nodes[n].router, EventAt(s, a, delay, n).value, u);
    }
  }

  /** In every reachable state, what a node stores for itself is what it broadcast itself: no received mail. */
  lemma {:induction false} OnlyOwnMailKept(s: Net, acts: seq<Action>, delay: nat, n: PubKey, u: Uuid)
    requires Init(s) && n in s.nodes
    ensures OwnMail(NetExec(s, acts, delay), n, u)
  {
    hide Apply;
    hide OwnMail;
    hide Good;
    if acts == [] {
      NoMailAtFirst(s, n, u);
    } else {
      var front := acts[..|acts| - 1];
      OnlyOwnMailKept(s, front, delay, n, u);
      NetworkLaws.RunOk(s, front, delay);
      NodeStays(s, front, delay, n);
      OwnMailStep(NetExec(s, front, delay), acts[|acts| - 1], delay, n, u);
    }
  }

  lemma NoMailAtFirst(s: Net, n: PubKey, u: Uuid)
    requires Init(s)
    ensures OwnMail(s, n, u)
  {
  }

  lemma NodeStays(s: Net, acts: seq<Action>, delay: nat, n: PubKey)
    requires n in s.nodes
    ensures n in NetExec(s, acts, delay).nodes
  {
    hide NetExec;
    hide EventsAt;
    hide Exec;
    NodeRun(s, acts, delay, n);
  }
}
