/** A gossip wave dies out by TTL alone, and one broadcast causes a bounded number of sends. */
module Wave {
  import opened Types
  import opened Codec
  import opened RouterSpec
  import opened Network
  import NetworkLaws
  import Store

  // ---------- summing over frames ----------

  function Sum(fs: seq<Frame>, w: Frame -> nat): nat {
    if fs == [] then 0 else Sum(fs[..|fs| - 1], w) + w(fs[|fs| - 1])
  }

  lemma {:induction false} SumConcat(a: seq<Frame>, b: seq<Frame>, w: Frame -> nat)
    ensures Sum(a + b, w) == Sum(a, w) + Sum(b, w)
  {
    if b == [] {
      assert a + b == a;
    } else {
      SumConcat(a, b[..|b| - 1], w);
      assert (a + b)[..|a + b| - 1] == a + b[..|b| - 1];
    }
  }

  lemma SumOne(f: Frame, w: Frame -> nat)
    ensures Sum([f], w) == w(f)
  {
    assert [f][..0] == [];
  }

  lemma SumDrop(fs: seq<Frame>, i: nat, w: Frame -> nat)
    requires i < |fs|
    ensures Sum(fs, w) == Sum(Drop(fs, i), w) + w(fs[i])
  {
    hide Sum;
    var a, b := fs[..i], fs[i + 1..];
    assert fs == a + [fs[i]] + b;
    SumConcat(a + [fs[i]], b, w);
    SumConcat(a, [fs[i]], w);
    SumConcat(a, b, w);
    SumOne(fs[i], w);
  }

  lemma {:induction false} SumAtMost(fs: seq<Frame>, w: Frame -> nat, each: nat)
    requires forall i :: 0 <= i < |fs| ==> w(fs[i]) <= each
    ensures Sum(fs, w) <= |fs| * each
  {
    if fs != [] {
      SumAtMost(fs[..|fs| - 1], w, each);
      assert |fs| * each == (|fs| - 1) * each + each;
    }
  }

  lemma TimesMonotone(a: nat, b: nat, c: nat)
    requires a <= b
    ensures a * c <= b * c
  {
  }

  // ---------- the wave terminates without any help from the caches ----------

  /** (fanout+1)^ttl for a frame a receiver can read, 1 for any other. */
  function Weight(data: bytes, fanout: nat): (w: nat)
    ensures w >= 1
  {
    match Decode(Clip(data))
    case Accept(m) => Pow(fanout + 1, m.ttl)
    case _ => 1
  }

  function WeightOf(fanout: nat): Frame -> nat { (f: Frame) => Weight(f.data, fanout) }

  predicate FanoutAtMost(s: Net, fanout: nat) {
    forall n :: n in s.nodes ==> s.nodes[n].router.cfg.fanout <= fanout
  }

  /** What a node forwards upon an arrival: at most `fanout` copies, one TTL lower, of a readable frame. */
  lemma Relays(r: Router, data: bytes, now: Time, up: set<PubKey>)
    ensures var eff := ReceiveEffect(r, data, now, up);
            && |eff.sends| <= r.cfg.fanout
            && (eff.sends != [] ==>
                  && Decode(data).Accept?
                  && var m := Decode(data).msg;
                     && m.ttl > 0
                     && forall i :: 0 <= i < |eff.sends| ==> eff.sends[i].data == Encode(m.(ttl := m.ttl - 1)))
  {
    hide Encode;
    hide Decode;
    NetworkLaws.ReceivePassesOn(r, data, now, up);
  }

  /** A frame that was read out of the buffer fits it again after the TTL changed. */
  lemma RelayedDecodes(data: bytes, m: Message)
    requires Decode(Clip(data)) == Accept(m) && m.ttl > 0
    ensures var m1 := m.(ttl := m.ttl - 1);
            Decode(Clip(Encode(m1))) == Accept(m1) && UuidOf(Encode(m1)) == Some(m.uuid)
  {
    EncodeDecode(Clip(data));
    DecodeEncode(m.(ttl := m.ttl - 1));
  }

  lemma PowDominates(fanout: nat, t: nat, k: nat)
    requires t > 0 && k <= fanout
    ensures k * Pow(fanout + 1, t - 1) < Pow(fanout + 1, t)
  {
    var p := Pow(fanout + 1, t - 1);
    TimesMonotone(k, fanout, p);
    assert (fanout + 1) * p == fanout * p + p;
  }

  /** The frames an arrival of `data` sets off: none, or copies one TTL lower that the next node can read. */
  lemma Forwarded(r: Router, data: bytes, now: Time, up: set<PubKey>, trails: map<Uuid, Trail>, replayed: bool)
    ensures var fs := Launch(ReceiveEffect(r, Clip(data), now, up).sends, now, trails, replayed);
            && |fs| <= r.cfg.fanout
            && (fs != [] ==>
                  && Decode(Clip(data)).Accept? && Decode(Clip(data)).msg.ttl > 0
                  && var m := Decode(Clip(data)).msg;
                     var m1 := m.(ttl := m.ttl - 1);
                     && Decode(Clip(Encode(m1))) == Accept(m1)
                     && forall i :: 0 <= i < |fs| ==> fs[i].data == Encode(m1))
  {
    hide ReceiveEffect;
    hide Encode;
    hide Clip;
    hide Decode;
    Relays(r, Clip(data), now, up);
    var eff := ReceiveEffect(r, Clip(data), now, up);
    if eff.sends != [] {
      RelayedDecodes(data, Decode(Clip(data)).msg);
    }
  }

  lemma ForwardedWeight(r: Router, data: bytes, now: Time, up: set<PubKey>, trails: map<Uuid, Trail>, replayed: bool,
                        fanout: nat)
    requires r.cfg.fanout <= fanout
    ensures var fs := Launch(ReceiveEffect(r, Clip(data), now, up).sends, now, trails, replayed);
            Sum(fs, WeightOf(fanout)) < Weight(data, fanout)
  {
    hide ReceiveEffect;
    hide Encode;
    hide Decode;
    hide Clip;
    hide Launch;
    hide Pow;
    Forwarded(r, data, now, up, trails, replayed);
    var fs := Launch(ReceiveEffect(r, Clip(data), now, up).sends, now, trails, replayed);
    if fs != [] {
      var m := Decode(Clip(data)).msg;
      SumAtMost(fs, WeightOf(fanout), Pow(fanout + 1, m.ttl - 1));
      PowDominates(fanout, m.ttl, |fs|);
    }
  }

  /** Every arrival, whatever the caches say and even if a frame loops back, lowers the total weight in flight. */
  lemma ArrivalLowersWeight(s: Net, i: nat, up: set<PubKey>, fanout: nat)
    requires i < |s.flight| && s.flight[i].dst in s.nodes && FanoutAtMost(s, fanout)
    ensures Sum(Arrived(s, i, up).flight, WeightOf(fanout)) < Sum(s.flight, WeightOf(fanout))
    ensures FanoutAtMost(Arrived(s, i, up), fanout)
  {
    hide ReceiveEffect;
    hide Clip;
    hide Decode;
    hide Encode;
    var f := s.flight[i];
    var r := s.nodes[f.dst].router;
    var u := UuidOf(Clip(f.data));
    var trails := if u.Some? then map[u.value := f.trail + [f.dst]] else map[];
    var eff := ReceiveEffect(r, Clip(f.data), s.now, up);
    NetworkLaws.ReceivePassesOn(r, Clip(f.data), s.now, up);
    assert eff.router.cfg == r.cfg;
    SumDrop(s.flight, i, WeightOf(fanout));
    ForwardedWeight(r, f.data, s.now, up, trails, f.replayed, fanout);
    SumConcat(Drop(s.flight, i), Launch(eff.sends, s.now, trails, f.replayed), WeightOf(fanout));
  }

  /** Actions that inject nothing new into the network. */
  predicate Relaying(a: Action) {
    !a.Originate? && !a.Replay?
  }

  /** How many frames arrive in a run. */
  function ArrivalCount(s: Net, acts: seq<Action>, delay: nat): nat {
    if acts == [] then 0
    else
      var front, a := acts[..|acts| - 1], acts[|acts| - 1];
      ArrivalCount(s, front, delay) + if a.Arrive? && Possible(NetExec(s, front, delay), a, delay) then 1 else 0
  }

  lemma UpkeepWeight(s: Net, a: Action, delay: nat, fanout: nat)
    requires Relaying(a) && !(a.Arrive? && Possible(s, a, delay)) && FanoutAtMost(s, fanout)
    ensures Sum(Apply(s, a, delay).flight, WeightOf(fanout)) <= Sum(s.flight, WeightOf(fanout))
    ensures FanoutAtMost(Apply(s, a, delay), fanout)
  {
    if Possible(s, a, delay) {
      match a
      case Local(n, e) =>
        NetworkLaws.UpkeepIsIdle(s.nodes[n].router, e);
        assert s.flight + [] == s.flight;
      case Lose(i) => SumDrop(s.flight, i, WeightOf(fanout));
      case Advance(t) =>
    }
  }

  /** So a wave of any shape holds at most as many arrivals as its initial weight. */
  lemma {:induction false} WaveDiesOut(s: Net, acts: seq<Action>, delay: nat, fanout: nat)
    requires FanoutAtMost(s, fanout)
    requires forall i :: 0 <= i < |acts| ==> Relaying(acts[i])
    ensures ArrivalCount(s, acts, delay) + Sum(NetExec(s, acts, delay).flight, WeightOf(fanout))
            <= Sum(s.flight, WeightOf(fanout))
    ensures FanoutAtMost(NetExec(s, acts, delay), fanout)
  {
    hide FanoutAtMost;
    hide Sum;
    hide Arrived;
    if acts != [] {
      var front, a := acts[..|acts| - 1], acts[|acts| - 1];
      WaveDiesOut(s, front, delay, fanout);
      var t := NetExec(s, front, delay);
      if a.Arrive? && Possible(t, a, delay) {
        ArrivalLowersWeight(t, a.i, a.up, fanout);
      } else {
        UpkeepWeight(t, a, delay, fanout);
      }
    }
  }

  // ---------- how many sends one broadcast causes ----------

  /** fanout + fanout^2 + ... + fanout^n. */
  function Geometric(fanout: nat, n: nat): nat {
    if n == 0 then 0 else Geometric(fanout, n - 1) + Pow(fanout, n)
  }

  /** The sends a readable frame with `ttl` left can still cause. */
  function Budget(fanout: nat, ttl: nat): nat {
    if ttl == 0 then 0 else fanout * (1 + Budget(fanout, ttl - 1))
  }

  lemma {:induction false} BudgetIsGeometric(fanout: nat, n: nat)
    ensures Budget(fanout, n) == Geometric(fanout, n)
  {
    if n > 0 {
      BudgetIsGeometric(fanout, n - 1);
      GeometricShift(fanout, n - 1);
    }
  }

  lemma {:induction false} GeometricShift(fanout: nat, n: nat)
    ensures fanout * (1 + Geometric(fanout, n)) == Geometric(fanout, n + 1)
  {
    if n == 0 {
      assert Pow(fanout, 1) == fanout * Pow(fanout, 0);
      assert Geometric(fanout, 1) == Geometric(fanout, 0) + Pow(fanout, 1);
    } else {
      GeometricShift(fanout, n - 1);
      var g, p := Geometric(fanout, n - 1), Pow(fanout, n);
      assert fanout * (1 + (g + p)) == fanout * (1 + g) + fanout * p;
    }
  }

  /** 1 for a send of `u` with no rebroadcast from storage behind it. */
  function IsOf(u: Uuid): Frame -> nat {
    (f: Frame) => if !f.replayed && UuidOf(f.data) == Some(u) then 1 else 0
  }

  /** What a frame of `u` may still cause once it arrives. */
  function Pending(data: bytes, u: Uuid, fanout: nat): nat {
    match Decode(Clip(data))
    case Accept(m) => if m.uuid == u then Budget(fanout, m.ttl) else 0
    case _ => 0
  }

  function PendingOf(u: Uuid, fanout: nat): Frame -> nat {
    (f: Frame) => if f.replayed then 0 else Pending(f.data, u, fanout)
  }

  /** Successful direct sends of `u` so far, plus all that those in flight may still cause. */
  function Tally(s: Net, u: Uuid, fanout: nat): nat {
    Sum(s.launched, IsOf(u)) + Sum(s.flight, PendingOf(u, fanout))
  }

  /** Frames out of some storage, or descending from one, are not counted. */
  lemma ReplayedTally(fs: seq<Frame>, u: Uuid, fanout: nat)
    requires forall i :: 0 <= i < |fs| ==> fs[i].replayed
    ensures Sum(fs, IsOf(u)) == 0 && Sum(fs, PendingOf(u, fanout)) == 0
  {
    hide Sum;
    SumAtMost(fs, IsOf(u), 0);
    SumAtMost(fs, PendingOf(u, fanout), 0);
  }

  /** Frames that all carry `m`, at most `fanout` of them, add at most one level of the budget. */
  lemma CopiesTally(fs: seq<Frame>, m: Message, u: Uuid, fanout: nat)
    requires |fs| <= fanout && forall i :: 0 <= i < |fs| ==> fs[i].data == Encode(m)
    requires Decode(Clip(Encode(m))) == Accept(m) || !Decode(Clip(Encode(m))).Accept?
    ensures Sum(fs, IsOf(u)) + Sum(fs, PendingOf(u, fanout)) <= if m.uuid == u then Budget(fanout, m.ttl + 1) else 0
  {
    hide Encode;
    hide Decode;
    hide Clip;
    hide Sum;
    hide UuidOf;
    UuidOfEncode(m);
    if m.uuid == u {
      var b := Budget(fanout, m.ttl);
      SumAtMost(fs, IsOf(u), 1);
      SumAtMost(fs, PendingOf(u, fanout), b);
      OneLevel(|fs|, fanout, b);
      BudgetNext(fanout, m.ttl);
    } else {
      SumAtMost(fs, IsOf(u), 0);
      SumAtMost(fs, PendingOf(u, fanout), 0);
    }
  }

  lemma BudgetNext(fanout: nat, ttl: nat)
    ensures Budget(fanout, ttl + 1) == fanout * (1 + Budget(fanout, ttl))
  {
  }

  lemma OneLevel(k: nat, fanout: nat, b: nat)
    requires k <= fanout
    ensures k * 1 + k * b <= fanout * (1 + b)
  {
    TimesMonotone(k, fanout, 1 + b);
    assert k * (1 + b) == k * 1 + k * b;
  }

  /** What an arriving frame sets off is within what it had pending. */
  lemma ForwardedTally(r: Router, f: Frame, now: Time, up: set<PubKey>, trails: map<Uuid, Trail>, u: Uuid, fanout: nat)
    requires r.cfg.fanout <= fanout
    ensures var fs := Launch(ReceiveEffect(r, Clip(f.data), now, up).sends, now, trails, f.replayed);
            Sum(fs, IsOf(u)) + Sum(fs, PendingOf(u, fanout)) <= PendingOf(u, fanout)(f)
  {
    hide ReceiveEffect;
    hide Encode;
    hide Decode;
    hide Clip;
    hide UuidOf;
    Forwarded(r, f.data, now, up, trails, f.replayed);
    var fs := Launch(ReceiveEffect(r, Clip(f.data), now, up).sends, now, trails, f.replayed);
    if f.replayed {
      ReplayedTally(fs, u, fanout);
    } else if fs != [] {
      var m := Decode(Clip(f.data)).msg;
      CopiesTally(fs, m.(ttl := m.ttl - 1), u, fanout);
    }
  }

  lemma ArrivalTally(s: Net, i: nat, up: set<PubKey>, u: Uuid, fanout: nat)
    requires i < |s.flight| && s.flight[i].dst in s.nodes && FanoutAtMost(s, fanout)
    ensures Tally(Arrived(s, i, up), u, fanout) <= Tally(s, u, fanout)
  {
    hide ReceiveEffect;
    hide Clip;
    hide Decode;
    hide Encode;
    hide IsOf;
    hide PendingOf;
    var f := s.flight[i];
    var r := s.nodes[f.dst].router;
    var v := UuidOf(Clip(f.data));
    var trails := if v.Some? then map[v.value := f.trail + [f.dst]] else map[];
    var fs := Launch(ReceiveEffect(r, Clip(f.data), s.now, up).sends, s.now, trails, f.replayed);
    SumDrop(s.flight, i, PendingOf(u, fanout));
    ForwardedTally(r, f, s.now, up, trails, u, fanout);
    SumConcat(Drop(s.flight, i), fs, PendingOf(u, fanout));
    SumConcat(s.launched, fs, IsOf(u));
  }

  /** A rebroadcast round adds nothing to the count. */
  lemma ReplayTally(s: Net, n: PubKey, picks: seq<Pick>, u: Uuid, fanout: nat)
    requires n in s.nodes && FanoutAtMost(s, fanout)
    ensures var t := Emit(s, n, RoundEffect(s.nodes[n].router, picks, s.now), s.nodes[n].trails, true);
            && Tally(t, u, fanout) == Tally(s, u, fanout)
            && FanoutAtMost(t, fanout)
            && t.origins == s.origins
  {
    hide IsOf;
    hide PendingOf;
    hide RoundHeld;
    hide RoundSends;
    var eff := RoundEffect(s.nodes[n].router, picks, s.now);
    var fs := Launch(eff.sends, s.now, s.nodes[n].trails, true);
    ReplayedTally(fs, u, fanout);
    SumConcat(s.flight, fs, PendingOf(u, fanout));
    SumConcat(s.launched, fs, IsOf(u));
  }

  lemma OriginateTally(s: Net, n: PubKey, m: Message, up: set<PubKey>, u: Uuid, fanout: nat)
    requires n in s.nodes && |m.payload| <= Store.INT_MAX && FanoutAtMost(s, fanout)
    ensures Tally(Originated(s, n, m, up), u, fanout)
            <= Tally(s, u, fanout) + if m.uuid == u then Budget(fanout, m.ttl + 1) else 0
    ensures FanoutAtMost(Originated(s, n, m, up), fanout)
  {
    hide Clip;
    hide Decode;
    hide Encode;
    var r := s.nodes[n].router;
    var eff := BroadcastEffect(r, m, s.now, up);
    NetworkLaws.BroadcastPassesOn(r, m, s.now, up);
    NetworkLaws.ClippedIsNotAccepted(m);
    var fs := Launch(eff.sends, s.now, map[m.uuid := [n]], false);
    assert |fs| <= fanout;
    CopiesTally(fs, m, u, fanout);
    SumConcat(s.flight, fs, PendingOf(u, fanout));
    SumConcat(s.launched, fs, IsOf(u));
  }

  lemma UpkeepTally(s: Net, a: Action, delay: nat, u: Uuid, fanout: nat)
    requires Relaying(a) && !(a.Arrive? && Possible(s, a, delay)) && FanoutAtMost(s, fanout)
    ensures Tally(Apply(s, a, delay), u, fanout) <= Tally(s, u, fanout)
    ensures FanoutAtMost(Apply(s, a, delay), fanout)
    ensures Apply(s, a, delay).origins == s.origins
  {
    if Possible(s, a, delay) {
      match a
      case Local(n, e) =>
        NetworkLaws.UpkeepIsIdle(s.nodes[n].router, e);
        assert s.flight + [] == s.flight && s.launched + [] == s.launched;
      case Lose(i) => SumDrop(s.flight, i, PendingOf(u, fanout));
      case Advance(t) =>
    }
  }

  /** fanout + ... + fanout^(T+1) for a message broadcast with TTL T, nothing for one that was not. */
  function Allowance(origins: map<Uuid, Origin>, u: Uuid, fanout: nat): nat {
    if u in origins then Geometric(fanout, origins[u].msg.ttl + 1) else 0
  }

  predicate TallyOk(s: Net, u: Uuid, fanout: nat) {
    FanoutAtMost(s, fanout) && Tally(s, u, fanout) <= Allowance(s.origins, u, fanout)
  }

  lemma TallyStep(t: Net, a: Action, delay: nat, u: Uuid, fanout: nat)
    requires TallyOk(t, u, fanout)
    ensures TallyOk(Apply(t, a, delay), u, fanout)
  {
    hide Tally;
    hide FanoutAtMost;
    hide Geometric;
    hide Emit;
    if !Possible(t, a, delay) {
    } else if a.Arrive? {
      ArrivalLowersWeight(t, a.i, a.up, fanout);
      ArrivalTally(t, a.i, a.up, u, fanout);
      assert Arrived(t, a.i, a.up).origins == t.origins by { EmitKeepsOrigins(t, a.i, a.up); }
    } else if a.Originate? {
      OriginateTally(t, a.n, a.msg, a.up, u, fanout);
      BudgetIsGeometric(fanout, a.msg.ttl + 1);
      assert Originated(t, a.n, a.msg, a.up).origins == t.origins[a.msg.uuid := Origin(a.n, a.msg, t.now)] by {
        OriginateRecords(t, a.n, a.msg, a.up);
      }
    } else if a.Replay? {
      ReplayTally(t, a.n, a.picks, u, fanout);
    } else {
      UpkeepTally(t, a, delay, u, fanout);
    }
  }

  lemma EmitKeepsOrigins(t: Net, i: nat, up: set<PubKey>)
    requires i < |t.flight| && t.flight[i].dst in t.nodes
    ensures Arrived(t, i, up).origins == t.origins
  {
  }

  lemma OriginateRecords(t: Net, n: PubKey, m: Message, up: set<PubKey>)
    requires n in t.nodes
    ensures Originated(t, n, m, up).origins == t.origins[m.uuid := Origin(n, m, t.now)]
  {
  }

  /**
   * In every run, the successful sends of one message that no stored rebroadcast lies behind never exceed
   * fanout + ... + fanout^(T+1).
   */
  lemma {:induction false} SendsPerBroadcast(s: Net, acts: seq<Action>, delay: nat, u: Uuid, fanout: nat)
    requires Init(s) && FanoutAtMost(s, fanout)
    ensures var t := NetExec(s, acts, delay);
            TallyOk(t, u, fanout) && Sum(t.launched, IsOf(u)) <= Allowance(t.origins, u, fanout)
  {
    hide Apply;
    if acts != [] {
      var front, a := acts[..|acts| - 1], acts[|acts| - 1];
      SendsPerBroadcast(s, front, delay, u, fanout);
      TallyStep(NetExec(s, front, delay), a, delay, u, fanout);
    }
  }
}
