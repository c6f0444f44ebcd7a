/** What a router's whole history says about which messages it treats as new. */
module SeenLaws {
  import opened Types
  import opened Codec
  import opened RouterSpec
  import opened Dedup
  import opened DedupLaws
  import Fnv

  /** Event `e` puts `u` into the cache: its own broadcast, or an arrival taken as new. */
  predicate Marks(r: Router, e: Event, u: Uuid) {
    (e.Broadcast? && e.msg.uuid == u) || AcceptsNew(r, e, u)
  }

  predicate AcceptsNew(r: Router, e: Event, u: Uuid) {
    && e.Receive?
    && Decode(e.data).Accept?
    && Decode(e.data).msg.uuid == u
    && !Contains(r.dedup, u)
  }

  /** The UUID that `e` puts into the cache, if any. */
  function Marked(r: Router, e: Event): (v: Option<Uuid>)
    ensures forall u :: Marks(r, e, u) <==> v == Some(u)
  {
    if e.Broadcast? then Some(e.msg.uuid)
    else if e.Receive? && Decode(e.data).Accept? && !Contains(r.dedup, Decode(e.data).msg.uuid)
    then Some(Decode(e.data).msg.uuid)
    else None
  }

  /** How each event moves the cache. */
  lemma CacheStep(r: Router, e: Event)
    ensures var r1 := Step(r, e).router;
            && r1.cfg == r.cfg
            && r1.dedup ==
               (if Marked(r, e).Some? then Insert(r.dedup, Marked(r, e).value, e.now, r.cfg.maxAge)
                else if e.SweepCache? then Sweep(r.dedup, e.now, r.cfg.maxAge)
                else r.dedup)
  {
  }

  /** Which answer an arrival gets, exactly, and how little an arrival that is not relayed or delivered may change. */
  lemma Verdict(r: Router, data: bytes, now: Time, up: set<PubKey>)
    ensures var eff := ReceiveEffect(r, data, now, up);
            && (eff.code == Invalid <==> !Decode(data).Accept?)
            && (eff.code == Duplicate <==> Decode(data).Accept? && Contains(r.dedup, Decode(data).msg.uuid))
            && (eff.code == TtlExpired <==>
                  Decode(data).Accept? && !Contains(r.dedup, Decode(data).msg.uuid) && Decode(data).msg.ttl == 0)
            && (eff.code == Invalid || eff.code == Duplicate ==> eff.router == r)
            && (eff.code != Ok ==>
                  eff.sends == [] && eff.delivered == [] && eff.router == r.(dedup := eff.router.dedup))
            && (eff.code != Invalid ==> Contains(eff.router.dedup, Decode(data).msg.uuid))
  {
    hide Decode;
    hide Contains;
    hide Insert;
    if Decode(data).Accept? {
      InsertedIsFound(r.dedup, Decode(data).msg.uuid, now, r.cfg.maxAge);
    }
  }

  lemma {:induction false} CfgFixed(r: Router, evs: seq<Event>)
    ensures Exec(r, evs).cfg == r.cfg && |Exec(r, evs).dedup| == |r.dedup|
  {
    if evs != [] {
      CfgFixed(r, evs[..|evs| - 1]);
      CacheStep(Exec(r, evs[..|evs| - 1]), evs[|evs| - 1]);
    }
  }

  // ---------- when the cache reads as a set ----------

  /** Every cache sweep of the run finds each fresh entry behind fresh entries only. */
  predicate SweepsSpare(r: Router, evs: seq<Event>) {
    forall i :: 0 <= i < |evs| && evs[i].SweepCache? ==>
                  FreshPaths(Before(r, evs, i).dedup, evs[i].now, r.cfg.maxAge)
  }

  predicate PathsAlong(r: Router, evs: seq<Event>) {
    forall i :: 0 <= i <= |evs| ==> PathsOccupied(Before(r, evs, i).dedup)
  }

  lemma EventKeepsPathsExactly(r: Router, e: Event)
    requires PathsOccupied(r.dedup)
    ensures PathsOccupied(Step(r, e).router.dedup) <==> (e.SweepCache? ==> FreshPaths(r.dedup, e.now, r.cfg.maxAge))
  {
    hide PathsOccupied;
    hide FreshPaths;
    hide Step;
    CacheStep(r, e);
    if Marked(r, e).Some? {
      InsertKeepsPaths(r.dedup, Marked(r, e).value, e.now, r.cfg.maxAge);
    } else if e.SweepCache? {
      SweepKeepsPathsExactly(r.dedup, e.now, r.cfg.maxAge);
    }
  }

  lemma {:induction false} PathsBefore(r: Router, evs: seq<Event>, i: nat)
    requires PathsOccupied(r.dedup) && SweepsSpare(r, evs) && i <= |evs|
    ensures PathsOccupied(Before(r, evs, i).dedup)
  {
    hide PathsOccupied;
    hide FreshPaths;
    hide Step;
    if i > 0 {
      PathsBefore(r, evs, i - 1);
      RunStep(r, evs, i - 1);
      CfgFixed(r, evs[..i - 1]);
      EventKeepsPathsExactly(Before(r, evs, i - 1), evs[i - 1]);
    }
  }

  /**
   * In every run of a router that starts with occupied probe paths, they stay occupied throughout if and only
   * if each cache sweep, at its turn, finds every fresh entry behind fresh entries only; and then the cache
   * answers like a set before every event.
   */
  lemma CacheIsASet(r: Router, evs: seq<Event>)
    requires PathsOccupied(r.dedup)
    ensures PathsAlong(r, evs) <==> SweepsSpare(r, evs)
    ensures PathsAlong(r, evs) ==> forall i :: 0 <= i <= |evs| ==> ReadsAsASet(Before(r, evs, i).dedup)
  {
    hide PathsOccupied;
    hide FreshPaths;
    hide Before;
    hide Step;
    hide ReadsAsASet;
    if PathsAlong(r, evs) {
      forall i | 0 <= i < |evs| && evs[i].SweepCache?
        ensures FreshPaths(Before(r, evs, i).dedup, evs[i].now, r.cfg.maxAge)
      {
        RunStep(r, evs, i);
        CfgBefore(r, evs, i);
        EventKeepsPathsExactly(Before(r, evs, i), evs[i]);
      }
      forall i | 0 <= i <= |evs| ensures ReadsAsASet(Before(r, evs, i).dedup) {
        PathsMakeTheSet(Before(r, evs, i).dedup);
      }
    }
    if SweepsSpare(r, evs) {
      forall i | 0 <= i <= |evs| ensures PathsOccupied(Before(r, evs, i).dedup) {
        PathsBefore(r, evs, i);
      }
    }
  }

  lemma CfgBefore(r: Router, evs: seq<Event>, i: nat)
    requires i <= |evs|
    ensures Before(r, evs, i).cfg == r.cfg
  {
    CfgFixed(r, evs[..i]);
  }

  /** In such a run of a new router, an arrival is a duplicate exactly when its UUID is still stored. */
  lemma DuplicateIffStored(cfg: Config, cap: nat, evs: seq<Event>, b: nat)
    requires cap >= 1 && SweepsSpare(Fresh(cfg, cap), evs)
    requires b < |evs| && evs[b].Receive? && Decode(evs[b].data).Accept?
    ensures var s := Before(Fresh(cfg, cap), evs, b);
            Step(s, evs[b]).code == Duplicate <==> Stored(s.dedup, Decode(evs[b].data).msg.uuid)
  {
    hide Before;
    hide ReceiveEffect;
    hide PathsOccupied;
    hide FreshPaths;
    hide Contains;
    hide Stored;
    var r := Fresh(cfg, cap);
    EmptyHasPaths(cap);
    PathsBefore(r, evs, b);
    PathsMakeASet(Before(r, evs, b).dedup, Decode(evs[b].data).msg.uuid);
    Verdict(Before(r, evs, b), evs[b].data, evs[b].now, evs[b].up);
  }

  // ---------- re-acceptance ----------

  /**
   * Event `e` makes the cache forget `u`: another UUID overwrites the only slot where `u` is found, or a
   * sweep finds an over-age entry before or at every entry of `u`.
   */
  predicate Forgets(r: Router, e: Event, u: Uuid) {
    && Contains(r.dedup, u)
    && match Marked(r, e)
       case Some(v) => v != u && FoundOnlyAt(r.dedup, u, Target(r.dedup, v, e.now, r.cfg.maxAge))
       case None => e.SweepCache? && !FreshlyReachable(r.dedup, u, e.now, r.cfg.maxAge)
  }

  /** Event `e` makes the cache find `u` again: it marks `u`, or it fills the only gap before an entry of `u`. */
  predicate Regains(r: Router, e: Event, u: Uuid) {
    && !Contains(r.dedup, u)
    && Marked(r, e).Some?
    && (Marked(r, e).value == u || ReachedAround(r.dedup, u, Target(r.dedup, Marked(r, e).value, e.now, r.cfg.maxAge)))
  }

  predicate ReachedAround(t: Table, u: Uuid, k: nat) {
    exists i :: 0 <= i < |t| && HitAround(t, u, i, k)
  }

  /** These guards, read off the state before the event, are exact. */
  lemma ForgettingStep(r: Router, e: Event, u: Uuid)
    ensures Forgets(r, e, u) <==> Contains(r.dedup, u) && !Contains(Step(r, e).router.dedup, u)
    ensures Regains(r, e, u) <==> !Contains(r.dedup, u) && Contains(Step(r, e).router.dedup, u)
  {
    hide Step;
    hide Hit;
    hide HitAround;
    hide Insert;
    hide Target;
    CacheStep(r, e);
    if Marked(r, e).Some? {
      var v := Marked(r, e).value;
      if v == u {
        InsertedIsFound(r.dedup, u, e.now, r.cfg.maxAge);
      } else {
        InsertExactly(r.dedup, u, v, e.now, r.cfg.maxAge);
        if Contains(r.dedup, u) {
          InsertForgetsExactly(r.dedup, u, v, e.now, r.cfg.maxAge);
        }
      }
    } else if e.SweepCache? {
      SweepExactly(r.dedup, u, e.now, r.cfg.maxAge);
    }
  }

  /** A wider guard that does not name `u`'s slots: an over-age entry on its path, or a table full of fresh entries. */
  predicate MayForget(r: Router, e: Event, u: Uuid) {
    if e.SweepCache? then AgedOnPath(r.dedup, u, e.now, r.cfg.maxAge)
    else
      && Marked(r, e).Some?
      && (AgedOnPath(r.dedup, u, e.now, r.cfg.maxAge) || FullOfFresh(r.dedup, e.now, r.cfg.maxAge))
  }

  lemma ForgetsOnlyIf(r: Router, e: Event, u: Uuid)
    requires Forgets(r, e, u)
    ensures MayForget(r, e, u)
  {
    ForgettingStep(r, e, u);
    CacheStep(r, e);
    if Marked(r, e).Some? {
      InsertForgetsOnlyIf(r.dedup, u, Marked(r, e).value, e.now, r.cfg.maxAge);
    } else if e.SweepCache? {
      SweepForgetsOnlyIf(r.dedup, u, e.now, r.cfg.maxAge);
    }
  }

  lemma MarkedIsSeen(r: Router, e: Event, u: Uuid)
    requires Marks(r, e, u)
    ensures Contains(Step(r, e).router.dedup, u)
  {
    CacheStep(r, e);
    InsertedIsFound(r.dedup, u, e.now, r.cfg.maxAge);
  }

  /** Event `c` forgets `u`, and no event between `c` and `b` makes it found again. */
  predicate ForgottenFrom(r: Router, evs: seq<Event>, c: nat, b: nat, u: Uuid)
    requires c < b <= |evs|
  {
    && Forgets(Before(r, evs, c), evs[c], u)
    && forall d :: c < d < b ==> !Regains(Before(r, evs, d), evs[d], u)
  }

  lemma {:induction false} ForgottenSomewhere(r: Router, evs: seq<Event>, a: nat, b: nat, u: Uuid) returns (c: nat)
    requires a <= b <= |evs|
    requires Contains(Before(r, evs, a).dedup, u) && !Contains(Before(r, evs, b).dedup, u)
    ensures a <= c < b && ForgottenFrom(r, evs, c, b, u)
    decreases b - a
  {
    hide Step;
    hide Contains;
    hide Forgets;
    hide Regains;
    hide Before;
    RunStep(r, evs, b - 1);
    ForgettingStep(Before(r, evs, b - 1), evs[b - 1], u);
    if Contains(Before(r, evs, b - 1).dedup, u) {
      c := b - 1;
    } else {
      c := ForgottenSomewhere(r, evs, a, b - 1, u);
    }
  }

  lemma {:induction false} StaysForgotten(r: Router, evs: seq<Event>, c: nat, b: nat, u: Uuid)
    requires c < b <= |evs| && ForgottenFrom(r, evs, c, b, u)
    ensures !Contains(Before(r, evs, b).dedup, u)
    decreases b
  {
    hide Step;
    hide Contains;
    hide Forgets;
    hide Regains;
    hide Before;
    RunStep(r, evs, b - 1);
    ForgettingStep(Before(r, evs, b - 1), evs[b - 1], u);
    if c < b - 1 {
      StaysForgotten(r, evs, c, b - 1, u);
    }
  }

  /** An arrival of `u` at event `b`. */
  predicate Brings(e: Event, u: Uuid) {
    e.Receive? && Decode(e.data).Accept? && Decode(e.data).msg.uuid == u
  }

  /**
   * Once a UUID is marked, a later arrival of it is taken as new if and only if in between some event met the
   * exact condition for forgetting it and none after that made it found again.
   */
  lemma Reacceptance(r: Router, evs: seq<Event>, a: nat, b: nat, u: Uuid)
    requires a < b < |evs|
    requires Marks(Before(r, evs, a), evs[a], u) && Brings(evs[b], u)
    ensures AcceptsNew(Before(r, evs, b), evs[b], u) <==>
            exists c :: a < c < b && ForgottenFrom(r, evs, c, b, u)
  {
    hide ForgottenFrom;
    hide Marks;
    hide Contains;
    hide Before;
    hide Step;
    RunStep(r, evs, a);
    MarkedIsSeen(Before(r, evs, a), evs[a], u);
    if AcceptsNew(Before(r, evs, b), evs[b], u) {
      var c := ForgottenSomewhere(r, evs, a + 1, b, u);
    }
    if c :| a < c < b && ForgottenFrom(r, evs, c, b, u) {
      StaysForgotten(r, evs, c, b, u);
    }
  }

  /** In plain terms: in between some event met an over-age entry on its path or a table full of fresh entries. */
  lemma ReacceptanceCauses(r: Router, evs: seq<Event>, a: nat, b: nat, u: Uuid)
    requires a < b < |evs|
    requires Marks(Before(r, evs, a), evs[a], u)
    requires AcceptsNew(Before(r, evs, b), evs[b], u)
    ensures exists c :: a < c < b && MayForget(Before(r, evs, c), evs[c], u)
  {
    hide Forgets;
    hide Regains;
    hide MayForget;
    hide Marks;
    hide Contains;
    hide Before;
    Reacceptance(r, evs, a, b, u);
    var c :| a < c < b && ForgottenFrom(r, evs, c, b, u);
    ForgetsOnlyIf(Before(r, evs, c), evs[c], u);
  }

  // ---------- a copy with no TTL left shuts later ones out ----------

  /** Event `e` answers TTL_EXPIRED for `u`. */
  predicate Expires(r: Router, e: Event, u: Uuid) {
    Brings(e, u) && Step(r, e).code == TtlExpired
  }

  lemma ExpiresMarks(r: Router, e: Event, u: Uuid)
    requires Expires(r, e, u)
    ensures Marks(r, e, u) && Step(r, e).sends == [] && Step(r, e).delivered == []
  {
    hide ReceiveEffect;
    hide Contains;
    hide Decode;
    Verdict(r, e.data, e.now, e.up);
  }

  lemma DuplicateStep(r: Router, e: Event, u: Uuid)
    requires Brings(e, u) && !AcceptsNew(r, e, u)
    ensures Step(r, e) == Effect(r, Duplicate, [], [])
  {
    hide ReceiveEffect;
    hide Contains;
    hide Decode;
    Verdict(r, e.data, e.now, e.up);
  }

  /**
   * After a copy with TTL 0 was taken as new, every copy of the message, whatever its TTL, is answered
   * DUPLICATE, sends and delivers nothing and changes nothing, up to the first event that forgets it.
   */
  lemma TtlZeroShutsOut(r: Router, evs: seq<Event>, a: nat, b: nat, u: Uuid)
    requires a < b < |evs|
    requires Expires(Before(r, evs, a), evs[a], u) && Brings(evs[b], u)
    requires forall c :: a < c < b ==> !Forgets(Before(r, evs, c), evs[c], u)
    ensures Step(Before(r, evs, a), evs[a]).delivered == []
    ensures Step(Before(r, evs, b), evs[b]) == Effect(Before(r, evs, b), Duplicate, [], [])
  {
    hide Forgets;
    hide Regains;
    hide Expires;
    hide Brings;
    hide Marks;
    hide AcceptsNew;
    hide Before;
    hide Step;
    ExpiresMarks(Before(r, evs, a), evs[a], u);
    Reacceptance(r, evs, a, b, u);
    DuplicateStep(Before(r, evs, b), evs[b], u);
  }

  // ---------- runs that accept twice ----------

  lemma NewArrival(s: Router, m: Message, now: Time, up: set<PubKey>)
    requires |m.payload| < TWO32 && !Contains(s.dedup, m.uuid)
    ensures var e := Receive(Encode(m), now, up);
            && AcceptsNew(s, e, m.uuid)
            && Step(s, e).router.cfg == s.cfg
            && Step(s, e).router.dedup == Insert(s.dedup, m.uuid, now, s.cfg.maxAge)
  {
    DecodeEncode(m);
    CacheStep(s, Receive(Encode(m), now, up));
  }

  lemma NotYetSeen(cap: nat, x: Uuid, y: Uuid, now: u64, maxAge: u64)
    requires cap >= 1 && x != y
    ensures !Contains(Empty(cap), x) && !Contains(Insert(Empty(cap), x, now, maxAge), y)
  {
    if Contains(Insert(Empty(cap), x, now, maxAge), y) {
      ContainedIsStored(Insert(Empty(cap), x, now, maxAge), y);
    }
  }

  lemma OrphaningTables(t: Table, x: Uuid, y: Uuid, start: u64, maxAge: u64)
    requires start + maxAge + 1 < TWO64
    ensures var ops := OrphaningOps(x, y, start, maxAge);
            RunOps(t, ops, maxAge)
            == Sweep(Insert(Insert(t, x, start, maxAge), y, start + 1, maxAge), start + maxAge + 1, maxAge)
  {
    hide Insert;
    hide Sweep;
    var ops := OrphaningOps(x, y, start, maxAge);
    OpStep(t, ops, maxAge, 0);
    OpStep(t, ops, maxAge, 1);
    OpStep(t, ops, maxAge, 2);
    assert ops[..3] == ops;
  }

  /** Receive x, then y a second later, sweep when x is just over age, and receive y again. */
  function OrphaningRun(x: Message, y: Message, start: Time, late: Time, up: set<PubKey>): seq<Event>
    requires start < late
  {
    [Receive(Encode(x), start, up), Receive(Encode(y), start + 1, up), SweepCache(late), Receive(Encode(y), late, up)]
  }

  /** A new router takes y as new both times in that run, although its entry is not over age. */
  predicate TakesTwice(cfg: Config, cap: nat, x: Message, y: Message, start: Time, late: Time, up: set<PubKey>)
    requires cap >= 1 && start < late
  {
    var evs := OrphaningRun(x, y, start, late, up);
    && AcceptsNew(Before(Fresh(cfg, cap), evs, 1), evs[1], y.uuid)
    && AcceptsNew(Before(Fresh(cfg, cap), evs, 3), evs[3], y.uuid)
    && Elapsed(late, evs[1].now) <= cfg.maxAge
  }

  /**
   * It does happen, and to an entry that is still fresh: when two UUIDs share a home slot and the first is
   * over age, the sweep cuts the second off, and its next copy is taken as new.
   */
  lemma AcceptedTwice(cfg: Config, cap: nat, x: Message, y: Message, start: Time, late: Time, up: set<PubKey>)
    requires cap >= 2 && x.uuid != y.uuid && Fnv.Home(x.uuid, cap) == Fnv.Home(y.uuid, cap)
    requires |x.payload| < TWO32 && |y.payload| < TWO32
    requires cfg.maxAge >= 1 && late == start + cfg.maxAge + 1
    ensures TakesTwice(cfg, cap, x, y, start, late, up)
  {
    hide Step;
    hide Contains;
    hide Insert;
    hide AcceptsNew;
    hide Encode;
    hide Empty;
    hide OrphaningOps;
    hide RunOps;
    var r := Fresh(cfg, cap);
    var evs := OrphaningRun(x, y, start, late, up);
    assert evs[..0] == [];
    RunStep(r, evs, 0);
    RunStep(r, evs, 1);
    RunStep(r, evs, 2);
    NotYetSeen(cap, x.uuid, y.uuid, start, cfg.maxAge);
    NewArrival(r, x, start, up);
    NewArrival(Before(r, evs, 1), y, start + 1, up);
    CacheStep(Before(r, evs, 2), evs[2]);
    OrphaningTables(Empty(cap), x.uuid, y.uuid, start, cfg.maxAge);
    SweepOrphans(cap, x.uuid, y.uuid, start, cfg.maxAge);
    NewArrival(Before(r, evs, 3), y, late, up);
  }

  /** Two such messages exist for every capacity from 2 up to 2^128. */
  lemma SomeAcceptedTwice(cfg: Config, cap: nat, start: Time, late: Time, up: set<PubKey>)
    returns (x: Message, y: Message)
    requires 2 <= cap < Pow(256, 16)
    requires cfg.maxAge >= 1 && late == start + cfg.maxAge + 1
    ensures TakesTwice(cfg, cap, x, y, start, late, up)
  {
    hide TakesTwice;
    var u, v := OrphansExist(cap);
    x := Message(u, DEFAULT_TTL, cfg.me, cfg.me, 0, []);
    y := Message(v, DEFAULT_TTL, cfg.me, cfg.me, 0, []);
    AcceptedTwice(cfg, cap, x, y, start, late, up);
  }

  /** In particular for a router with the default capacity of 10000 and the default maximum age of 600 seconds. */
  lemma DefaultRouterAcceptsTwice(cfg: Config, start: Time, late: Time, up: set<PubKey>)
    returns (x: Message, y: Message)
    requires cfg.maxAge == 600 && late == start + 601
    ensures TakesTwice(cfg, 10000, x, y, start, late, up)
  {
    hide TakesTwice;
    ManyUuids();
    x, y := SomeAcceptedTwice(cfg, 10000, start, late, up);
  }

  lemma ManyUuids()
    ensures Pow(256, 16) > 10000
  {
    Widths();
    assert Pow(256, 10) == 256 * (256 * Pow(256, 8));
    assert Pow(256, 12) == 256 * (256 * Pow(256, 10));
    assert Pow(256, 14) == 256 * (256 * Pow(256, 12));
    assert Pow(256, 16) == 256 * (256 * Pow(256, 14));
  }

  // ---------- a quiet router never accepts twice ----------

  function MarkCount(r: Router, evs: seq<Event>): nat
  {
    if evs == [] then 0
    else
      var front := evs[..|evs| - 1];
      MarkCount(r, front) + if Marked(Exec(r, front), evs[|evs| - 1]).Some? then 1 else 0
  }

  lemma MarkCountLast(r: Router, evs: seq<Event>)
    requires evs != []
    ensures var front, e := evs[..|evs| - 1], evs[|evs| - 1];
            && MarkCount(r, evs) == MarkCount(r, front) + if Marked(Exec(r, front), e).Some? then 1 else 0
  {
  }

  predicate ClockWithin(evs: seq<Event>, lo: Time, span: u64) {
    && (forall i :: 0 <= i < |evs| ==> lo <= evs[i].now <= lo + span)
    && (forall i, j :: 0 <= i < j < |evs| ==> evs[i].now <= evs[j].now)
  }

  predicate MarkedIn(r: Router, evs: seq<Event>, u: Uuid)
  {
    evs != [] &&
    (MarkedIn(r, evs[..|evs| - 1], u) || Marks(Exec(r, evs[..|evs| - 1]), evs[|evs| - 1], u))
  }

  lemma {:induction false} MarkedAt(r: Router, evs: seq<Event>, i: nat, u: Uuid)
    requires i < |evs| && Marks(Before(r, evs, i), evs[i], u)
    ensures MarkedIn(r, evs, u)
  {
    hide Step;
    hide Marks;
    var front := evs[..|evs| - 1];
    if i < |front| {
      assert evs[..i] == front[..i];
      MarkedAt(r, front, i, u);
    } else {
      assert evs[..i] == front;
    }
  }

  lemma {:induction false} MarkedSomewhere(r: Router, evs: seq<Event>, u: Uuid) returns (i: nat)
    requires MarkedIn(r, evs, u)
    ensures i < |evs| && Marks(Before(r, evs, i), evs[i], u)
  {
    hide Step;
    hide Marks;
    var front := evs[..|evs| - 1];
    if MarkedIn(r, front, u) {
      i := MarkedSomewhere(r, front, u);
      assert evs[..i] == front[..i];
    } else {
      i := |front|;
    }
  }

  /** While at most `cap` UUIDs are marked within `maxAge` seconds, nothing ever marked is forgotten. */
  lemma {:induction false} QuietRemembers(cfg: Config, cap: nat, evs: seq<Event>, lo: Time, u: Uuid)
    requires cap >= 1
    requires ClockWithin(evs, lo, cfg.maxAge) && MarkCount(Fresh(cfg, cap), evs) <= cap
    ensures var r := Fresh(cfg, cap);
            var hi := if evs == [] then lo else evs[|evs| - 1].now;
            && Young(Exec(r, evs).dedup, lo, hi, MarkCount(r, evs))
            && (MarkedIn(r, evs, u) ==> Contains(Exec(r, evs).dedup, u))
  {
    hide Step;
    hide Exec;
    hide MarkCount;
    hide Contains;
    hide Young;
    hide Marks;
    var r := Fresh(cfg, cap);
    if evs == [] {
      QuietStart(cfg, cap, lo);
    } else {
      LastStep(r, evs);
      MarkCountLast(r, evs);
      var front, e := evs[..|evs| - 1], evs[|evs| - 1];
      QuietRemembers(cfg, cap, front, lo, u);
      CfgFixed(r, front);
      var hi := if front == [] then lo else front[|front| - 1].now;
      QuietStep(Exec(r, front), e, lo, hi, MarkCount(r, front), u);
    }
  }

  lemma QuietStart(cfg: Config, cap: nat, lo: Time)
    requires cap >= 1
    ensures Young(Exec(Fresh(cfg, cap), []).dedup, lo, lo, MarkCount(Fresh(cfg, cap), []))
  {
    OccupancyEmpty(Empty(cap));
  }

  lemma QuietStep(s: Router, e: Event, lo: Time, hi: Time, n: nat, u: Uuid)
    requires Young(s.dedup, lo, hi, n) && lo <= hi <= e.now <= lo + s.cfg.maxAge
    requires Marked(s, e).Some? ==> n < |s.dedup|
    ensures var t := Step(s, e).router.dedup;
            && Young(t, lo, e.now, if Marked(s, e).Some? then n + 1 else n)
            && (Contains(s.dedup, u) || Marks(s, e, u) ==> Contains(t, u))
  {
    CacheStep(s, e);
    if Marked(s, e).Some? {
      YoungInsert(s.dedup, Marked(s, e).value, lo, hi, n, e.now, s.cfg.maxAge);
      InsertedIsFound(s.dedup, Marked(s, e).value, e.now, s.cfg.maxAge);
      YoungRemembers(s.dedup, u, Marked(s, e).value, lo, hi, n, e.now, s.cfg.maxAge);
    } else {
      YoungRemembers(s.dedup, u, u, lo, hi, n, e.now, s.cfg.maxAge);
    }
  }

  lemma {:induction false} MarkCountMonotone(r: Router, evs: seq<Event>, i: nat)
    requires i <= |evs|
    ensures MarkCount(r, evs[..i]) <= MarkCount(r, evs)
  {
    if i < |evs| {
      MarkCountMonotone(r, evs[..|evs| - 1], i);
      assert evs[..|evs| - 1][..i] == evs[..i];
    } else {
      assert evs[..i] == evs;
    }
  }

  /** Such a router accepts each UUID as new at most once, and never after broadcasting it. */
  lemma AcceptedAtMostOnce(cfg: Config, cap: nat, evs: seq<Event>, lo: Time, a: nat, b: nat, u: Uuid)
    requires cap >= 1 && a < b < |evs|
    requires ClockWithin(evs, lo, cfg.maxAge) && MarkCount(Fresh(cfg, cap), evs) <= cap
    requires Marks(Before(Fresh(cfg, cap), evs, a), evs[a], u)
    ensures !AcceptsNew(Before(Fresh(cfg, cap), evs, b), evs[b], u)
  {
    hide Step;
    hide Contains;
    hide Exec;
    var r := Fresh(cfg, cap);
    MarkCountMonotone(r, evs, b);
    QuietRemembers(cfg, cap, evs[..b], lo, u);
    assert evs[..b][..a] == evs[..a];
    MarkedAt(r, evs[..b], a, u);
  }

  lemma DeliveryIsAcceptance(r: Router, e: Event)
    ensures var d := Step(r, e).delivered;
            |d| <= 1 && forall i :: 0 <= i < |d| ==> AcceptsNew(r, e, d[i].uuid)
  {
  }

  lemma {:induction false} DeliveredIsMarked(r: Router, evs: seq<Event>, i: nat)
    requires i < |DeliveredBy(r, evs)|
    ensures MarkedIn(r, evs, DeliveredBy(r, evs)[i].uuid)
  {
    hide Step;
    var front, e := evs[..|evs| - 1], evs[|evs| - 1];
    var d0 := DeliveredBy(r, front);
    if i < |d0| {
      DeliveredIsMarked(r, front, i);
    } else {
      DeliveryIsAcceptance(Exec(r, front), e);
    }
  }

  /** Hence every message it hands to the application has a UUID of its own. */
  lemma {:induction false} DeliveredAtMostOnce(cfg: Config, cap: nat, evs: seq<Event>, lo: Time, i: nat, j: nat)
    requires cap >= 1
    requires ClockWithin(evs, lo, cfg.maxAge) && MarkCount(Fresh(cfg, cap), evs) <= cap
    requires i < j < |DeliveredBy(Fresh(cfg, cap), evs)|
    ensures var d := DeliveredBy(Fresh(cfg, cap), evs);
            d[i].uuid != d[j].uuid
  {
    hide Step;
    hide Exec;
    hide MarkCount;
    hide Contains;
    hide MarkedIn;
    var r := Fresh(cfg, cap);
    LastStep(r, evs);
    MarkCountLast(r, evs);
    var front, e := evs[..|evs| - 1], evs[|evs| - 1];
    var d0 := DeliveredBy(r, front);
    DeliveryIsAcceptance(Exec(r, front), e);
    if j < |d0| {
      DeliveredAtMostOnce(cfg, cap, front, lo, i, j);
    } else {
      DeliveredIsMarked(r, front, i);
      QuietRemembers(cfg, cap, front, lo, d0[i].uuid);
    }
  }

  // ---------- no false duplicates ----------

  lemma {:induction false} StoredWasMarked(cfg: Config, cap: nat, evs: seq<Event>, u: Uuid)
    requires cap >= 1
    requires Stored(Exec(Fresh(cfg, cap), evs).dedup, u)
    ensures MarkedIn(Fresh(cfg, cap), evs, u)
  {
    hide Step;
    hide Exec;
    var r := Fresh(cfg, cap);
    if evs != [] {
      LastStep(r, evs);
      var front, e := evs[..|evs| - 1], evs[|evs| - 1];
      StoredStep(Exec(r, front), e, u);
      if Stored(Exec(r, front).dedup, u) {
        StoredWasMarked(cfg, cap, front, u);
      }
    } else {
      NothingStoredAtFirst(cfg, cap, u);
    }
  }

  lemma NothingStoredAtFirst(cfg: Config, cap: nat, u: Uuid)
    requires cap >= 1
    ensures !Stored(Exec(Fresh(cfg, cap), []).dedup, u)
  {
  }

  lemma StoredStep(s: Router, e: Event, u: Uuid)
    requires Stored(Step(s, e).router.dedup, u)
    ensures Stored(s.dedup, u) || Marks(s, e, u)
  {
    hide Step;
    CacheStep(s, e);
    if Marked(s, e).Some? {
      InsertStoresOnly(s.dedup, u, Marked(s, e).value, e.now, s.cfg.maxAge);
    } else if e.SweepCache? {
      SweepStoresOnly(s.dedup, u, e.now, s.cfg.maxAge);
    }
  }

  /** In every run, sweeps and overwrites included, DUPLICATE is only answered for a UUID this router marked before. */
  lemma NoFalseDuplicate(cfg: Config, cap: nat, evs: seq<Event>, b: nat)
    requires cap >= 1 && b < |evs|
    requires evs[b].Receive?
    requires ReceiveEffect(Before(Fresh(cfg, cap), evs, b), evs[b].data, evs[b].now, evs[b].up).code == Duplicate
    ensures Decode(evs[b].data).Accept?
    ensures exists a :: 0 <= a < b && Marks(Before(Fresh(cfg, cap), evs, a), evs[a], Decode(evs[b].data).msg.uuid)
  {
    DuplicateIsStored(Before(Fresh(cfg, cap), evs, b), evs[b]);
    var a := StoredWasMarkedBefore(cfg, cap, evs, b, Decode(evs[b].data).msg.uuid);
  }

  lemma DuplicateIsStored(r: Router, e: Event)
    requires e.Receive? && ReceiveEffect(r, e.data, e.now, e.up).code == Duplicate
    ensures Decode(e.data).Accept? && Stored(r.dedup, Decode(e.data).msg.uuid)
  {
    hide ReceiveEffect;
    Verdict(r, e.data, e.now, e.up);
    ContainedIsStored(r.dedup, Decode(e.data).msg.uuid);
  }

  lemma StoredWasMarkedBefore(cfg: Config, cap: nat, evs: seq<Event>, b: nat, u: Uuid) returns (a: nat)
    requires cap >= 1 && b < |evs|
    requires Stored(Before(Fresh(cfg, cap), evs, b).dedup, u)
    ensures a < b && Marks(Before(Fresh(cfg, cap), evs, a), evs[a], u)
  {
    hide Step;
    hide Exec;
    hide Marks;
    hide MarkedIn;
    StoredWasMarked(cfg, cap, evs[..b], u);
    a := MarkedSomewhere(Fresh(cfg, cap), evs[..b], u);
    assert evs[..b][..a] == evs[..a];
  }
}
