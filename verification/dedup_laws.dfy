/** When the probing table agrees with a plain set of seen UUIDs, and exactly when it does not. */
module DedupLaws {
  import opened Types
  import opened Dedup
  import Codec
  import Fnv

  // ---------- insertion ----------

  /** Writing `u` at a step that only occupied slots precede makes it a hit there. */
  lemma OverwriteMakesHit(t: Table, u: Uuid, i: nat, now: u64)
    requires i < |t| && forall j :: 0 <= j < i ==> t[ProbeOf(t, u, j)].occupied
    ensures Hit(t[ProbeOf(t, u, i) := Slot(u, now, true)], u, i)
  {
    var r: Table := t[ProbeOf(t, u, i) := Slot(u, now, true)];
    assert forall j :: 0 <= j <= i ==> ProbeOf(r, u, j) == ProbeOf(t, u, j);
  }

  lemma StepsBeforeTarget(t: Table, u: Uuid, now: u64, maxAge: u64)
    ensures forall j :: 0 <= j < TargetStep(t, u, now, maxAge) ==> t[ProbeOf(t, u, j)].occupied
  {
    forall j | 0 <= j < TargetStep(t, u, now, maxAge) ensures t[ProbeOf(t, u, j)].occupied {
      assert !Reusable(t[ProbeOf(t, u, j)], now, maxAge);
    }
  }

  /** Whatever the table holds, a UUID just inserted is found by the next lookup. */
  lemma InsertedIsFound(t: Table, u: Uuid, now: u64, maxAge: u64)
    ensures Contains(Insert(t, u, now, maxAge), u)
  {
    StepsBeforeTarget(t, u, now, maxAge);
    OverwriteMakesHit(t, u, TargetStep(t, u, now, maxAge), now);
  }

  /** An insertion never puts a foreign UUID into the table. */
  lemma InsertStoresOnly(t: Table, u: Uuid, v: Uuid, now: u64, maxAge: u64)
    requires Stored(Insert(t, v, now, maxAge), u)
    ensures u == v || Stored(t, u)
  {
    var r := Insert(t, v, now, maxAge);
    var k :| 0 <= k < |r| && r[k].occupied && r[k].uuid == u;
    assert k != Target(t, v, now, maxAge) ==> t[k] == r[k];
  }

  lemma ContainedIsStored(t: Table, u: Uuid)
    requires Contains(t, u)
    ensures Stored(t, u)
  {
    var i :| 0 <= i < |t| && Hit(t, u, i);
    assert t[ProbeOf(t, u, i)].occupied;
  }

  /** Overwriting slot `k` keeps every hit elsewhere. */
  lemma OverwriteKeepsHit(t: Table, k: nat, s: Slot, u: Uuid, i: nat)
    requires k < |t| && s.occupied && Hit(t, u, i) && ProbeOf(t, u, i) != k
    ensures Hit(t[k := s], u, i)
  {
    var r: Table := t[k := s];
    assert forall j :: 0 <= j <= i ==> ProbeOf(r, u, j) == ProbeOf(t, u, j);
  }

  /** `u` sits at step `i`, not in slot `k`, and every slot up to there is taken once `k` is. */
  predicate HitAround(t: Table, u: Uuid, i: nat, k: nat) {
    && i < |t|
    && t[ProbeOf(t, u, i)].uuid == u && ProbeOf(t, u, i) != k
    && forall j :: 0 <= j <= i ==> t[ProbeOf(t, u, j)].occupied || ProbeOf(t, u, j) == k
  }

  /** Which UUIDs are found after another one was inserted, for every table. */
  lemma InsertExactly(t: Table, u: Uuid, v: Uuid, now: u64, maxAge: u64)
    requires u != v
    ensures Contains(Insert(t, v, now, maxAge), u) <==>
            exists i :: 0 <= i < |t| && HitAround(t, u, i, Target(t, v, now, maxAge))
  {
    var k := Target(t, v, now, maxAge);
    var r := Insert(t, v, now, maxAge);
    forall i | 0 <= i < |t| ensures Hit(r, u, i) <==> HitAround(t, u, i, k) {
      OverwriteHits(t, u, i, k, Slot(v, now, true));
    }
  }

  lemma OverwriteHits(t: Table, u: Uuid, i: nat, k: nat, s: Slot)
    requires i < |t| && k < |t| && s.occupied && s.uuid != u
    ensures Hit(t[k := s], u, i) <==> HitAround(t, u, i, k)
  {
    var r: Table := t[k := s];
    assert forall j :: 0 <= j <= i ==> ProbeOf(r, u, j) == ProbeOf(t, u, j);
    if Hit(r, u, i) {
      forall j | 0 <= j <= i ensures t[ProbeOf(t, u, j)].occupied || ProbeOf(t, u, j) == k {
        assert r[ProbeOf(r, u, j)].occupied;
      }
    }
  }

  /** Inserting `v` makes the table forget `u` exactly when the overwritten slot is the only one where `u` is found. */
  lemma InsertForgetsExactly(t: Table, u: Uuid, v: Uuid, now: u64, maxAge: u64)
    requires Contains(t, u) && u != v
    ensures !Contains(Insert(t, v, now, maxAge), u) <==> FoundOnlyAt(t, u, Target(t, v, now, maxAge))
  {
    hide Target;
    var k := Target(t, v, now, maxAge);
    InsertExactly(t, u, v, now, maxAge);
    var h :| 0 <= h < |t| && Hit(t, u, h);
    if i :| 0 <= i < |t| && HitAround(t, u, i, k) {
      if ProbeOf(t, u, h) == k {
        assert t[k].occupied;
        assert Hit(t, u, i);
      }
    }
    if i :| 0 <= i < |t| && Hit(t, u, i) && ProbeOf(t, u, i) != k {
      assert HitAround(t, u, i, k);
    }
  }

  /** Every hit of `u` is in slot `k`. */
  predicate FoundOnlyAt(t: Table, u: Uuid, k: nat) {
    forall i :: 0 <= i < |t| && Hit(t, u, i) ==> ProbeOf(t, u, i) == k
  }

  /** Every slot is taken by an entry that is still fresh at `now`. */
  predicate FullOfFresh(t: Table, now: u64, maxAge: u64) {
    forall k :: 0 <= k < |t| ==> !Reusable(t[k], now, maxAge)
  }

  /** Some entry on `u`'s probe path, up to and including one of its own, is older than `maxAge`. */
  predicate AgedOnPath(t: Table, u: Uuid, now: u64, maxAge: u64) {
    exists i, j :: 0 <= j <= i < |t| && Hit(t, u, i) && Aged(t[ProbeOf(t, u, j)], now, maxAge)
  }

  lemma ProbesCoverTable(t: Table, u: Uuid, k: nat) returns (i: nat)
    requires k < |t|
    ensures i < |t| && ProbeOf(t, u, i) == k
  {
    var home := Fnv.Home(u, |t|);
    i := if k >= home then k - home else k - home + |t|;
  }

  /** An insertion writes the step that only fresh entries precede and that is itself reusable. */
  lemma InsertAt(t: Table, u: Uuid, now: u64, maxAge: u64, i: nat)
    requires i < |t| && Reusable(t[ProbeOf(t, u, i)], now, maxAge)
    requires forall j :: 0 <= j < i ==> !Reusable(t[ProbeOf(t, u, j)], now, maxAge)
    ensures Insert(t, u, now, maxAge) == t[ProbeOf(t, u, i) := Slot(u, now, true)]
  {
    assert FreeStep(t, u, now, maxAge, 0) == i;
  }

  /** When every entry is fresh, an insertion writes the home slot. */
  lemma FullTableWritesHome(t: Table, u: Uuid, now: u64, maxAge: u64)
    requires FullOfFresh(t, now, maxAge)
    ensures Insert(t, u, now, maxAge) == t[Fnv.Home(u, |t|) := Slot(u, now, true)]
  {
    assert FreeStep(t, u, now, maxAge, 0) == |t|;
    assert ProbeOf(t, u, 0) == Fnv.Home(u, |t|);
  }

  /** Some slot other than `k` holds `u`. */
  predicate StoredElsewhere(t: Table, u: Uuid, k: nat) {
    exists i :: 0 <= i < |t| && i != k && t[i].uuid == u
  }

  /**
   * A table full of fresh entries finds exactly what it stores. Inserting `v` then forgets the occupant of `v`'s
   * home slot, unless it is stored elsewhere too, and nothing else.
   */
  lemma FullTableForgets(t: Table, u: Uuid, v: Uuid, now: u64, maxAge: u64)
    requires FullOfFresh(t, now, maxAge) && u != v
    ensures Contains(t, u) <==> Stored(t, u)
    ensures Contains(Insert(t, v, now, maxAge), u) <==> StoredElsewhere(t, u, Fnv.Home(v, |t|))
  {
    hide Insert;
    hide FreeStep;
    FullTableWritesHome(t, v, now, maxAge);
    var r := Insert(t, v, now, maxAge);
    FullFinds(t, u);
    FullFinds(r, u);
    if i :| 0 <= i < |t| && i != Fnv.Home(v, |t|) && t[i].uuid == u {
      assert r[i].occupied && r[i].uuid == u;
    }
    if k :| 0 <= k < |r| && r[k].occupied && r[k].uuid == u {
      assert k != Fnv.Home(v, |t|) && t[k].uuid == u;
    }
  }

  lemma FullFinds(t: Table, u: Uuid)
    requires forall k :: 0 <= k < |t| ==> t[k].occupied
    ensures Contains(t, u) <==> Stored(t, u)
  {
    if Contains(t, u) {
      ContainedIsStored(t, u);
    }
    if k :| 0 <= k < |t| && t[k].occupied && t[k].uuid == u {
      var i := ProbesCoverTable(t, u, k);
      assert Hit(t, u, i);
    }
  }

  /** When the clock has stepped back, an entry counts as over age unless the step or the maximum age is enormous. */
  lemma SteppedBackIsAged(s: Slot, now: u64, maxAge: u64)
    requires now < s.seenAt
    ensures Aged(s, now, maxAge) <==> s.seenAt - now < TWO64 - maxAge
  {
  }

  /** The two ways in which an insertion can forget another UUID. */
  lemma InsertForgetsOnlyIf(t: Table, u: Uuid, v: Uuid, now: u64, maxAge: u64)
    requires Contains(t, u) && !Contains(Insert(t, v, now, maxAge), u)
    ensures u != v
    ensures AgedOnPath(t, u, now, maxAge) || FullOfFresh(t, now, maxAge)
  {
    if u == v {
      InsertedIsFound(t, u, now, maxAge);
    }
    InsertForgetsExactly(t, u, v, now, maxAge);
    var i :| 0 <= i < |t| && Hit(t, u, i);
    var r := FreeStep(t, v, now, maxAge, 0);
    if r < |t| {
      assert Aged(t[ProbeOf(t, u, i)], now, maxAge);
    } else {
      forall k | 0 <= k < |t| ensures !Reusable(t[k], now, maxAge) {
        var j := ProbesCoverTable(t, v, k);
      }
    }
  }

  // ---------- occupied paths make the table a set ----------

  /** The probe step at which slot `k` is reached from its occupant's home. */
  function StepTo(t: Table, k: nat): (i: nat)
    requires k < |t|
    ensures i < |t| && ProbeOf(t, t[k].uuid, i) == k
  {
    var home := Fnv.Home(t[k].uuid, |t|);
    if k >= home then k - home else k - home + |t|
  }

  /** Every occupied entry's probe path, from its home slot to itself, is fully occupied. */
  predicate PathsOccupied(t: Table) {
    forall k :: 0 <= k < |t| && t[k].occupied ==> Hit(t, t[k].uuid, StepTo(t, k))
  }

  lemma PathsMakeASet(t: Table, u: Uuid)
    requires PathsOccupied(t)
    ensures Contains(t, u) <==> Stored(t, u)
  {
    if Contains(t, u) {
      ContainedIsStored(t, u);
    }
    if k :| 0 <= k < |t| && t[k].occupied && t[k].uuid == u {
      assert Hit(t, u, StepTo(t, k));
    }
  }

  lemma InsertKeepsPaths(t: Table, u: Uuid, now: u64, maxAge: u64)
    requires PathsOccupied(t)
    ensures PathsOccupied(Insert(t, u, now, maxAge))
  {
    StepsBeforeTarget(t, u, now, maxAge);
    OverwriteKeepsPaths(t, u, TargetStep(t, u, now, maxAge), now);
  }

  lemma OverwriteKeepsPaths(t: Table, u: Uuid, i: nat, now: u64)
    requires PathsOccupied(t)
    requires i < |t| && forall j :: 0 <= j < i ==> t[ProbeOf(t, u, j)].occupied
    ensures PathsOccupied(t[ProbeOf(t, u, i) := Slot(u, now, true)])
  {
    var target := ProbeOf(t, u, i);
    var r: Table := t[target := Slot(u, now, true)];
    forall k | 0 <= k < |r| && r[k].occupied
      ensures Hit(r, r[k].uuid, StepTo(r, k))
    {
      if k == target {
        OverwriteMakesHit(t, u, i, now);
        SameStep(t, u, i, StepTo(r, k));
      } else {
        assert StepTo(r, k) == StepTo(t, k);
        OverwriteKeepsHit(t, target, Slot(u, now, true), t[k].uuid, StepTo(t, k));
      }
    }
  }

  lemma SameStep(t: Table, u: Uuid, i: nat, j: nat)
    requires i < |t| && j < |t| && ProbeOf(t, u, i) == ProbeOf(t, u, j)
    ensures i == j
  {
  }

  // ---------- across a sweep ----------

  /** `u` is at step `i` in a fresh slot, reached through occupied fresh slots only. */
  predicate FreshHit(t: Table, u: Uuid, i: nat, now: u64, maxAge: u64) {
    && Hit(t, u, i)
    && forall j :: 0 <= j <= i ==> !Aged(t[ProbeOf(t, u, j)], now, maxAge)
  }

  lemma SweepExactly(t: Table, u: Uuid, now: u64, maxAge: u64)
    ensures Contains(Sweep(t, now, maxAge), u) <==>
            exists i :: 0 <= i < |t| && FreshHit(t, u, i, now, maxAge)
  {
    var r := Sweep(t, now, maxAge);
    forall i | 0 <= i < |t|
      ensures Hit(r, u, i) <==> FreshHit(t, u, i, now, maxAge)
    {
      assert forall j :: 0 <= j <= i ==> ProbeOf(r, u, j) == ProbeOf(t, u, j);
      if Hit(r, u, i) {
        assert forall j :: 0 <= j <= i ==> r[ProbeOf(r, u, j)].occupied;
      }
    }
  }

  lemma SweepForgetsOnlyIf(t: Table, u: Uuid, now: u64, maxAge: u64)
    requires Contains(t, u) && !Contains(Sweep(t, now, maxAge), u)
    ensures AgedOnPath(t, u, now, maxAge)
  {
    SweepExactly(t, u, now, maxAge);
    var i :| 0 <= i < |t| && Hit(t, u, i);
    assert !FreshHit(t, u, i, now, maxAge);
  }

  lemma SweepStoresOnly(t: Table, u: Uuid, now: u64, maxAge: u64)
    requires Stored(Sweep(t, now, maxAge), u)
    ensures Stored(t, u)
  {
    var r := Sweep(t, now, maxAge);
    var k :| 0 <= k < |r| && r[k].occupied && r[k].uuid == u;
    assert t[k].occupied;
  }

  /** Lookup answers exactly "is it stored", for every UUID. */
  ghost predicate ReadsAsASet(t: Table) {
    forall v :: Contains(t, v) <==> Stored(t, v)
  }

  /** `u` will still be found after a sweep. */
  predicate FreshlyReachable(t: Table, u: Uuid, now: u64, maxAge: u64) {
    exists i :: 0 <= i < |t| && FreshHit(t, u, i, now, maxAge)
  }

  /** Every UUID with a fresh entry has some entry that is reached through occupied fresh slots only. */
  predicate FreshReachable(t: Table, now: u64, maxAge: u64) {
    forall k :: 0 <= k < |t| && !Reusable(t[k], now, maxAge) ==> FreshlyReachable(t, t[k].uuid, now, maxAge)
  }

  /** Right after a sweep of any table, lookup answers like a set if and only if every fresh UUID is reachable. */
  lemma SweepKeepsSetExactly(t: Table, now: u64, maxAge: u64)
    ensures ReadsAsASet(Sweep(t, now, maxAge)) <==> FreshReachable(t, now, maxAge)
  {
    hide Contains;
    hide FreshHit;
    var r := Sweep(t, now, maxAge);
    forall k | 0 <= k < |t| && !Reusable(t[k], now, maxAge) && ReadsAsASet(r)
      ensures FreshlyReachable(t, t[k].uuid, now, maxAge)
    {
      assert r[k].occupied && r[k].uuid == t[k].uuid;
      assert Stored(r, t[k].uuid);
      SweepExactly(t, t[k].uuid, now, maxAge);
    }
    if FreshReachable(t, now, maxAge) {
      forall v ensures Contains(r, v) <==> Stored(r, v) {
        if Contains(r, v) {
          ContainedIsStored(r, v);
        }
        if k :| 0 <= k < |r| && r[k].occupied && r[k].uuid == v {
          assert !Reusable(t[k], now, maxAge);
          SweepExactly(t, v, now, maxAge);
        }
      }
    }
  }

  /** Every fresh entry is reached from its home slot through fresh entries only. */
  predicate FreshPaths(t: Table, now: u64, maxAge: u64) {
    forall k, j :: 0 <= k < |t| && !Reusable(t[k], now, maxAge) && 0 <= j < StepTo(t, k) ==>
                     !Aged(t[ProbeOf(t, t[k].uuid, j)], now, maxAge)
  }

  /** The stronger path property survives a sweep if and only if every fresh entry has a fresh probe path of its own. */
  lemma SweepKeepsPathsExactly(t: Table, now: u64, maxAge: u64)
    requires PathsOccupied(t)
    ensures PathsOccupied(Sweep(t, now, maxAge)) <==> FreshPaths(t, now, maxAge)
  {
    var r := Sweep(t, now, maxAge);
    if PathsOccupied(r) {
      forall k, j | 0 <= k < |t| && !Reusable(t[k], now, maxAge) && 0 <= j < StepTo(t, k)
        ensures !Aged(t[ProbeOf(t, t[k].uuid, j)], now, maxAge)
      {
        assert r[k].occupied && Hit(r, r[k].uuid, StepTo(r, k));
        assert r[ProbeOf(r, r[k].uuid, j)].occupied;
      }
    }
    if FreshPaths(t, now, maxAge) {
      forall k | 0 <= k < |r| && r[k].occupied
        ensures Hit(r, r[k].uuid, StepTo(r, k))
      {
        assert Hit(t, t[k].uuid, StepTo(t, k));
        forall j | 0 <= j <= StepTo(t, k) ensures r[ProbeOf(r, r[k].uuid, j)].occupied {
          assert t[ProbeOf(t, t[k].uuid, j)].occupied;
        }
      }
    }
  }

  // ---------- runs of insertions and sweeps ----------

  datatype CacheOp = Insertion(uuid: Uuid, now: u64) | Ageing(now: u64)

  function ApplyOp(t: Table, op: CacheOp, maxAge: u64): (r: Table)
    ensures |r| == |t|
  {
    match op
    case Insertion(u, now) => Insert(t, u, now, maxAge)
    case Ageing(now) => Sweep(t, now, maxAge)
  }

  function RunOps(t: Table, ops: seq<CacheOp>, maxAge: u64): (r: Table)
    ensures |r| == |t|
  {
    if ops == [] then t else ApplyOp(RunOps(t, ops[..|ops| - 1], maxAge), ops[|ops| - 1], maxAge)
  }

  /** The table just before operation `i` of a run. */
  function TableAt(t: Table, ops: seq<CacheOp>, maxAge: u64, i: nat): (r: Table)
    requires i <= |ops|
    ensures |r| == |t|
  {
    RunOps(t, ops[..i], maxAge)
  }

  lemma OpStep(t: Table, ops: seq<CacheOp>, maxAge: u64, i: nat)
    requires i < |ops|
    ensures TableAt(t, ops, maxAge, i + 1) == ApplyOp(TableAt(t, ops, maxAge, i), ops[i], maxAge)
    ensures TableAt(t, ops, maxAge, 0) == t
  {
    hide ApplyOp;
    assert ops[..i + 1][..i] == ops[..i];
  }

  /** One operation keeps all paths occupied unless it is a sweep that cuts a fresh entry off. */
  lemma OpKeepsPathsExactly(t: Table, op: CacheOp, maxAge: u64)
    requires PathsOccupied(t)
    ensures PathsOccupied(ApplyOp(t, op, maxAge)) <==> (op.Ageing? ==> FreshPaths(t, op.now, maxAge))
  {
    hide PathsOccupied;
    hide FreshPaths;
    match op
    case Insertion(u, now) => InsertKeepsPaths(t, u, now, maxAge);
    case Ageing(now) => SweepKeepsPathsExactly(t, now, maxAge);
  }

  /** Every sweep of the run finds each fresh entry behind fresh entries only. */
  predicate SweepsSpareThePaths(t: Table, ops: seq<CacheOp>, maxAge: u64) {
    forall i :: 0 <= i < |ops| && ops[i].Ageing? ==> FreshPaths(TableAt(t, ops, maxAge, i), ops[i].now, maxAge)
  }

  predicate PathsThroughout(t: Table, ops: seq<CacheOp>, maxAge: u64) {
    forall i :: 0 <= i <= |ops| ==> PathsOccupied(TableAt(t, ops, maxAge, i))
  }

  /**
   * In every run of insertions and sweeps, the probe paths stay occupied throughout if and only if each
   * sweep, at its turn, finds every fresh entry behind fresh entries only; and then lookup answers like a set
   * at every moment of the run.
   */
  lemma PathsOverRuns(t: Table, ops: seq<CacheOp>, maxAge: u64)
    requires PathsOccupied(t)
    ensures PathsThroughout(t, ops, maxAge) <==> SweepsSpareThePaths(t, ops, maxAge)
    ensures PathsThroughout(t, ops, maxAge) ==>
              forall i :: 0 <= i <= |ops| ==> ReadsAsASet(TableAt(t, ops, maxAge, i))
  {
    hide PathsOccupied;
    hide TableAt;
    hide FreshPaths;
    hide ReadsAsASet;
    if PathsThroughout(t, ops, maxAge) {
      forall i | 0 <= i < |ops| && ops[i].Ageing? ensures FreshPaths(TableAt(t, ops, maxAge, i), ops[i].now, maxAge) {
        OpStep(t, ops, maxAge, i);
        OpKeepsPathsExactly(TableAt(t, ops, maxAge, i), ops[i], maxAge);
      }
      forall i | 0 <= i <= |ops| ensures ReadsAsASet(TableAt(t, ops, maxAge, i)) {
        PathsMakeTheSet(TableAt(t, ops, maxAge, i));
      }
    }
    if SweepsSpareThePaths(t, ops, maxAge) {
      forall i | 0 <= i <= |ops| ensures PathsOccupied(TableAt(t, ops, maxAge, i)) {
        PathsUpTo(t, ops, maxAge, i);
      }
    }
  }

  lemma PathsMakeTheSet(t: Table)
    requires PathsOccupied(t)
    ensures ReadsAsASet(t)
  {
    forall v ensures Contains(t, v) <==> Stored(t, v) {
      PathsMakeASet(t, v);
    }
  }

  lemma {:induction false} PathsUpTo(t: Table, ops: seq<CacheOp>, maxAge: u64, i: nat)
    requires PathsOccupied(t) && SweepsSpareThePaths(t, ops, maxAge) && i <= |ops|
    ensures PathsOccupied(TableAt(t, ops, maxAge, i))
  {
    hide PathsOccupied;
    hide FreshPaths;
    if i > 0 {
      PathsUpTo(t, ops, maxAge, i - 1);
      OpStep(t, ops, maxAge, i - 1);
      OpKeepsPathsExactly(TableAt(t, ops, maxAge, i - 1), ops[i - 1], maxAge);
    }
  }

  lemma EmptyHasPaths(cap: nat)
    requires cap >= 1
    ensures PathsOccupied(Empty(cap))
  {
  }

  /** In particular, without sweeps an initially empty table answers exactly "is it stored". */
  lemma InsertionsRefineASet(cap: nat, ops: seq<CacheOp>, maxAge: u64, u: Uuid)
    requires cap >= 1 && forall i :: 0 <= i < |ops| ==> ops[i].Insertion?
    ensures var t := RunOps(Empty(cap), ops, maxAge);
            && PathsOccupied(t)
            && (Contains(t, u) <==> Stored(t, u))
  {
    hide PathsOccupied;
    hide Contains;
    EmptyHasPaths(cap);
    PathsUpTo(Empty(cap), ops, maxAge, |ops|);
    assert ops[..|ops|] == ops;
    PathsMakeASet(RunOps(Empty(cap), ops, maxAge), u);
  }

  // ---------- runs that fail ----------

  /** Two UUIDs inserted one second apart, and a sweep when only the first is over age. */
  function OrphaningOps(x: Uuid, y: Uuid, start: u64, maxAge: u64): seq<CacheOp>
    requires start + maxAge + 1 < TWO64
  {
    [Insertion(x, start), Insertion(y, start + 1), Ageing(start + maxAge + 1)]
  }

  /**
   * The set reading fails for a whole family: any two UUIDs that share a home slot, the first inserted too
   * long ago. After the sweep the second is stored, fresh and not found, although it was found before.
   */
  lemma SweepOrphans(cap: nat, x: Uuid, y: Uuid, start: u64, maxAge: u64)
    requires cap >= 2 && x != y && Fnv.Home(x, cap) == Fnv.Home(y, cap)
    requires 1 <= maxAge && start + maxAge + 1 < TWO64
    ensures var ops := OrphaningOps(x, y, start, maxAge);
            && Contains(TableAt(Empty(cap), ops, maxAge, 2), y)
            && Stored(RunOps(Empty(cap), ops, maxAge), y)
            && !Contains(RunOps(Empty(cap), ops, maxAge), y)
  {
    hide RunOps;
    hide FreeStep;
    hide Insert;
    var e := Empty(cap);
    var ops := OrphaningOps(x, y, start, maxAge);
    OpStep(e, ops, maxAge, 0);
    OpStep(e, ops, maxAge, 1);
    OpStep(e, ops, maxAge, 2);
    assert ops[..3] == ops;
    var a, b := ProbeOf(e, x, 0), ProbeOf(e, x, 1);
    InsertAt(e, x, start, maxAge, 0);
    var t1 := TableAt(e, ops, maxAge, 1);
    assert ProbeOf(t1, y, 0) == a && ProbeOf(t1, y, 1) == b;
    InsertAt(t1, y, start + 1, maxAge, 1);
    InsertedIsFound(t1, y, start + 1, maxAge);
    var r := RunOps(e, ops, maxAge);
    assert r[b] == Slot(y, start + 1, true);
    assert ProbeOf(r, y, 0) == a && !r[a].occupied;
  }

  /** `w` and `x` age; `u` is inserted twice, behind the first of them and behind both; a sweep; then `z`. */
  function UndercuttingOps(w: Uuid, x: Uuid, u: Uuid, z: Uuid, start: u64, maxAge: u64): seq<CacheOp>
    requires start + 2 * maxAge + 3 < TWO64
  {
    [Insertion(w, start), Insertion(x, start + 2), Insertion(u, start + maxAge + 1),
     Insertion(u, start + maxAge + 2), Ageing(start + maxAge + 3), Insertion(z, start + 2 * maxAge + 2)]
  }

  /**
   * A sweep that leaves a table which answers like a set is not enough for what follows: here the sweep opens
   * a gap before the younger of two entries of `u`, and a later insertion replaces the older one. Then `u` is
   * stored in a fresh entry and not found. The sweep fails only the stronger condition on the paths.
   */
  lemma SetReadingLostLater(cap: nat, w: Uuid, x: Uuid, u: Uuid, z: Uuid, start: u64, maxAge: u64)
    requires cap >= 3 && z != u
    requires Fnv.Home(w, cap) == Fnv.Home(x, cap) == Fnv.Home(u, cap) == Fnv.Home(z, cap)
    requires 2 <= maxAge && start + 2 * maxAge + 3 < TWO64
    ensures var ops := UndercuttingOps(w, x, u, z, start, maxAge);
            && FreshReachable(TableAt(Empty(cap), ops, maxAge, 4), ops[4].now, maxAge)
            && ReadsAsASet(TableAt(Empty(cap), ops, maxAge, 5))
            && !FreshPaths(TableAt(Empty(cap), ops, maxAge, 4), ops[4].now, maxAge)
            && HoldsFresh(RunOps(Empty(cap), ops, maxAge), u, ops[5].now, maxAge)
            && !Contains(RunOps(Empty(cap), ops, maxAge), u)
  {
    hide RunOps;
    hide Contains;
    hide Insert;
    hide FreshReachable;
    hide ReadsAsASet;
    hide FreshPaths;
    hide HoldsFresh;
    var e := Empty(cap);
    var ops := UndercuttingOps(w, x, u, z, start, maxAge);
    UndercutBefore(cap, w, x, u, z, start, maxAge);
    var t4 := TableAt(e, ops, maxAge, 4);
    TwoEntries(t4, u, ops[4].now, maxAge, ProbeOf(e, u, 0), ProbeOf(e, u, 1), ProbeOf(e, u, 2));
    SweepKeepsSetExactly(t4, ops[4].now, maxAge);
    OpStep(e, ops, maxAge, 4);
    OpStep(e, ops, maxAge, 5);
    assert ops[..6] == ops;
    UndercutAfter(t4, x, u, z, start, maxAge);
  }

  /** The table before that sweep. */
  lemma UndercutBefore(cap: nat, w: Uuid, x: Uuid, u: Uuid, z: Uuid, start: u64, maxAge: u64)
    requires cap >= 3
    requires Fnv.Home(w, cap) == Fnv.Home(x, cap) == Fnv.Home(u, cap)
    requires 2 <= maxAge && start + 2 * maxAge + 3 < TWO64
    ensures var e := Empty(cap);
            TableAt(e, UndercuttingOps(w, x, u, z, start, maxAge), maxAge, 4)
            == e[ProbeOf(e, u, 0) := Slot(u, start + maxAge + 1, true)]
                [ProbeOf(e, u, 1) := Slot(x, start + 2, true)]
                [ProbeOf(e, u, 2) := Slot(u, start + maxAge + 2, true)]
  {
    hide RunOps;
    hide TableAt;
    hide Insert;
    var e := Empty(cap);
    var ops := UndercuttingOps(w, x, u, z, start, maxAge);
    var a, b, c := ProbeOf(e, u, 0), ProbeOf(e, u, 1), ProbeOf(e, u, 2);
    OpStep(e, ops, maxAge, 0);
    OpStep(e, ops, maxAge, 1);
    OpStep(e, ops, maxAge, 2);
    OpStep(e, ops, maxAge, 3);
    InsertAt(e, w, start, maxAge, 0);
    var t1: Table := e[a := Slot(w, start, true)];
    InsertAt(t1, x, start + 2, maxAge, 1);
    var t2: Table := t1[b := Slot(x, start + 2, true)];
    InsertAt(t2, u, start + maxAge + 1, maxAge, 0);
    var t3: Table := t2[a := Slot(u, start + maxAge + 1, true)];
    assert ProbeOf(t3, u, 0) == a && ProbeOf(t3, u, 1) == b;
    InsertAt(t3, u, start + maxAge + 2, maxAge, 2);
  }

  /** What that sweep and the insertion after it make of the table. */
  lemma UndercutAfter(t: Table, x: Uuid, u: Uuid, z: Uuid, start: u64, maxAge: u64)
    requires |t| >= 3 && z != u && Fnv.Home(u, |t|) == Fnv.Home(z, |t|)
    requires 2 <= maxAge && start + 2 * maxAge + 3 < TWO64
    requires t[ProbeOf(t, u, 0)] == Slot(u, start + maxAge + 1, true)
    requires t[ProbeOf(t, u, 1)] == Slot(x, start + 2, true)
    requires t[ProbeOf(t, u, 2)] == Slot(u, start + maxAge + 2, true)
    ensures var now := start + 2 * maxAge + 2;
            var r := Insert(Sweep(t, start + maxAge + 3, maxAge), z, now, maxAge);
            HoldsFresh(r, u, now, maxAge) && !Contains(r, u)
  {
    hide Insert;
    var now := start + 2 * maxAge + 2;
    var a, b, c := ProbeOf(t, u, 0), ProbeOf(t, u, 1), ProbeOf(t, u, 2);
    var swept := Sweep(t, start + maxAge + 3, maxAge);
    InsertAt(swept, z, now, maxAge, 0);
    var r := Insert(swept, z, now, maxAge);
    assert r[c].uuid == u && !Reusable(r[c], now, maxAge);
    assert ProbeOf(r, u, 0) == a && r[a].uuid == z;
    assert ProbeOf(r, u, 1) == b && !r[b].occupied;
  }

  /** `u` has an entry that is not over age. */
  predicate HoldsFresh(t: Table, u: Uuid, now: u64, maxAge: u64) {
    exists k :: 0 <= k < |t| && t[k].uuid == u && !Reusable(t[k], now, maxAge)
  }

  /** With entries of `u` at steps 0 and 2 and an over-age one between, `u` is reachable; not every path is fresh. */
  lemma TwoEntries(t: Table, u: Uuid, now: u64, maxAge: u64, a: nat, b: nat, c: nat)
    requires |t| >= 3 && a == ProbeOf(t, u, 0) && b == ProbeOf(t, u, 1) && c == ProbeOf(t, u, 2)
    requires t[a].uuid == t[c].uuid == u && !Reusable(t[a], now, maxAge) && !Reusable(t[c], now, maxAge)
    requires Aged(t[b], now, maxAge)
    requires forall k :: 0 <= k < |t| && k != a && k != c ==> Reusable(t[k], now, maxAge)
    ensures FreshReachable(t, now, maxAge) && !FreshPaths(t, now, maxAge)
  {
    assert FreshHit(t, u, 0, now, maxAge);
    SameStep(t, u, 2, StepTo(t, c));
    assert Aged(t[ProbeOf(t, t[c].uuid, 1)], now, maxAge);
  }

  /** Such a run exists for every capacity from 3 to 2^128 - 1. */
  lemma SomeSetReadingLostLater(cap: nat, start: u64, maxAge: u64) returns (x: Uuid, u: Uuid)
    requires 3 <= cap < Pow(256, 16)
    requires 2 <= maxAge && start + 2 * maxAge + 3 < TWO64
    ensures var ops := UndercuttingOps(x, x, u, x, start, maxAge);
            && ReadsAsASet(TableAt(Empty(cap), ops, maxAge, 5))
            && Stored(RunOps(Empty(cap), ops, maxAge), u)
            && !Contains(RunOps(Empty(cap), ops, maxAge), u)
  {
    hide Contains;
    hide ReadsAsASet;
    hide RunOps;
    hide FreshReachable;
    hide FreshPaths;
    x, u := OrphansExist(cap);
    SetReadingLostLater(cap, x, x, u, x, start, maxAge);
  }

  /** The `i`-th identifier in big-endian counting order. */
  function NthUuid(i: nat): (u: Uuid) {
    Codec.BigEndian(i, 16)
  }

  lemma NthUuidInjective(i: nat, j: nat)
    requires i < Pow(256, 16) && j < Pow(256, 16) && i != j
    ensures NthUuid(i) != NthUuid(j)
  {
    Codec.ReadWritten(i, 16);
    Codec.ReadWritten(j, 16);
  }

  /** Among more numbers than there are values below `cap`, two agree. */
  lemma {:induction false} Pigeonhole(f: seq<nat>, cap: nat) returns (i: nat, j: nat)
    requires |f| > cap && forall k :: 0 <= k < |f| ==> f[k] < cap
    ensures i < j < |f| && f[i] == f[j]
    decreases cap
  {
    var last := f[|f| - 1];
    if i' :| 0 <= i' < |f| - 1 && f[i'] == last {
      i, j := i', |f| - 1;
    } else {
      // Nothing else has the last value: let the value cap - 1 take its place and forget the last entry.
      var g := seq(|f| - 1, k requires 0 <= k < |f| - 1 => if f[k] == cap - 1 then last else f[k]);
      i, j := Pigeonhole(g, cap - 1);
    }
  }

  /** Colliding identifiers exist for every capacity below 2^128, the default of 10000 included. */
  lemma OrphansExist(cap: nat) returns (x: Uuid, y: Uuid)
    requires 1 <= cap < Pow(256, 16)
    ensures x != y && Fnv.Home(x, cap) == Fnv.Home(y, cap)
  {
    hide Pow;
    hide Fnv.Hash;
    var homes := seq(cap + 1, i requires 0 <= i < cap + 1 => Fnv.Home(NthUuid(i), cap));
    var i, j := Pigeonhole(homes, cap);
    NthUuidInjective(i, j);
    x, y := NthUuid(i), NthUuid(j);
  }

  // ---------- how full the table is ----------

  function Occupancy(t: seq<Slot>): (n: nat)
    ensures n <= |t|
    ensures n == |t| <==> forall k :: 0 <= k < |t| ==> t[k].occupied
  {
    if t == [] then 0
    else
      var rest := Occupancy(t[1..]);
      assert forall k :: 1 <= k < |t| ==> t[k] == t[1..][k - 1];
      (if t[0].occupied then 1 else 0) + rest
  }

  lemma {:induction false} OccupancyUpdate(t: seq<Slot>, k: nat, s: Slot)
    requires k < |t| && s.occupied
    ensures Occupancy(t[k := s]) <= Occupancy(t) + 1
  {
    if k == 0 {
      assert t[k := s][1..] == t[1..];
    } else {
      OccupancyUpdate(t[1..], k - 1, s);
      assert t[k := s][1..] == t[1..][k - 1 := s];
    }
  }

  lemma {:induction false} OccupancyEmpty(t: seq<Slot>)
    requires forall k :: 0 <= k < |t| ==> !t[k].occupied
    ensures Occupancy(t) == 0
  {
    if t != [] {
      OccupancyEmpty(t[1..]);
    }
  }

  /** Every entry was seen between `lo` and `hi`, and at most `n` slots are taken. */
  predicate Young(t: Table, lo: u64, hi: u64, n: nat) {
    && Occupancy(t) <= n
    && forall k :: 0 <= k < |t| && t[k].occupied ==> lo <= t[k].seenAt <= hi
  }

  lemma YoungInsert(t: Table, u: Uuid, lo: u64, hi: u64, n: nat, now: u64, maxAge: u64)
    requires Young(t, lo, hi, n) && lo <= hi <= now
    ensures Young(Insert(t, u, now, maxAge), lo, now, n + 1)
  {
    OccupancyUpdate(t, Target(t, u, now, maxAge), Slot(u, now, true));
  }

  /** While the table is young, neither an insertion nor a sweep forgets anything. */
  lemma YoungRemembers(t: Table, u: Uuid, v: Uuid, lo: u64, hi: u64, n: nat, now: u64, maxAge: u64)
    requires Young(t, lo, hi, n) && lo <= hi <= now <= lo + maxAge
    ensures n < |t| && Contains(t, u) ==> Contains(Insert(t, v, now, maxAge), u)
    ensures Sweep(t, now, maxAge) == t
  {
    assert forall k :: 0 <= k < |t| && t[k].occupied ==> !Aged(t[k], now, maxAge);
    if n < |t| && Contains(t, u) && !Contains(Insert(t, v, now, maxAge), u) {
      InsertForgetsOnlyIf(t, u, v, now, maxAge);
    }
  }
}
