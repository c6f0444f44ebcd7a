/**
 * The cache of recently seen UUIDs: an open-addressed table with linear probing that
 * overwrites aged entries, falls back to the home slot when full, and is swept by clearing
 * aged slots without leaving tombstones.
 */
module Dedup {
  import opened Types
  import Fnv

  datatype Slot = Slot(uuid: Uuid, seenAt: u64, occupied: bool)

  type Table = t: seq<Slot> | |t| >= 1 witness [Slot(seq(16, _ => 0), 0, false)]

  /** The slot inspected at probe step `i`. */
  function Probe(home: nat, i: nat, cap: nat): (k: nat)
    requires home < cap && i < cap
    ensures k == if home + i < cap then home + i else home + i - cap
  {
    WrapOnce(home + i, cap);
    (home + i) % cap
  }

  lemma WrapOnce(x: nat, cap: nat)
    requires cap >= 1 && x < 2 * cap
    ensures x % cap == if x < cap then x else x - cap
  {
    if x >= cap {
      assert x == 1 * cap + (x - cap);
    }
  }

  function ProbeOf(t: Table, u: Uuid, i: nat): (k: nat)
    requires i < |t|
    ensures k < |t|
  {
    Probe(Fnv.Home(u, |t|), i, |t|)
  }

  predicate Aged(s: Slot, now: u64, maxAge: u64) {
    Elapsed(now, s.seenAt) > maxAge
  }

  predicate Reusable(s: Slot, now: u64, maxAge: u64) {
    !s.occupied || Aged(s, now, maxAge)
  }

  // ---------- lookup ----------

  /** `u` sits at probe step `i` and no empty slot comes before it. */
  predicate Hit(t: Table, u: Uuid, i: nat) {
    && i < |t|
    && t[ProbeOf(t, u, i)].uuid == u
    && forall j :: 0 <= j <= i ==> t[ProbeOf(t, u, j)].occupied
  }

  predicate Contains(t: Table, u: Uuid) {
    exists i :: 0 <= i < |t| && Hit(t, u, i)
  }

  predicate Stored(t: Table, u: Uuid) {
    exists k :: 0 <= k < |t| && t[k].occupied && t[k].uuid == u
  }

  // ---------- insertion ----------

  /** The first probe step from `i` on that insertion may overwrite; `|t|` if there is none. */
  function FreeStep(t: Table, u: Uuid, now: u64, maxAge: u64, i: nat): (r: nat)
    requires i <= |t|
    ensures i <= r <= |t|
    ensures forall j :: i <= j < r ==> !Reusable(t[ProbeOf(t, u, j)], now, maxAge)
    ensures r < |t| ==> Reusable(t[ProbeOf(t, u, r)], now, maxAge)
    decreases |t| - i
  {
    if i == |t| then i
    else if Reusable(t[ProbeOf(t, u, i)], now, maxAge) then i
    else FreeStep(t, u, now, maxAge, i + 1)
  }

  /** The probe step whose slot an insertion writes: the first reusable one, else the home slot. */
  function TargetStep(t: Table, u: Uuid, now: u64, maxAge: u64): (i: nat)
    ensures i < |t|
    ensures forall j :: 0 <= j < i ==> !Reusable(t[ProbeOf(t, u, j)], now, maxAge)
  {
    var r := FreeStep(t, u, now, maxAge, 0);
    if r < |t| then r else 0
  }

  function Target(t: Table, u: Uuid, now: u64, maxAge: u64): (k: nat)
    ensures k < |t|
  {
    ProbeOf(t, u, TargetStep(t, u, now, maxAge))
  }

  function Insert(t: Table, u: Uuid, now: u64, maxAge: u64): (r: Table)
    ensures |r| == |t|
  {
    t[Target(t, u, now, maxAge) := Slot(u, now, true)]
  }

  // ---------- the ageing sweep ----------

  function Sweep(t: Table, now: u64, maxAge: u64): (r: Table)
    ensures |r| == |t|
    ensures forall k :: 0 <= k < |t| ==>
                          r[k] == t[k].(occupied := t[k].occupied && !Aged(t[k], now, maxAge))
  {
    seq(|t|, k requires 0 <= k < |t| =>
      t[k].(occupied := t[k].occupied && !Aged(t[k], now, maxAge)))
  }

  function Empty(cap: nat): (t: Table)
    requires cap >= 1
    ensures |t| == cap
  {
    seq(cap, _ => Slot(seq(16, _ => 0), 0, false))
  }

  // ---------- the C loops ----------

  method DedupContains(a: array<Slot>, u: Uuid) returns (found: bool)
    requires a.Length >= 1
    ensures found == Contains(a[..], u)
  {
    var idx := Fnv.DedupHash(u, a.Length);
    ghost var t: Table := a[..];
    for i := 0 to a.Length
      invariant forall j :: 0 <= j < i ==> t[ProbeOf(t, u, j)].occupied && t[ProbeOf(t, u, j)].uuid != u
    {
      var slot := (idx + i) % a.Length;
      assert slot == ProbeOf(t, u, i);
      if !a[slot].occupied {
        return false;
      }
      if a[slot].uuid == u {
        assert Hit(t, u, i);
        return true;
      }
    }
    return false;
  }

  method DedupInsert(a: array<Slot>, u: Uuid, now: u64, maxAge: u64)
    requires a.Length >= 1
    modifies a
    ensures a[..] == Insert(old(a[..]), u, now, maxAge)
  {
    var idx := Fnv.DedupHash(u, a.Length);
    ghost var t: Table := a[..];
    for i := 0 to a.Length
      invariant a[..] == t
      invariant FreeStep(t, u, now, maxAge, 0) == FreeStep(t, u, now, maxAge, i)
    {
      var slot := (idx + i) % a.Length;
      assert slot == ProbeOf(t, u, i);
      if !a[slot].occupied {
        a[slot] := Slot(u, now, true);
        return;
      }
      if Elapsed(now, a[slot].seenAt) > maxAge {
        a[slot] := a[slot].(uuid := u, seenAt := now);
        return;
      }
    }
    var slot := idx % a.Length;
    assert slot == ProbeOf(t, u, 0);
    assert t[slot].occupied;
    a[slot] := a[slot].(uuid := u, seenAt := now);
  }

  method DedupEvict(a: array<Slot>, now: u64, maxAge: u64)
    requires a.Length >= 1
    modifies a
    ensures a[..] == Sweep(old(a[..]), now, maxAge)
  {
    ghost var t: Table := a[..];
    for i := 0 to a.Length
      invariant forall k :: 0 <= k < i ==> a[k] == Sweep(t, now, maxAge)[k]
      invariant forall k :: i <= k < a.Length ==> a[k] == t[k]
    {
      if a[i].occupied && Elapsed(now, a[i].seenAt) > maxAge {
        a[i] := a[i].(occupied := false);
      }
    }
  }
}
