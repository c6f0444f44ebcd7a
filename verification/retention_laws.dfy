/** How long a stored message stays, and how often it is replayed. */
module RetentionLaws {
  import opened Types
  import opened Codec
  import opened RouterSpec
  import opened Store
  import Dedup
  import SeenLaws

  // ---------- retention ----------

  /** `m` is stored in `rows1`: as a new row dated `now`, or as the row it already had. */
  predicate Kept(rows0: Rows, rows1: Rows, m: Message, now: Time) {
    && m.uuid in rows1
    && (if m.uuid in rows0 then rows1 == rows0
        else rows1 - {m.uuid} == rows0 && Reload(m.uuid, rows1[m.uuid]) == m.(timestamp := now))
  }

  lemma PutKeeps(rows: Rows, m: Message, now: Time)
    ensures Kept(rows, Put(rows, m, now), m, now)
  {
    if m.uuid !in rows {
      StoreRoundTrip(rows, m, now);
      assert Put(rows, m, now) - {m.uuid} == rows;
    }
  }

  /** Whatever is relayed is stored first, one TTL lower, and offered to the peers as it is stored. */
  lemma RelayedIsKept(r: Router, data: bytes, now: Time, up: set<PubKey>)
    requires r.cfg.hasStorage && Decode(data).Accept? && Decode(data).msg.receiver != r.cfg.me
    requires Decode(data).msg.ttl > 0 && !Dedup.Contains(r.dedup, Decode(data).msg.uuid)
    ensures var eff := ReceiveEffect(r, data, now, up);
            var m := Decode(data).msg;
            && Kept(r.rows, eff.router.rows, m.(ttl := m.ttl - 1), now)
            && eff.sends == Broadside(r, Encode(m.(ttl := m.ttl - 1)), up)
  {
    hide Decode;
    hide Encode;
    hide Kept;
    hide Dedup.Contains;
    var m := Decode(data).msg;
    PutKeeps(r.rows, m.(ttl := m.ttl - 1), now);
  }

  /** A broadcast is stored whether or not any peer took it. */
  lemma BroadcastIsKept(r: Router, m: Message, now: Time, up: set<PubKey>)
    requires r.cfg.hasStorage
    ensures Kept(r.rows, BroadcastEffect(r, m, now, up).router.rows, m, now)
  {
    hide Encode;
    hide Kept;
    PutKeeps(r.rows, m, now);
  }

  /** A row survives any event up to its expiry, unchanged: no re-store extends or alters it. */
  lemma RowSurvives(r: Router, e: Event, u: Uuid)
    requires u in r.rows && e.now <= r.rows[u].expiresAt
    ensures var rows := Step(r, e).router.rows;
            u in rows && rows[u] == r.rows[u]
  {
  }

  /** From state `a` on, a row stays present and unchanged through every event not later than its expiry. */
  lemma {:induction false} RetainedUntilExpiry(r: Router, evs: seq<Event>, a: nat, b: nat, u: Uuid)
    requires a <= b <= |evs|
    requires u in Before(r, evs, a).rows
    requires forall i :: a <= i < b ==> evs[i].now <= Before(r, evs, a).rows[u].expiresAt
    ensures u in Before(r, evs, b).rows && Before(r, evs, b).rows[u] == Before(r, evs, a).rows[u]
    decreases b - a
  {
    hide Step;
    hide Exec;
    if a < b {
      RetainedUntilExpiry(r, evs, a, b - 1, u);
      RunStep(r, evs, b - 1);
      RowSurvives(Before(r, evs, b - 1), evs[b - 1], u);
    }
  }

  /** A row that an event creates expires 72 hours after that event. */
  lemma StoredFor72Hours(r: Router, e: Event, u: Uuid)
    requires u !in r.rows && u in Step(r, e).router.rows
    ensures Step(r, e).router.rows[u].expiresAt == e.now + 259200
  {
  }

  /** The picks of a round leave no pending row out. */
  lemma PickedAll(r: Router, picks: seq<Pick>, now: Time, u: Uuid) returns (i: nat)
    requires PicksPending(r, picks, now) && u in Select(r.rows, None, now)
    ensures i < |picks| && picks[i].uuid == u
  {
    var us := seq(|picks|, k requires 0 <= k < |picks| => picks[k].uuid);
    ListingIsComplete(us, Select(r.rows, None, now));
    assert u in us;
    i :| 0 <= i < |us| && us[i] == u;
  }

  predicate StartsAt(all: seq<Send>, part: seq<Send>, k: nat) {
    k + |part| <= |all| && all[k..k + |part|] == part
  }

  predicate Includes(all: seq<Send>, part: seq<Send>) {
    exists k :: 0 <= k <= |all| && StartsAt(all, part, k)
  }

  lemma IncludesMore(pre: seq<Send>, part: seq<Send>, post: seq<Send>)
    ensures Includes(pre + part + post, part)
  {
    assert StartsAt(pre + part + post, part, |pre|);
  }

  lemma IncludesFurther(all: seq<Send>, part: seq<Send>, post: seq<Send>)
    requires Includes(all, part)
    ensures Includes(all + post, part)
  {
    var k :| 0 <= k <= |all| && StartsAt(all, part, k);
    assert (all + post)[k..k + |part|] == all[k..k + |part|];
    assert StartsAt(all + post, part, k);
  }

  /** The sends made for one reloaded row. */
  function RowSends(r: Router, p: Pick): seq<Send>
    requires p.uuid in r.rows
  {
    Broadside(r, Encode(Reload(p.uuid, r.rows[p.uuid])), p.up)
  }

  /** A round hands every picked row to the peers. */
  lemma {:induction false} PickIsSent(r: Router, picks: seq<Pick>, i: nat)
    requires forall j :: 0 <= j < |picks| ==> picks[j].uuid in r.rows
    requires i < |picks|
    ensures Includes(RoundSends(r, picks), RowSends(r, picks[i]))
  {
    hide Includes;
    var front, last := picks[..|picks| - 1], picks[|picks| - 1];
    assert RoundSends(r, picks) == RoundSends(r, front) + RowSends(r, last);
    if i < |front| {
      PickIsSent(r, front, i);
      IncludesFurther(RoundSends(r, front), RowSends(r, picks[i]), RowSends(r, last));
    } else {
      IncludesMore(RoundSends(r, front), RowSends(r, last), []);
      assert RoundSends(r, front) + RowSends(r, last) + [] == RoundSends(r, front) + RowSends(r, last);
    }
  }

  /** Round `e` offers the row of `u` to the peers, in its current form. */
  predicate Offers(s: Router, e: Event, u: Uuid) {
    && e.Round? && RoundHeld(s, e.picks, e.now) && u in s.rows
    && exists i :: 0 <= i < |e.picks| && e.picks[i].uuid == u
                   && Includes(Step(s, e).sends, RowSends(s, e.picks[i]))
  }

  lemma OfferedNow(s: Router, e: Event, u: Uuid)
    requires e.Round? && RoundHeld(s, e.picks, e.now)
    requires u in s.rows && e.now <= s.rows[u].expiresAt
    ensures Offers(s, e, u)
  {
    var i := PickedAll(s, e.picks, e.now, u);
    PickIsSent(s, e.picks, i);
  }

  /** A row stored at event `a` is offered, unchanged, in every rebroadcast round up to 72 hours later. */
  lemma OfferedInEveryRound(r: Router, evs: seq<Event>, a: nat, b: nat, u: Uuid)
    requires a < b < |evs|
    requires u !in Before(r, evs, a).rows && u in Before(r, evs, a + 1).rows
    requires forall j :: a < j <= b ==> evs[j].now <= evs[a].now + 259200
    requires evs[b].Round? && RoundHeld(Before(r, evs, b), evs[b].picks, evs[b].now)
    ensures Offers(Before(r, evs, b), evs[b], u)
    ensures Before(r, evs, b).rows[u] == Before(r, evs, a + 1).rows[u]
  {
    hide Before;
    hide *;
    RunStep(r, evs, a);
    StoredFor72Hours(Before(r, evs, a), evs[a], u);
    RetainedUntilExpiry(r, evs, a + 1, b, u);
    RunStep(r, evs, b);
    OfferedNow(Before(r, evs, b), evs[b], u);
  }

  /** Event `e` puts `m` on the wire: as the node's own broadcast, or as a first copy relayed one TTL lower. */
  predicate PutsOnWire(r: Router, e: Event, m: Message) {
    || (e.Broadcast? && e.msg == m)
    || (&& e.Receive? && Decode(e.data).Accept?
        && var got := Decode(e.data).msg;
           && !Dedup.Contains(r.dedup, got.uuid)
           && got.ttl > 0 && got.receiver != r.cfg.me && m == got.(ttl := got.ttl - 1))
  }

  lemma PutOnWireIsKept(r: Router, e: Event, m: Message)
    requires r.cfg.hasStorage && PutsOnWire(r, e, m)
    ensures Kept(r.rows, Step(r, e).router.rows, m, e.now)
  {
    hide BroadcastEffect;
    hide ReceiveEffect;
    hide Kept;
    hide Decode;
    hide Dedup.Contains;
    if e.Broadcast? {
      BroadcastIsKept(r, m, e.now, e.up);
    } else {
      RelayedIsKept(r, e.data, e.now, e.up);
    }
  }

  lemma KeptParts(rows0: Rows, rows1: Rows, m: Message, now: Time)
    requires Kept(rows0, rows1, m, now) && m.uuid !in rows0
    ensures m.uuid in rows1 && Reload(m.uuid, rows1[m.uuid]) == m.(timestamp := now)
  {
  }

  /**
   * Store and forward: what a router broadcasts or relays for the first time is offered to its peers, in
   * that very form, in every rebroadcast round of the next 72 hours, whatever else happens in between.
   */
  lemma StoreAndForward(r: Router, evs: seq<Event>, a: nat, b: nat, m: Message)
    requires r.cfg.hasStorage && a < b < |evs|
    requires PutsOnWire(Before(r, evs, a), evs[a], m) && m.uuid !in Before(r, evs, a).rows
    requires forall j :: a < j <= b ==> evs[j].now <= evs[a].now + 259200
    requires evs[b].Round? && RoundHeld(Before(r, evs, b), evs[b].picks, evs[b].now)
    ensures Offers(Before(r, evs, b), evs[b], m.uuid)
    ensures Reload(m.uuid, Before(r, evs, b).rows[m.uuid]) == m.(timestamp := evs[a].now)
  {
    hide Exec;
    hide Step;
    hide Kept;
    hide PutsOnWire;
    hide Offers;
    hide RoundHeld;
    SeenLaws.CfgFixed(r, evs[..a]);
    RunStep(r, evs, a);
    PutOnWireIsKept(Before(r, evs, a), evs[a], m);
    KeptParts(Before(r, evs, a).rows, Before(r, evs, a + 1).rows, m, evs[a].now);
    OfferedInEveryRound(r, evs, a, b, m.uuid);
    OffersParts(Before(r, evs, b), evs[b], m.uuid);
  }

  lemma OffersParts(s: Router, e: Event, u: Uuid)
    requires Offers(s, e, u)
    ensures u in s.rows
  {
  }

  // ---------- rebroadcast rate ----------

  predicate RoundIn(r: Router, e: Event, lo: Time, hi: int) {
    e.Round? && RoundHeld(r, e.picks, e.now) && lo <= e.now <= hi
  }

  /** How many rebroadcast rounds a run holds in the window [lo, hi]. */
  function Rounds(r: Router, evs: seq<Event>, lo: Time, hi: int): nat
  {
    if evs == [] then 0
    else
      var front := evs[..|evs| - 1];
      Rounds(r, front, lo, hi) + if RoundIn(Exec(r, front), evs[|evs| - 1], lo, hi) then 1 else 0
  }

  /** Times never run backwards, starting from the router's last round. */
  predicate ClockMonotone(r: Router, evs: seq<Event>) {
    && (forall i :: 0 <= i < |evs| ==> r.lastRound <= evs[i].now)
    && (forall i, j :: 0 <= i < j < |evs| ==> evs[i].now <= evs[j].now)
  }

  lemma LastRoundStep(r: Router, e: Event)
    ensures Step(r, e).router.lastRound == if e.Round? && RoundHeld(r, e.picks, e.now) then e.now else r.lastRound
  {
  }

  /** `last` is the time of the latest round counted so far. */
  lemma {:induction false} RoundsSpread(r: Router, evs: seq<Event>, lo: Time, hi: int) returns (last: int)
    requires ClockMonotone(r, evs)
    ensures Exec(r, evs).lastRound <= if evs == [] then r.lastRound else evs[|evs| - 1].now
    ensures Rounds(r, evs, lo, hi) > 0 ==>
              && lo <= last <= hi && last <= Exec(r, evs).lastRound
              && REBROADCAST_SEC * (Rounds(r, evs, lo, hi) - 1) <= last - lo
  {
    hide Step;
    last := lo;
    if evs != [] {
      var front, e := evs[..|evs| - 1], evs[|evs| - 1];
      last := RoundsSpread(r, front, lo, hi);
      LastRoundStep(Exec(r, front), e);
      if RoundIn(Exec(r, front), e, lo, hi) {
        last := e.now;
      }
    }
  }

  /** Any window [lo, hi] of any run holds at most floor((hi - lo) / 3) + 1 rounds. */
  lemma RoundRate(r: Router, evs: seq<Event>, lo: Time, hi: int)
    requires ClockMonotone(r, evs) && lo <= hi
    ensures Rounds(r, evs, lo, hi) <= (hi - lo) / 3 + 1
  {
    var last := RoundsSpread(r, evs, lo, hi);
  }

  // ---------- rounds keep coming ----------

  /** A chance to rebroadcast leaves the last round less than 3 seconds old. */
  lemma RoundNotLate(r: Router, e: Event)
    requires e.Round? && Enabled(r, e) && r.lastRound <= e.now
    requires r.cfg.hasStorage && r.peers != []
    ensures e.now - Step(r, e).router.lastRound < 3
  {
  }

  lemma PeersStay(r: Router, e: Event)
    requires r.peers != []
    ensures Step(r, e).router.peers != [] && Step(r, e).router.cfg == r.cfg
  {
  }

  lemma {:induction false} ConnectedRun(r: Router, evs: seq<Event>, i: nat)
    requires r.peers != [] && i <= |evs|
    ensures Before(r, evs, i).peers != [] && Before(r, evs, i).cfg == r.cfg
  {
    hide Step;
    hide Exec;
    if i == 0 {
      NoEvents(r, evs);
    } else {
      ConnectedRun(r, evs, i - 1);
      RunStep(r, evs, i - 1);
      PeersStay(Before(r, evs, i - 1), evs[i - 1]);
    }
  }

  lemma NoEvents(r: Router, evs: seq<Event>)
    ensures Before(r, evs, 0) == r
  {
    assert evs[..0] == [];
  }

  /** The last round never lies in the future and never moves back. */
  lemma {:induction false} LastRoundGrows(r: Router, evs: seq<Event>, a: nat, b: nat)
    requires ClockMonotone(r, evs) && a <= b <= |evs|
    ensures Before(r, evs, a).lastRound <= Before(r, evs, b).lastRound
    ensures forall j :: b <= j < |evs| ==> Before(r, evs, b).lastRound <= evs[j].now
    decreases b
  {
    hide Step;
    hide Exec;
    if b == 0 {
      NoEvents(r, evs);
    } else {
      LastRoundGrows(r, evs, if a < b then a else b - 1, b - 1);
      RunStep(r, evs, b - 1);
      LastRoundStep(Before(r, evs, b - 1), evs[b - 1]);
    }
  }

  /** Within `d` seconds of a chance to rebroadcast, the last round is less than 3 + d seconds old. */
  lemma RoundRecent(r: Router, evs: seq<Event>, c: nat, e: nat, d: nat)
    requires ClockMonotone(r, evs) && r.cfg.hasStorage && r.peers != [] && c < e < |evs|
    requires evs[c].Round? && Enabled(Before(r, evs, c), evs[c])
    requires evs[e].now - evs[c].now <= d
    ensures evs[e].now - Before(r, evs, e).lastRound < 3 + d
  {
    hide Step;
    hide Exec;
    hide Enabled;
    ConnectedRun(r, evs, c);
    LastRoundGrows(r, evs, c, c);
    RunStep(r, evs, c);
    RoundNotLate(Before(r, evs, c), evs[c]);
    LastRoundGrows(r, evs, c + 1, e);
  }

  predicate HeldAt(r: Router, evs: seq<Event>, i: nat)
    requires i < |evs|
  {
    evs[i].Round? && RoundHeld(Before(r, evs, i), evs[i].picks, evs[i].now)
  }

  lemma {:induction false} LastRoundKept(r: Router, evs: seq<Event>, i: nat, j: nat)
    requires i < j <= |evs| && HeldAt(r, evs, i) && forall k :: i < k < j ==> !HeldAt(r, evs, k)
    ensures Before(r, evs, j).lastRound == evs[i].now
    decreases j
  {
    hide Step;
    hide Exec;
    hide RoundHeld;
    RunStep(r, evs, j - 1);
    LastRoundStep(Before(r, evs, j - 1), evs[j - 1]);
    if i < j - 1 {
      LastRoundKept(r, evs, i, j - 1);
      assert !HeldAt(r, evs, j - 1);
    }
  }

  /**
   * Two successive rounds are less than 3 + d seconds apart if the second comes within `d` seconds of a chance
   * not before the first.
   */
  lemma RoundsKeepComing(r: Router, evs: seq<Event>, i: nat, c: nat, j: nat, d: nat)
    requires ClockMonotone(r, evs) && r.cfg.hasStorage && r.peers != [] && i <= c < j < |evs|
    requires HeldAt(r, evs, i) && HeldAt(r, evs, j) && forall k :: i < k < j ==> !HeldAt(r, evs, k)
    requires evs[c].Round? && Enabled(Before(r, evs, c), evs[c]) && evs[j].now - evs[c].now <= d
    ensures evs[j].now - evs[i].now < 3 + d
  {
    hide Exec;
    hide HeldAt;
    hide Enabled;
    RoundRecent(r, evs, c, j, d);
    LastRoundKept(r, evs, i, j);
  }

  // ---------- how often one row is replayed ----------

  /** Event `e` replays the row of `u` that expires at `expiry`. */
  predicate Replays(r: Router, e: Event, u: Uuid, expiry: nat) {
    e.Round? && RoundHeld(r, e.picks, e.now) && u in r.rows && r.rows[u].expiresAt == expiry && e.now <= expiry
  }

  function ReplayCount(r: Router, evs: seq<Event>, u: Uuid, expiry: nat): nat
  {
    if evs == [] then 0
    else
      var front := evs[..|evs| - 1];
      ReplayCount(r, front, u, expiry) + if Replays(Exec(r, front), evs[|evs| - 1], u, expiry) then 1 else 0
  }

  function CountFor(sends: seq<Send>, u: Uuid): nat {
    if sends == [] then 0
    else CountFor(sends[..|sends| - 1], u) + if UuidOf(sends[|sends| - 1].data) == Some(u) then 1 else 0
  }

  /** The successful sends that those replays make for `u`. */
  function ReplaySends(r: Router, evs: seq<Event>, u: Uuid, expiry: nat): nat
  {
    if evs == [] then 0
    else
      var front, e := evs[..|evs| - 1], evs[|evs| - 1];
      ReplaySends(r, front, u, expiry)
      + if Replays(Exec(r, front), e, u, expiry) then CountFor(Step(Exec(r, front), e).sends, u) else 0
  }

  /** No row outlives the present by more than the retention period. */
  predicate RowsFromThePast(r: Router, now: Time) {
    forall u :: u in r.rows ==> r.rows[u].expiresAt <= now + RETENTION
  }

  lemma RowsFromThePastStep(r: Router, e: Event, t: Time)
    requires RowsFromThePast(r, t) && t <= e.now
    ensures RowsFromThePast(Step(r, e).router, e.now)
  {
  }

  lemma {:induction false} RowsFromThePastRun(r: Router, evs: seq<Event>, t: Time) returns (now: Time)
    requires ClockMonotone(r, evs)
    requires RowsFromThePast(r, t) && forall i :: 0 <= i < |evs| ==> t <= evs[i].now
    ensures now == (if evs == [] then t else evs[|evs| - 1].now) && RowsFromThePast(Exec(r, evs), now)
  {
    hide Step;
    hide RowsFromThePast;
    now := t;
    if evs != [] {
      var front := evs[..|evs| - 1];
      var before := RowsFromThePastRun(r, front, t);
      now := evs[|evs| - 1].now;
      RowsFromThePastStep(Exec(r, front), evs[|evs| - 1], before);
    }
  }

  lemma {:induction false} ReplaysAreRounds(r: Router, evs: seq<Event>, u: Uuid, expiry: nat, t: Time)
    requires ClockMonotone(r, evs) && expiry >= RETENTION
    requires expiry - RETENTION < 0x7FFF_FFFF_FFFF_FFFF - 259200
    requires RowsFromThePast(r, t) && forall i :: 0 <= i < |evs| ==> t <= evs[i].now
    ensures ReplayCount(r, evs, u, expiry) <= Rounds(r, evs, expiry - RETENTION, expiry)
  {
    hide Step;
    if evs != [] {
      var front, e := evs[..|evs| - 1], evs[|evs| - 1];
      ReplaysAreRounds(r, front, u, expiry, t);
      var now := RowsFromThePastRun(r, front, t);
      assert now <= e.now;
      assert Replays(Exec(r, front), e, u, expiry) ==> RoundIn(Exec(r, front), e, expiry - RETENTION, expiry);
    }
  }

  // ---------- sends per replay ----------

  lemma {:induction false} CountSplit(a: seq<Send>, b: seq<Send>, u: Uuid)
    ensures CountFor(a + b, u) == CountFor(a, u) + CountFor(b, u)
  {
    if b == [] {
      assert a + b == a;
    } else {
      CountSplit(a, b[..|b| - 1], u);
      assert (a + b)[..|a + b| - 1] == a + b[..|b| - 1];
    }
  }

  lemma {:induction false} CountBounds(sends: seq<Send>, u: Uuid)
    ensures CountFor(sends, u) <= |sends|
    ensures (forall i :: 0 <= i < |sends| ==> UuidOf(sends[i].data) != Some(u)) ==> CountFor(sends, u) == 0
  {
    if sends != [] {
      CountBounds(sends[..|sends| - 1], u);
    }
  }

  lemma {:induction false} RoundCount(r: Router, picks: seq<Pick>, u: Uuid)
    requires forall j :: 0 <= j < |picks| ==> picks[j].uuid in r.rows
    requires forall i, j :: 0 <= i < j < |picks| ==> picks[i].uuid != picks[j].uuid
    ensures CountFor(RoundSends(r, picks), u) <= r.cfg.fanout
    ensures (forall i :: 0 <= i < |picks| ==> picks[i].uuid != u) ==> CountFor(RoundSends(r, picks), u) == 0
  {
    if picks != [] {
      var front, last := picks[..|picks| - 1], picks[|picks| - 1];
      RoundCount(r, front, u);
      var m := Reload(last.uuid, r.rows[last.uuid]);
      var out := Broadside(r, Encode(m), last.up);
      CountSplit(RoundSends(r, front), out, u);
      CountBounds(out, u);
      UuidOfEncode(m);
    }
  }

  lemma ReplaySendsStep(s: Router, e: Event, u: Uuid, expiry: nat)
    requires Replays(s, e, u, expiry)
    ensures CountFor(Step(s, e).sends, u) <= s.cfg.fanout
  {
    RoundCount(s, e.picks, u);
  }

  function Times(n: nat, k: nat): nat { n * k }

  lemma TimesNext(n: nat, k: nat)
    ensures Times(n + 1, k) == Times(n, k) + k
  {
  }

  lemma TimesBound(n: nat, limit: nat, k: nat)
    requires n <= limit
    ensures Times(n, k) <= limit * k
  {
  }

  lemma ReplayLast(r: Router, evs: seq<Event>, u: Uuid, expiry: nat)
    requires evs != []
    ensures var front, e := evs[..|evs| - 1], evs[|evs| - 1];
            && (if Replays(Exec(r, front), e, u, expiry) then
                  && ReplayCount(r, evs, u, expiry) == ReplayCount(r, front, u, expiry) + 1
                  && ReplaySends(r, evs, u, expiry) ==
                     ReplaySends(r, front, u, expiry) + CountFor(Step(Exec(r, front), e).sends, u)
                else
                  && ReplayCount(r, evs, u, expiry) == ReplayCount(r, front, u, expiry)
                  && ReplaySends(r, evs, u, expiry) == ReplaySends(r, front, u, expiry))
  {
    hide Step;
    hide CountFor;
  }

  lemma {:induction false} ReplaySendsBound(r: Router, evs: seq<Event>, u: Uuid, expiry: nat)
    ensures ReplaySends(r, evs, u, expiry) <= Times(ReplayCount(r, evs, u, expiry), r.cfg.fanout)
  {
    hide Exec;
    hide Step;
    hide Replays;
    hide CountFor;
    hide Times;
    if evs == [] {
    } else {
      var front, e := evs[..|evs| - 1], evs[|evs| - 1];
      ReplayLast(r, evs, u, expiry);
      ReplaySendsBound(r, front, u, expiry);
      SeenLaws.CfgFixed(r, front);
      if Replays(Exec(r, front), e, u, expiry) {
        ReplaySendsStep(Exec(r, front), e, u, expiry);
        TimesNext(ReplayCount(r, front, u, expiry), r.cfg.fanout);
      }
    }
  }

  lemma ReplayBoundFrom(r: Router, evs: seq<Event>, u: Uuid, expiry: nat, t: Time)
    requires ClockMonotone(r, evs)
    requires RETENTION <= expiry < 0x7FFF_FFFF_FFFF_FFFF
    requires RowsFromThePast(r, t) && forall i :: 0 <= i < |evs| ==> t <= evs[i].now
    ensures ReplayCount(r, evs, u, expiry) <= 86401
    ensures ReplaySends(r, evs, u, expiry) <= 86401 * r.cfg.fanout
  {
    hide ReplayCount;
    hide ReplaySends;
    hide Rounds;
    hide Times;
    hide ClockMonotone;
    hide RowsFromThePast;
    ReplaysAreRounds(r, evs, u, expiry, t);
    RoundRate(r, evs, expiry - RETENTION, expiry);
    ReplaySendsBound(r, evs, u, expiry);
    TimesBound(ReplayCount(r, evs, u, expiry), 86401, r.cfg.fanout);
  }

  /** One stored row is replayed in at most 86401 rounds, with at most 86401 * fanout successful sends. */
  lemma ReplayBound(cfg: Config, cap: nat, evs: seq<Event>, u: Uuid, expiry: nat)
    requires cap >= 1
    requires ClockMonotone(Fresh(cfg, cap), evs)
    requires RETENTION <= expiry < 0x7FFF_FFFF_FFFF_FFFF
    ensures ReplayCount(Fresh(cfg, cap), evs, u, expiry) <= 86401
    ensures ReplaySends(Fresh(cfg, cap), evs, u, expiry) <= 86401 * cfg.fanout
  {
    hide ReplayCount;
    hide ReplaySends;
    var r := Fresh(cfg, cap);
    assert RowsFromThePast(r, 0);
    ReplayBoundFrom(r, evs, u, expiry, 0);
  }
}
