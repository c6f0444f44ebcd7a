/** What each router operation answers, sends, keeps and leaves alone, told without the functions that compute it. */
module OperationLaws {
  import opened Types
  import opened Codec
  import opened RouterSpec
  import opened PeerLaws
  import opened RetentionLaws
  import Dedup
  import DedupLaws
  import SeenLaws
  import Store

  /** The peers a frame reaches: of those that accept, the first `fanout` in table order; none without a transport. */
  function Reached(r: Router, up: set<PubKey>): (keys: seq<PubKey>)
    ensures |keys| <= r.cfg.fanout
  {
    var all := Accepting(r.peers, up);
    if r.cfg.hasTransport then all[..Min(r.cfg.fanout, |all|)] else []
  }

  lemma BroadsideReaches(r: Router, data: bytes, up: set<PubKey>)
    ensures Broadside(r, data, up) == Address(Reached(r, up), data)
  {
    ForwardPicksFirst(r.peers, up, r.cfg.fanout);
  }

  /** With storage `m` is kept, without storage nothing is. */
  predicate KeptIfStorage(r: Router, r1: Router, m: Message, now: Time) {
    if r.cfg.hasStorage then Kept(r.rows, r1.rows, m, now) else r1.rows == r.rows
  }

  /** Only the cache and the rows differ, and the cache by the insertion of `u`. */
  predicate MarkedOnly(r: Router, r1: Router, u: Uuid, now: Time) {
    && r1 == r.(dedup := r1.dedup, rows := r1.rows)
    && r1.dedup == Dedup.Insert(r.dedup, u, now, r.cfg.maxAge)
    && Dedup.Contains(r1.dedup, u)
  }

  /** A broadcast succeeds whoever can be reached, even nobody. */
  lemma BroadcastAnswer(r: Router, m: Message, now: Time, up: set<PubKey>)
    ensures var eff := BroadcastEffect(r, m, now, up);
            && eff.code == Ok && eff.delivered == []
            && eff.sends == Address(Reached(r, up), Encode(m))
            && MarkedOnly(r, eff.router, m.uuid, now)
            && KeptIfStorage(r, eff.router, m, now)
  {
    hide Encode;
    hide Kept;
    hide Dedup.Insert;
    hide Dedup.Contains;
    hide Reached;
    BroadsideReaches(Mark(r, m.uuid, now), Encode(m), up);
    SameReach(r, Mark(r, m.uuid, now), up);
    DedupLaws.InsertedIsFound(r.dedup, m.uuid, now, r.cfg.maxAge);
    PutKeeps(r.rows, m, now);
  }

  lemma SameReach(r: Router, r1: Router, up: set<PubKey>)
    requires r1.peers == r.peers && r1.cfg == r.cfg
    ensures Reached(r1, up) == Reached(r, up)
  {
  }

  /** Mail for this node is never stored or passed on; a first copy with TTL left is delivered, if anyone listens. */
  lemma AddresseeAnswer(r: Router, data: bytes, now: Time, up: set<PubKey>)
    requires Decode(data).Accept? && Decode(data).msg.receiver == r.cfg.me
    ensures var eff := ReceiveEffect(r, data, now, up);
            var m := Decode(data).msg;
            var first := !Dedup.Contains(r.dedup, m.uuid);
            && eff.router.rows == r.rows && eff.sends == []
            && eff.delivered == (if first && m.ttl > 0 && r.cfg.hasCallback then [m.(ttl := m.ttl - 1)] else [])
            && eff.code == (if !first then Duplicate else if m.ttl == 0 then TtlExpired else Ok)
            && (if first then MarkedOnly(r, eff.router, m.uuid, now) else eff.router == r)
  {
    hide Decode;
    hide Dedup.Insert;
    hide Dedup.Contains;
    DedupLaws.InsertedIsFound(r.dedup, Decode(data).msg.uuid, now, r.cfg.maxAge);
  }

  /** Anyone else's first copy is kept and passed on with one TTL less, or only marked if none is left. */
  lemma RelayAnswer(r: Router, data: bytes, now: Time, up: set<PubKey>)
    requires Decode(data).Accept? && Decode(data).msg.receiver != r.cfg.me
    ensures var eff := ReceiveEffect(r, data, now, up);
            var m := Decode(data).msg;
            && eff.delivered == []
            && (if Dedup.Contains(r.dedup, m.uuid) then
                  eff.router == r && eff.code == Duplicate && eff.sends == []
                else
                  && MarkedOnly(r, eff.router, m.uuid, now)
                  && (m.ttl == 0 ==> eff.router.rows == r.rows && eff.code == TtlExpired && eff.sends == [])
                  && (m.ttl > 0 ==>
                        var relayed := m.(ttl := m.ttl - 1);
                        && eff.code == Ok && eff.sends == Address(Reached(r, up), Encode(relayed))
                        && KeptIfStorage(r, eff.router, relayed, now)))
  {
    hide Decode;
    hide Encode;
    hide Kept;
    hide Dedup.Insert;
    hide Dedup.Contains;
    hide Reached;
    var m := Decode(data).msg;
    DedupLaws.InsertedIsFound(r.dedup, m.uuid, now, r.cfg.maxAge);
    if m.ttl > 0 {
      var relayed := m.(ttl := m.ttl - 1);
      BroadsideReaches(Mark(r, m.uuid, now), Encode(relayed), up);
      SameReach(r, Mark(r, m.uuid, now), up);
      PutKeeps(r.rows, relayed, now);
    }
  }

  /** What cannot be read changes nothing. */
  lemma UnreadableAnswer(r: Router, data: bytes, now: Time, up: set<PubKey>)
    requires !Decode(data).Accept?
    ensures ReceiveEffect(r, data, now, up) == Effect(r, Invalid, [], [])
  {
    hide Decode;
  }

  // ---------- rounds ----------

  /** The sends that carry a frame of `u`. */
  function SendsFor(sends: seq<Send>, u: Uuid): seq<Send> {
    if sends == [] then []
    else
      var last := sends[|sends| - 1];
      SendsFor(sends[..|sends| - 1], u) + if UuidOf(last.data) == Some(u) then [last] else []
  }

  lemma {:induction false} SendsForSplit(a: seq<Send>, b: seq<Send>, u: Uuid)
    ensures SendsFor(a + b, u) == SendsFor(a, u) + SendsFor(b, u)
  {
    hide UuidOf;
    if b == [] {
      assert a + b == a;
    } else {
      SendsForSplit(a, b[..|b| - 1], u);
      assert (a + b)[..|a + b| - 1] == a + b[..|b| - 1];
    }
  }

  lemma {:induction false} SendsForOne(sends: seq<Send>, v: Uuid, u: Uuid)
    requires forall i :: 0 <= i < |sends| ==> UuidOf(sends[i].data) == Some(v)
    ensures SendsFor(sends, u) == if u == v then sends else []
  {
    hide UuidOf;
    if sends != [] {
      SendsForOne(sends[..|sends| - 1], v, u);
    }
  }

  /** What a round sends for one row: the stored message, to the peers within reach at its turn. */
  lemma RowFrames(r: Router, p: Pick, u: Uuid)
    requires p.uuid in r.rows
    ensures SendsFor(RowSends(r, p), u) ==
            if u == p.uuid then Address(Reached(r, p.up), Encode(Store.Reload(u, r.rows[u]))) else []
  {
    hide Encode;
    hide UuidOf;
    hide Reached;
    BroadsideReaches(r, Encode(Store.Reload(p.uuid, r.rows[p.uuid])), p.up);
    UuidOfEncode(Store.Reload(p.uuid, r.rows[p.uuid]));
    SendsForOne(RowSends(r, p), p.uuid, u);
  }

  lemma {:induction false} NotPicked(r: Router, picks: seq<Pick>, u: Uuid)
    requires forall i :: 0 <= i < |picks| ==> picks[i].uuid in r.rows && picks[i].uuid != u
    ensures SendsFor(RoundSends(r, picks), u) == []
  {
    hide Encode;
    hide UuidOf;
    hide Reached;
    hide RowSends;
    if picks != [] {
      var front, last := picks[..|picks| - 1], picks[|picks| - 1];
      NotPicked(r, front, u);
      RoundLast(r, picks);
      RowFrames(r, last, u);
      SendsForSplit(RoundSends(r, front), RowSends(r, last), u);
    }
  }

  /** A round sends exactly the stored message for a picked row, and only at that row's turn. */
  lemma {:induction false} RoundPerRow(r: Router, picks: seq<Pick>, k: nat)
    requires forall i :: 0 <= i < |picks| ==> picks[i].uuid in r.rows
    requires forall i, j :: 0 <= i < j < |picks| ==> picks[i].uuid != picks[j].uuid
    requires k < |picks|
    ensures var u := picks[k].uuid;
            SendsFor(RoundSends(r, picks), u) == Address(Reached(r, picks[k].up), Encode(Store.Reload(u, r.rows[u])))
  {
    hide Encode;
    hide UuidOf;
    hide Reached;
    hide RowSends;
    hide Address;
    hide SendsFor;
    hide RoundSends;
    var front, last, u := picks[..|picks| - 1], picks[|picks| - 1], picks[k].uuid;
    RoundLast(r, picks);
    RowFrames(r, last, u);
    SendsForSplit(RoundSends(r, front), RowSends(r, last), u);
    if k < |front| {
      RoundPerRow(r, front, k);
    } else {
      NotPicked(r, front, u);
    }
  }

  lemma RoundLast(r: Router, picks: seq<Pick>)
    requires picks != [] && forall i :: 0 <= i < |picks| ==> picks[i].uuid in r.rows
    ensures RoundSends(r, picks) == RoundSends(r, picks[..|picks| - 1]) + RowSends(r, picks[|picks| - 1])
  {
  }

  /** A round is due: there is storage, a peer, and the last round is at least three seconds back. */
  predicate Due(r: Router, now: Time) {
    r.cfg.hasStorage && r.peers != [] && Elapsed(now, r.lastRound) >= 3
  }

  /** What a round sends for `u`: its pending row as stored, to the peers in reach, and nothing for any other UUID. */
  function RoundFrames(r: Router, now: Time, u: Uuid, up: set<PubKey>): seq<Send> {
    if Due(r, now) && u in r.rows && r.rows[u].expiresAt >= now
    then Address(Reached(r, up), Encode(Store.Reload(u, r.rows[u])))
    else []
  }

  lemma RoundAnswer(r: Router, picks: seq<Pick>, now: Time, up: Uuid -> set<PubKey>, u: Uuid)
    requires Enabled(r, Round(picks, now))
    requires forall i :: 0 <= i < |picks| ==> picks[i].up == up(picks[i].uuid)
    ensures var eff := RoundEffect(r, picks, now);
            && eff.code == Ok && eff.delivered == []
            && eff.router == r.(lastRound := if Due(r, now) then now else r.lastRound)
            && SendsFor(eff.sends, u) == RoundFrames(r, now, u, up(u))
  {
    hide Encode;
    hide UuidOf;
    hide Reached;
    hide Address;
    hide RoundSends;
    if RoundDue(r, now) {
      if u in r.rows && r.rows[u].expiresAt >= now {
        var i := PickedAll(r, picks, now, u);
        RoundPerRow(r, picks, i);
      } else {
        NotPicked(r, picks, u);
      }
    }
  }

  // ---------- what stays as it is ----------

  /** The housekeeping events, and what they leave alone. */
  lemma UpkeepAnswer(r: Router, e: Event)
    requires e.AddPeer? || e.SweepCache? || e.Expire?
    ensures var eff := Step(r, e);
            && eff.code == Ok && eff.sends == [] && eff.delivered == []
            && (e.AddPeer? ==> eff.router == r.(peers := eff.router.peers))
            && (e.SweepCache? ==> eff.router == r.(dedup := eff.router.dedup))
            && (e.Expire? ==> eff.router == r.(rows := eff.router.rows))
            && (e.Expire? && r.cfg.hasStorage ==>
                  forall u :: u in eff.router.rows <==> u in r.rows && r.rows[u].expiresAt >= e.now)
  {
  }

  lemma NoStorageStep(r: Router, e: Event)
    requires !r.cfg.hasStorage
    ensures Step(r, e).router.rows == r.rows && Step(r, e).router.lastRound == r.lastRound
    ensures e.Round? ==> Step(r, e).sends == []
  {
  }

  /** Without storage no run ever stores a message or holds a round. */
  lemma {:induction false} NoStorageRun(r: Router, evs: seq<Event>)
    requires !r.cfg.hasStorage
    ensures Exec(r, evs).rows == r.rows && Exec(r, evs).lastRound == r.lastRound
  {
    hide Step;
    if evs != [] {
      NoStorageRun(r, evs[..|evs| - 1]);
      SeenLaws.CfgFixed(r, evs[..|evs| - 1]);
      NoStorageStep(Exec(r, evs[..|evs| - 1]), evs[|evs| - 1]);
    }
  }

  /** Where a row can come from: this node's own broadcast, or a relayed copy of someone else's mail. */
  lemma NewRow(r: Router, e: Event, u: Uuid)
    requires u in Step(r, e).router.rows
    ensures var row := Step(r, e).router.rows[u];
            || (u in r.rows && row == r.rows[u])
            || (e.Broadcast? && e.msg.uuid == u)
            || (e.Receive? && row.receiver != r.cfg.me)
  {
    hide Decode;
    hide Encode;
    hide Dedup.Contains;
    hide Dedup.Insert;
    hide Dedup.Sweep;
    hide Chosen;
  }
}
