/** The mesh router as the program has it: one object, updated in place. */
module MeshRouter {
  import opened Types
  import opened Codec
  import opened RouterSpec
  import opened OperationLaws
  import Dedup
  import DedupLaws
  import Store

  /** Running `evs` from `r0` ends in `r1`, having sent and delivered exactly this. */
  predicate Ran(r0: Router, evs: seq<Event>, r1: Router, sends: seq<Send>, delivered: seq<Message>) {
    && AllEnabled(r0, evs)
    && r1 == Exec(r0, evs)
    && sends == SendsOf(r0, evs)
    && delivered == DeliveredBy(r0, evs)
  }

  lemma RanOne(r0: Router, evs: seq<Event>, r1: Router, sends: seq<Send>, delivered: seq<Message>,
               e: Event, eff: Effect)
    requires Ran(r0, evs, r1, sends, delivered)
    requires Enabled(r1, e) && Step(r1, e) == eff
    ensures Ran(r0, evs + [e], eff.router, sends + eff.sends, delivered + eff.delivered)
  {
    assert (evs + [e])[..|evs|] == evs;
  }

  // The three phases of a tick that take no input from the transport.

  lemma RanSweep(r: Router, now: Time)
    ensures Ran(r, [SweepCache(now)], r.(dedup := Dedup.Sweep(r.dedup, now, r.cfg.maxAge)), [], [])
  {
    RanOne(r, [], r, [], [], SweepCache(now), Step(r, SweepCache(now)));
    assert [] + [SweepCache(now)] == [SweepCache(now)];
  }

  lemma RanRound(r0: Router, evs: seq<Event>, r1: Router, sends: seq<Send>, delivered: seq<Message>,
                 picks: seq<Pick>, now: Time)
    requires Ran(r0, evs, r1, sends, delivered)
    requires RoundDue(r1, now) ==> PicksPending(r1, picks, now)
    ensures var eff := RoundEffect(r1, picks, now);
            Ran(r0, evs + [Round(picks, now)], eff.router, sends + eff.sends, delivered)
  {
    RanOne(r0, evs, r1, sends, delivered, Round(picks, now), RoundEffect(r1, picks, now));
    assert delivered + [] == delivered;
  }

  lemma RanExpire(r0: Router, evs: seq<Event>, r1: Router, sends: seq<Send>, delivered: seq<Message>, now: Time)
    requires Ran(r0, evs, r1, sends, delivered)
    ensures Ran(r0, evs + [Expire(now)],
                if r1.cfg.hasStorage then r1.(rows := Store.Evict(r1.rows, now)) else r1, sends, delivered)
  {
    RanOne(r0, evs, r1, sends, delivered, Expire(now), Step(r1, Expire(now)));
    assert delivered + [] == delivered && sends + [] == sends;
  }

  /** `i` reads have been drained so far. */
  predicate DrainedSoFar(incoming: seq<Read>, i: nat) {
    i <= |incoming| && Drained(incoming) == incoming[..i] + Drained(incoming[i..])
  }

  lemma DrainedNext(incoming: seq<Read>, i: nat)
    requires DrainedSoFar(incoming, i) && i < |incoming| && |incoming[i].data| > 0
    ensures DrainedSoFar(incoming, i + 1)
  {
    assert incoming[i..][1..] == incoming[i + 1..];
    assert incoming[..i + 1] == incoming[..i] + [incoming[i]];
  }

  lemma ArrivalsExtend(evs: seq<Event>, frames: seq<Read>, i: nat)
    requires i < |frames|
    ensures evs + Arrivals(frames[..i + 1])
            == evs + Arrivals(frames[..i]) + [Receive(frames[i].data, frames[i].now, frames[i].up)]
  {
  }

  // ---------- what draining does, read by read ----------

  /** `trace` holds the router before the first read and after each read that was handled. */
  predicate Handles(trace: seq<Router>, incoming: seq<Read>) {
    && 1 <= |trace| <= |incoming| + 1
    && forall i :: 0 <= i < |trace| - 1 ==>
         && incoming[i].data != []
         && trace[i + 1] == ReceiveEffect(trace[i], incoming[i].data, incoming[i].now, incoming[i].up).router
  }

  /** `slot` was written when one of the first `n` reads was taken as new. */
  predicate Written(slot: Dedup.Slot, incoming: seq<Read>, n: nat) {
    exists i :: 0 <= i < n && i < |incoming| && Brought(slot, incoming[i])
  }

  predicate Brought(slot: Dedup.Slot, read: Read) {
    Decode(read.data).Accept? && slot == Dedup.Slot(Decode(read.data).msg.uuid, read.now, true)
  }

  /** Compared with `r0`, every row is still there and every slot is as it was or newly written. */
  predicate OnlyAdds(r0: Router, r1: Router, incoming: seq<Read>, n: nat) {
    && r1 == r0.(dedup := r1.dedup, rows := r1.rows) && |r1.dedup| == |r0.dedup|
    && (forall u :: u in r0.rows ==> u in r1.rows && r1.rows[u] == r0.rows[u])
    && forall k :: 0 <= k < |r0.dedup| ==> r1.dedup[k] == r0.dedup[k] || Written(r1.dedup[k], incoming, n)
  }

  lemma ReceiveOnlyAdds(r: Router, read: Read)
    ensures var r1 := ReceiveEffect(r, read.data, read.now, read.up).router;
            && r1 == r.(dedup := r1.dedup, rows := r1.rows) && |r1.dedup| == |r.dedup|
            && (forall u :: u in r.rows ==> u in r1.rows && r1.rows[u] == r.rows[u])
            && (forall k :: 0 <= k < |r.dedup| ==> r1.dedup[k] == r.dedup[k] || Brought(r1.dedup[k], read))
            && (Decode(read.data).Accept? ==> Dedup.Contains(r1.dedup, Decode(read.data).msg.uuid))
  {
    hide Decode;
    hide Encode;
    hide Dedup.Contains;
    hide Dedup.Target;
    if Decode(read.data).Accept? {
      DedupLaws.InsertedIsFound(r.dedup, Decode(read.data).msg.uuid, read.now, r.cfg.maxAge);
    }
  }

  lemma AddsMore(r0: Router, r1: Router, incoming: seq<Read>, n: nat)
    requires OnlyAdds(r0, r1, incoming, n) && n < |incoming|
    ensures var r2 := ReceiveEffect(r1, incoming[n].data, incoming[n].now, incoming[n].up).router;
            OnlyAdds(r0, r2, incoming, n + 1)
  {
    hide ReceiveEffect;
    hide Brought;
    ReceiveOnlyAdds(r1, incoming[n]);
    var r2 := ReceiveEffect(r1, incoming[n].data, incoming[n].now, incoming[n].up).router;
    forall k | 0 <= k < |r0.dedup| ensures r2.dedup[k] == r0.dedup[k] || Written(r2.dedup[k], incoming, n + 1) {
      if Brought(r2.dedup[k], incoming[n]) {
        assert Written(r2.dedup[k], incoming, n + 1);
      }
    }
  }

  lemma HandlesMore(trace: seq<Router>, incoming: seq<Read>, r: Router)
    requires Handles(trace, incoming) && |trace| <= |incoming|
    requires var read := incoming[|trace| - 1];
             read.data != [] && r == ReceiveEffect(trace[|trace| - 1], read.data, read.now, read.up).router
    ensures Handles(trace + [r], incoming)
  {
    hide ReceiveEffect;
  }

  /** Every readable frame is found by lookup right after it was handled. */
  lemma TraceFound(trace: seq<Router>, incoming: seq<Read>)
    requires Handles(trace, incoming)
    ensures |trace| >= 1 && |trace| - 1 <= |incoming|
    ensures forall i :: 0 <= i < |trace| - 1 && Decode(incoming[i].data).Accept? ==>
              Dedup.Contains(trace[i + 1].dedup, Decode(incoming[i].data).msg.uuid)
  {
    hide ReceiveEffect;
    hide Decode;
    hide Dedup.Contains;
    forall i | 0 <= i < |trace| - 1 && Decode(incoming[i].data).Accept?
      ensures Dedup.Contains(trace[i + 1].dedup, Decode(incoming[i].data).msg.uuid)
    {
      ReceiveOnlyAdds(trace[i], incoming[i]);
    }
  }

  lemma DrainStart(r: Router, incoming: seq<Read>)
    ensures Handles([r], incoming) && OnlyAdds(r, r, incoming, 0)
  {
  }

  /** The walk over the table has reached position `i` with these peers taken. */
  predicate WalkedTo(all: seq<Peer>, up: set<PubKey>, fanout: nat, i: nat, taken: seq<PubKey>) {
    && i <= |all| && |taken| <= fanout
    && taken + Chosen(all[i..], up, fanout - |taken|) == Chosen(all, up, fanout)
  }

  lemma WalkStep(all: seq<Peer>, up: set<PubKey>, fanout: nat, i: nat, taken: seq<PubKey>)
    requires WalkedTo(all, up, fanout, i, taken) && i < |all| && |taken| < fanout
    ensures WalkedTo(all, up, fanout, i + 1, if all[i].pubkey in up then taken + [all[i].pubkey] else taken)
  {
    assert all[i..][1..] == all[i + 1..];
    if all[i].pubkey in up {
      var rest := Chosen(all[i + 1..], up, fanout - |taken| - 1);
      assert taken + ([all[i].pubkey] + rest) == taken + [all[i].pubkey] + rest;
    }
  }

  lemma WalkStart(all: seq<Peer>, up: set<PubKey>, fanout: nat)
    ensures WalkedTo(all, up, fanout, 0, [])
  {
    assert all[0..] == all;
  }

  lemma WalkEnd(all: seq<Peer>, up: set<PubKey>, fanout: nat, i: nat, taken: seq<PubKey>)
    requires WalkedTo(all, up, fanout, i, taken) && (i == |all| || |taken| == fanout)
    ensures taken == Chosen(all, up, fanout)
  {
  }

  lemma UpsertKnown(all: seq<Peer>, p: Peer, now: Time, i: nat)
    requires i < |all| && all[i].pubkey == p.pubkey && forall j :: 0 <= j < i ==> all[j].pubkey != p.pubkey
    ensures Upsert(all, p, now) == all[i := p.(lastSeen := now)]
  {
  }

  lemma UpsertNew(all: seq<Peer>, p: Peer, now: Time)
    requires forall j :: 0 <= j < |all| ==> all[j].pubkey != p.pubkey
    ensures Upsert(all, p, now) == if |all| < MAX_PEERS then all + [p] else all
  {
  }

  lemma RoundSendsExtend(r: Router, picks: seq<Pick>, p: Pick)
    requires forall i :: 0 <= i < |picks| ==> picks[i].uuid in r.rows
    requires p.uuid in r.rows
    ensures RoundSends(r, picks + [p]) ==
            RoundSends(r, picks) + Broadside(r, Encode(Store.Reload(p.uuid, r.rows[p.uuid])), p.up)
  {
    assert (picks + [p])[..|picks|] == picks;
  }

  class MeshRouter {
    const cfg: Config
    const table: array<Dedup.Slot>
    const peers: array<Peer>
    var peerCount: nat
    const store: Store.PendingStore
    var lastRound: u64

    ghost predicate Valid()
      reads this
    {
      table.Length >= 1 && peers.Length == MAX_PEERS && peerCount <= MAX_PEERS
    }

    ghost function View(): Router
      requires Valid()
      reads this, table, peers, store
    {
      Router(cfg, table[..], peers[..peerCount], store.rows, lastRound)
    }

    constructor (cfg: Config, cap: nat, store: Store.PendingStore)
      requires cap >= 1
      ensures Valid() && fresh(table) && fresh(peers) && this.store == store
      ensures View() == Fresh(cfg, cap).(rows := store.rows)
      ensures this.cfg == cfg && table.Length == cap && forall k :: 0 <= k < cap ==> !table[k].occupied
      ensures peerCount == 0 && lastRound == 0
    {
      this.cfg := cfg;
      this.store := store;
      table := new Dedup.Slot[cap](_ => Dedup.Slot(seq(16, _ => 0), 0, false));
      peers := new Peer[MAX_PEERS](_ => Peer(seq(32, _ => 0), 0, Ble, 0));
      peerCount := 0;
      lastRound := 0;
      new;
      assert table[..] == Dedup.Empty(cap);
      assert peers[..0] == [];
    }

    /** Walks the table in order until `fanout` sends have succeeded. */
    method ForwardToPeers(data: bytes, up: set<PubKey>) returns (code: Code, sends: seq<Send>)
      requires Valid()
      ensures sends == Broadside(View(), data, up)
      ensures code == if sends == [] then Transport else Ok
    {
      hide WalkedTo;
      hide Chosen;
      if !cfg.hasTransport {
        return Transport, [];
      }
      ghost var all := peers[..peerCount];
      var taken: seq<PubKey> := [];
      var i := 0;
      WalkStart(all, up, cfg.fanout);
      while i < peerCount && |taken| < cfg.fanout
        invariant 0 <= i <= peerCount && |taken| <= cfg.fanout
        invariant WalkedTo(all, up, cfg.fanout, i, taken)
      {
        WalkStep(all, up, cfg.fanout, i, taken);
        if peers[i].pubkey in up {
          taken := taken + [peers[i].pubkey];
        }
        i := i + 1;
      }
      WalkEnd(all, up, cfg.fanout, i, taken);
      sends := Address(taken, data);
      code := if |taken| > 0 then Ok else Transport;
    }

    /** Serialises into a buffer of the needed size and forwards what was written. */
    method SerializeAndForward(m: Message, up: set<PubKey>) returns (sends: seq<Send>)
      requires Valid()
      ensures sends == Broadside(View(), Encode(m), up)
    {
      var needed := HEADER + |m.payload|;
      var buf := new byte[needed];
      var code, len := Serialize(m, buf);
      var rc;
      rc, sends := ForwardToPeers(buf[..len], up);
    }

    method Broadcast(m: Message, now: Time, up: set<PubKey>) returns (code: Code, sends: seq<Send>)
      requires Valid()
      requires cfg.hasStorage ==> |m.payload| <= Store.INT_MAX
      modifies table, store
      ensures Valid()
      ensures var eff := BroadcastEffect(old(View()), m, now, up);
              View() == eff.router && code == eff.code && sends == eff.sends
      ensures code == Ok
      ensures sends == Address(Reached(old(View()), up), Encode(m))
    {
      hide Encode;
      hide Reached;
      BroadcastAnswer(View(), m, now, up);
      Dedup.DedupInsert(table, m.uuid, now, cfg.maxAge);
      sends := SerializeAndForward(m, up);
      if cfg.hasStorage {
        store.StoreMessage(m, now);
      }
      code := Ok;
    }

    method Receive(data: bytes, now: Time, up: set<PubKey>)
      returns (code: Code, sends: seq<Send>, delivered: seq<Message>)
      requires Valid()
      requires cfg.hasStorage ==> |data| <= Store.INT_MAX
      modifies table, store
      ensures Valid()
      ensures ReceiveEffect(old(View()), data, now, up) == Effect(View(), code, sends, delivered)
      ensures Decode(data).Accept? && Decode(data).msg.receiver == cfg.me ==>
                store.rows == old(store.rows) && sends == []
    {
      hide Decode;
      hide Encode;
      hide Chosen;
      hide Dedup.Contains;
      hide Dedup.Insert;
      hide MarkedOnly;
      AcceptExactly(data);
      if Decode(data).Accept? && Decode(data).msg.receiver == cfg.me {
        AddresseeAnswer(View(), data, now, up);
      }
      sends, delivered := [], [];
      if |data| == 0 {
        return Invalid, sends, delivered;
      }
      var r := Deserialize(data);
      if !r.Accept? {
        return Invalid, sends, delivered;
      }
      var m := r.msg;
      EncodeDecode(data);
      var seen := Dedup.DedupContains(table, m.uuid);
      if seen {
        return Duplicate, sends, delivered;
      }
      Dedup.DedupInsert(table, m.uuid, now, cfg.maxAge);
      if m.ttl == 0 {
        return TtlExpired, sends, delivered;
      }
      m := m.(ttl := m.ttl - 1);
      if m.receiver == cfg.me {
        if cfg.hasCallback {
          delivered := [m];
        }
        return Ok, sends, delivered;
      }
      if cfg.hasStorage {
        store.StoreMessage(m, now);
      }
      sends := SerializeAndForward(m, up);
      code := Ok;
    }

    method AddPeer(p: Peer, now: Time)
      requires Valid()
      modifies peers, this`peerCount
      ensures Valid()
      ensures View() == Step(old(View()), Event.AddPeer(p, now)).router
    {
      hide Upsert;
      ghost var all := peers[..peerCount];
      for i := 0 to peerCount
        invariant peers[..peerCount] == all
        invariant forall j :: 0 <= j < i ==> all[j].pubkey != p.pubkey
      {
        if peers[i].pubkey == p.pubkey {
          UpsertKnown(all, p, now, i);
          peers[i] := p;
          peers[i] := peers[i].(lastSeen := now);
          assert peers[..peerCount] == all[i := p.(lastSeen := now)];
          return;
        }
      }
      UpsertNew(all, p, now);
      if peerCount < MAX_PEERS {
        peers[peerCount] := p;
        peerCount := peerCount + 1;
        assert peers[..peerCount] == all + [p];
      }
    }

    /** The rebroadcast loop: one serialise-and-forward per reloaded row, in the order returned. */
    method SendAll(msgs: seq<Message>, up: Uuid -> set<PubKey>) returns (picks: seq<Pick>, sends: seq<Send>)
      requires Valid()
      requires forall i :: 0 <= i < |msgs| ==>
                 msgs[i].uuid in store.rows && msgs[i] == Store.Reload(msgs[i].uuid, store.rows[msgs[i].uuid])
      ensures |picks| == |msgs|
      ensures forall i :: 0 <= i < |msgs| ==> picks[i] == Pick(msgs[i].uuid, up(msgs[i].uuid))
      ensures sends == RoundSends(View(), picks)
    {
      hide Encode;
      hide Broadside;
      picks, sends := [], [];
      for j := 0 to |msgs|
        invariant |picks| == j
        invariant forall i :: 0 <= i < j ==> picks[i] == Pick(msgs[i].uuid, up(msgs[i].uuid))
        invariant sends == RoundSends(View(), picks)
      {
        var reachable := up(msgs[j].uuid);
        var out := SerializeAndForward(msgs[j], reachable);
        RoundSendsExtend(View(), picks, Pick(msgs[j].uuid, reachable));
        picks, sends := picks + [Pick(msgs[j].uuid, reachable)], sends + out;
      }
    }

    /** Sends every pending row once, at most every three seconds; `up` says who can be reached for which row. */
    method Rebroadcast(now: Time, up: Uuid -> set<PubKey>) returns (picks: seq<Pick>, sends: seq<Send>)
      requires Valid()
      modifies this`lastRound
      ensures Valid()
      ensures RoundDue(old(View()), now) ==> PicksPending(old(View()), picks, now)
      ensures var eff := RoundEffect(old(View()), picks, now);
              View() == eff.router && sends == eff.sends
      ensures lastRound == if Due(old(View()), now) then now else old(lastRound)
      ensures forall u :: SendsFor(sends, u) == RoundFrames(old(View()), now, u, up(u))
    {
      hide RoundSends;
      hide SendsFor;
      hide RoundFrames;
      picks, sends := [], [];
      ghost var r := View();
      assert |r.peers| == peerCount;
      if cfg.hasStorage && peerCount > 0 && Elapsed(now, lastRound) >= REBROADCAST_SEC {
        var msgs := store.GetPending(None, now);
        picks, sends := SendAll(msgs, up);
        lastRound := now;
      }
      forall u ensures SendsFor(sends, u) == RoundFrames(r, now, u, up(u)) {
        RoundAnswer(r, picks, now, up, u);
      }
    }

    method DrainOne(data: bytes, now: Time, up: set<PubKey>, sends0: seq<Send>, delivered0: seq<Message>,
                    ghost r0: Router, ghost evs: seq<Event>)
      returns (sends: seq<Send>, delivered: seq<Message>)
      requires Valid() && |data| <= 4096
      requires Ran(r0, evs, View(), sends0, delivered0)
      modifies table, store
      ensures Valid()
      ensures Ran(r0, evs + [Event.Receive(data, now, up)], View(), sends, delivered)
      ensures View() == ReceiveEffect(old(View()), data, now, up).router
    {
      ghost var r1 := View();
      var code, out, got := Receive(data, now, up);
      RanOne(r0, evs, r1, sends0, delivered0, Event.Receive(data, now, up), Effect(View(), code, out, got));
      sends, delivered := sends0 + out, delivered0 + got;
    }

    /** Receives whatever the transport has queued, stopping at the first empty read. */
    method Drain(incoming: seq<Read>, ghost r0: Router, ghost evs0: seq<Event>)
      returns (sends: seq<Send>, delivered: seq<Message>, ghost trace: seq<Router>)
      requires Valid()
      requires forall i :: 0 <= i < |incoming| ==> |incoming[i].data| <= 4096
      requires Ran(r0, evs0, View(), [], [])
      modifies table, store
      ensures Valid()
      ensures Ran(r0, evs0 + Arrivals(Drained(incoming)), View(), sends, delivered)
      ensures Handles(trace, incoming) && trace[0] == old(View()) && trace[|trace| - 1] == View()
      ensures |trace| - 1 == |incoming| || incoming[|trace| - 1].data == []
      ensures OnlyAdds(old(View()), View(), incoming, |trace| - 1)
    {
      hide Ran;
      hide Handles;
      hide OnlyAdds;
      hide ReceiveEffect;
      sends, delivered := [], [];
      ghost var evs := evs0;
      var i := 0;
      assert evs0 + Arrivals(incoming[..0]) == evs0;
      trace := [View()];
      DrainStart(View(), incoming);
      while i < |incoming| && |incoming[i].data| > 0
        invariant Valid() && i <= |incoming| && DrainedSoFar(incoming, i)
        invariant evs == evs0 + Arrivals(incoming[..i])
        invariant Ran(r0, evs, View(), sends, delivered)
        invariant |trace| == i + 1 && trace[0] == old(View()) && trace[i] == View() && Handles(trace, incoming)
        invariant OnlyAdds(old(View()), View(), incoming, i)
      {
        AddsMore(old(View()), View(), incoming, i);
        sends, delivered := DrainOne(incoming[i].data, incoming[i].now, incoming[i].up, sends, delivered, r0, evs);
        ArrivalsExtend(evs0, incoming, i);
        DrainedNext(incoming, i);
        HandlesMore(trace, incoming, View());
        evs := evs + [Event.Receive(incoming[i].data, incoming[i].now, incoming[i].up)];
        trace := trace + [View()];
        i := i + 1;
      }
      assert Drained(incoming) == incoming[..i];
    }

    /**
     * The maintenance tick is exactly a sweep, the queued receives, a round and an expiry, in that order. In
     * plain terms: no expired row is left and no other is lost; what the cache holds was fresh at the sweep or
     * arrived in this tick; each readable frame before the first empty read is found right after it was handled;
     * and a due round, after all reads, offers every pending row.
     */
    method Tick(sweptAt: Time, incoming: seq<Read>, roundAt: Time, up: Uuid -> set<PubKey>, expiredAt: Time)
      returns (picks: seq<Pick>, sends: seq<Send>, delivered: seq<Message>,
               ghost trace: seq<Router>, ghost relayed: seq<Send>, ghost replayed: seq<Send>)
      requires Valid()
      requires forall i :: 0 <= i < |incoming| ==> |incoming[i].data| <= 4096
      modifies table, store, this`lastRound
      ensures Valid()
      ensures Ran(old(View()), TickEvents(cfg, sweptAt, incoming, picks, roundAt, expiredAt), View(), sends, delivered)
      // the sweep comes first, then the reads up to the first empty one
      ensures Handles(trace, incoming)
      ensures trace[0] == old(View()).(dedup := Dedup.Sweep(old(table[..]), sweptAt, cfg.maxAge))
      ensures if cfg.hasTransport then |trace| - 1 == |incoming| || incoming[|trace| - 1].data == [] else |trace| == 1
      ensures forall i :: 0 <= i < |trace| - 1 && Decode(incoming[i].data).Accept? ==>
                Dedup.Contains(trace[i + 1].dedup, Decode(incoming[i].data).msg.uuid)
      // the cache
      ensures table[..] == trace[|trace| - 1].dedup
      ensures forall k :: 0 <= k < table.Length && table[k].occupied ==>
                || (table[k] == old(table[k]) && !Dedup.Aged(table[k], sweptAt, cfg.maxAge))
                || Written(table[k], incoming, |trace| - 1)
      // the round, with what the reads brought
      ensures sends == relayed + replayed
      ensures lastRound == if Due(trace[|trace| - 1], roundAt) then roundAt else old(lastRound)
      ensures forall u :: SendsFor(replayed, u) == RoundFrames(trace[|trace| - 1], roundAt, u, up(u))
      // the expiry
      ensures forall u :: u in store.rows <==>
                && u in trace[|trace| - 1].rows
                && (cfg.hasStorage ==> trace[|trace| - 1].rows[u].expiresAt >= expiredAt)
      ensures forall u :: u in store.rows ==> store.rows[u] == trace[|trace| - 1].rows[u]
      ensures cfg.hasStorage ==> forall u :: u in store.rows ==> store.rows[u].expiresAt >= expiredAt
      ensures forall u :: u in old(store.rows) && old(store.rows)[u].expiresAt >= expiredAt ==>
                u in store.rows && store.rows[u] == old(store.rows)[u]
    {
      hide Ran;
      hide RoundEffect;
      hide PicksPending;
      hide RoundDue;
      hide Handles;
      hide ReceiveEffect;
      hide Decode;
      hide Due;
      hide SendsFor;
      hide RoundFrames;
      hide Written;
      hide Dedup.Contains;
      ghost var r0 := View();
      Dedup.DedupEvict(table, sweptAt, cfg.maxAge);
      RanSweep(r0, sweptAt);
      ghost var evs: seq<Event> := [SweepCache(sweptAt)];
      sends, delivered := [], [];
      ghost var swept := View();
      trace := [swept];

      if cfg.hasTransport {
        sends, delivered, trace := Drain(incoming, r0, evs);
        evs := evs + Arrivals(Drained(incoming));
      } else {
        DrainStart(swept, incoming);
        assert evs + Arrivals([]) == evs;
      }
      TraceFound(trace, incoming);
      relayed := sends;

      ghost var r2 := View();
      var out;
      picks, out := Rebroadcast(roundAt, up);
      RanRound(r0, evs, r2, sends, delivered, picks, roundAt);
      evs := evs + [Round(picks, roundAt)];
      sends := sends + out;
      replayed := out;

      RanExpire(r0, evs, View(), sends, delivered, expiredAt);
      if cfg.hasStorage {
        ghost var rows := store.rows;
        store.EvictExpired(expiredAt);
        Store.EvictedExactly(rows, store.rows, expiredAt);
      }
    }
  }
}
