/**
 * Delay-tolerant delivery: a message carried along a route of nodes that meet one after the other, each
 * handing it on from its storage in some rebroadcast round, in an otherwise arbitrary network run.
 */
module Journey {
  import opened Types
  import opened Codec
  import opened RouterSpec
  import opened Network
  import opened NodeView
  import opened RetentionLaws
  import NetworkLaws
  import Dedup
  import SeenLaws
  import Store

  /** The network just before action `i` of a run. */
  function At(s: Net, acts: seq<Action>, delay: nat, i: nat): Net
    requires i <= |acts|
  {
    NetExec(s, acts[..i], delay)
  }

  lemma ActionStep(s: Net, acts: seq<Action>, delay: nat, i: nat)
    requires i < |acts|
    ensures At(s, acts, delay, i + 1) == Apply(At(s, acts, delay, i), acts[i], delay)
  {
    hide Apply;
    assert acts[..i + 1] == acts[..i] + [acts[i]];
    NetworkLaws.OneMoreAction(s, acts[..i], acts[i], delay);
  }

  // ---------- following one frame ----------

  /** Where the frame at position `p` is after action `a`; none once it has arrived or is lost. */
  function Shift(s: Net, a: Action, delay: nat, p: nat): Option<nat> {
    if Possible(s, a, delay) && (a.Arrive? || a.Lose?) then
      if a.i == p then None else if a.i < p then Some(p - 1) else Some(p)
    else Some(p)
  }

  /** Where the frame at position `p` before action `a` is before action `b`. */
  function Track(s: Net, acts: seq<Action>, delay: nat, a: nat, b: nat, p: nat): Option<nat>
    requires a <= b <= |acts|
  {
    if a == b then Some(p)
    else match Track(s, acts, delay, a, b - 1, p)
      case None => None
      case Some(q) => Shift(At(s, acts, delay, b - 1), acts[b - 1], delay, q)
  }

  lemma ShiftKeepsFrame(s: Net, a: Action, delay: nat, p: nat)
    requires p < |s.flight| && Shift(s, a, delay, p).Some?
    ensures var q, t := Shift(s, a, delay, p).value, Apply(s, a, delay);
            q < |t.flight| && t.flight[q] == s.flight[p]
  {
    hide BroadcastEffect;
    hide ReceiveEffect;
    hide RoundEffect;
    hide Step;
    hide Launch;
    hide NewTrails;
    hide UuidOf;
    hide Clip;
  }

  lemma {:induction false} TrackKeepsFrame(s: Net, acts: seq<Action>, delay: nat, a: nat, b: nat, p: nat)
    requires a <= b <= |acts| && p < |At(s, acts, delay, a).flight|
    requires Track(s, acts, delay, a, b, p).Some?
    ensures var q, t := Track(s, acts, delay, a, b, p).value, At(s, acts, delay, b);
            q < |t.flight| && t.flight[q] == At(s, acts, delay, a).flight[p]
    decreases b
  {
    hide Shift;
    hide At;
    if a < b {
      TrackKeepsFrame(s, acts, delay, a, b - 1, p);
      ActionStep(s, acts, delay, b - 1);
      ShiftKeepsFrame(At(s, acts, delay, b - 1), acts[b - 1], delay, Track(s, acts, delay, a, b - 1, p).value);
    }
  }

  // ---------- a row waits for its round ----------

  /** Node `x` holds `m`, with `ttl` left, in a row stored at `at`. */
  predicate Holds(s: Net, x: PubKey, m: Message, ttl: int, at: Time) {
    && 0 <= ttl < 256 && x in s.nodes && m.uuid in s.nodes[x].router.rows
    && s.nodes[x].router.rows[m.uuid] == Store.RowOf(m.(ttl := ttl), at)
  }

  lemma HoldsStep(s: Net, a: Action, delay: nat, x: PubKey, m: Message, ttl: int, at: Time)
    requires Holds(s, x, m, ttl, at) && s.now <= at + Store.RETENTION
    ensures Holds(Apply(s, a, delay), x, m, ttl, at)
  {
    hide Apply;
    hide EventAt;
    hide Step;
    hide DeliveredAt;
    NodeStep(s, a, delay, x);
    if EventAt(s, a, delay, x).Some? {
      RowSurvives(s.nodes[x].router, EventAt(s, a, delay, x).value, m.uuid);
    }
  }

  lemma {:induction false} HoldsUntil(s: Net, acts: seq<Action>, delay: nat, x: PubKey, m: Message, ttl: int, at: Time,
                                      a: nat, b: nat)
    requires a <= b <= |acts| && Holds(At(s, acts, delay, a), x, m, ttl, at)
    requires At(s, acts, delay, b).now <= at + Store.RETENTION
    ensures Holds(At(s, acts, delay, b), x, m, ttl, at)
    decreases b - a
  {
    hide At;
    hide Apply;
    if a < b {
      ActionStep(s, acts, delay, a);
      ClockRuns(s, acts, delay, x, a, b);
      HoldsStep(At(s, acts, delay, a), acts[a], delay, x, m, ttl, at);
      HoldsUntil(s, acts, delay, x, m, ttl, at, a + 1, b);
    }
  }

  lemma {:induction false} ClockRuns(s: Net, acts: seq<Action>, delay: nat, x: PubKey, a: nat, b: nat)
    requires a <= b <= |acts| && x in At(s, acts, delay, a).nodes
    ensures x in At(s, acts, delay, b).nodes && At(s, acts, delay, a).now <= At(s, acts, delay, b).now
    decreases b
  {
    hide At;
    hide Apply;
    if a < b {
      ClockRuns(s, acts, delay, x, a, b - 1);
      ActionStep(s, acts, delay, b - 1);
      NodeStep(At(s, acts, delay, b - 1), acts[b - 1], delay, x);
    }
  }

  // ---------- what a round sends ----------

  /** Every frame of `u` in a round is the stored row of `u`. */
  lemma {:induction false} RoundSendsRows(r: Router, picks: seq<Pick>, k: nat)
    requires forall i :: 0 <= i < |picks| ==> picks[i].uuid in r.rows
    requires k < |RoundSends(r, picks)|
    ensures var data := RoundSends(r, picks)[k].data;
            UuidOf(data).Some? && UuidOf(data).value in r.rows
            && data == Encode(Store.Reload(UuidOf(data).value, r.rows[UuidOf(data).value]))
  {
    hide Encode;
    hide UuidOf;
    var front, last := picks[..|picks| - 1], picks[|picks| - 1];
    if k < |RoundSends(r, front)| {
      RoundSendsRows(r, front, k);
    } else {
      UuidOfEncode(Store.Reload(last.uuid, r.rows[last.uuid]));
    }
  }

  /** While the row of `u` is picked, `y` is reachable and among the peers within the fanout. */
  predicate Reaches(r: Router, picks: seq<Pick>, u: Uuid, y: PubKey) {
    && r.cfg.hasTransport
    && forall i :: 0 <= i < |picks| && picks[i].uuid == u ==> y in Chosen(r.peers, picks[i].up, r.cfg.fanout)
  }

  lemma RoundReaches(r: Router, picks: seq<Pick>, now: Time, u: Uuid, y: PubKey) returns (k: nat)
    requires RoundHeld(r, picks, now) && u in r.rows && now <= r.rows[u].expiresAt && Reaches(r, picks, u, y)
    ensures var sends := RoundEffect(r, picks, now).sends;
            k < |sends| && sends[k].to == y && UuidOf(sends[k].data) == Some(u)
  {
    hide Encode;
    hide UuidOf;
    hide Chosen;
    hide RowSends;
    hide RoundSends;
    var i := PickedAll(r, picks, now, u);
    UuidOfEncode(Store.Reload(u, r.rows[u]));
    PickIsSent(r, picks, i);
    var j := RowReaches(r, picks[i], y);
    k := Within(RoundSends(r, picks), RowSends(r, picks[i]), j);
  }

  lemma RowReaches(r: Router, p: Pick, y: PubKey) returns (j: nat)
    requires p.uuid in r.rows && r.cfg.hasTransport && y in Chosen(r.peers, p.up, r.cfg.fanout)
    ensures j < |RowSends(r, p)| && RowSends(r, p)[j] == Send(y, Encode(Store.Reload(p.uuid, r.rows[p.uuid])))
  {
    hide Encode;
    hide Chosen;
    var keys := Chosen(r.peers, p.up, r.cfg.fanout);
    j :| 0 <= j < |keys| && keys[j] == y;
  }

  lemma Within(all: seq<Send>, part: seq<Send>, j: nat) returns (k: nat)
    requires Includes(all, part) && j < |part|
    ensures k < |all| && all[k] == part[j]
  {
    var o :| 0 <= o <= |all| && StartsAt(all, part, o);
    k := o + j;
    assert all[o..o + |part|][j] == all[k];
  }

  /** Action `a` puts a frame of `u` for `y` at position `p` of the flight. */
  predicate SendsTo(s: Net, a: Action, delay: nat, u: Uuid, y: PubKey, p: nat) {
    var t := Apply(s, a, delay);
    |s.flight| <= p < |t.flight| && t.flight[p].dst == y && UuidOf(t.flight[p].data) == Some(u)
  }

  /** What a round puts in flight. */
  lemma ReplayFlight(s: Net, x: PubKey, picks: seq<Pick>, delay: nat) returns (fs: seq<Frame>)
    requires x in s.nodes && RoundHeld(s.nodes[x].router, picks, s.now)
    ensures Apply(s, Replay(x, picks), delay).flight == s.flight + fs
    ensures NetworkLaws.Carry(fs, RoundEffect(s.nodes[x].router, picks, s.now).sends)
  {
    hide RoundSends;
    hide UuidOf;
    fs := Launch(RoundEffect(s.nodes[x].router, picks, s.now).sends, s.now, s.nodes[x].trails, true);
  }

  /** A round in time, with `y` within reach, sends `y` the row. */
  lemma ReplaySends(s: Net, x: PubKey, picks: seq<Pick>, delay: nat, m: Message, ttl: int, at: Time, y: PubKey)
    returns (p: nat)
    requires Holds(s, x, m, ttl, at) && s.now <= at + Store.RETENTION
    requires RoundHeld(s.nodes[x].router, picks, s.now) && Reaches(s.nodes[x].router, picks, m.uuid, y)
    ensures SendsTo(s, Replay(x, picks), delay, m.uuid, y, p)
  {
    hide Apply;
    hide UuidOf;
    hide RoundEffect;
    hide RoundHeld;
    hide Reaches;
    var fs := ReplayFlight(s, x, picks, delay);
    var k := RoundReaches(s.nodes[x].router, picks, s.now, m.uuid, y);
    p := |s.flight| + k;
  }

  /** And whatever it sends of that message is the row as it was stored. */
  lemma ReplayedFrame(s: Net, x: PubKey, picks: seq<Pick>, delay: nat, m: Message, ttl: int, at: Time,
                      y: PubKey, p: nat)
    requires Holds(s, x, m, ttl, at) && RoundHeld(s.nodes[x].router, picks, s.now)
    requires SendsTo(s, Replay(x, picks), delay, m.uuid, y, p)
    ensures Apply(s, Replay(x, picks), delay).flight[p].data == Encode(m.(ttl := ttl, timestamp := at))
  {
    hide Apply;
    hide UuidOf;
    hide Encode;
    hide RoundSends;
    var fs := ReplayFlight(s, x, picks, delay);
    RoundSendsRows(s.nodes[x].router, picks, p - |s.flight|);
    assert Store.Reload(m.uuid, Store.RowOf(m.(ttl := ttl), at)) == m.(ttl := ttl, timestamp := at);
  }

  // ---------- one leg ----------

  /** The action in which the carrier holds its round, and the one in which its frame reaches `to`. */
  datatype Leg = Leg(to: PubKey, round: nat, arrival: nat)

  /** The frame at position `p` before action `b` is the one that action `c` lets arrive. */
  predicate ArrivesAt(s: Net, acts: seq<Action>, delay: nat, b: nat, c: nat, p: nat)
    requires b <= c < |acts|
  {
    acts[c].Arrive? && Track(s, acts, delay, b, c, p) == Some(acts[c].i)
  }

  /** If the round sends the next node a copy of `u`, one such frame is not lost and arrives as the leg says. */
  ghost predicate NotLost(s: Net, acts: seq<Action>, delay: nat, u: Uuid, leg: Leg)
    requires leg.round < leg.arrival < |acts|
  {
    (exists p :: SendsTo(At(s, acts, delay, leg.round), acts[leg.round], delay, u, leg.to, p)) ==>
      exists p :: && SendsTo(At(s, acts, delay, leg.round), acts[leg.round], delay, u, leg.to, p)
                  && ArrivesAt(s, acts, delay, leg.round + 1, leg.arrival, p)
  }

  /** `x` holds a rebroadcast round with `y` in reach. */
  predicate Meets(s: Net, a: Action, u: Uuid, x: PubKey, y: PubKey) {
    && x in s.nodes && a.Replay? && a.n == x
    && RoundHeld(s.nodes[x].router, a.picks, s.now) && Reaches(s.nodes[x].router, a.picks, u, y)
  }

  /** `y` has neither marked nor stored `u`. */
  predicate Unaware(s: Net, y: PubKey, u: Uuid) {
    y in s.nodes && !Dedup.Contains(s.nodes[y].router.dedup, u) && u !in s.nodes[y].router.rows
  }

  /**
   * The leg of `x`, which stored `u` in action `a`: within 72 hours it holds a round with the next node in
   * reach, the frame is not lost, and the next node does not know the message when it arrives.
   */
  ghost predicate Contact(s: Net, acts: seq<Action>, delay: nat, u: Uuid, x: PubKey, a: nat, leg: Leg) {
    && a < leg.round < leg.arrival < |acts|
    && Meets(At(s, acts, delay, leg.round), acts[leg.round], u, x, leg.to)
    && At(s, acts, delay, leg.round).now <= At(s, acts, delay, a).now + Store.RETENTION
    && NotLost(s, acts, delay, u, leg)
    && Unaware(At(s, acts, delay, leg.arrival), leg.to, u)
  }

  /** Action `a` makes `y` take `m` as new, arriving with `ttl` left. */
  predicate Takes(s: Net, a: Action, delay: nat, y: PubKey, m: Message, ttl: int) {
    && y in s.nodes && EventAt(s, a, delay, y).Some?
    && var e := EventAt(s, a, delay, y).value;
       && SeenLaws.AcceptsNew(s.nodes[y].router, e, m.uuid)
       && SameContent(Decode(e.data).msg, m) && Decode(e.data).msg.ttl == ttl
  }

  lemma ArrivingCopy(s: Net, i: nat, up: set<PubKey>, delay: nat, m: Message, ttl: byte, at: Time, y: PubKey)
    requires i < |s.flight| && s.flight[i].dst == y && Unaware(s, y, m.uuid)
    requires s.flight[i].data == Encode(m.(ttl := ttl, timestamp := at)) && HEADER + |m.payload| <= RECV_BUFFER
    ensures Takes(s, Arrive(i, up), delay, y, m, ttl)
  {
    hide Encode;
    hide Decode;
    hide Dedup.Contains;
    var copy := m.(ttl := ttl, timestamp := at);
    NetworkLaws.ClippedIsNotAccepted(copy);
    assert |Encode(copy)| == HEADER + |m.payload| by {
      EncodeLength(copy);
    }
  }

  lemma EncodeLength(m: Message)
    ensures |Encode(m)| == HEADER + |m.payload|
  {
  }

  /** One leg: the next node takes the message as new, with the TTL it was stored with. */
  lemma OneLeg(s: Net, acts: seq<Action>, delay: nat, m: Message, ttl: int, x: PubKey, a: nat, leg: Leg)
    requires Contact(s, acts, delay, m.uuid, x, a, leg) && HEADER + |m.payload| <= RECV_BUFFER
    requires Holds(At(s, acts, delay, a + 1), x, m, ttl, At(s, acts, delay, a).now)
    ensures Takes(At(s, acts, delay, leg.arrival), acts[leg.arrival], delay, leg.to, m, ttl)
  {
    hide At;
    hide Apply;
    hide SendsTo;
    hide Track;
    hide Encode;
    hide Takes;
    hide Unaware;
    hide RoundHeld;
    hide Reaches;
    hide Store.RowOf;
    var b, c, at := leg.round, leg.arrival, At(s, acts, delay, a).now;
    var sb := At(s, acts, delay, b);
    HoldsUntil(s, acts, delay, x, m, ttl, at, a + 1, b);
    var p0 := ReplaySends(sb, x, acts[b].picks, delay, m, ttl, at, leg.to);
    var p :| SendsTo(sb, acts[b], delay, m.uuid, leg.to, p) && ArrivesAt(s, acts, delay, b + 1, c, p);
    ReplayedFrame(sb, x, acts[b].picks, delay, m, ttl, at, leg.to, p);
    ActionStep(s, acts, delay, b);
    SendsToParts(sb, acts[b], delay, m.uuid, leg.to, p);
    TrackKeepsFrame(s, acts, delay, b + 1, c, p);
    ArrivingCopy(At(s, acts, delay, c), acts[c].i, acts[c].up, delay, m, ttl, at, leg.to);
  }

  lemma SendsToParts(s: Net, a: Action, delay: nat, u: Uuid, y: PubKey, p: nat)
    requires SendsTo(s, a, delay, u, y, p)
    ensures p < |Apply(s, a, delay).flight| && Apply(s, a, delay).flight[p].dst == y
  {
  }

  /** A relay that takes the message as new stores it with one TTL less. */
  lemma TakenIsHeld(s: Net, a: Action, delay: nat, y: PubKey, m: Message, ttl: int)
    requires Takes(s, a, delay, y, m, ttl) && ttl > 0 && Unaware(s, y, m.uuid)
    requires s.nodes[y].router.cfg.hasStorage && s.nodes[y].router.cfg.me != m.receiver
    ensures Holds(Apply(s, a, delay), y, m, ttl - 1, s.now)
  {
    hide Apply;
    hide Decode;
    hide Encode;
    hide EventAt;
    hide DeliveredAt;
    hide Dedup.Contains;
    hide Dedup.Insert;
    NodeStep(s, a, delay, y);
  }

  /** The addressee hands the message to its application with one TTL less. */
  lemma TakenIsDelivered(s: Net, a: Action, delay: nat, y: PubKey, m: Message, ttl: int) returns (got: Message)
    requires Takes(s, a, delay, y, m, ttl) && ttl > 0
    requires s.nodes[y].router.cfg.hasCallback && s.nodes[y].router.cfg.me == m.receiver
    ensures SameContent(got, m) && got.ttl == ttl - 1
    ensures DeliveredAt(Apply(s, a, delay).deliveries, y) == DeliveredAt(s.deliveries, y) + [got]
  {
    hide Apply;
    hide Decode;
    hide EventAt;
    hide DeliveredAt;
    hide Dedup.Contains;
    hide Dedup.Insert;
    NodeStep(s, a, delay, y);
    var m' := Decode(EventAt(s, a, delay, y).value.data).msg;
    got := m'.(ttl := m'.ttl - 1);
  }

  // ---------- the whole route ----------

  /** The node that carries the message on leg `j`, and the action in which it stored it. */
  function Carrier(from: PubKey, legs: seq<Leg>, j: nat): PubKey
    requires j <= |legs|
  {
    if j == 0 then from else legs[j - 1].to
  }

  function StoredIn(start: nat, legs: seq<Leg>, j: nat): nat
    requires j <= |legs|
  {
    if j == 0 then start else legs[j - 1].arrival
  }

  /** Node `x` of the network is a relay for `m`: it has storage and is not the addressee. */
  predicate Relay(s: Net, x: PubKey, m: Message) {
    x in s.nodes && s.nodes[x].router.cfg.hasStorage && s.nodes[x].router.cfg.me != m.receiver
  }

  /** `legs` is a sequence of contacts that starts from the node that broadcast `m` in action `start`. */
  ghost predicate Itinerary(s: Net, acts: seq<Action>, delay: nat, m: Message, start: nat, legs: seq<Leg>) {
    && start < |acts| && acts[start].Originate? && acts[start].msg == m
    && Possible(At(s, acts, delay, start), acts[start], delay)
    && At(s, acts, delay, start).nodes[acts[start].n].router.cfg.hasStorage
    && (forall j :: 0 <= j < |legs| ==>
          Contact(s, acts, delay, m.uuid, Carrier(acts[start].n, legs, j), StoredIn(start, legs, j), legs[j]))
    && (forall j :: 0 <= j < |legs| - 1 ==> Relay(At(s, acts, delay, legs[j].arrival), legs[j].to, m))
  }

  lemma BroadcastIsHeld(s: Net, n: PubKey, m: Message, up: set<PubKey>, delay: nat)
    requires Good(s, delay) && Possible(s, Originate(n, m, up), delay) && s.nodes[n].router.cfg.hasStorage
    ensures Holds(Apply(s, Originate(n, m, up), delay), n, m, m.ttl, s.now)
  {
    hide Apply;
    hide Encode;
    hide DeliveredAt;
    hide Dedup.Insert;
    NodeStep(s, Originate(n, m, up), delay, n);
    assert NodeOk(s.origins, n, s.nodes[n], delay);
    assert m.uuid !in s.nodes[n].router.rows;
    assert m.(ttl := m.ttl) == m;
  }

  /** Along the route, node `j` holds the message with TTL `T - j` from the moment it stored it. */
  lemma {:induction false} HeldAlongRoute(s: Net, acts: seq<Action>, delay: nat, m: Message, start: nat,
                                          legs: seq<Leg>, j: nat)
    requires Init(s) && Itinerary(s, acts, delay, m, start, legs) && HEADER + |m.payload| <= RECV_BUFFER
    requires j < |legs| <= m.ttl
    ensures StoredIn(start, legs, j) < |acts|
    ensures Holds(At(s, acts, delay, StoredIn(start, legs, j) + 1), Carrier(acts[start].n, legs, j), m, m.ttl - j,
                  At(s, acts, delay, StoredIn(start, legs, j)).now)
  {
    hide At;
    hide Apply;
    hide Holds;
    hide Takes;
    hide Contact;
    hide Itinerary;
    hide Relay;
    hide Unaware;
    hide Good;
    hide Possible;
    hide Init;
    ItineraryStart(s, acts, delay, m, start, legs);
    if j == 0 {
      ActionStep(s, acts, delay, start);
      GoodAt(s, acts, delay, start);
      BroadcastIsHeld(At(s, acts, delay, start), acts[start].n, m, acts[start].up, delay);
    } else {
      HeldAlongRoute(s, acts, delay, m, start, legs, j - 1);
      ItineraryLeg(s, acts, delay, m, start, legs, j - 1);
      var leg := legs[j - 1];
      OneLeg(s, acts, delay, m, m.ttl - (j - 1), Carrier(acts[start].n, legs, j - 1),
             StoredIn(start, legs, j - 1), leg);
      ActionStep(s, acts, delay, leg.arrival);
      RelayParts(At(s, acts, delay, leg.arrival), leg.to, m);
      TakenIsHeld(At(s, acts, delay, leg.arrival), acts[leg.arrival], delay, leg.to, m, m.ttl - (j - 1));
    }
  }

  lemma ItineraryStart(s: Net, acts: seq<Action>, delay: nat, m: Message, start: nat, legs: seq<Leg>)
    requires Itinerary(s, acts, delay, m, start, legs)
    ensures start < |acts| && acts[start].Originate? && acts[start].msg == m
    ensures Possible(At(s, acts, delay, start), acts[start], delay)
    ensures acts[start].n in At(s, acts, delay, start).nodes
    ensures At(s, acts, delay, start).nodes[acts[start].n].router.cfg.hasStorage
  {
    hide At;
    hide Contact;
    hide Relay;
  }

  lemma ItineraryLeg(s: Net, acts: seq<Action>, delay: nat, m: Message, start: nat, legs: seq<Leg>, j: nat)
    requires Itinerary(s, acts, delay, m, start, legs) && j < |legs|
    ensures Contact(s, acts, delay, m.uuid, Carrier(acts[start].n, legs, j), StoredIn(start, legs, j), legs[j])
    ensures StoredIn(start, legs, j) < legs[j].round < legs[j].arrival < |acts|
    ensures Unaware(At(s, acts, delay, legs[j].arrival), legs[j].to, m.uuid)
    ensures j < |legs| - 1 ==> Relay(At(s, acts, delay, legs[j].arrival), legs[j].to, m)
  {
    hide At;
    hide Meets;
    hide NotLost;
    hide Unaware;
    hide Relay;
    hide Possible;
  }

  lemma RelayParts(s: Net, x: PubKey, m: Message)
    requires Relay(s, x, m)
    ensures x in s.nodes && s.nodes[x].router.cfg.hasStorage && s.nodes[x].router.cfg.me != m.receiver
  {
  }

  lemma GoodAt(s: Net, acts: seq<Action>, delay: nat, i: nat)
    requires Init(s) && i <= |acts|
    ensures Good(At(s, acts, delay, i), delay)
  {
    NetworkLaws.RunOk(s, acts[..i], delay);
  }

  /**
   * Delay-tolerant delivery. In any network run in which a message with TTL `T` meets its way along a route of
   * `k <= T` contacts, each within 72 hours of the carrier storing it, the last node takes it as new with TTL
   * `T + 1 - k`; if that is the addressee, its application gets it with TTL `T - k`. Whatever else happens in
   * the run: other traffic, loss, sweeps, expiries, however long the nodes are out of reach in between.
   */
  lemma DelayTolerantDelivery(s: Net, acts: seq<Action>, delay: nat, m: Message, start: nat, legs: seq<Leg>)
    requires Init(s) && Itinerary(s, acts, delay, m, start, legs) && HEADER + |m.payload| <= RECV_BUFFER
    requires 1 <= |legs| <= m.ttl
    ensures var leg := legs[|legs| - 1];
            && leg.arrival < |acts|
            && Takes(At(s, acts, delay, leg.arrival), acts[leg.arrival], delay, leg.to, m, m.ttl + 1 - |legs|)
  {
    hide At;
    hide Holds;
    hide Takes;
    hide Contact;
    hide Itinerary;
    hide Relay;
    hide Unaware;
    hide Init;
    var j := |legs| - 1;
    ItineraryStart(s, acts, delay, m, start, legs);
    ItineraryLeg(s, acts, delay, m, start, legs, j);
    HeldAlongRoute(s, acts, delay, m, start, legs, j);
    OneLeg(s, acts, delay, m, m.ttl - j, Carrier(acts[start].n, legs, j), StoredIn(start, legs, j), legs[j]);
  }

  /** If the route ends at the addressee, its application gets the message with TTL `T - k`. */
  lemma CarriedToAddressee(s: Net, acts: seq<Action>, delay: nat, m: Message, start: nat, legs: seq<Leg>)
    returns (got: Message)
    requires Init(s) && Itinerary(s, acts, delay, m, start, legs) && HEADER + |m.payload| <= RECV_BUFFER
    requires 1 <= |legs| <= m.ttl && m.receiver in s.nodes && legs[|legs| - 1].to == m.receiver
    requires s.nodes[m.receiver].router.cfg.hasCallback
    ensures SameContent(got, m) && got.ttl == m.ttl - |legs|
    ensures var c := legs[|legs| - 1].arrival;
            && c < |acts|
            && DeliveredAt(At(s, acts, delay, c + 1).deliveries, m.receiver)
               == DeliveredAt(At(s, acts, delay, c).deliveries, m.receiver) + [got]
  {
    hide At;
    hide Apply;
    hide Takes;
    hide Itinerary;
    hide DeliveredAt;
    DelayTolerantDelivery(s, acts, delay, m, start, legs);
    var c := legs[|legs| - 1].arrival;
    ActionStep(s, acts, delay, c);
    ConfigAt(s, acts, delay, c, m.receiver);
    got := TakenIsDelivered(At(s, acts, delay, c), acts[c], delay, m.receiver, m, m.ttl + 1 - |legs|);
  }

  lemma ConfigAt(s: Net, acts: seq<Action>, delay: nat, i: nat, n: PubKey)
    requires Init(s) && n in s.nodes && i <= |acts|
    ensures n in At(s, acts, delay, i).nodes
    ensures At(s, acts, delay, i).nodes[n].router.cfg == s.nodes[n].router.cfg && s.nodes[n].router.cfg.me == n
  {
    hide NetExec;
    hide Exec;
    hide EventsAt;
    hide DeliveredAt;
    hide DeliveredBy;
    hide AllEnabled;
    NodeRun(s, acts[..i], delay, n);
    SeenLaws.CfgFixed(s.nodes[n].router, EventsAt(s, acts[..i], delay, n));
  }

  // ---------- the simplest route ----------

  /** `x` has storage and transport, its only peer is `y`, which knows nothing of `u`, and a round is due. */
  predicate Neighbours(s: Net, x: PubKey, y: PubKey, u: Uuid) {
    && x in s.nodes && x != y && Unaware(s, y, u)
    && var r := s.nodes[x].router;
       && r.cfg.hasStorage && r.cfg.hasTransport && r.cfg.fanout >= 1
       && Keys(r.peers) == [y] && Elapsed(s.now, r.lastRound) >= REBROADCAST_SEC
  }

  lemma BroadcastIsPending(r: Router, m: Message, now: Time, up: set<PubKey>, y: PubKey)
    requires r.rows == map[] && r.cfg.hasStorage && r.cfg.hasTransport && r.cfg.fanout >= 1
    requires Keys(r.peers) == [y] && Elapsed(now, r.lastRound) >= REBROADCAST_SEC
    ensures var r1 := BroadcastEffect(r, m, now, up).router;
            RoundHeld(r1, [Pick(m.uuid, {y})], now) && Reaches(r1, [Pick(m.uuid, {y})], m.uuid, y)
  {
    hide Encode;
    hide Dedup.Insert;
    var r1 := BroadcastEffect(r, m, now, up).router;
    assert Store.Select(r1.rows, None, now) == {m.uuid};
    assert r.peers[0].pubkey == Keys(r.peers)[0];
    assert Chosen(r1.peers, {y}, r1.cfg.fanout)[0] == y;
  }

  /** A broadcast that reached nobody, the next round with the neighbour in reach, and the arrival are a route. */
  lemma NeighbourReturns(s: Net, delay: nat, x: PubKey, y: PubKey, m: Message, up: set<PubKey>)
    returns (acts: seq<Action>)
    requires Init(s) && Neighbours(s, x, y, m.uuid) && |m.payload| <= Store.INT_MAX
    ensures acts != [] && acts[0] == Originate(x, m, {})
    ensures Itinerary(s, acts, delay, m, 0, [Leg(y, 1, 2)])
  {
    hide Apply;
    hide RoundHeld;
    hide Reaches;
    hide SendsTo;
    hide Holds;
    hide EventsAt;
    hide DeliveredAt;
    hide BroadcastEffect;
    hide Chosen;
    hide Dedup.Contains;
    hide Good;
    var a0, picks := Originate(x, m, {}), [Pick(m.uuid, {y})];
    NetworkLaws.InitOk(s, delay);
    BroadcastIsHeld(s, x, m, {}, delay);
    NodeStep(s, a0, delay, x);
    NodeStep(s, a0, delay, y);
    OriginateClock(s, x, m, {}, delay);
    BroadcastIsPending(s.nodes[x].router, m, s.now, {}, y);
    var s1 := Apply(s, a0, delay);
    var p := ReplaySends(s1, x, picks, delay, m, m.ttl, s.now, y);
    NodeStep(s1, Replay(x, picks), delay, y);
    acts := [a0, Replay(x, picks), Arrive(p, up)];
    assert acts[..0] == [];
    assert At(s, acts, delay, 0) == s;
    ActionStep(s, acts, delay, 0);
    ActionStep(s, acts, delay, 1);
    assert ArrivesAt(s, acts, delay, 2, 2, p);
    assert NotLost(s, acts, delay, m.uuid, Leg(y, 1, 2));
  }

  lemma OriginateClock(s: Net, n: PubKey, m: Message, up: set<PubKey>, delay: nat)
    ensures Apply(s, Originate(n, m, up), delay).now == s.now
  {
    hide BroadcastEffect;
    hide Launch;
    hide NewTrails;
  }
}
