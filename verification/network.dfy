/**
 * Many routers exchanging real frames: a step model in which every node runs the router
 * functions, links may lose frames or stay silent, and one clock advances for all.
 *
 * `trail`, `replayed`, `launched`, `origins` and `deliveries` are history: they record which nodes
 * handled a copy, whether it comes out of some node's storage, and what was ever sent, broadcast and
 * delivered. No step looks at them to decide.
 */
module Network {
  import opened Types
  import opened Codec
  import opened RouterSpec
  import Store

  const RECV_BUFFER: nat := 4096

  /** What the 4096-byte receive buffer keeps of a frame. */
  function Clip(data: bytes): bytes {
    if |data| > RECV_BUFFER then data[..RECV_BUFFER] else data
  }

  /** The nodes that broadcast and then relayed one copy, in order. */
  type Trail = seq<PubKey>

  /** `replayed` says that a rebroadcast from storage lies between the broadcast and this frame. */
  datatype Frame = Frame(dst: PubKey, data: bytes, sentAt: Time, trail: Trail, replayed: bool)
  datatype Origin = Origin(node: PubKey, msg: Message, at: Time)
  datatype Node = Node(router: Router, trails: map<Uuid, Trail>)
  datatype Delivery = Delivery(node: PubKey, msg: Message, trail: Trail)

  datatype Net = Net(
    nodes: map<PubKey, Node>,
    flight: seq<Frame>,
    now: Time,
    origins: map<Uuid, Origin>,
    launched: seq<Frame>,
    deliveries: seq<Delivery>)

  datatype Action =
    | Originate(n: PubKey, msg: Message, up: set<PubKey>)
    | Arrive(i: nat, up: set<PubKey>)
    | Replay(n: PubKey, picks: seq<Pick>)
    | Local(n: PubKey, event: Event)
    | Lose(i: nat)
    | Advance(to: Time)

  /** A broadcast uses a fresh UUID, a local event is upkeep at the present, no frame outstays `delay` in transit. */
  predicate Possible(s: Net, a: Action, delay: nat) {
    match a
    case Originate(n, m, _) => n in s.nodes && m.uuid !in s.origins && |m.payload| <= Store.INT_MAX
    case Arrive(i, _) => i < |s.flight| && s.flight[i].dst in s.nodes
    case Replay(n, picks) => n in s.nodes && Enabled(s.nodes[n].router, Round(picks, s.now))
    case Local(n, e) => n in s.nodes && e.now == s.now && (e.AddPeer? || e.SweepCache? || e.Expire?)
    case Lose(i) => i < |s.flight|
    case Advance(t) => s.now <= t && forall i :: 0 <= i < |s.flight| ==> t <= s.flight[i].sentAt + delay
  }

  function TrailOf(data: bytes, trails: map<Uuid, Trail>): Trail {
    var u := UuidOf(data);
    if u.Some? && u.value in trails then trails[u.value] else []
  }

  function Launch(sends: seq<RouterSpec.Send>, now: Time, trails: map<Uuid, Trail>, replayed: bool): (fs: seq<Frame>)
    ensures |fs| == |sends|
    ensures forall i :: 0 <= i < |sends| ==>
              fs[i] == Frame(sends[i].to, sends[i].data, now, TrailOf(sends[i].data, trails), replayed)
  {
    seq(|sends|, i requires 0 <= i < |sends| =>
      Frame(sends[i].to, sends[i].data, now, TrailOf(sends[i].data, trails), replayed))
  }

  /** A row that the step created gets the trail of the copy it was made from. */
  function NewTrails(before: Node, r: Router, trails: map<Uuid, Trail>): map<Uuid, Trail> {
    before.trails + (map u | u in trails && u in r.rows && u !in before.router.rows :: trails[u])
  }

  /** Node `n` takes the effect `eff`, whose outgoing copies carry `trails` and the mark `replayed`. */
  function Emit(s: Net, n: PubKey, eff: Effect, trails: map<Uuid, Trail>, replayed: bool): Net
    requires n in s.nodes
  {
    var fs := Launch(eff.sends, s.now, trails, replayed);
    s.(nodes := s.nodes[n := Node(eff.router, NewTrails(s.nodes[n], eff.router, trails))],
       flight := s.flight + fs,
       launched := s.launched + fs,
       deliveries := s.deliveries
         + seq(|eff.delivered|, i requires 0 <= i < |eff.delivered| =>
             Delivery(n, eff.delivered[i],
                      if eff.delivered[i].uuid in trails then trails[eff.delivered[i].uuid] else [])))
  }

  function Drop(fs: seq<Frame>, i: nat): seq<Frame>
    requires i < |fs|
  {
    fs[..i] + fs[i + 1..]
  }

  function Originated(s: Net, n: PubKey, m: Message, up: set<PubKey>): Net
    requires n in s.nodes
  {
    Emit(s.(origins := s.origins[m.uuid := Origin(n, m, s.now)]), n,
         BroadcastEffect(s.nodes[n].router, m, s.now, up), map[m.uuid := [n]], false)
  }

  function Arrived(s: Net, i: nat, up: set<PubKey>): Net
    requires i < |s.flight| && s.flight[i].dst in s.nodes
  {
    var f := s.flight[i];
    var data := Clip(f.data);
    var u := UuidOf(data);
    Emit(s.(flight := Drop(s.flight, i)), f.dst,
         ReceiveEffect(s.nodes[f.dst].router, data, s.now, up),
         if u.Some? then map[u.value := f.trail + [f.dst]] else map[], f.replayed)
  }

  /** An action that is not possible leaves the network as it is. */
  function Apply(s: Net, a: Action, delay: nat): Net {
    if !Possible(s, a, delay) then s
    else match a
      case Originate(n, m, up) => Originated(s, n, m, up)
      case Arrive(i, up) => Arrived(s, i, up)
      case Replay(n, picks) => Emit(s, n, RoundEffect(s.nodes[n].router, picks, s.now), s.nodes[n].trails, true)
      case Local(n, e) => Emit(s, n, Step(s.nodes[n].router, e), s.nodes[n].trails, false)
      case Lose(i) => s.(flight := Drop(s.flight, i))
      case Advance(t) => s.(now := t)
  }

  /** Before any broadcast: nothing stored or in flight; the caches and peer tables may hold anything. */
  predicate Init(s: Net) {
    && s.flight == [] && s.launched == [] && s.deliveries == [] && s.origins == map[]
    && forall n :: n in s.nodes ==> s.nodes[n].router.cfg.me == n && s.nodes[n].router.rows == map[]
  }

  /** The state that a run of actions reaches; every reachable state is reached by some sequence. */
  function NetExec(s: Net, acts: seq<Action>, delay: nat): Net {
    if acts == [] then s
    else Apply(NetExec(s, acts[..|acts| - 1], delay), acts[|acts| - 1], delay)
  }

  // ---------- what every reachable state satisfies ----------

  /** The latest a copy that was relayed `hops` times can still be stored or sent. */
  function Deadline(o: Origin, hops: nat, delay: nat): nat {
    if hops == 0 then o.at + Store.RETENTION else Deadline(o, hops - 1, delay) + delay + Store.RETENTION
  }

  /** `m` is a copy of its one originating broadcast, and every relay on its trail cost one TTL. */
  predicate IsCopy(origins: map<Uuid, Origin>, m: Message, trail: Trail) {
    && m.uuid in origins
    && SameContent(m, origins[m.uuid].msg)
    && |trail| >= 1 && trail[0] == origins[m.uuid].node
    && m.ttl + (|trail| - 1) == origins[m.uuid].msg.ttl
  }

  predicate FrameOk(origins: map<Uuid, Origin>, f: Frame, delay: nat) {
    && Decode(f.data).Accept?
    && var m := Decode(f.data).msg;
       && f.data == Encode(m)
       && IsCopy(origins, m, f.trail)
       && f.sentAt <= Deadline(origins[m.uuid], |f.trail| - 1, delay)
  }

  predicate FramesOk(origins: map<Uuid, Origin>, fs: seq<Frame>, delay: nat) {
    forall i :: 0 <= i < |fs| ==> FrameOk(origins, fs[i], delay)
  }

  predicate RowOk(origins: map<Uuid, Origin>, u: Uuid, row: Store.Row, trail: Trail, delay: nat) {
    && IsCopy(origins, Store.Reload(u, row), trail)
    && row.expiresAt <= Deadline(origins[u], |trail| - 1, delay)
  }

  predicate NodeOk(origins: map<Uuid, Origin>, n: PubKey, node: Node, delay: nat) {
    && node.router.cfg.me == n
    && forall u :: u in node.router.rows ==>
                     u in node.trails && RowOk(origins, u, node.router.rows[u], node.trails[u], delay)
  }

  predicate NodesOk(origins: map<Uuid, Origin>, nodes: map<PubKey, Node>, delay: nat) {
    forall n :: n in nodes ==> NodeOk(origins, n, nodes[n], delay)
  }

  predicate DeliveryOk(origins: map<Uuid, Origin>, d: Delivery) {
    IsCopy(origins, d.msg, d.trail) && d.msg.receiver == d.node && |d.trail| >= 2
  }

  predicate DeliveriesOk(origins: map<Uuid, Origin>, ds: seq<Delivery>) {
    forall i :: 0 <= i < |ds| ==> DeliveryOk(origins, ds[i])
  }

  predicate InTime(fs: seq<Frame>, now: Time, delay: nat) {
    forall i :: 0 <= i < |fs| ==> now <= fs[i].sentAt + delay
  }

  predicate OriginsOk(origins: map<Uuid, Origin>, now: Time) {
    forall u :: u in origins ==>
                  origins[u].msg.uuid == u && |origins[u].msg.payload| <= Store.INT_MAX && origins[u].at <= now
  }

  predicate Good(s: Net, delay: nat) {
    && FramesOk(s.origins, s.launched, delay)
    && FramesOk(s.origins, s.flight, delay)
    && InTime(s.flight, s.now, delay)
    && NodesOk(s.origins, s.nodes, delay)
    && DeliveriesOk(s.origins, s.deliveries)
    && OriginsOk(s.origins, s.now)
  }
}
