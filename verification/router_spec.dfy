/**
 * What one router does to its state, as functions: the effect of each public operation and
 * of each phase of the periodic tick, and runs of such events.
 */
module RouterSpec {
  import opened Types
  import opened Codec
  import Dedup
  import Store

  const REBROADCAST_SEC: nat := 3

  /** Operating parameters and which of the optional collaborators are wired in. */
  datatype Config = Config(
    me: PubKey,
    fanout: byte,
    maxAge: u64,
    hasTransport: bool,
    hasStorage: bool,
    hasCallback: bool)

  datatype Router = Router(
    cfg: Config,
    dedup: Dedup.Table,
    peers: seq<Peer>,
    rows: Store.Rows,
    lastRound: u64)

  function Fresh(cfg: Config, cap: nat): Router
    requires cap >= 1
  {
    Router(cfg, Dedup.Empty(cap), [], map[], 0)
  }

  /** One frame handed to the transport for one peer and accepted by it. */
  datatype Send = Send(to: PubKey, data: bytes)

  datatype Effect = Effect(router: Router, code: Code, sends: seq<Send>, delivered: seq<Message>)

  // ---------- forwarding ----------

  /** The peers that take a frame when the table is walked in order until `n` sends succeeded. */
  function Chosen(peers: seq<Peer>, up: set<PubKey>, n: nat): (keys: seq<PubKey>)
    ensures |keys| <= n
  {
    if n == 0 || peers == [] then []
    else if peers[0].pubkey in up then [peers[0].pubkey] + Chosen(peers[1..], up, n - 1)
    else Chosen(peers[1..], up, n)
  }

  function Address(keys: seq<PubKey>, data: bytes): (sends: seq<Send>)
    ensures |sends| == |keys|
    ensures forall i :: 0 <= i < |keys| ==> sends[i] == Send(keys[i], data)
  {
    seq(|keys|, i requires 0 <= i < |keys| => Send(keys[i], data))
  }

  function Broadside(r: Router, data: bytes, up: set<PubKey>): (sends: seq<Send>)
    ensures |sends| <= r.cfg.fanout
    ensures forall i :: 0 <= i < |sends| ==> sends[i].data == data
  {
    if !r.cfg.hasTransport then []
    else Address(Chosen(r.peers, up, r.cfg.fanout), data)
  }

  // ---------- public operations ----------

  function Mark(r: Router, u: Uuid, now: Time): Router {
    r.(dedup := Dedup.Insert(r.dedup, u, now, r.cfg.maxAge))
  }

  function Keep(r: Router, m: Message, now: Time): Router {
    if r.cfg.hasStorage then r.(rows := Store.Put(r.rows, m, now)) else r
  }

  function BroadcastEffect(r: Router, m: Message, now: Time, up: set<PubKey>): Effect {
    var marked := Mark(r, m.uuid, now);
    Effect(Keep(marked, m, now), Ok, Broadside(marked, Encode(m), up), [])
  }

  function AcceptEffect(r: Router, m: Message, now: Time, up: set<PubKey>): Effect {
    if Dedup.Contains(r.dedup, m.uuid) then Effect(r, Duplicate, [], [])
    else if m.ttl == 0 then Effect(Mark(r, m.uuid, now), TtlExpired, [], [])
    else
      var marked := Mark(r, m.uuid, now);
      var relayed := m.(ttl := m.ttl - 1);
      if m.receiver == r.cfg.me then
        Effect(marked, Ok, [], if r.cfg.hasCallback then [relayed] else [])
      else
        Effect(Keep(marked, relayed, now), Ok, Broadside(marked, Encode(relayed), up), [])
  }

  /** An `Overread` input is taken as rejected, which is what happens when its 4 GB allocation fails. */
  function ReceiveEffect(r: Router, data: bytes, now: Time, up: set<PubKey>): Effect {
    match Decode(data)
    case Accept(m) => AcceptEffect(r, m, now, up)
    case _ => Effect(r, Invalid, [], [])
  }

  function Upsert(peers: seq<Peer>, p: Peer, now: Time): seq<Peer> {
    var i := IndexOf(peers, p.pubkey);
    if i < |peers| then peers[i := p.(lastSeen := now)]
    else if |peers| < MAX_PEERS then peers + [p]
    else peers
  }

  // ---------- the phases of a tick ----------

  /** One row of a rebroadcast round, with the peers reachable while it is sent. */
  datatype Pick = Pick(uuid: Uuid, up: set<PubKey>)

  predicate RoundDue(r: Router, now: Time) {
    r.cfg.hasStorage && |r.peers| > 0 && Elapsed(now, r.lastRound) >= REBROADCAST_SEC
  }

  /** `picks` lists every unexpired row exactly once. */
  predicate PicksPending(r: Router, picks: seq<Pick>, now: Time) {
    && (forall i :: 0 <= i < |picks| ==> picks[i].uuid in Store.Select(r.rows, None, now))
    && (forall i, j :: 0 <= i < j < |picks| ==> picks[i].uuid != picks[j].uuid)
    && |picks| == |Store.Select(r.rows, None, now)|
  }

  function RoundSends(r: Router, picks: seq<Pick>): seq<Send>
    requires forall i :: 0 <= i < |picks| ==> picks[i].uuid in r.rows
  {
    if picks == [] then []
    else
      var last := picks[|picks| - 1];
      RoundSends(r, picks[..|picks| - 1])
      + Broadside(r, Encode(Store.Reload(last.uuid, r.rows[last.uuid])), last.up)
  }

  /** A round takes place when it is due; `picks` must then be the rows the store returned. */
  predicate RoundHeld(r: Router, picks: seq<Pick>, now: Time) {
    RoundDue(r, now) && PicksPending(r, picks, now)
  }

  function RoundEffect(r: Router, picks: seq<Pick>, now: Time): Effect {
    if RoundHeld(r, picks, now) then Effect(r.(lastRound := now), Ok, RoundSends(r, picks), [])
    else Effect(r, Ok, [], [])
  }

  // ---------- events and runs ----------

  datatype Event =
    | Broadcast(msg: Message, now: Time, up: set<PubKey>)
    | Receive(data: bytes, now: Time, up: set<PubKey>)
    | AddPeer(peer: Peer, now: Time)
    | SweepCache(now: Time)
    | Round(picks: seq<Pick>, now: Time)
    | Expire(now: Time)

  /** `e` can happen in `r`: a due round comes with the store's own listing. An event that cannot is no event. */
  predicate Enabled(r: Router, e: Event) {
    e.Round? && RoundDue(r, e.now) ==> PicksPending(r, e.picks, e.now)
  }

  function Step(r: Router, e: Event): Effect {
    match e
    case Broadcast(m, now, up) => BroadcastEffect(r, m, now, up)
    case Receive(data, now, up) => ReceiveEffect(r, data, now, up)
    case AddPeer(p, now) => Effect(r.(peers := Upsert(r.peers, p, now)), Ok, [], [])
    case SweepCache(now) => Effect(r.(dedup := Dedup.Sweep(r.dedup, now, r.cfg.maxAge)), Ok, [], [])
    case Round(picks, now) => RoundEffect(r, picks, now)
    case Expire(now) =>
      Effect(if r.cfg.hasStorage then r.(rows := Store.Evict(r.rows, now)) else r, Ok, [], [])
  }

  function Exec(r: Router, evs: seq<Event>): Router {
    if evs == [] then r else Step(Exec(r, evs[..|evs| - 1]), evs[|evs| - 1]).router
  }

  function SendsOf(r: Router, evs: seq<Event>): seq<Send> {
    if evs == [] then []
    else SendsOf(r, evs[..|evs| - 1]) + Step(Exec(r, evs[..|evs| - 1]), evs[|evs| - 1]).sends
  }

  function DeliveredBy(r: Router, evs: seq<Event>): seq<Message> {
    if evs == [] then []
    else DeliveredBy(r, evs[..|evs| - 1]) + Step(Exec(r, evs[..|evs| - 1]), evs[|evs| - 1]).delivered
  }

  /** Every event of `evs` can happen when its turn comes. */
  predicate AllEnabled(r: Router, evs: seq<Event>) {
    evs == [] ||
    (AllEnabled(r, evs[..|evs| - 1]) && Enabled(Exec(r, evs[..|evs| - 1]), evs[|evs| - 1]))
  }

  /** Unfolds a run at its last event. */
  lemma LastStep(r: Router, evs: seq<Event>)
    requires evs != []
    ensures var front, e := evs[..|evs| - 1], evs[|evs| - 1];
            && Exec(r, evs) == Step(Exec(r, front), e).router
            && SendsOf(r, evs) == SendsOf(r, front) + Step(Exec(r, front), e).sends
            && DeliveredBy(r, evs) == DeliveredBy(r, front) + Step(Exec(r, front), e).delivered
  {
    hide Step;
  }

  /** The state just before event `i` of a run. */
  function Before(r: Router, evs: seq<Event>, i: nat): Router
    requires i <= |evs|
  {
    Exec(r, evs[..i])
  }

  /** Event `i` of a run takes the state before it to the state after it. */
  lemma RunStep(r: Router, evs: seq<Event>, i: nat)
    requires i < |evs|
    ensures Before(r, evs, i + 1) == Step(Before(r, evs, i), evs[i]).router
  {
    hide Step;
    assert evs[..i + 1][..i] == evs[..i];
  }

  // ---------- a whole tick ----------

  /** One read from the transport: what it returned, when it was handled, and who could be reached then. */
  datatype Read = Read(data: bytes, now: Time, up: set<PubKey>)

  /** The reads a tick drains: everything up to the first empty one. */
  function Drained(incoming: seq<Read>): seq<Read> {
    if incoming == [] || |incoming[0].data| == 0 then [] else [incoming[0]] + Drained(incoming[1..])
  }

  function Arrivals(frames: seq<Read>): seq<Event> {
    seq(|frames|, i requires 0 <= i < |frames| => Receive(frames[i].data, frames[i].now, frames[i].up))
  }

  /** The phases of a tick in order, each with the clock reading it takes. */
  function TickEvents(cfg: Config, sweptAt: Time, incoming: seq<Read>, picks: seq<Pick>, roundAt: Time, expiredAt: Time)
    : seq<Event>
  {
    [SweepCache(sweptAt)]
    + Arrivals(if cfg.hasTransport then Drained(incoming) else [])
    + [Round(picks, roundAt)] + [Expire(expiredAt)]
  }
}
