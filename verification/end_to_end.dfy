/** From a plaintext handed to one node to the same plaintext polled at another. */
module EndToEnd {
  import opened Types
  import opened Codec
  import opened RouterSpec
  import opened OperationLaws
  import opened Network
  import opened Inbox
  import opened NodeView
  import MeshRouter
  import NetworkLaws
  import Flood
  import Survival
  import Store

  /** All that is assumed of the cipher: decryption inverts encryption, which adds a 16-byte tag. */
  ghost predicate Lawful(c: Suite) {
    forall key: bytes, nonce: bytes, plain: bytes ::
      && |c.seal(key, nonce, plain)| == |plain| + TAG
      && c.unseal(key, nonce, c.seal(key, nonce, plain)) == Some(plain)
  }

  /** What `bitchat_send_message` broadcasts: a fresh message whose payload is nonce and ciphertext. */
  function Compose(c: Suite, secret: bytes, me: PubKey, to: PubKey, plain: bytes,
                   nonce: bytes, uuid: Uuid, now: Time): Option<Message>
  {
    match c.derive(secret, to)
    case None => None
    case Some(key) => Some(Message(uuid, DEFAULT_TTL, me, to, now, nonce + c.seal(key, nonce, plain)))
  }

  /** The answer a receiver should get: the plaintext and its sender, or the size it needs. */
  function Expected(plain: bytes, sender: PubKey, bufLen: nat): Polled {
    if |plain| <= bufLen then Polled(Ok, |plain|, plain, Some(sender)) else Polled(BufferTooSmall, |plain|, [], None)
  }

  /** Polling a faithful copy gives back the plaintext and the sender, if the buffer fits; else its exact size. */
  lemma PollInvertsCompose(c: Suite, mySecret: bytes, me: PubKey, theirSecret: bytes, them: PubKey,
                           plain: bytes, nonce: bytes, uuid: Uuid, now: Time, copy: Message, bufLen: nat)
    requires Lawful(c) && |nonce| == NONCE
    requires c.derive(mySecret, them) == c.derive(theirSecret, me)
    requires Compose(c, mySecret, me, them, plain, nonce, uuid, now).Some?
    requires SameContent(copy, Compose(c, mySecret, me, them, plain, nonce, uuid, now).value)
    ensures PollMessage(c, theirSecret, copy, bufLen) == Expected(plain, me, bufLen)
  {
    var key := c.derive(mySecret, them).value;
    var sealed := c.seal(key, nonce, plain);
    assert copy.payload == nonce + sealed;
    assert copy.payload[..NONCE] == nonce && copy.payload[NONCE..] == sealed;
  }

  /** A copy handed to an application anywhere in the network is at the addressee and decrypts to the plaintext. */
  lemma DeliveredIsReadable(c: Suite, mySecret: bytes, me: PubKey, theirSecret: bytes, them: PubKey,
                            plain: bytes, nonce: bytes, uuid: Uuid, at: Time,
                            s: Net, acts: seq<Action>, delay: nat, i: nat, bufLen: nat)
    requires Lawful(c) && |nonce| == NONCE
    requires c.derive(mySecret, them) == c.derive(theirSecret, me)
    requires Compose(c, mySecret, me, them, plain, nonce, uuid, at).Some?
    requires Init(s) && uuid in NetExec(s, acts, delay).origins
    requires NetExec(s, acts, delay).origins[uuid].msg == Compose(c, mySecret, me, them, plain, nonce, uuid, at).value
    requires i < |NetExec(s, acts, delay).deliveries| && NetExec(s, acts, delay).deliveries[i].msg.uuid == uuid
    ensures var d := NetExec(s, acts, delay).deliveries[i];
            && d.node == them
            && PollMessage(c, theirSecret, d.msg, bufLen) == Expected(plain, me, bufLen)
  {
    hide NetExec;
    hide Init;
    hide Lawful;
    hide PollMessage;
    hide Decode;
    Survival.ContentKept(s, acts, delay);
    var d := NetExec(s, acts, delay).deliveries[i];
    assert SameContent(d.msg, NetExec(s, acts, delay).origins[uuid].msg);
    PollInvertsCompose(c, mySecret, me, theirSecret, them, plain, nonce, uuid, at, d.msg, bufLen);
  }

  lemma {:induction false} HandedWasDelivered(ds: seq<Delivery>, n: PubKey, m: Message) returns (i: nat)
    requires m in DeliveredAt(ds, n)
    ensures i < |ds| && ds[i].node == n && ds[i].msg == m
  {
    var front := ds[..|ds| - 1];
    if m in DeliveredAt(front, n) {
      i := HandedWasDelivered(front, n, m);
    } else {
      i := |ds| - 1;
    }
  }

  /**
   * End to end: a plaintext is composed and broadcast into any network run; the addressee's application
   * offers what its router delivers to its inbox, in order, and polls and shuts down as it likes. If a copy
   * of the message is the n-th that the inbox stores, the poll that frees the n-th copy returns the
   * plaintext byte for byte with the right sender, or its exact size if the buffer is too small.
   */
  lemma SentIsPolled(c: Suite, mySecret: bytes, me: PubKey, theirSecret: bytes, them: PubKey,
                     plain: bytes, nonce: bytes, uuid: Uuid, at: Time,
                     s: Net, acts: seq<Action>, delay: nat, ops: seq<Op>, n: nat, k: nat, bufLen: nat)
    requires Lawful(c) && |nonce| == NONCE
    requires c.derive(mySecret, them) == c.derive(theirSecret, me)
    requires Compose(c, mySecret, me, them, plain, nonce, uuid, at).Some?
    requires Init(s) && uuid in NetExec(s, acts, delay).origins
    requires NetExec(s, acts, delay).origins[uuid].msg == Compose(c, mySecret, me, them, plain, nonce, uuid, at).value
    requires Deposits(ops) <= DeliveredAt(NetExec(s, acts, delay).deliveries, them)
    requires n < |QueueRun(Fifo([], [], []), ops).stored| && QueueRun(Fifo([], [], []), ops).stored[n].uuid == uuid
    requires k < |ops| && ops[k].Poll?
    requires var f := QueueRun(Fifo([], [], []), ops[..k]);
             |f.destroyed| == n && f.queue != []
    ensures Answer(c, theirSecret, QueueRun(Fifo([], [], []), ops[..k]), bufLen) == Expected(plain, me, bufLen)
  {
    hide NetExec;
    hide Init;
    hide Lawful;
    hide Compose;
    hide PollMessage;
    hide Answer;
    hide QueueRun;
    hide Deposits;
    hide DeliveredAt;
    var stored := QueueRun(Fifo([], [], []), ops).stored;
    StoredWasDeposited(ops, n);
    PrefixMember(Deposits(ops), DeliveredAt(NetExec(s, acts, delay).deliveries, them), stored[n]);
    var i := HandedWasDelivered(NetExec(s, acts, delay).deliveries, them, stored[n]);
    DeliveredIsReadable(c, mySecret, me, theirSecret, them, plain, nonce, uuid, at, s, acts, delay, i, bufLen);
    PollAnswersInTurn(c, theirSecret, ops, k, n, bufLen);
  }

  lemma PrefixMember(a: seq<Message>, b: seq<Message>, m: Message)
    requires a <= b && m in a
    ensures m in b
  {
  }

  /** A composed message survives the 4096-byte receive buffer exactly when its plaintext has at most 3963 bytes. */
  lemma FitsReceiveBuffer(c: Suite, mySecret: bytes, me: PubKey, them: PubKey,
                          plain: bytes, nonce: bytes, uuid: Uuid, now: Time)
    requires Lawful(c) && |nonce| == NONCE
    requires Compose(c, mySecret, me, them, plain, nonce, uuid, now).Some?
    requires NONCE + TAG + |plain| <= Store.INT_MAX
    ensures var m := Compose(c, mySecret, me, them, plain, nonce, uuid, now).value;
            && (Decode(Clip(Encode(m))) == Accept(m) <==> |plain| <= 3963)
            && (Decode(Clip(Encode(m))) == Reject <==> |plain| > 3963)
  {
    hide Decode;
    hide Encode;
    var m := Compose(c, mySecret, me, them, plain, nonce, uuid, now).value;
    assert |m.payload| == NONCE + TAG + |plain|;
    NetworkLaws.ClippedIsNotAccepted(m);
  }

  /** What a sent message looks like: TTL 10, the present time, the nonce and then the sealed plaintext. */
  lemma ComposedMessage(c: Suite, secret: bytes, me: PubKey, to: PubKey, plain: bytes,
                        nonce: bytes, uuid: Uuid, now: Time)
    requires |nonce| == 24
    ensures var m := Compose(c, secret, me, to, plain, nonce, uuid, now);
            && (m.Some? <==> c.derive(secret, to).Some?)
            && (m.Some? ==>
                  && m.value.uuid == uuid && m.value.ttl == 10 && m.value.timestamp == now
                  && m.value.sender == me && m.value.receiver == to
                  && m.value.payload[..24] == nonce
                  && m.value.payload[24..] == c.seal(c.derive(secret, to).value, nonce, plain))
  {
  }

  /**
   * Sending from the application: derive, seal, broadcast. Nothing happens before initialisation or without a
   * key; otherwise the answer is success, whoever can be reached.
   */
  method SendMessage(initialized: bool, c: Suite, secret: bytes, router: MeshRouter.MeshRouter, to: PubKey,
                     plain: bytes, nonce: bytes, uuid: Uuid, now: Time, up: set<PubKey>)
    returns (code: Code, sends: seq<RouterSpec.Send>)
    requires router.Valid()
    requires router.cfg.hasStorage ==> forall key: bytes :: |nonce + c.seal(key, nonce, plain)| <= Store.INT_MAX
    modifies router.table, router.store
    ensures router.Valid()
    ensures !initialized ==> code == Invalid && sends == [] && router.View() == old(router.View())
    ensures initialized && c.derive(secret, to) == None ==>
              code == Crypto && sends == [] && router.View() == old(router.View())
    ensures initialized && c.derive(secret, to).Some? ==>
              var sealed := c.seal(c.derive(secret, to).value, nonce, plain);
              var m := Message(uuid, 10, router.cfg.me, to, now, nonce + sealed);
              && code == Ok && sends == Address(Reached(old(router.View()), up), Encode(m))
              && MarkedOnly(old(router.View()), router.View(), uuid, now)
              && KeptIfStorage(old(router.View()), router.View(), m, now)
  {
    hide Encode;
    hide Reached;
    hide MarkedOnly;
    hide KeptIfStorage;
    hide BroadcastEffect;
    if !initialized {
      return Invalid, [];
    }
    var m := Compose(c, secret, router.cfg.me, to, plain, nonce, uuid, now);
    if m.None? {
      return Crypto, [];
    }
    BroadcastAnswer(router.View(), m.value, now, up);
    code, sends := router.Broadcast(m.value, now, up);
  }

  /** The network in which `me` sends to `them`: idle, wired as `g` says, and new to this UUID. */
  predicate ReadyToFlood(s: Net, g: Flood.Graph, me: PubKey, them: PubKey, uuid: Uuid) {
    && Flood.Topology(s, g) && g.origin == me && g.recipient == them && me != them
    && s.flight == [] && Flood.Seen(s, uuid) == {}
  }

  /**
   * From plaintext to plaintext: a text of at most 3963 bytes sent to a node 1 to 10 hops away, flooded in
   * lossless synchronous rounds, is delivered there exactly once, to nobody else, with TTL 10 minus the distance,
   * and polling what was delivered returns the text and its sender, or its exact size if the buffer is too small.
   */
  lemma SentIsRead(c: Suite, mySecret: bytes, me: PubKey, theirSecret: bytes, them: PubKey,
                   plain: bytes, nonce: bytes, uuid: Uuid, now: Time, s: Net, g: Flood.Graph, bufLen: nat)
    returns (m: Message, d: Delivery, p: seq<PubKey>)
    requires Lawful(c) && |nonce| == 24 && |plain| <= 3963
    requires c.derive(mySecret, them) == c.derive(theirSecret, me) && c.derive(mySecret, them).Some?
    requires ReadyToFlood(s, g, me, them, uuid) && Flood.Within(g, them, 10)
    ensures Compose(c, mySecret, me, them, plain, nonce, uuid, now) == Some(m)
    ensures s.nodes.Keys == g.nodes && g.origin in s.nodes
    ensures Flood.After(s, g, m, 11).flight == []
    ensures Flood.After(s, g, m, 11).deliveries == s.deliveries + [d]
    ensures Flood.Shortest(g, p, them) && 1 <= |p| - 1 <= 10
    ensures d.node == them && d.msg == m.(ttl := 10 - (|p| - 1))
    ensures PollMessage(c, theirSecret, d.msg, bufLen) == Expected(plain, me, bufLen)
  {
    hide Lawful;
    hide PollMessage;
    hide Flood.Topology;
    hide Flood.Seen;
    hide Flood.Within;
    hide Flood.Shortest;
    hide Flood.After;
    m := Compose(c, mySecret, me, them, plain, nonce, uuid, now).value;
    ComposedSize(c, mySecret, me, them, plain, nonce, uuid, now);
    var ds;
    ds, p := Flood.RecipientReached(s, g, m);
    d := ds[0];
    assert ds == [d];
    PollInvertsCompose(c, mySecret, me, theirSecret, them, plain, nonce, uuid, now, d.msg, bufLen);
  }

  lemma ComposedSize(c: Suite, secret: bytes, me: PubKey, to: PubKey, plain: bytes,
                     nonce: bytes, uuid: Uuid, now: Time)
    requires Lawful(c) && |nonce| == 24 && c.derive(secret, to).Some?
    ensures |Compose(c, secret, me, to, plain, nonce, uuid, now).value.payload| == 40 + |plain|
  {
  }
}
