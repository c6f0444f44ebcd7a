/** The receive side of the application bridge: a ring of 256 slots between arrivals and polls. */
module Inbox {
  import opened Types

  const SLOTS: nat := 256
  const CAPACITY: nat := 255
  const NONCE: nat := 24
  const TAG: nat := 16

  // ---------- decryption, with the cipher left abstract ----------

  /** Key agreement and authenticated encryption, as the bridge calls them. */
  datatype Suite = Suite(
    derive: (bytes, PubKey) -> Option<bytes>,
    seal: (bytes, bytes, bytes) -> bytes,
    unseal: (bytes, bytes, bytes) -> Option<bytes>)

  datatype Polled = Polled(code: Code, len: nat, plaintext: bytes, sender: Option<PubKey>)

  /** What polling makes of one queued message. */
  function PollMessage(c: Suite, secret: bytes, m: Message, bufLen: nat): Polled {
    if |m.payload| < NONCE + TAG then Polled(Ok, 0, [], None)
    else match c.derive(secret, m.sender)
      case None => Polled(Crypto, 0, [], None)
      case Some(key) =>
        var ptLen := |m.payload| - NONCE - TAG;
        if bufLen < ptLen then Polled(BufferTooSmall, ptLen, [], None)
        else match c.unseal(key, m.payload[..NONCE], m.payload[NONCE..])
          case None => Polled(Crypto, 0, [], None)
          case Some(plain) => Polled(Ok, ptLen, plain, Some(m.sender))
  }

  /** The key that the holder of `secret` shares with the sender of `m` opens `m`, and what it holds is `plain`. */
  predicate Opens(c: Suite, secret: bytes, m: Message, plain: bytes) {
    && |m.payload| >= 40
    && var key := c.derive(secret, m.sender);
       key.Some? && c.unseal(key.value, m.payload[..24], m.payload[24..]) == Some(plain)
  }

  /** A plaintext or a sender is handed out only for a message that opens to exactly that plaintext. */
  predicate Authentic(c: Suite, secret: bytes, m: Message, bufLen: nat, r: Polled) {
    r.plaintext != [] || r.sender.Some? ==>
      && r.code == Ok && r.sender == Some(m.sender) && Opens(c, secret, m, r.plaintext)
      && r.len == |m.payload| - 40 <= bufLen
  }

  lemma PollIsAuthentic(c: Suite, secret: bytes, m: Message, bufLen: nat)
    ensures Authentic(c, secret, m, bufLen, PollMessage(c, secret, m, bufLen))
  {
  }

  /** What polling answers when there is nothing to hand out. */
  lemma PollRefuses(c: Suite, secret: bytes, m: Message, bufLen: nat)
    ensures var r := PollMessage(c, secret, m, bufLen);
            var n := |m.payload|;
            && (n < 40 ==> r == Polled(Ok, 0, [], None))
            && (n >= 40 && c.derive(secret, m.sender) == None ==> r == Polled(Crypto, 0, [], None))
            && (n >= 40 && c.derive(secret, m.sender).Some? && bufLen < n - 40 ==>
                  r == Polled(BufferTooSmall, n - 40, [], None))
            && (n >= 40 && bufLen >= n - 40 && (forall plain :: !Opens(c, secret, m, plain)) ==>
                  r == Polled(Crypto, 0, [], None))
  {
    if |m.payload| >= 40 {
      var key := c.derive(secret, m.sender);
      if key.Some? && c.unseal(key.value, m.payload[..24], m.payload[24..]).Some? {
        assert Opens(c, secret, m, c.unseal(key.value, m.payload[..24], m.payload[24..]).value);
      }
    }
  }

  /** A message that opens is handed out when the buffer fits. */
  lemma PollHandsOut(c: Suite, secret: bytes, m: Message, bufLen: nat, plain: bytes)
    requires Opens(c, secret, m, plain) && bufLen >= |m.payload| - 40
    ensures PollMessage(c, secret, m, bufLen) == Polled(Ok, |m.payload| - 40, plain, Some(m.sender))
  {
  }

  // ---------- the bounded queue that the ring stands for ----------

  /** `stored` and `destroyed` log every copy ever queued and every copy ever freed. */
  datatype Fifo = Fifo(queue: seq<Message>, stored: seq<Message>, destroyed: seq<Message>)

  datatype Op = Deposit(msg: Message) | Poll | Shutdown

  function QueueStep(f: Fifo, op: Op): Fifo {
    match op
    case Deposit(m) =>
      if |f.queue| < CAPACITY then f.(queue := f.queue + [m], stored := f.stored + [m]) else f
    case Poll =>
      if f.queue == [] then f
      else f.(queue := f.queue[1..], destroyed := f.destroyed + [f.queue[0]])
    case Shutdown => f.(queue := [], destroyed := f.destroyed + f.queue)
  }

  function QueueRun(f: Fifo, ops: seq<Op>): Fifo {
    if ops == [] then f else QueueStep(QueueRun(f, ops[..|ops| - 1]), ops[|ops| - 1])
  }

  /** Copies are freed in the order they were stored, each once, and never more than 255 wait. */
  predicate InOrder(f: Fifo) {
    f.stored == f.destroyed + f.queue && |f.queue| <= CAPACITY
  }

  lemma InOrderStep(f: Fifo, op: Op)
    requires InOrder(f)
    ensures InOrder(QueueStep(f, op))
  {
    if op.Deposit? {
      assert f.destroyed + (f.queue + [op.msg]) == f.destroyed + f.queue + [op.msg];
    } else if op.Poll? && f.queue != [] {
      assert f.queue == [f.queue[0]] + f.queue[1..];
      assert f.destroyed + [f.queue[0]] + f.queue[1..] == f.destroyed + f.queue;
    }
  }

  lemma {:induction false} InOrderRun(f: Fifo, ops: seq<Op>)
    requires InOrder(f)
    ensures InOrder(QueueRun(f, ops))
  {
    if ops != [] {
      InOrderRun(f, ops[..|ops| - 1]);
      InOrderStep(QueueRun(f, ops[..|ops| - 1]), ops[|ops| - 1]);
    }
  }

  /** What was stored at position `n` is what the `n`-th departure frees, however calls interleave. */
  lemma FirstInFirstOut(ops: seq<Op>, n: nat)
    requires n < |QueueRun(Fifo([], [], []), ops).destroyed|
    ensures var f := QueueRun(Fifo([], [], []), ops);
            n < |f.stored| && f.destroyed[n] == f.stored[n]
  {
    InOrderRun(Fifo([], [], []), ops);
  }

  /** An arrival is dropped exactly when 255 messages are waiting. */
  lemma DroppedOnlyWhenFull(ops: seq<Op>, m: Message)
    ensures var f := QueueRun(Fifo([], [], []), ops);
            QueueStep(f, Deposit(m)).stored == (if |f.queue| == 255 then f.stored else f.stored + [m])
  {
    InOrderRun(Fifo([], [], []), ops);
  }

  /** After a shutdown, every copy ever stored has been freed. */
  lemma ShutdownFreesAll(ops: seq<Op>)
    ensures var f := QueueRun(Fifo([], [], []), ops + [Shutdown]);
            f.destroyed == f.stored
  {
    InOrderRun(Fifo([], [], []), ops + [Shutdown]);
    assert (ops + [Shutdown])[..|ops|] == ops;
    var f := QueueRun(Fifo([], [], []), ops + [Shutdown]);
    assert f.destroyed + [] == f.destroyed;
  }

  // ---------- what a poll answers in the course of a run ----------

  /** The answer to a poll: nothing if nothing waits, else what the oldest message decrypts to. */
  function Answer(c: Suite, secret: bytes, f: Fifo, bufLen: nat): Polled {
    if f.queue == [] then Polled(Ok, 0, [], None) else PollMessage(c, secret, f.queue[0], bufLen)
  }

  /** The messages offered to the queue, in order. */
  function Deposits(ops: seq<Op>): seq<Message> {
    if ops == [] then []
    else Deposits(ops[..|ops| - 1]) + if ops[|ops| - 1].Deposit? then [ops[|ops| - 1].msg] else []
  }

  /** Only what was offered is ever stored. */
  lemma {:induction false} StoredWasDeposited(ops: seq<Op>, n: nat)
    requires n < |QueueRun(Fifo([], [], []), ops).stored|
    ensures QueueRun(Fifo([], [], []), ops).stored[n] in Deposits(ops)
  {
    var front := ops[..|ops| - 1];
    if n < |QueueRun(Fifo([], [], []), front).stored| {
      StoredWasDeposited(front, n);
    }
  }

  /** The log of stored copies only grows. */
  lemma {:induction false} StoredGrows(ops: seq<Op>, k: nat)
    requires k <= |ops|
    ensures QueueRun(Fifo([], [], []), ops[..k]).stored <= QueueRun(Fifo([], [], []), ops).stored
  {
    if k < |ops| {
      StoredGrows(ops[..|ops| - 1], k);
      assert ops[..|ops| - 1][..k] == ops[..k];
    } else {
      assert ops[..k] == ops;
    }
  }

  /** The poll that frees the n-th copy answers for the n-th copy stored, whatever was offered and polled around it. */
  lemma PollAnswersInTurn(c: Suite, secret: bytes, ops: seq<Op>, k: nat, n: nat, bufLen: nat)
    requires k < |ops| && ops[k].Poll? && n < |QueueRun(Fifo([], [], []), ops).stored|
    requires var f := QueueRun(Fifo([], [], []), ops[..k]);
             |f.destroyed| == n && f.queue != []
    ensures var f := QueueRun(Fifo([], [], []), ops[..k]);
            && QueueStep(f, Poll).destroyed == f.destroyed + [QueueRun(Fifo([], [], []), ops).stored[n]]
            && Answer(c, secret, f, bufLen) ==
               PollMessage(c, secret, QueueRun(Fifo([], [], []), ops).stored[n], bufLen)
  {
    hide QueueRun;
    hide PollMessage;
    InOrderRun(Fifo([], [], []), ops[..k]);
    StoredGrows(ops, k);
    var f := QueueRun(Fifo([], [], []), ops[..k]);
    assert f.stored[n] == f.queue[0];
  }

  /** With nothing waiting, a poll answers success with nothing. */
  lemma EmptyAnswer(c: Suite, secret: bytes, f: Fifo, bufLen: nat)
    requires f.queue == []
    ensures Answer(c, secret, f, bufLen) == Polled(Ok, 0, [], None)
  {
  }

  /**
   * In any run of arrivals, polls and shutdowns: whatever plaintext or sender a poll hands out belongs to a
   * message that was offered before and opens to exactly that plaintext.
   */
  lemma PolledIsGenuine(c: Suite, secret: bytes, ops: seq<Op>, bufLen: nat) returns (m: Message)
    requires var r := Answer(c, secret, QueueRun(Fifo([], [], []), ops), bufLen);
             r.plaintext != [] || r.sender.Some?
    ensures var r := Answer(c, secret, QueueRun(Fifo([], [], []), ops), bufLen);
            && m in Deposits(ops) && r.code == Ok && r.sender == Some(m.sender)
            && Opens(c, secret, m, r.plaintext) && r.len == |m.payload| - 40
  {
    hide PollMessage;
    hide QueueRun;
    hide Opens;
    var f := QueueRun(Fifo([], [], []), ops);
    m := f.queue[0];
    PollIsAuthentic(c, secret, m, bufLen);
    NothingStored();
    InOrderRun(Fifo([], [], []), ops);
    assert f.stored[|f.destroyed|] == m;
    StoredWasDeposited(ops, |f.destroyed|);
  }

  lemma NothingStored()
    ensures InOrder(Fifo([], [], []))
  {
  }

  // ---------- the ring ----------

  /** The slot after `i`, going round. */
  function Next(i: nat): (n: nat)
    requires i < SLOTS
    ensures n == if i + 1 == SLOTS then 0 else i + 1
  {
    (i + 1) % SLOTS
  }

  /** The messages between `tail` and `head`, going round. */
  function Waiting(slots: seq<Message>, tail: nat, head: nat): seq<Message>
    requires |slots| == SLOTS && tail < SLOTS && head < SLOTS
  {
    if tail <= head then slots[tail..head] else slots[tail..] + slots[..head]
  }

  class Ring {
    const slots: array<Message>
    var head: nat
    var tail: nat
    var initialized: bool
    ghost var stored: seq<Message>
    ghost var destroyed: seq<Message>

    ghost predicate Valid()
      reads this, slots
    {
      && slots.Length == SLOTS && head < SLOTS && tail < SLOTS
      && InOrder(Fifo(Waiting(slots[..], tail, head), stored, destroyed))
    }

    ghost function View(): Fifo
      requires slots.Length == SLOTS && head < SLOTS && tail < SLOTS
      reads this, slots
    {
      Fifo(Waiting(slots[..], tail, head), stored, destroyed)
    }

    constructor ()
      ensures Valid() && fresh(slots) && initialized && View() == Fifo([], [], [])
    {
      slots := new Message[SLOTS](_ => Message(seq(16, _ => 0), 0, seq(32, _ => 0), seq(32, _ => 0), 0, []));
      head, tail, initialized := 0, 0, true;
      stored, destroyed := [], [];
    }

    /** The router's delivery callback: queue a copy unless the ring is full. */
    method OnMessage(m: Message)
      requires Valid()
      modifies this, slots
      ensures Valid() && initialized == old(initialized)
      ensures View() == QueueStep(old(View()), Deposit(m))
    {
      InOrderStep(View(), Deposit(m));
      ghost var before := slots[..];
      var next := Next(head);
      if next != tail {
        var copy := Message(m.uuid, m.ttl, m.sender, m.receiver, m.timestamp,
                            if |m.payload| > 0 then m.payload else []);
        slots[head] := copy;
        PutAtHead(before, tail, head, m);
        head := next;
        stored := stored + [m];
      } else {
        assert |Waiting(before, tail, head)| == CAPACITY;
      }
    }

    /**
     * Takes the oldest message off the ring whatever becomes of it, even when the buffer is too small.
     * Each of the four ways out frees the copy, as the log of freed copies records.
     */
    method PollMessages(c: Suite, secret: bytes, bufLen: nat) returns (r: Polled)
      requires Valid()
      modifies this
      ensures Valid() && initialized == old(initialized)
      ensures !old(initialized) ==> r == Polled(Invalid, 0, [], None) && View() == old(View())
      ensures old(initialized) ==>
                && View() == QueueStep(old(View()), Poll)
                && r == Answer(c, secret, old(View()), bufLen)
      ensures old(initialized) && old(View()).queue == [] ==> r == Polled(Ok, 0, [], None)
      ensures old(initialized) && old(View()).queue != [] ==> Authentic(c, secret, old(View()).queue[0], bufLen, r)
    {
      if initialized && View().queue != [] {
        PollIsAuthentic(c, secret, View().queue[0], bufLen);
      }
      if !initialized {
        return Polled(Invalid, 0, [], None);
      }
      if tail == head {
        return Polled(Ok, 0, [], None);
      }
      InOrderStep(View(), Poll);
      TakeAtTail(slots[..], tail, head);
      var m := slots[tail];
      tail := Next(tail);
      if |m.payload| < NONCE + TAG {
        destroyed := destroyed + [m];
        return Polled(Ok, 0, [], None);
      }
      var key := c.derive(secret, m.sender);
      if key.None? {
        destroyed := destroyed + [m];
        return Polled(Crypto, 0, [], None);
      }
      var ctLen := |m.payload| - NONCE;
      var ptLen := ctLen - TAG;
      if bufLen < ptLen {
        destroyed := destroyed + [m];
        return Polled(BufferTooSmall, ptLen, [], None);
      }
      var plain := c.unseal(key.value, m.payload[..NONCE], m.payload[NONCE..]);
      if plain.Some? {
        r := Polled(Ok, ptLen, plain.value, Some(m.sender));
      } else {
        r := Polled(Crypto, 0, [], None);
      }
      destroyed := destroyed + [m];
    }

    method Shutdown()
      requires Valid()
      modifies this
      ensures Valid() && !initialized
      ensures View() == if old(initialized) then QueueStep(old(View()), Op.Shutdown) else old(View())
    {
      if !initialized {
        return;
      }
      ghost var f := View();
      assert f.destroyed + f.queue == f.stored;
      while tail != head
        invariant Valid() && head == old(head) && initialized && stored == f.stored
        invariant View().destroyed + View().queue == f.stored
        decreases |View().queue|
        modifies this`tail, this`destroyed
      {
        InOrderStep(View(), Poll);
        TakeAtTail(slots[..], tail, head);
        destroyed := destroyed + [slots[tail]];
        tail := Next(tail);
      }
      assert View().queue == [];
      head, tail, initialized := 0, 0, false;
    }
  }

  lemma PutAtHead(slots: seq<Message>, tail: nat, head: nat, m: Message)
    requires |slots| == SLOTS && tail < SLOTS && head < SLOTS && Next(head) != tail
    ensures Waiting(slots[head := m], tail, Next(head)) == Waiting(slots, tail, head) + [m]
    ensures |Waiting(slots, tail, head)| < CAPACITY
  {
    hide Next;
  }

  lemma TakeAtTail(slots: seq<Message>, tail: nat, head: nat)
    requires |slots| == SLOTS && tail < SLOTS && head < SLOTS && head != tail
    ensures |Waiting(slots, tail, head)| > 0 && Waiting(slots, tail, head)[0] == slots[tail]
    ensures Waiting(slots, Next(tail), head) == Waiting(slots, tail, head)[1..]
  {
    hide Next;
    if tail < head {
      assert slots[tail..head][1..] == slots[tail + 1..head];
    } else {
      DropFirst(slots[tail..], slots[..head]);
      if tail + 1 < SLOTS {
        assert slots[tail..][1..] == slots[tail + 1..];
      } else {
        assert slots[tail..][1..] == [] && [] + slots[..head] == slots[0..head];
      }
    }
  }

  lemma DropFirst(a: seq<Message>, b: seq<Message>)
    requires |a| > 0
    ensures (a + b)[0] == a[0] && (a + b)[1..] == a[1..] + b
  {
  }
}
