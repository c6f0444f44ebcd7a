/**
 * The pending-message table: what its SQL statements mean, as operations on a map
 * keyed by the primary key, and the adapter that runs them.
 */
module Store {
  import opened Types

  const RETENTION: nat := 259200
  const INT_MAX: nat := 0x7FFF_FFFF

  datatype Row = Row(sender: PubKey, receiver: PubKey, payload: bytes, ttl: byte, expiresAt: nat)

  type Rows = map<Uuid, Row>

  function RowOf(m: Message, now: Time): Row {
    Row(m.sender, m.receiver, m.payload, m.ttl, now + RETENTION)
  }

  /** The timestamp of a reloaded message is the time it was stored, not its creation time. */
  function Reload(u: Uuid, row: Row): Message {
    Message(u, row.ttl, row.sender, row.receiver, (row.expiresAt - RETENTION) % TWO64, row.payload)
  }

  /** INSERT OR IGNORE. */
  function Put(rows: Rows, m: Message, now: Time): Rows {
    if m.uuid in rows then rows else rows[m.uuid := RowOf(m, now)]
  }

  predicate Matches(row: Row, peer: Option<PubKey>, now: Time) {
    row.expiresAt >= now && (peer.Some? ==> row.receiver == peer.value)
  }

  /** The primary keys a SELECT returns. */
  function Select(rows: Rows, peer: Option<PubKey>, now: Time): set<Uuid> {
    set u | u in rows && Matches(rows[u], peer, now)
  }

  /** DELETE WHERE expires_at < now. */
  function Evict(rows: Rows, now: Time): Rows {
    map u | u in rows && rows[u].expiresAt >= now :: rows[u]
  }

  /** A stored message reloads with the same content and TTL, stamped with the time of storing. */
  lemma StoreRoundTrip(rows: Rows, m: Message, now: Time)
    requires m.uuid !in rows
    ensures m.uuid in Put(rows, m, now)
    ensures Reload(m.uuid, Put(rows, m, now)[m.uuid]) == m.(timestamp := now)
  {
  }

  /** `msgs` lists the selected rows, each exactly once, in an order SQL leaves open. */
  predicate Lists(msgs: seq<Message>, rows: Rows, selected: set<Uuid>) {
    && (forall i :: 0 <= i < |msgs| ==>
          msgs[i].uuid in selected && msgs[i].uuid in rows
          && msgs[i] == Reload(msgs[i].uuid, rows[msgs[i].uuid]))
    && (forall i, j :: 0 <= i < j < |msgs| ==> msgs[i].uuid != msgs[j].uuid)
    && |msgs| == |selected|
  }

  /** Identifiers without repeats, all selected and as many as are selected, leave none of the selection out. */
  lemma {:induction false} ListingIsComplete(us: seq<Uuid>, selected: set<Uuid>)
    requires Distinct(us) && |us| == |selected|
    requires forall i :: 0 <= i < |us| ==> us[i] in selected
    ensures forall u :: u in selected ==> u in us
  {
    if us != [] {
      var front, last := us[..|us| - 1], us[|us| - 1];
      ListingIsComplete(front, selected - {last});
      forall u | u in selected ensures u in us {
        assert u == last || u in front;
      }
    }
  }

  function Uuids(msgs: seq<Message>): (us: seq<Uuid>)
    ensures |us| == |msgs| && forall i :: 0 <= i < |msgs| ==> us[i] == msgs[i].uuid
  {
    seq(|msgs|, i requires 0 <= i < |msgs| => msgs[i].uuid)
  }

  lemma ListsAll(msgs: seq<Message>, rows: Rows, selected: set<Uuid>)
    requires Lists(msgs, rows, selected)
    ensures forall u :: u in selected ==> u in Uuids(msgs)
  {
    ListingIsComplete(Uuids(msgs), selected);
  }

  lemma ListsOnly(msgs: seq<Message>, rows: Rows, peer: Option<PubKey>, now: Time)
    requires Lists(msgs, rows, Select(rows, peer, now))
    ensures forall i :: 0 <= i < |msgs| ==>
              && msgs[i].uuid in rows && rows[msgs[i].uuid].expiresAt >= now
              && (peer.Some? ==> msgs[i].receiver == peer.value)
    ensures Distinct(Uuids(msgs))
  {
  }

  lemma ListsNone(rows: Rows)
    ensures Lists([], rows, {})
  {
  }

  lemma ListsExtend(msgs: seq<Message>, rows: Rows, done: set<Uuid>, u: Uuid)
    requires Lists(msgs, rows, done) && u !in done && u in rows
    ensures Lists(msgs + [Reload(u, rows[u])], rows, done + {u})
  {
  }

  class PendingStore {
    var rows: Rows

    constructor ()
      ensures rows == map[]
    {
      rows := map[];
    }

    method StoreMessage(m: Message, now: Time)
      requires |m.payload| <= INT_MAX
      modifies this
      ensures rows == Put(old(rows), m, now)
    {
      var expiresAt := now + RETENTION;
      if m.uuid !in rows {
        rows := rows[m.uuid := Row(m.sender, m.receiver, m.payload, m.ttl, expiresAt)];
      }
    }

    /** Steps through the matching rows, appending one message each. */
    method GetPending(peer: Option<PubKey>, now: Time) returns (msgs: seq<Message>)
      ensures Lists(msgs, rows, Select(rows, peer, now))
      ensures forall u :: u in rows && rows[u].expiresAt >= now && (peer == None || peer == Some(rows[u].receiver)) ==>
                            u in Uuids(msgs)
      ensures forall i :: 0 <= i < |msgs| ==>
                && msgs[i].uuid in rows && rows[msgs[i].uuid].expiresAt >= now
                && (peer.Some? ==> msgs[i].receiver == peer.value)
      ensures Distinct(Uuids(msgs))
    {
      hide Lists;
      msgs := [];
      ListsNone(rows);
      var selected := Select(rows, peer, now);
      var left := selected;
      assert selected - left == {};
      while left != {}
        invariant left <= selected && selected == Select(rows, peer, now)
        invariant Lists(msgs, rows, selected - left)
        decreases left
      {
        var u :| u in left;
        var row := rows[u];
        var payload := if |row.payload| > 0 then row.payload else [];
        var m := Message(u, row.ttl, row.sender, row.receiver, (row.expiresAt - RETENTION) % TWO64, payload);
        assert m == Reload(u, row);
        assert selected - (left - {u}) == (selected - left) + {u};
        ListsExtend(msgs, rows, selected - left, u);
        msgs := msgs + [m];
        left := left - {u};
      }
      assert selected - left == selected;
      ListsAll(msgs, rows, selected);
      ListsOnly(msgs, rows, peer, now);
    }

    /** Exactly the rows whose time has passed go; the others stay as they are. */
    method EvictExpired(now: Time)
      modifies this
      ensures forall u :: u in rows <==> u in old(rows) && old(rows)[u].expiresAt >= now
      ensures forall u :: u in rows ==> rows[u] == old(rows)[u]
    {
      var passed := set u | u in rows && rows[u].expiresAt < now;
      rows := rows - passed;
    }
  }

  lemma EvictedExactly(rows: Rows, left: Rows, now: Time)
    requires forall u :: u in left <==> u in rows && rows[u].expiresAt >= now
    requires forall u :: u in left ==> left[u] == rows[u]
    ensures left == Evict(rows, now)
  {
  }
}
