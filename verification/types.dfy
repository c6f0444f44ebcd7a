/** The entities of the mesh: identifiers, messages, peers and result codes. */
module Types {

  type byte = x: int | 0 <= x < 256
  type bytes = seq<byte>

  const TWO32: int := 0x1_0000_0000
  const TWO64: int := 0x1_0000_0000_0000_0000

  type u64 = x: int | 0 <= x < 0x1_0000_0000_0000_0000

  /** Wall-clock seconds for which `now + 72h` still fits a signed 64-bit column. */
  type Time = x: int | 0 <= x < 0x7FFF_FFFF_FFFF_FFFF - 259200

  type Uuid = s: bytes | |s| == 16 witness seq(16, _ => 0)
  type PubKey = s: bytes | |s| == 32 witness seq(32, _ => 0)

  const DEFAULT_TTL: byte := 10
  const MAX_PEERS: nat := 64

  datatype Option<+T> = None | Some(value: T)

  datatype Code =
    | Ok
    | Invalid
    | Duplicate
    | TtlExpired
    | Crypto
    | Transport
    | BufferTooSmall

  datatype Message = Message(
    uuid: Uuid,
    ttl: byte,
    sender: PubKey,
    receiver: PubKey,
    timestamp: u64,
    payload: bytes)

  datatype Link = Ble | WifiDirect

  datatype Peer = Peer(pubkey: PubKey, lastSeen: u64, link: Link, rssi: int)

  /** What a relay or a store must never change: everything but ttl and timestamp. */
  predicate SameContent(a: Message, b: Message) {
    && a.uuid == b.uuid
    && a.sender == b.sender
    && a.receiver == b.receiver
    && a.payload == b.payload
  }

  /** C's unsigned 64-bit subtraction, wrapping when the clock steps back. */
  function Elapsed(now: u64, since: u64): (d: u64)
    ensures since <= now ==> d == now - since
    ensures since > now ==> d == TWO64 - (since - now)
  {
    (now - since) % TWO64
  }

  /** The keys of a peer table, in table order. */
  function Keys(peers: seq<Peer>): (keys: seq<PubKey>)
    ensures |keys| == |peers|
    ensures forall i :: 0 <= i < |peers| ==> keys[i] == peers[i].pubkey
  {
    seq(|peers|, i requires 0 <= i < |peers| => peers[i].pubkey)
  }

  predicate Distinct<T(==)>(s: seq<T>) {
    forall i, j :: 0 <= i < j < |s| ==> s[i] != s[j]
  }

  /** The first position holding `key`, or `|peers|`. */
  function IndexOf(peers: seq<Peer>, key: PubKey): (i: nat)
    ensures i <= |peers|
    ensures i < |peers| ==> peers[i].pubkey == key
    ensures forall j :: 0 <= j < i ==> peers[j].pubkey != key
  {
    if peers == [] || peers[0].pubkey == key then 0 else 1 + IndexOf(peers[1..], key)
  }

  function Pow(b: nat, n: nat): (p: nat)
    ensures b >= 1 ==> p >= 1
  {
    if n == 0 then 1 else b * Pow(b, n - 1)
  }
}
