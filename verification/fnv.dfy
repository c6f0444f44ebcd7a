/** FNV-1a over a UUID, with the 32-bit offset basis and prime, as a loop and as a fold. */
module Fnv {
  import opened Types

  const OFFSET_BASIS: nat := 2166136261
  const PRIME: nat := 16777619
  const PRIME_INVERSE: nat := 899433627

  type u32 = x: int | 0 <= x < 0x1_0000_0000

  /** Bitwise exclusive or of two naturals. */
  function Xor(x: nat, y: nat): nat
  {
    if x == 0 && y == 0 then 0 else (x + y) % 2 + 2 * Xor(x / 2, y / 2)
  }

  lemma {:induction false} XorStaysInWord(x: nat, y: nat, bits: nat)
    requires x < Pow(2, bits) && y < Pow(2, bits)
    ensures Xor(x, y) < Pow(2, bits)
  {
    if bits > 0 {
      XorStaysInWord(x / 2, y / 2, bits - 1);
    }
  }

  lemma WordIs32()
    ensures Pow(2, 32) == TWO32
  {
    assert Pow(2, 8) == 256;
    assert Pow(2, 16) == 65536;
    assert Pow(2, 24) == 16777216;
  }

  /** Exclusive or undoes itself, hence is injective in either argument. */
  lemma {:induction false} XorUndo(x: nat, y: nat)
    ensures Xor(Xor(x, y), y) == x
    ensures Xor(Xor(x, y), x) == y
  {
    hide Xor;
    XorUnfold(x, y);
    if x == 0 && y == 0 {
      XorOfNothing();
    } else {
      XorUndo(x / 2, y / 2);
      Parity(x, y, Xor(x / 2, y / 2));
      XorUnfold(Xor(x, y), y);
      XorUnfold(Xor(x, y), x);
    }
  }

  lemma Parity(x: nat, y: nat, w: nat)
    ensures ((x + y) % 2 + 2 * w) / 2 == w
    ensures ((x + y) % 2 + 2 * w + y) % 2 == x % 2
    ensures ((x + y) % 2 + 2 * w + x) % 2 == y % 2
  {
  }

  lemma XorOfNothing()
    ensures Xor(0, 0) == 0
  {
  }

  lemma XorUnfold(x: nat, y: nat)
    ensures Xor(x, y) == (x + y) % 2 + 2 * Xor(x / 2, y / 2)
  {
  }

  function Mix(h: u32, b: byte): (r: u32)
  {
    Xor(h, b) * PRIME % TWO32
  }

  lemma MulUndo(x: u32)
    ensures x * PRIME % TWO32 * PRIME_INVERSE % TWO32 == x
  {
    var q := x * PRIME / TWO32;
    assert x * PRIME % TWO32 == x * PRIME - q * TWO32;
    var k := x * 3513497 - q * PRIME_INVERSE;
    assert (x * PRIME - q * TWO32) * PRIME_INVERSE == x + k * TWO32;
  }

  lemma MulOnto(y: u32)
    ensures y * PRIME_INVERSE % TWO32 * PRIME % TWO32 == y
  {
    var q := y * PRIME_INVERSE / TWO32;
    assert y * PRIME_INVERSE % TWO32 == y * PRIME_INVERSE - q * TWO32;
    var k := y * 3513497 - q * PRIME;
    assert (y * PRIME_INVERSE - q * TWO32) * PRIME == y + k * TWO32;
  }

  /** For a fixed byte, one FNV-1a step is a bijection of the 32-bit state: its inverse undoes it on both sides. */
  lemma MixUndo(h: u32, b: byte)
    ensures Xor(Mix(h, b) * PRIME_INVERSE % TWO32, b) == h
    ensures Xor(Mix(h, b) * PRIME_INVERSE % TWO32, h) == b
    ensures Xor(h * PRIME_INVERSE % TWO32, b) < TWO32
    ensures Mix(Xor(h * PRIME_INVERSE % TWO32, b), b) == h
  {
    WordIs32();
    XorStaysInWord(h, b, 32);
    MulUndo(Xor(h, b));
    XorUndo(h, b);
    var x := h * PRIME_INVERSE % TWO32;
    XorStaysInWord(x, b, 32);
    XorUndo(x, b);
    MulOnto(h);
  }

  function Fold(h: u32, s: bytes): u32
  {
    if s == [] then h else Mix(Fold(h, s[..|s| - 1]), s[|s| - 1])
  }

  function Hash(u: bytes): u32 { Fold(OFFSET_BASIS, u) }

  lemma {:induction false} FoldSplit(h: u32, a: bytes, b: bytes)
    ensures Fold(h, a + b) == Fold(Fold(h, a), b)
  {
    if b == [] {
      assert a + b == a;
    } else {
      FoldSplit(h, a, b[..|b| - 1]);
      assert (a + b)[..|a + b| - 1] == a + b[..|b| - 1];
    }
  }

  lemma {:induction false} FoldInjective(g: u32, h: u32, s: bytes)
    requires g != h
    ensures Fold(g, s) != Fold(h, s)
  {
    if s != [] {
      FoldInjective(g, h, s[..|s| - 1]);
      MixUndo(Fold(g, s[..|s| - 1]), s[|s| - 1]);
      MixUndo(Fold(h, s[..|s| - 1]), s[|s| - 1]);
    }
  }

  /** Two identifiers that differ in exactly one byte never share a 32-bit hash. */
  lemma OneByteSeparates(u: Uuid, v: Uuid, k: nat)
    requires k < 16 && u[k] != v[k]
    requires forall i :: 0 <= i < 16 && i != k ==> u[i] == v[i]
    ensures Hash(u) != Hash(v)
  {
    assert u[..k] == v[..k] && u[k + 1..] == v[k + 1..];
    assert u == u[..k] + ([u[k]] + u[k + 1..]) && v == v[..k] + ([v[k]] + v[k + 1..]);
    var h := Fold(OFFSET_BASIS, u[..k]);
    FoldSplit(OFFSET_BASIS, u[..k], [u[k]] + u[k + 1..]);
    FoldSplit(OFFSET_BASIS, v[..k], [v[k]] + v[k + 1..]);
    FoldSplit(h, [u[k]], u[k + 1..]);
    FoldSplit(h, [v[k]], v[k + 1..]);
    MixUndo(h, u[k]);
    MixUndo(h, v[k]);
    FoldOne(h, u[k]);
    FoldOne(h, v[k]);
    FoldInjective(Mix(h, u[k]), Mix(h, v[k]), u[k + 1..]);
  }

  lemma FoldOne(h: u32, b: byte)
    ensures Fold(h, [b]) == Mix(h, b)
  {
    assert [b][..0] == [];
  }

  /** The probe sequence of `u` in a table of `cap` slots starts here. */
  function Home(u: Uuid, cap: nat): (home: nat)
    requires cap >= 1
    ensures home < cap
  {
    Hash(u) % cap
  }

  /** Two UUIDs compete for the same home slot exactly when their hashes agree modulo the capacity. */
  lemma SameHome(u: Uuid, v: Uuid, cap: nat)
    requires cap >= 1
    ensures Home(u, cap) == Home(v, cap) <==> Hash(u) % cap == Hash(v) % cap
    ensures Hash(u) < cap ==> Home(u, cap) == Hash(u)
  {
    hide Hash;
    if Hash(u) < cap {
      SmallRemainder(Hash(u), cap);
    }
  }

  lemma SmallRemainder(x: nat, cap: nat)
    requires x < cap
    ensures x % cap == x
  {
  }

  method DedupHash(u: Uuid, cap: nat) returns (idx: nat)
    requires cap >= 1
    ensures idx == Home(u, cap)
  {
    WordIs32();
    var h: u32 := OFFSET_BASIS;
    for i := 0 to 16
      invariant h == Fold(OFFSET_BASIS, u[..i])
    {
      XorStaysInWord(h, u[i], 32);
      h := Xor(h, u[i]);
      h := h * PRIME % TWO32;
      assert u[..i + 1][..i] == u[..i];
    }
    assert u[..16] == u;
    idx := h % cap;
  }

  // ---------- published test values ----------

  lemma {:induction false} XorZero(x: nat)
    ensures Xor(x, 0) == x
  {
    if x > 0 {
      XorZero(x / 2);
    }
  }

  function Bit(b: bool): nat { if b then 1 else 0 }

  lemma XorPair(x: nat, i: bool, y: nat, j: bool)
    ensures Xor(2 * x + Bit(i), 2 * y + Bit(j)) == 2 * Xor(x, y) + Bit(i != j)
  {
    hide Xor;
    XorUnfold(2 * x + Bit(i), 2 * y + Bit(j));
    assert (2 * x + Bit(i)) / 2 == x && (2 * y + Bit(j)) / 2 == y;
  }

  lemma XorTwoPairs(x: nat, i1: bool, i0: bool, y: nat, j1: bool, j0: bool)
    ensures Xor(4 * x + 2 * Bit(i1) + Bit(i0), 4 * y + 2 * Bit(j1) + Bit(j0))
            == 4 * Xor(x, y) + 2 * Bit(i1 != j1) + Bit(i0 != j0)
  {
    hide Xor;
    var x1, y1 := 2 * x + Bit(i1), 2 * y + Bit(j1);
    XorPair(x, i1, y, j1);
    XorPair(x1, i0, y1, j0);
    assert 4 * x + 2 * Bit(i1) + Bit(i0) == 2 * x1 + Bit(i0);
    assert 4 * y + 2 * Bit(j1) + Bit(j0) == 2 * y1 + Bit(j0);
  }

  /** Four bits, the most significant first. */
  datatype Nibble = Nibble(b3: bool, b2: bool, b1: bool, b0: bool)

  function Value(n: Nibble): nat { 8 * Bit(n.b3) + 4 * Bit(n.b2) + 2 * Bit(n.b1) + Bit(n.b0) }

  function Differing(m: Nibble, n: Nibble): Nibble {
    Nibble(m.b3 != n.b3, m.b2 != n.b2, m.b1 != n.b1, m.b0 != n.b0)
  }

  lemma XorNibble(x: nat, m: Nibble, y: nat, n: Nibble)
    ensures Xor(16 * x + Value(m), 16 * y + Value(n)) == 16 * Xor(x, y) + Value(Differing(m, n))
  {
    hide Xor;
    var x2, y2 := 4 * x + 2 * Bit(m.b3) + Bit(m.b2), 4 * y + 2 * Bit(n.b3) + Bit(n.b2);
    XorTwoPairs(x, m.b3, m.b2, y, n.b3, n.b2);
    XorTwoPairs(x2, m.b1, m.b0, y2, n.b1, n.b0);
    assert 16 * x + Value(m) == 4 * x2 + 2 * Bit(m.b1) + Bit(m.b0);
    assert 16 * y + Value(n) == 4 * y2 + 2 * Bit(n.b1) + Bit(n.b0);
  }

  /** Hashing one byte more: `p` and `q` are the low nibbles of the hash so far, `c` and `d` those of the byte. */
  lemma HashByte(s: bytes, top: nat, p: Nibble, q: Nibble, c: Nibble, d: Nibble, b: byte, r: u32)
    requires Hash(s) == 256 * top + 16 * Value(p) + Value(q) && b == 16 * Value(c) + Value(d)
    requires (256 * top + 16 * Value(Differing(p, c)) + Value(Differing(q, d))) * PRIME % TWO32 == r
    ensures Hash(s + [b]) == r
  {
    hide Value;
    hide Differing;
    hide Xor;
    XorNibble(16 * top + Value(p), q, Value(c), d);
    XorNibble(top, p, 0, c);
    XorZero(top);
    assert (s + [b])[..|s + [b]| - 1] == s;
  }

  lemma HashNothing()
    ensures Hash([]) == 0x811c9dc5
  {
  }

  lemma HashFoo()
    ensures Hash([102, 111, 111]) == 0xa9f37ed7
  {
    hide Hash;
    HashNothing();
    HashByte([], 0x811c9d, Nibble(true, true, false, false), Nibble(false, true, false, true),
             Nibble(false, true, true, false), Nibble(false, true, true, false), 102, 0xe30c2799);
    assert [] + [102] == [102];
    HashByte([102], 0xe30c27, Nibble(true, false, false, true), Nibble(true, false, false, true),
             Nibble(false, true, true, false), Nibble(true, true, true, true), 111, 0x6222e842);
    assert [102] + [111] == [102, 111];
    HashByte([102, 111], 0x6222e8, Nibble(false, true, false, false), Nibble(false, false, true, false),
             Nibble(false, true, true, false), Nibble(true, true, true, true), 111, 0xa9f37ed7);
    assert [102, 111] + [111] == [102, 111, 111];
  }

  /** The published values of 32-bit FNV-1a for the empty string, "a" and "foobar". */
  lemma TestValues()
    ensures Hash([]) == 0x811c9dc5
    ensures Hash([97]) == 0xe40c292c
    ensures Hash([102, 111, 111, 98, 97, 114]) == 0xbf9cf968
  {
    hide Hash;
    HashNothing();
    HashByte([], 0x811c9d, Nibble(true, true, false, false), Nibble(false, true, false, true),
             Nibble(false, true, true, false), Nibble(false, false, false, true), 97, 0xe40c292c);
    assert [] + [97] == [97];
    HashFoo();
    HashByte([102, 111, 111], 0xa9f37e, Nibble(true, true, false, true), Nibble(false, true, true, true),
             Nibble(false, true, true, false), Nibble(false, false, true, false), 98, 0x3f5076ef);
    assert [102, 111, 111] + [98] == [102, 111, 111, 98];
    HashByte([102, 111, 111, 98], 0x3f5076, Nibble(true, true, true, false), Nibble(true, true, true, true),
             Nibble(false, true, true, false), Nibble(false, false, false, true), 97, 0x39aaa18a);
    assert [102, 111, 111, 98] + [97] == [102, 111, 111, 98, 97];
    HashByte([102, 111, 111, 98, 97], 0x39aaa1, Nibble(true, false, false, false), Nibble(true, false, true, false),
             Nibble(false, true, true, true), Nibble(false, false, true, false), 114, 0xbf9cf968);
    assert [102, 111, 111, 98, 97] + [114] == [102, 111, 111, 98, 97, 114];
  }
}
