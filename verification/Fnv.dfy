// The content hash of a flow source (core/src/versions.rs, hash_content): 64-bit FNV-1a. The
// wrap-around multiplication is written modulo 2^64 and the exclusive-or bit by bit.

module Fnv {

  const M: int := 0x1_0000_0000_0000_0000
  const OFFSET: int := 0xcbf2_9ce4_8422_2325
  const PRIME: int := 0x0000_0100_0000_01b3
  /** The inverse of PRIME modulo 2^64. */
  const INVERSE: int := 0xce96_5057_aff6_957b

  type Byte = x: int | 0 <= x < 256
  type Word = x: int | 0 <= x < 0x1_0000_0000_0000_0000

  /** Exclusive or of the low `k` bits. */
  function Xor(x: nat, y: nat, k: nat): (r: nat) {
    if k == 0 then 0 else (if x % 2 == y % 2 then 0 else 1) + 2 * Xor(x / 2, y / 2, k - 1)
  }

  lemma {:induction false} XorBound(x: nat, y: nat, k: nat)
    requires k <= 8
    ensures Xor(x, y, k) < Pow2(k)
    decreases k
  {
    if k > 0 { XorBound(x / 2, y / 2, k - 1); }
  }

  function Pow2(k: nat): (n: nat)
    requires k <= 8
  {
    if k == 0 then 1 else 2 * Pow2(k - 1)
  }

  /** What is put into the low eight bits fits them. */
  lemma {:induction false} LowByte(h: Word, b: Byte)
    ensures 0 <= h / 256 * 256 + Xor(h % 256, b, 8) < M
  {
    XorBound(h % 256, b, 8);
    Pow2Byte();
    hide Xor, Pow2;
    var q := h / 256;
    assert 0 <= q < 0x100_0000_0000_0000;
  }

  lemma {:induction false} Pow2Byte()
    ensures Pow2(8) == 256
  {
    assert Pow2(4) == 16;
  }

  /** The hash with a byte exclusive-ored into its low eight bits. */
  function XorLow(h: Word, b: Byte): (r: Word) {
    LowByte(h, b);
    h / 256 * 256 + Xor(h % 256, b, 8)
  }

  function Mix(h: Word, b: Byte): (r: Word) { XorLow(h, b) * PRIME % M }

  function Fold(h: Word, s: seq<Byte>): (r: Word)
    decreases |s|
  {
    if s == [] then h else Fold(Mix(h, s[0]), s[1..])
  }

  function Hash(s: seq<Byte>): (r: Word) { Fold(OFFSET, s) }

  method HashContent(s: seq<Byte>) returns (hash: Word)
    ensures hash == Hash(s)
  {
    hash := OFFSET;
    var i := 0;
    assert s[0..] == s;
    while i < |s|
      invariant 0 <= i <= |s| && Fold(hash, s[i..]) == Hash(s)
    {
      hide XorLow;
      assert s[i..][0] == s[i] && s[i..][1..] == s[i + 1..];
      hash := XorLow(hash, s[i]);
      hash := hash * PRIME % M;
      i := i + 1;
    }
  }

  // ---------- what the hash tells apart ----------

  lemma {:induction false} Wrapped(x: Word, y: int, t: int)
    requires y == x + M * t
    ensures y % M == x
  {
  }

  /** PRIME is odd, so multiplying by it can be undone: its inverse takes the product back. */
  lemma {:induction false} Undo(x: Word)
    ensures x * PRIME % M * INVERSE % M == x
  {
    var q, r := x * PRIME / M, x * PRIME % M;
    assert x * PRIME == q * M + r;
    assert PRIME * INVERSE == 1 + 887285111055 * M;
    assert r * INVERSE == x + M * (887285111055 * x - q * INVERSE);
    Wrapped(x, r * INVERSE, 887285111055 * x - q * INVERSE);
  }

  lemma {:induction false} XorApart(x: nat, x': nat, y: nat, y': nat, k: nat)
    requires k <= 8 && x < Pow2(k) && x' < Pow2(k) && y < Pow2(k) && y' < Pow2(k)
    requires Xor(x, y, k) == Xor(x', y', k)
    ensures x == x' <==> y == y'
    decreases k
  {
    if k > 0 { XorApart(x / 2, x' / 2, y / 2, y' / 2, k - 1); }
  }

  /** Equal mixes come from equal hashes exactly when they come from equal bytes. */
  lemma {:induction false} MixApart(h: Word, b: Byte, h': Word, b': Byte)
    requires Mix(h, b) == Mix(h', b')
    ensures h == h' <==> b == b'
  {
    var u, u' := XorLow(h, b), XorLow(h', b');
    Undo(u);
    Undo(u');
    assert u == u';
    XorBound(h % 256, b, 8);
    XorBound(h' % 256, b', 8);
    assert Pow2(8) == 256;
    assert h / 256 == h' / 256 && Xor(h % 256, b, 8) == Xor(h' % 256, b', 8);
    XorApart(h % 256, h' % 256, b, b', 8);
  }

  lemma {:induction false} FoldApart(h: Word, h': Word, s: seq<Byte>)
    requires Fold(h, s) == Fold(h', s)
    ensures h == h'
    decreases |s|
  {
    if s != [] {
      FoldApart(Mix(h, s[0]), Mix(h', s[0]), s[1..]);
      MixApart(h, s[0], h', s[0]);
    }
  }

  lemma {:induction false} FoldJoin(h: Word, x: seq<Byte>, y: seq<Byte>)
    ensures Fold(h, x + y) == Fold(Fold(h, x), y)
    decreases |x|
  {
    if x == [] {
      assert x + y == y;
    } else {
      assert (x + y)[0] == x[0] && (x + y)[1..] == x[1..] + y;
      FoldJoin(Mix(h, x[0]), x[1..], y);
    }
  }

  /**
   * Two sources that differ in exactly one byte never share a hash, so neither an overlay nor a
   * proposal pinned to one of them is taken for the other.
   */
  lemma {:induction false} OneByteChangesTheHash(before: seq<Byte>, b: Byte, b': Byte, after: seq<Byte>)
    ensures Hash(before + [b] + after) == Hash(before + [b'] + after) <==> b == b'
  {
    if b != b' && Hash(before + [b] + after) == Hash(before + [b'] + after) {
      var h := Fold(OFFSET, before);
      FoldJoin(OFFSET, before + [b], after);
      FoldJoin(OFFSET, before + [b'], after);
      FoldJoin(OFFSET, before, [b]);
      FoldJoin(OFFSET, before, [b']);
      FoldOne(h, b);
      FoldOne(h, b');
      FoldApart(Mix(h, b), Mix(h, b'), after);
      MixApart(h, b, h, b');
    }
  }

  lemma {:induction false} XorWithA()
    ensures Xor(0x25, 97, 8) == 0x44
  {
    assert Xor(2, 6, 4) == 4;
    assert Xor(4, 12, 5) == 8;
    assert Xor(9, 24, 6) == 17;
  }

  /** Published values of the hash: of nothing, and of `a`. */
  lemma {:induction false} KnownHashes()
    ensures Hash([]) == 0xcbf2_9ce4_8422_2325
    ensures Hash([97]) == 0xaf63_dc4c_8601_ec8c
  {
    XorWithA();
    hide Xor;
    assert XorLow(OFFSET, 97) == 0xcbf2_9ce4_8422_2344;
    FoldOne(OFFSET, 97);
  }

  lemma {:induction false} FoldOne(h: Word, b: Byte)
    ensures Fold(h, [b]) == Mix(h, b)
  {
    assert [b][1..] == [];
  }
}
