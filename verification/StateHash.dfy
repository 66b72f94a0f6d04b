/** The payload hash of saved state files (src/cli/k3_state.c): eight bytes at a time, xor then
    multiply by an odd constant mod 2^64.  What it is for is that one damaged unit is always
    seen, however many steps follow. */
module StateHash {

  import opened Common

  const MODULUS: nat := 0x1_0000_0000_0000_0000
  const PRIME: nat := 0x100_0000_01b3
  /** PRIME * INVERSE == 1 + QUOTIENT * MODULUS. */
  const INVERSE: nat := 0xce96_5057_aff6_957b
  const QUOTIENT: nat := 887285111055
  const INIT: nat := 0xcbf2_9ce4_8422_2325

  /* ------------------------------------------------------------------ xor on naturals */

  function Xor(a: nat, b: nat): nat {
    if a == 0 && b == 0 then 0 else 2 * Xor(a / 2, b / 2) + (a % 2 + b % 2) % 2
  }

  lemma DoublePlus(x: nat, p: nat)
    requires p < 2
    ensures (2 * x + p) / 2 == x && (2 * x + p) % 2 == p
  {
  }

  lemma ParityUndoes(p: nat, q: nat)
    requires p < 2 && q < 2
    ensures ((p + q) % 2 + q) % 2 == p
  {
  }

  lemma XorHalves(a: nat, b: nat)
    ensures Xor(a, b) / 2 == Xor(a / 2, b / 2) && Xor(a, b) % 2 == (a % 2 + b % 2) % 2
  {
    assert Xor(a, b) == 2 * Xor(a / 2, b / 2) + (a % 2 + b % 2) % 2;
    DoublePlus(Xor(a / 2, b / 2), (a % 2 + b % 2) % 2);
  }

  /** Xor with a fixed word is its own inverse, hence injective. */
  lemma {:induction false} XorUndoes(a: nat, b: nat)
    ensures Xor(Xor(a, b), b) == a
  {
    if a != 0 || b != 0 {
      XorUndoes(a / 2, b / 2);
      XorHalves(a, b);
      XorHalves(Xor(a, b), b);
      ParityUndoes(a % 2, b % 2);
      var x := Xor(Xor(a, b), b);
      assert x / 2 == a / 2 && x % 2 == a % 2;
    }
  }

  lemma {:induction false} XorCommutes(a: nat, b: nat)
    ensures Xor(a, b) == Xor(b, a)
  {
    if a != 0 || b != 0 { XorCommutes(a / 2, b / 2); }
  }

  function Pow2(n: nat): nat {
    if n == 0 then 1 else 2 * Pow2(n - 1)
  }

  lemma {:induction false} XorBounded(a: nat, b: nat, n: nat)
    requires a < Pow2(n) && b < Pow2(n)
    ensures Xor(a, b) < Pow2(n)
  {
    if n > 0 && (a != 0 || b != 0) { XorBounded(a / 2, b / 2, n - 1); }
  }

  lemma {:induction false} Pow2Sum(m: nat, n: nat)
    ensures Pow2(m + n) == Pow2(m) * Pow2(n)
  {
    if m > 0 {
      Pow2Sum(m - 1, n);
      assert Pow2(m + n) == 2 * Pow2(m - 1 + n);
    }
  }

  lemma ModulusIsPow2()
    ensures Pow2(64) == MODULUS
  {
    assert Pow2(4) == 16;
    Pow2Sum(4, 4);
    Pow2Sum(8, 8);
    Pow2Sum(16, 16);
    Pow2Sum(32, 32);
  }

  /* --------------------------------------------------------------------- one step */

  /** h ^= w; h *= PRIME, in 64 bits. */
  function Mix(h: nat, w: nat): (r: nat)
    ensures r < MODULUS
  {
    Xor(h, w) * PRIME % MODULUS
  }

  /** Multiplying by an odd constant loses nothing mod 2^64. */
  lemma TimesPrimeInjective(x: nat, y: nat)
    requires x < MODULUS && y < MODULUS && x * PRIME % MODULUS == y * PRIME % MODULUS
    ensures x == y
  {
    TimesPrimeUndone(x);
    TimesPrimeUndone(y);
  }

  lemma TimesPrimeUndone(x: nat)
    requires x < MODULUS
    ensures (x * PRIME % MODULUS) * INVERSE % MODULUS == x
  {
    var r, q := x * PRIME % MODULUS, x * PRIME / MODULUS;
    assert x * PRIME == q * MODULUS + r;
    assert PRIME * INVERSE == 1 + QUOTIENT * MODULUS;
    assert r * INVERSE == x + (x * QUOTIENT - q * INVERSE) * MODULUS;
    ModuloDrops(x, x * QUOTIENT - q * INVERSE);
  }

  lemma ModuloDrops(x: nat, k: int)
    requires x < MODULUS && x + k * MODULUS >= 0
    ensures (x + k * MODULUS) % MODULUS == x
  {
  }

  lemma MixInjective(h: nat, w: nat, h': nat, w': nat)
    requires h < MODULUS && w < MODULUS && h' < MODULUS && w' < MODULUS
    requires Mix(h, w) == Mix(h', w')
    ensures h == h' <==> w == w'
  {
    ModulusIsPow2();
    XorBounded(h, w, 64);
    XorBounded(h', w', 64);
    TimesPrimeInjective(Xor(h, w), Xor(h', w'));
    XorUndoes(h, w);
    XorUndoes(h', w');
    XorCommutes(h, w);
    XorCommutes(h', w');
    XorUndoes(w, h);
    XorUndoes(w', h');
  }

  /* ------------------------------------------------------------------- the hash */

  /** The little-endian value of some bytes. */
  function Word(b: seq<byte>): nat {
    if b == [] then 0 else b[0] + 256 * Word(b[1..])
  }

  lemma {:induction false} WordBounded(b: seq<byte>)
    ensures Word(b) < Pow2(8 * |b|)
  {
    if b != [] {
      WordBounded(b[1..]);
      Pow2Sum(8, 8 * |b[1..]|);
      assert Pow2(4) == 16;
      Pow2Sum(4, 4);
    }
  }

  lemma {:induction false} WordInjective(a: seq<byte>, b: seq<byte>)
    requires |a| == |b| && Word(a) == Word(b)
    ensures a == b
  {
    if a != [] {
      WordInjective(a[1..], b[1..]);
      assert a == [a[0]] + a[1..] && b == [b[0]] + b[1..];
    }
  }

  /** How many bytes the next step consumes: a word while eight are left, then single bytes. */
  function Unit(s: seq<byte>): nat {
    if |s| >= 8 then 8 else if s == [] then 0 else 1
  }

  function Hash(h: nat, s: seq<byte>): nat
    decreases |s|
  {
    if s == [] then h else Hash(Mix(h, Word(s[..Unit(s)])), s[Unit(s)..])
  }

  method HashBytes(h: nat, p: seq<byte>) returns (r: nat)
    ensures r == Hash(h, p)
  {
    hide Mix, Word;
    r := h;
    var i := 0;
    while i + 8 <= |p|
      invariant i <= |p| && Hash(h, p) == Hash(r, p[i..])
    {
      assert p[i..][..8] == p[i..i + 8] && p[i..][8..] == p[i + 8..];
      r := Mix(r, Word(p[i..i + 8]));
      i := i + 8;
    }
    while i < |p|
      invariant i <= |p| < i + 8 && Hash(h, p) == Hash(r, p[i..])
    {
      assert p[i..][..1] == [p[i]] && p[i..][1..] == p[i + 1..];
      WordOfOne(p[i]);
      r := Mix(r, p[i]);
      i := i + 1;
    }
  }

  lemma WordOfOne(b: byte)
    ensures Word([b]) == b
  {
    assert Word([b]) == b + 256 * Word([b][1..]);
  }

  lemma UnitWord(s: seq<byte>)
    requires s != []
    ensures Word(s[..Unit(s)]) < MODULUS
  {
    var u := s[..Unit(s)];
    WordBounded(u);
    ModulusIsPow2();
    if |u| == 1 { assert Word(u) == u[0] + 256 * Word(u[1..]); }
  }

  /** Different running values stay different through any payload. */
  lemma {:induction false} HashInjectiveInSeed(h: nat, h': nat, s: seq<byte>)
    requires h < MODULUS && h' < MODULUS && Hash(h, s) == Hash(h', s)
    ensures h == h'
    decreases |s|
  {
    if s != [] {
      var w := Word(s[..Unit(s)]);
      UnitWord(s);
      HashInjectiveInSeed(Mix(h, w), Mix(h', w), s[Unit(s)..]);
      MixInjective(h, w, h', w);
    }
  }

  /** s and t are the same but for one aligned word, or one byte of the tail. */
  ghost predicate OneUnitDiffers(s: seq<byte>, t: seq<byte>)
    decreases |s|
  {
    && |s| == |t| && s != []
    && (var n := Unit(s);
        if s[..n] != t[..n] then s[n..] == t[n..] else OneUnitDiffers(s[n..], t[n..]))
  }

  /** Damage confined to one unit always changes the hash. */
  lemma {:induction false} DamageIsSeen(h: nat, s: seq<byte>, t: seq<byte>)
    requires h < MODULUS && OneUnitDiffers(s, t)
    ensures Hash(h, s) != Hash(h, t)
    decreases |s|
  {
    var n := Unit(s);
    var a, b := Word(s[..n]), Word(t[..n]);
    UnitWord(s);
    UnitWord(t);
    if s[..n] != t[..n] {
      if a == b { WordInjective(s[..n], t[..n]); }
      if Mix(h, a) == Mix(h, b) { MixInjective(h, a, h, b); }
      if Hash(h, s) == Hash(h, t) { HashInjectiveInSeed(Mix(h, a), Mix(h, b), s[n..]); }
    } else {
      DamageIsSeen(Mix(h, a), s[n..], t[n..]);
    }
  }

  /** In particular one changed byte, at any position. */
  lemma {:induction false} OneByteIsOneUnit(s: seq<byte>, i: nat, b: byte)
    requires i < |s| && s[i] != b
    ensures OneUnitDiffers(s, s[i := b])
    decreases |s|
  {
    var t, n := s[i := b], Unit(s);
    if i < n {
      assert s[..n][i] != t[..n][i];
      assert s[n..] == t[n..];
    } else {
      assert s[..n] == t[..n];
      OneByteIsOneUnit(s[n..], i - n, b);
      assert t[n..] == s[n..][i - n := b];
    }
  }

  /* ----------------------------------------------------------- hashed segments */

  /** Every segment a save writes, or a load reads, continues the hash of the ones before. */
  function Chain(h: nat, segs: seq<seq<byte>>): nat
    decreases |segs|
  {
    if segs == [] then h else Chain(Hash(h, segs[0]), segs[1..])
  }

  lemma {:induction false} HashBounded(h: nat, s: seq<byte>)
    requires h < MODULUS
    ensures Hash(h, s) < MODULUS
    decreases |s|
  {
    if s != [] { HashBounded(Mix(h, Word(s[..Unit(s)])), s[Unit(s)..]); }
  }

  lemma {:induction false} ChainInjectiveInSeed(h: nat, h': nat, segs: seq<seq<byte>>)
    requires h < MODULUS && h' < MODULUS && Chain(h, segs) == Chain(h', segs)
    ensures h == h'
    decreases |segs|
  {
    if segs != [] {
      HashBounded(h, segs[0]);
      HashBounded(h', segs[0]);
      ChainInjectiveInSeed(Hash(h, segs[0]), Hash(h', segs[0]), segs[1..]);
      HashInjectiveInSeed(h, h', segs[0]);
    }
  }

  /** Damage to one unit of any segment changes the value the header is checked against. */
  lemma {:induction false} ChainSeesDamage(h: nat, segs: seq<seq<byte>>, j: nat, damaged: seq<byte>)
    requires h < MODULUS && j < |segs| && OneUnitDiffers(segs[j], damaged)
    ensures Chain(h, segs) != Chain(h, segs[j := damaged])
    decreases |segs|
  {
    HashBounded(h, segs[0]);
    if j == 0 {
      assert segs[0 := damaged][1..] == segs[1..];
      DamageIsSeen(h, segs[0], damaged);
      HashBounded(h, damaged);
      if Chain(h, segs) == Chain(h, segs[0 := damaged]) {
        ChainInjectiveInSeed(Hash(h, segs[0]), Hash(h, damaged), segs[1..]);
      }
    } else {
      assert segs[j := damaged][1..] == segs[1..][j - 1 := damaged];
      ChainSeesDamage(Hash(h, segs[0]), segs[1..], j - 1, damaged);
    }
  }
}
