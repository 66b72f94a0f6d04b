/** How one expert's bytes are fetched: the O_DIRECT window around it, the chunks the window
    is divided into, and the test that decides whether the payload arrived
    (src/cache/k3_cache.c, src/io/k3_st.c). */
module ReadPlan {

  const ALIGN: nat := 4096
  const MAX_TOPK: nat := 64
  const MAX_ITEMS: nat := MAX_TOPK * 8

  predicate Aligned(x: nat) {
    x % ALIGN == 0
  }

  function Down(x: nat): nat {
    x - x % ALIGN
  }

  function Up(x: nat): nat {
    Down(x + (ALIGN - 1))
  }

  lemma AlignFacts(x: nat)
    ensures Down(x) % ALIGN == 0 && Down(x) <= x < Down(x) + ALIGN
    ensures Up(x) % ALIGN == 0 && x <= Up(x) < x + ALIGN
  {
  }

  /** Ceiling division. */
  function Ceil(a: nat, b: nat): nat
    requires b > 0
  {
    (a + b - 1) / b
  }

  lemma CeilFacts(a: nat, b: nat)
    requires b > 0
    ensures a <= Ceil(a, b) * b < a + b
  {
    var q, r := (a + b - 1) / b, (a + b - 1) % b;
    assert a + b - 1 == q * b + r;
  }

  lemma CeilAtMost(a: nat, b: nat, n: nat)
    requires b > 0 && a <= n * b
    ensures Ceil(a, b) <= n
  {
    CeilFacts(a, b);
    if Ceil(a, b) > n { MulStep(n, Ceil(a, b), b); }
  }

  /** `expert_chunk_bytes`, from the number in the environment. */
  function ChunkBytes(n: int): (c: nat)
    ensures c % ALIGN == 0 && c >= ALIGN
    ensures n >= ALIGN ==> n <= c < n + ALIGN
  {
    Up(if n < ALIGN then ALIGN else n)
  }

  /** The aligned window around a payload, cut into nchunk pieces of `chunk` bytes, the last
      one shorter. */
  datatype Window = Window(lo: nat, pad: nat, len: nat, chunk: nat, nchunk: nat)

  ghost predicate Covers(w: Window, off: nat, nbytes: nat) {
    && w.lo % ALIGN == 0 && w.len % ALIGN == 0 && w.chunk % ALIGN == 0 && w.chunk > 0
    && w.pad < ALIGN && w.lo + w.pad == off
    && off + nbytes <= w.lo + w.len < off + nbytes + ALIGN
    && w.len <= w.nchunk * w.chunk < w.len + w.chunk
  }

  lemma WindowAround(off: nat, nbytes: nat)
    ensures Down(off) % ALIGN == 0 && Down(off) <= off < Down(off) + ALIGN
    ensures Up(off + nbytes) >= Down(off) && (Up(off + nbytes) - Down(off)) % ALIGN == 0
    ensures off + nbytes <= Up(off + nbytes) < off + nbytes + ALIGN
  {
    AlignFacts(off);
    AlignFacts(off + nbytes);
  }

  /** The plan for one contiguous expert: `chunk` bytes at a time, or larger pieces when that
      would need more than maxPer of them. */
  method PlanWindow(off: nat, nbytes: nat, chunk: nat, maxPer: nat) returns (w: Window)
    requires chunk > 0 && chunk % ALIGN == 0 && maxPer > 0
    ensures Covers(w, off, nbytes) && w.nchunk <= maxPer
    ensures Ceil(w.len, chunk) <= maxPer ==> w.chunk == chunk
  {
    hide Down, Up, Ceil;
    WindowAround(off, nbytes);
    var lo := Down(off);
    var len := Up(off + nbytes) - lo;
    var ch := chunk;
    var n := Ceil(len, ch);
    if n > maxPer {
      ch := Up(Ceil(len, maxPer));
      LargerChunk(len, maxPer, chunk);
      n := Ceil(len, ch);
    }
    CeilFacts(len, ch);
    w := Window(lo, off - lo, len, ch, n);
  }

  lemma LargerChunk(len: nat, maxPer: nat, chunk: nat)
    requires maxPer > 0 && chunk > 0 && Ceil(len, chunk) > maxPer
    ensures var ch := Up(Ceil(len, maxPer));
            ch > 0 && ch % ALIGN == 0 && Ceil(len, ch) <= maxPer
  {
    var c := Ceil(len, maxPer);
    AlignFacts(c);
    CeilFacts(len, maxPer);
    if len == 0 {
      CeilAtMost(0, chunk, 0);
    } else {
      MulGrow(maxPer, c, Up(c));
      CeilAtMost(len, Up(c), maxPer);
    }
  }

  lemma MulGrow(n: nat, c: nat, d: nat)
    requires c <= d
    ensures c * n <= n * d
  {
  }

  lemma MulStep(a: nat, b: nat, c: nat)
    requires a < b
    ensures (a + 1) * c == a * c + c <= b * c
  {
  }

  /* ------------------------------------------------------------ chunks tile a window */

  function ChunkStart(w: Window, ci: nat): nat {
    ci * w.chunk
  }

  function ChunkLen(w: Window, ci: nat): nat
    requires ChunkStart(w, ci) <= w.len
  {
    if w.len - ChunkStart(w, ci) > w.chunk then w.chunk else w.len - ChunkStart(w, ci)
  }

  /** Chunk ci starts inside the window and ends where the next one starts. */
  lemma ChunkInWindow(w: Window, off: nat, nbytes: nat, ci: nat)
    requires Covers(w, off, nbytes) && ci < w.nchunk
    ensures ChunkStart(w, ci) < w.len && ChunkLen(w, ci) > 0
    ensures ChunkStart(w, ci) + ChunkLen(w, ci) == if ci + 1 < w.nchunk then ChunkStart(w, ci + 1) else w.len
  {
    MulStep(ci, w.nchunk, w.chunk);
    if ci + 1 < w.nchunk {
      MulStep(ci + 1, w.nchunk, w.chunk);
    } else {
      assert ci + 1 == w.nchunk;
    }
  }

  /** Every chunk starts and ends on a block boundary, as O_DIRECT demands. */
  lemma ChunkAligned(w: Window, off: nat, nbytes: nat, ci: nat)
    requires Covers(w, off, nbytes) && ci < w.nchunk
    ensures ChunkStart(w, ci) <= w.len
    ensures Aligned(w.lo + ChunkStart(w, ci)) && Aligned(ChunkLen(w, ci))
  {
    ChunkInWindow(w, off, nbytes, ci);
    MultipleAligned(ci, w.chunk);
    AlignedSum(w.lo, ChunkStart(w, ci));
    AlignedDifference(w.len, ChunkStart(w, ci));
  }

  lemma AlignedSum(a: nat, b: nat)
    requires a % ALIGN == 0 && b % ALIGN == 0
    ensures (a + b) % ALIGN == 0
  {
  }

  lemma AlignedDifference(a: nat, b: nat)
    requires a % ALIGN == 0 && b % ALIGN == 0 && b <= a
    ensures (a - b) % ALIGN == 0
  {
  }

  lemma MultipleAligned(k: nat, c: nat)
    requires c % ALIGN == 0
    ensures (k * c) % ALIGN == 0
  {
    var q := c / ALIGN;
    assert c == q * ALIGN;
    assert k * c == (k * q) * ALIGN;
    MultipleMod(k * q);
  }

  lemma MultipleMod(k: nat)
    ensures (k * ALIGN) % ALIGN == 0
  {
  }

  /** Position x of the window, counted from lo, is inside chunk ci. */
  predicate InChunk(w: Window, ci: nat, x: nat)
  {
    ChunkStart(w, ci) <= w.len && ChunkStart(w, ci) <= x < ChunkStart(w, ci) + ChunkLen(w, ci)
  }

  /** Every byte of the window is in one chunk and no other. */
  lemma ChunksTile(w: Window, off: nat, nbytes: nat, x: nat)
    requires Covers(w, off, nbytes) && x < w.len
    ensures var ci := x / w.chunk;
            && ci < w.nchunk && InChunk(w, ci, x)
            && forall cj: nat :: cj < w.nchunk && InChunk(w, cj, x) ==> cj == ci
  {
    var ci := x / w.chunk;
    DivFacts(x, w.chunk);
    if ci >= w.nchunk {
      if ci > w.nchunk { MulStep(w.nchunk, ci, w.chunk); }
      assert false;
    }
    ChunkInWindow(w, off, nbytes, ci);
    forall cj: nat | cj < w.nchunk && InChunk(w, cj, x) ensures cj == ci {
      if cj < ci { MulStep(cj, ci, w.chunk); }
      if cj > ci { MulStep(ci, cj, w.chunk); }
    }
  }

  lemma DivFacts(x: nat, c: nat)
    requires c > 0
    ensures (x / c) * c <= x < (x / c) * c + c
  {
  }

  /* ----------------------------------------------------------- the summed-bytes test */

  function Sum(s: seq<nat>): nat {
    if s == [] then 0 else Sum(s[..|s| - 1]) + s[|s| - 1]
  }

  lemma {:induction false} SumAtLeast(s: seq<nat>, i: nat)
    requires i < |s|
    ensures Sum(s) >= s[i]
  {
    if i < |s| - 1 { SumAtLeast(s[..|s| - 1], i); }
  }

  /** What a chunk read can deliver: all of it, or up to the end of the file, or short by at
      least one aligned block. */
  predicate Delivers(fileSize: nat, start: nat, len: nat, got: nat) {
    && got <= len
    && (got == len || start + got == fileSize || got + ALIGN <= len)
  }

  ghost predicate AllDeliver(w: Window, fileSize: nat, got: seq<nat>, k: nat) {
    && k <= |got| == w.nchunk
    && forall ci: nat :: ci < k ==>
         ChunkStart(w, ci) <= w.len && Delivers(fileSize, w.lo + ChunkStart(w, ci), ChunkLen(w, ci), got[ci])
  }

  /** Byte x of the window has been read. */
  predicate Arrived(w: Window, got: seq<nat>, x: nat)
    requires w.chunk > 0
  {
    var ci := x / w.chunk;
    ci < |got| && x < ChunkStart(w, ci) + got[ci]
  }

  /** The summed bytes of the first k chunks, and what is missing from them, fill those chunks. */
  lemma {:induction false} SumOfPrefix(w: Window, off: nat, nbytes: nat, fileSize: nat, got: seq<nat>, k: nat)
    requires Covers(w, off, nbytes) && AllDeliver(w, fileSize, got, w.nchunk) && k <= w.nchunk
    ensures var end := if k < w.nchunk then ChunkStart(w, k) else w.len;
            && Sum(got[..k]) <= end
            && forall ci :: 0 <= ci < k ==> Sum(got[..k]) + (ChunkLen(w, ci) - got[ci]) <= end
  {
    if k > 0 {
      SumOfPrefix(w, off, nbytes, fileSize, got, k - 1);
      ChunkInWindow(w, off, nbytes, k - 1);
      assert got[..k][..k - 1] == got[..k - 1];
      forall ci | 0 <= ci < k ensures ChunkStart(w, ci) <= w.len {
        ChunkInWindow(w, off, nbytes, ci);
      }
    }
  }

  lemma {:induction false} SumReaches(w: Window, off: nat, nbytes: nat, got: seq<nat>, k: nat, x: nat)
    requires Covers(w, off, nbytes) && |got| == w.nchunk && k <= w.nchunk && x <= w.len
    requires k < w.nchunk ==> x <= ChunkStart(w, k)
    requires forall y :: 0 <= y < x ==> Arrived(w, got, y)
    ensures Sum(got[..k]) >= x
  {
    if k > 0 && x > 0 {
      assert got[..k][..k - 1] == got[..k - 1];
      var start := ChunkStart(w, k - 1);
      ChunkInWindow(w, off, nbytes, k - 1);
      if x <= start {
        SumReaches(w, off, nbytes, got, k - 1, x);
      } else {
        SumReaches(w, off, nbytes, got, k - 1, start);
        ChunksTile(w, off, nbytes, x - 1);
        assert (x - 1) / w.chunk == k - 1 by { assert InChunk(w, k - 1, x - 1); }
        assert Arrived(w, got, x - 1);
      }
    } else if x > 0 {
      ChunksTile(w, off, nbytes, x - 1);
    }
  }

  /** Under that read model the test on the sum is exact: it passes when, and only when, every
      payload byte has been read into its place behind `pad`. */
  lemma SummedTestIsExact(w: Window, off: nat, nbytes: nat, fileSize: nat, got: seq<nat>)
    requires Covers(w, off, nbytes) && nbytes > 0 && off + nbytes <= fileSize
    requires AllDeliver(w, fileSize, got, w.nchunk)
    ensures Sum(got) >= w.pad + nbytes <==> forall x :: w.pad <= x < w.pad + nbytes ==> Arrived(w, got, x)
  {
    assert got[..w.nchunk] == got;
    SumOfPrefix(w, off, nbytes, fileSize, got, w.nchunk);
    if Sum(got) >= w.pad + nbytes {
      forall x | w.pad <= x < w.pad + nbytes ensures Arrived(w, got, x) {
        ChunksTile(w, off, nbytes, x);
        var ci := x / w.chunk;
        assert ChunkLen(w, ci) - got[ci] < ALIGN;
        assert Delivers(fileSize, w.lo + ChunkStart(w, ci), ChunkLen(w, ci), got[ci]);
      }
    } else if forall x :: w.pad <= x < w.pad + nbytes ==> Arrived(w, got, x) {
      forall y | 0 <= y < w.pad + nbytes ensures Arrived(w, got, y) {
        if y < w.pad { PadArrives(w, off, nbytes, got, y); }
      }
      SumReaches(w, off, nbytes, got, w.nchunk, w.pad + nbytes);
    }
  }

  /** The bytes before the payload come with its first one. */
  lemma PadArrives(w: Window, off: nat, nbytes: nat, got: seq<nat>, y: nat)
    requires Covers(w, off, nbytes) && y < w.pad && Arrived(w, got, w.pad)
    ensures Arrived(w, got, y)
  {
    assert w.chunk >= ALIGN;
    assert w.pad / w.chunk == 0 && y / w.chunk == 0;
  }

  /** Without the block granularity it is not exact: a first chunk one byte short hides behind
      the slack at the end of the last. */
  lemma OneByteShortIsNotSeen()
    ensures var w, got := Window(0, 0, 8192, 4096, 2), [4095, 4096];
            && Covers(w, 0, 8190) && Sum(got) >= w.pad + 8190
            && !Arrived(w, got, 4095)
  {
    assert Sum([4095, 4096]) == Sum([4095, 4096][..1]) + 4096;
    assert [4095, 4096][..1] == [4095];
    assert [4095][..0] == [];
  }

  /** The per-expert budget keeps the flattened work list within its arrays. */
  lemma ItemsFit(counts: seq<nat>, nw: nat)
    requires 0 < |counts| <= nw <= MAX_TOPK
    requires forall i :: 0 <= i < |counts| ==> counts[i] <= MAX_ITEMS / nw
    ensures Sum(counts) <= |counts| * (MAX_ITEMS / nw) <= MAX_ITEMS && MAX_ITEMS / nw >= 8
  {
    var per := MAX_ITEMS / nw;
    PerAtLeastEight(nw);
    SumBounded(counts, per);
    if |counts| < nw { MulStep(|counts|, nw, per); }
  }

  lemma PerAtLeastEight(nw: nat)
    requires 0 < nw <= MAX_TOPK
    ensures MAX_ITEMS / nw >= 8 && nw * (MAX_ITEMS / nw) <= MAX_ITEMS
  {
    DivFacts(MAX_ITEMS, nw);
    if MAX_ITEMS / nw < 8 { MulGrow(nw, MAX_ITEMS / nw, 7); }
  }

  lemma {:induction false} SumBounded(counts: seq<nat>, per: nat)
    requires forall i :: 0 <= i < |counts| ==> counts[i] <= per
    ensures Sum(counts) <= |counts| * per
  {
    if counts != [] {
      SumBounded(counts[..|counts| - 1], per);
      MulStep(|counts| - 1, |counts|, per);
    }
  }
}
