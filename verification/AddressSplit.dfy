/** How an address is split into page-table indices (ShadowMemory.h). Shifts and
    masks are modelled bit by bit on naturals. */
module AddressSplit {
  import opened Arithmetic

  function Pow2(n: nat): (r: nat)
    ensures r >= 1
  {
    if n == 0 then 1 else 2 * Pow2(n - 1)
  }

  /** Bitwise and. */
  function And(x: nat, y: nat): nat
    decreases y
  {
    if y == 0 then 0 else (if x % 2 == 1 && y % 2 == 1 then 1 else 0) + 2 * And(x / 2, y / 2)
  }

  /** `x >> k` */
  function Shr(x: nat, k: nat): nat {
    if k == 0 then x else Shr(x / 2, k - 1)
  }

  /** The lowest `n` bits. */
  function Low(x: nat, n: nat): nat {
    if n == 0 then 0 else x % 2 + 2 * Low(x / 2, n - 1)
  }

  lemma {:induction false} LowBound(x: nat, n: nat)
    ensures Low(x, n) < Pow2(n)
  {
    if n > 0 { LowBound(x / 2, n - 1); }
  }

  /** The two parts of a number are its quotient and remainder by a power of two. */
  lemma {:induction false} SplitsAt(x: nat, k: nat)
    ensures x == Pow2(k) * Shr(x, k) + Low(x, k)
  {
    if k > 0 {
      SplitsAt(x / 2, k - 1);
      DoubledProduct(Pow2(k - 1), Shr(x / 2, k - 1));
    }
  }

  lemma {:induction false} ShrShr(x: nat, k: nat, m: nat)
    ensures Shr(Shr(x, k), m) == Shr(x, k + m)
  {
    if k > 0 { ShrShr(x / 2, k - 1, m); }
  }

  lemma {:induction false} ShrLow(x: nat, n: nat, k: nat)
    requires k <= n
    ensures Shr(Low(x, n), k) == Low(Shr(x, k), n - k)
  {
    if k > 0 {
      assert Low(x, n) / 2 == Low(x / 2, n - 1);
      ShrLow(x / 2, n - 1, k - 1);
    }
  }

  lemma AndHalf(x: nat, y: nat)
    ensures And(x, y) / 2 == And(x / 2, y / 2)
  {
  }

  /** Masking with `2^n - 1` keeps the lowest `n` bits. */
  lemma {:induction false} AndOnes(x: nat, n: nat)
    ensures And(x, Pow2(n) - 1) == Low(x, n)
  {
    if n > 0 {
      assert (Pow2(n) - 1) / 2 == Pow2(n - 1) - 1 && (Pow2(n) - 1) % 2 == 1;
      AndOnes(x / 2, n - 1);
    }
  }

  lemma {:induction false} PowerGrows(z: nat, n: nat)
    requires z <= n
    ensures Pow2(z) <= Pow2(n)
  {
    if z < n { PowerGrows(z, n - 1); }
  }

  lemma {:induction false} Pow2Adds(m: nat, n: nat)
    ensures Pow2(m + n) == Pow2(m) * Pow2(n)
  {
    if m > 0 {
      Pow2Adds(m - 1, n);
      DoubledProduct(Pow2(m - 1), Pow2(n));
    }
  }

  /** Masking with `2^n - 2^z` and shifting by `z` takes bits `z` to `n - 1`. */
  lemma {:induction false} ShrAndMask(x: nat, n: nat, z: nat)
    requires z <= n
    ensures Pow2(n) - Pow2(z) >= 0
    ensures Shr(And(x, Pow2(n) - Pow2(z)), z) == Low(Shr(x, z), n - z)
  {
    PowerGrows(z, n);
    if z == 0 {
      AndOnes(x, n);
    } else {
      var y := Pow2(n) - Pow2(z);
      PowerGrows(z - 1, n - 1);
      assert y == 2 * (Pow2(n - 1) - Pow2(z - 1));
      ShrAndMask(x / 2, n - 1, z - 1);
      AndHalf(x, y);
    }
  }

  /** The lowest `n + m` bits are the lowest `n` and the `m` above them. */
  lemma {:induction false} LowSplits(x: nat, y: nat, n: nat, m: nat)
    ensures Low(x, n + m) == Low(y, n + m) <==> Low(x, n) == Low(y, n) && Low(Shr(x, n), m) == Low(Shr(y, n), m)
  {
    if n > 0 {
      LowSplits(x / 2, y / 2, n - 1, m);
    }
  }

  datatype Granularity = ByteLevel | WordLevel | LongWordLevel

  const ADDRESS_BITS: nat := 48

  /** The fields the constructor computes. */
  datatype Layout = Layout(
    l1Shift: nat,
    l2Shift: nat,
    l2Mask: nat,
    entriesPerPage: nat,
    pageIndexMask: nat,
    offsetShift: nat,
    numL1: nat,
    numL2: nat)

  function LowZeros(g: Granularity): nat {
    match g
    case ByteLevel => 0
    case WordLevel => 2
    case LongWordLevel => 3
  }

  /** Shifts of the literal 1 happen in 32 bits, hence the bounds; the page must hold
      at least one entry. */
  predicate ValidBits(l1Bits: nat, l2Bits: nat, g: Granularity) {
    && l1Bits < 31 && l2Bits < 31
    && l1Bits + l2Bits <= ADDRESS_BITS && ADDRESS_BITS - l1Bits - l2Bits < 31
    && LowZeros(g) <= ADDRESS_BITS - l1Bits - l2Bits
  }

  function MakeLayout(l1Bits: nat, l2Bits: nat, g: Granularity): Layout
    requires ValidBits(l1Bits, l2Bits, g)
  {
    var z := LowZeros(g);
    var l1Shift := ADDRESS_BITS - l1Bits;
    var l2Shift := l1Shift - l2Bits;
    assert Pow2(l2Shift) - Pow2(z) >= 0 by { PowerGrows(z, l2Shift); }
    Layout(l1Shift, l2Shift, Pow2(l2Bits) - 1, Pow2(l2Shift - z), Pow2(l2Shift) - Pow2(z), z, Pow2(l1Bits), Pow2(l2Bits))
  }

  function L1Index(l: Layout, address: nat): nat {
    Shr(And(address, Pow2(ADDRESS_BITS) - 1), l.l1Shift)
  }

  function L2Index(l: Layout, address: nat): nat {
    And(Shr(address, l.l2Shift), l.l2Mask)
  }

  function PageIndex(l: Layout, address: nat): nat {
    Shr(And(address, l.pageIndexMask), l.offsetShift)
  }

  lemma L1Bits(l: Layout, a: nat, l1Bits: nat)
    requires l1Bits <= ADDRESS_BITS && l.l1Shift == ADDRESS_BITS - l1Bits
    ensures L1Index(l, a) == Low(Shr(a, l.l1Shift), l1Bits)
  {
    AndOnes(a, ADDRESS_BITS);
    ShrLow(a, ADDRESS_BITS, l.l1Shift);
  }

  lemma PageBits(l: Layout, a: nat)
    requires l.offsetShift <= l.l2Shift
    requires Pow2(l.l2Shift) >= Pow2(l.offsetShift) && l.pageIndexMask == Pow2(l.l2Shift) - Pow2(l.offsetShift)
    ensures PageIndex(l, a) == Low(Shr(a, l.offsetShift), l.l2Shift - l.offsetShift)
  {
    ShrAndMask(a, l.l2Shift, l.offsetShift);
    assert PageIndex(l, a) == Shr(And(a, Pow2(l.l2Shift) - Pow2(l.offsetShift)), l.offsetShift);
  }

  /** Each index is a run of address bits. */
  lemma IndexBits(l1Bits: nat, l2Bits: nat, g: Granularity, a: nat)
    requires ValidBits(l1Bits, l2Bits, g)
    ensures var l := MakeLayout(l1Bits, l2Bits, g);
      && L1Index(l, a) == Low(Shr(a, l.l1Shift), l1Bits)
      && L2Index(l, a) == Low(Shr(a, l.l2Shift), l2Bits)
      && PageIndex(l, a) == Low(Shr(a, l.offsetShift), l.l2Shift - l.offsetShift)
  {
    var l := MakeLayout(l1Bits, l2Bits, g);
    L1Bits(l, a, l1Bits);
    AndOnes(Shr(a, l.l2Shift), l2Bits);
    PowerGrows(l.offsetShift, l.l2Shift);
    PageBits(l, a);
  }

  lemma IndicesInRange(l1Bits: nat, l2Bits: nat, g: Granularity, a: nat)
    requires ValidBits(l1Bits, l2Bits, g)
    ensures var l := MakeLayout(l1Bits, l2Bits, g);
      L1Index(l, a) < l.numL1 && L2Index(l, a) < l.numL2 && PageIndex(l, a) < l.entriesPerPage
  {
    var l := MakeLayout(l1Bits, l2Bits, g);
    IndexBits(l1Bits, l2Bits, g, a);
    LowBound(Shr(a, l.l1Shift), l1Bits);
    LowBound(Shr(a, l.l2Shift), l2Bits);
    LowBound(Shr(a, l.offsetShift), l.l2Shift - l.offsetShift);
  }

  /** The three tables together have one entry for each block of the address space. */
  lemma TablesFit(l1Bits: nat, l2Bits: nat, g: Granularity)
    requires ValidBits(l1Bits, l2Bits, g)
    ensures var l := MakeLayout(l1Bits, l2Bits, g);
      l.numL1 * (l.numL2 * (l.entriesPerPage * Pow2(LowZeros(g)))) == Pow2(48)
  {
    var z := LowZeros(g);
    var p := ADDRESS_BITS - l1Bits - l2Bits - z;
    Pow2Adds(p, z);
    Pow2Adds(l2Bits, p + z);
    Pow2Adds(l1Bits, l2Bits + (p + z));
    assert l1Bits + (l2Bits + (p + z)) == 48;
  }

  /** The number of the aligned block of 1, 4 or 8 bytes among the low 48 bits. */
  function Block(g: Granularity, address: nat): nat {
    Shr(Low(address, ADDRESS_BITS), LowZeros(g))
  }

  /** An address is its block number, its place in the block and the bits above 48. */
  lemma BlockIsQuotient(g: Granularity, a: nat)
    ensures var z := LowZeros(g);
      && a == Pow2(ADDRESS_BITS) * Shr(a, ADDRESS_BITS) + (Pow2(z) * Block(g, a) + Low(Low(a, ADDRESS_BITS), z))
      && Low(Low(a, ADDRESS_BITS), z) < Pow2(z) && Low(a, ADDRESS_BITS) < Pow2(ADDRESS_BITS)
  {
    SplitsAt(a, ADDRESS_BITS);
    SplitsAt(Low(a, ADDRESS_BITS), LowZeros(g));
    LowBound(Low(a, ADDRESS_BITS), LowZeros(g));
    LowBound(a, ADDRESS_BITS);
  }

  /** Spelled out for the three granularities. */
  lemma BlockSizes(a: nat)
    ensures Block(ByteLevel, a) == a % 0x1_0000_0000_0000
    ensures Block(WordLevel, a) == (a % 0x1_0000_0000_0000) / 4
    ensures Block(LongWordLevel, a) == (a % 0x1_0000_0000_0000) / 8
  {
    Pow2Of48();
    SplitsAt(a, 48);
    LowBound(a, 48);
    RemainderIsUnique(a, 0x1_0000_0000_0000, Shr(a, 48), Low(a, 48));
    ShrDivides(Low(a, 48), 2, 4);
    ShrDivides(Low(a, 48), 3, 8);
  }

  lemma ShrDivides(x: nat, k: nat, n: nat)
    requires n == Pow2(k)
    ensures Shr(x, k) == x / n
  {
    SplitsAt(x, k);
    LowBound(x, k);
    QuotientIsUnique(x, n, Shr(x, k), Low(x, k));
  }

  lemma Pow2Of48()
    ensures Pow2(48) == 0x1_0000_0000_0000
  {
    assert Pow2(4) == 16;
    Pow2Adds(4, 4);
    Pow2Adds(8, 8);
    Pow2Adds(16, 16);
    Pow2Adds(32, 16);
  }

  predicate SameIndices(l: Layout, a: nat, b: nat) {
    L1Index(l, a) == L1Index(l, b) && L2Index(l, a) == L2Index(l, b) && PageIndex(l, a) == PageIndex(l, b)
  }

  /** The low 48 bits above `z` agree when their three runs of `p`, `m` and `n` bits do. */
  lemma BlockByRuns(a: nat, b: nat, z: nat, p: nat, m: nat, n: nat)
    requires z + p + m + n == ADDRESS_BITS
    ensures Shr(Low(a, ADDRESS_BITS), z) == Shr(Low(b, ADDRESS_BITS), z) <==>
      && Low(Shr(a, z), p) == Low(Shr(b, z), p)
      && Low(Shr(a, z + p), m) == Low(Shr(b, z + p), m)
      && Low(Shr(a, z + p + m), n) == Low(Shr(b, z + p + m), n)
  {
    ShrLow(a, ADDRESS_BITS, z);
    ShrLow(b, ADDRESS_BITS, z);
    ShrShr(a, z, p);
    ShrShr(b, z, p);
    ShrShr(a, z + p, m);
    ShrShr(b, z + p, m);
    assert ADDRESS_BITS - z == p + (m + n);
    LowSplits(Shr(a, z), Shr(b, z), p, m + n);
    LowSplits(Shr(a, z + p), Shr(b, z + p), m, n);
  }

  /** Two addresses share all indices exactly when their low 48 bits lie in the same block. */
  lemma SameIndicesIffSameBlock(l1Bits: nat, l2Bits: nat, g: Granularity, a: nat, b: nat)
    requires ValidBits(l1Bits, l2Bits, g)
    ensures SameIndices(MakeLayout(l1Bits, l2Bits, g), a, b) <==> Block(g, a) == Block(g, b)
  {
    var l := MakeLayout(l1Bits, l2Bits, g);
    IndexBits(l1Bits, l2Bits, g, a);
    IndexBits(l1Bits, l2Bits, g, b);
    BlockByRuns(a, b, l.offsetShift, l.l2Shift - l.offsetShift, l2Bits, l1Bits);
  }
}
