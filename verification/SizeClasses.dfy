// The size classes of the slab allocator: which chunk size serves a request, and how
// chunks of that size are laid out in a zone.
module SizeClasses {
  import opened Words

  const HEADER: nat := 36          // sizeof(slab_zone)
  const PAGE: nat := 4096          // RT_MM_PAGE_SIZE
  const CLASSES: nat := 72         // NZONES

  function Up(n: nat, m: nat): nat
    requires m > 0
  {
    (n + (m - 1)) / m * m
  }

  // The chunk granularity for a request of n bytes, and the offset of its classes.
  function Grain(n: nat): nat {
    if n < 128 then 8 else if n < 256 then 16 else if n < 512 then 32 else if n < 1024 then 64
    else if n < 2048 then 128 else if n < 4096 then 256 else if n < 8192 then 512 else 1024
  }

  // zoneindex: the chunk size, which replaces the request, and the class index.
  function ChunkSize(n: nat): nat {
    if n < 16384 then Up(n, Grain(n)) else n
  }

  function ClassIndex(n: nat): int {
    var c := ChunkSize(n);
    if n < 128 then c / 8 - 1
    else if n < 256 then c / 16 + 7
    else if n < 512 then c / 32 + 15
    else if n < 1024 then c / 64 + 23
    else if n < 2048 then c / 128 + 31
    else if n < 4096 then c / 256 + 39
    else if n < 8192 then c / 512 + 47
    else if n < 16384 then c / 1024 + 55
    else 0
  }

  // How many grains a chunk has, and where its classes begin.
  function Units(n: nat): nat {
    (n + (Grain(n) - 1)) / Grain(n)
  }

  function Base(n: nat): int {
    if n < 128 then -1 else if n < 256 then 7 else if n < 512 then 15 else if n < 1024 then 23
    else if n < 2048 then 31 else if n < 4096 then 39 else if n < 8192 then 47 else 55
  }

  lemma Class8(n: nat)
    requires 1 <= n < 128
    ensures ChunkSize(n) == 8 * Units(n) && ClassIndex(n) == Units(n) - 1
    ensures 1 <= Units(n) <= 16 && n <= 8 * Units(n) < n + 8
  {
    var u := (n + 7) / 8;
    assert u * 8 / 8 == u;
  }

  lemma Class16(n: nat)
    requires 128 <= n < 256
    ensures ChunkSize(n) == 16 * Units(n) && ClassIndex(n) == Units(n) + 7
    ensures 8 <= Units(n) <= 16 && n <= 16 * Units(n) < n + 16
  {
    var u := (n + 15) / 16;
    assert u * 16 / 16 == u;
  }

  lemma Class32(n: nat)
    requires 256 <= n < 512
    ensures ChunkSize(n) == 32 * Units(n) && ClassIndex(n) == Units(n) + 15
    ensures 8 <= Units(n) <= 16 && n <= 32 * Units(n) < n + 32
  {
    var u := (n + 31) / 32;
    assert u * 32 / 32 == u;
  }

  lemma Class64(n: nat)
    requires 512 <= n < 1024
    ensures ChunkSize(n) == 64 * Units(n) && ClassIndex(n) == Units(n) + 23
    ensures 8 <= Units(n) <= 16 && n <= 64 * Units(n) < n + 64
  {
    var u := (n + 63) / 64;
    assert u * 64 / 64 == u;
  }

  lemma Class128(n: nat)
    requires 1024 <= n < 2048
    ensures ChunkSize(n) == 128 * Units(n) && ClassIndex(n) == Units(n) + 31
    ensures 8 <= Units(n) <= 16 && n <= 128 * Units(n) < n + 128
  {
    var u := (n + 127) / 128;
    assert u * 128 / 128 == u;
  }

  lemma Class256(n: nat)
    requires 2048 <= n < 4096
    ensures ChunkSize(n) == 256 * Units(n) && ClassIndex(n) == Units(n) + 39
    ensures 8 <= Units(n) <= 16 && n <= 256 * Units(n) < n + 256
  {
    var u := (n + 255) / 256;
    assert u * 256 / 256 == u;
  }

  lemma Class512(n: nat)
    requires 4096 <= n < 8192
    ensures ChunkSize(n) == 512 * Units(n) && ClassIndex(n) == Units(n) + 47
    ensures 8 <= Units(n) <= 16 && n <= 512 * Units(n) < n + 512
  {
    var u := (n + 511) / 512;
    assert u * 512 / 512 == u;
  }

  lemma Class1024(n: nat)
    requires 8192 <= n < 16384
    ensures ChunkSize(n) == 1024 * Units(n) && ClassIndex(n) == Units(n) + 55
    ensures 8 <= Units(n) <= 16 && n <= 1024 * Units(n) < n + 1024
  {
    var u := (n + 1023) / 1024;
    assert u * 1024 / 1024 == u;
  }

  lemma InClass(n: nat)
    requires 1 <= n < 16384
    ensures ChunkSize(n) == Grain(n) * Units(n) && ClassIndex(n) == Units(n) + Base(n)
    ensures (if n < 128 then 1 else 8) <= Units(n) <= 16 && n <= ChunkSize(n) < n + Grain(n)
  {
    hide Units, ChunkSize, ClassIndex;
    if n < 128 { Class8(n); }
    else if n < 256 { Class16(n); }
    else if n < 512 { Class32(n); }
    else if n < 1024 { Class64(n); }
    else if n < 2048 { Class128(n); }
    else if n < 4096 { Class256(n); }
    else if n < 8192 { Class512(n); }
    else if n < 16384 { Class1024(n); }
  }

  // Little is wasted: less than 8 bytes on small requests, less than an eighth on others.
  lemma ChunkFits(n: nat)
    requires 1 <= n < 16384
    ensures n <= ChunkSize(n) <= 16384
    ensures n < 128 ==> ChunkSize(n) - n < 8
    ensures n >= 128 ==> 8 * (ChunkSize(n) - n) < n
  {
    hide Units, ChunkSize, ClassIndex;
    InClass(n);
  }

  lemma ClassBounds(n: nat)
    requires 1 <= n < 16384
    ensures 0 <= ClassIndex(n) < CLASSES && ChunkSize(n) >= 8
  {
    hide Units, ChunkSize, ClassIndex;
    InClass(n);
  }

  // The index determines the chunk size and is strictly monotone in it.
  lemma ClassesMonotone(n: nat, m: nat)
    requires 1 <= n < 16384 && 1 <= m < 16384
    ensures ClassIndex(n) < ClassIndex(m) <==> ChunkSize(n) < ChunkSize(m)
    ensures n <= m ==> ChunkSize(n) <= ChunkSize(m)
  {
    hide Units, ChunkSize, ClassIndex;
    InClass(n);
    InClass(m);
  }

  // Asking for a whole chunk gets the same chunk again.
  lemma RoundingStable(n: nat)
    requires 1 <= n < 16384 && ChunkSize(n) < 16384
    ensures ChunkSize(ChunkSize(n)) == ChunkSize(n) && ClassIndex(ChunkSize(n)) == ClassIndex(n)
  {
    hide Units, ChunkSize, ClassIndex;
    InClass(n);
    InClass(ChunkSize(n));
  }

  // ---- chunks in a zone ----

  predicate PowerOfTwo(n: nat) {
    n == 1 || (n > 0 && n % 2 == 0 && PowerOfTwo(n / 2))
  }

  // The test of rt_malloc, on words: adding 1 to n filled up with ones below its highest
  // bit gives 2n just for powers of two.
  predicate BitTest(n: bv32) {
    (n | (n - 1)) + 1 == n << 1
  }

  function Twice(m: bv32): bv32 { m << 1 }

  function Next(m: bv32): bv32 { m + 1 }

  lemma BitTestHalves(m: bv32)
    requires Quarter(m) && !IsZero(m)
    ensures BitTest(Twice(m)) <==> BitTest(m)
    ensures !BitTest(Next(Twice(m)))
  {
  }

  predicate Quarter(m: bv32) { m < 0x4000_0000 }

  function Half(w: bv32): bv32 { w >> 1 }

  predicate Even(w: bv32) { w & 1 == 0 }

  predicate Small(w: bv32) { 0 < w < 0x8000_0000 }

  // The number a word stands for.
  function Value(w: bv32): nat
    decreases w
  {
    if w == 0 then 0
    else
      SplitBit(w);
      2 * Value(Half(w)) + if Even(w) then 0 else 1
  }

  lemma {:induction false} BitTestIsPowerOfTwo(w: bv32)
    requires Small(w)
    ensures BitTest(w) <==> PowerOfTwo(Value(w))
    ensures Value(w) > 0
    decreases w
  {
    hide Half, Even, BitTest, Small, IsZero;
    SmallNotZero(w);
    SplitBit(w);
    if IsZero(Half(w)) {
      LastBit(w);
      ZeroValue(Half(w));
    } else {
      SmallHalf(w);
      BitTestIsPowerOfTwo(Half(w));
    }
  }

  // Chunk sizes are below 2^15.
  predicate Chunky(w: bv32) { 0 < w < 0x8000 }

  lemma SplitAsNat(w: bv32)
    requires w < 0x8000
    ensures w as nat == 128 * ((w >> 7) as nat) + (w & 0x7F) as nat
  {
  }

  lemma Split6AsNat(w: bv32)
    requires w < 0x8000
    ensures w as nat == 64 * ((w >> 6) as nat) + (w & 0x3F) as nat
  {
  }

  function Low(w: bv32): bv32 { w & 0x7F }

  function High(w: bv32): nat { (w >> 7) as nat }

  lemma SplitNamed(w: bv32)
    requires w < 0x8000
    ensures w as nat == 128 * High(w) + Low(w) as nat
  {
    SplitAsNat(w);
  }

  lemma SplitsAlike(w: bv32)
    ensures Half(w) >> 6 == w >> 7 && Half(w) & 0x3F == Half(Low(w))
  {
  }

  lemma LowFacts(w: bv32)
    ensures Low(w) < 0x80 && (Even(w) <==> Even(Low(w)))
  {
  }

  lemma HalfSplit(w: bv32)
    requires Half(w) < 0x8000
    ensures Half(w) as nat == 64 * High(w) + Half(Low(w)) as nat
  {
    hide Half, Low;
    Split6AsNat(Half(w));
    SplitsAlike(w);
  }

  lemma LowHalf(w: bv32)
    requires w < 0x80
    ensures w as nat == 2 * (Half(w) as nat) + if Even(w) then 0 else 1
  {
  }

  // Shifting right halves the number.
  lemma HalfAsNat(w: bv32)
    requires Chunky(w)
    ensures w as nat == 2 * (Half(w) as nat) + if Even(w) then 0 else 1
  {
    hide Half, Even, Chunky, High, Low;
    ChunkyHalf(w);
    SplitNamed(w);
    HalfSplit(w);
    LowFacts(w);
    LowHalf(Low(w));
  }

  lemma ChunkyHalf(w: bv32)
    requires Chunky(w)
    ensures w != 0 && Small(w) && w < 0x8000 && Half(w) < 0x8000 && (Half(w) == 0 || Chunky(Half(w)))
  {
  }

  lemma {:induction false} ValueAsNat(w: bv32)
    requires Chunky(w)
    ensures Value(w) == w as nat
    decreases w
  {
    hide Half, Even, Small, Chunky;
    ChunkyHalf(w);
    SplitBit(w);
    HalfAsNat(w);
    if Half(w) == 0 { ZeroValue(Half(w)); } else { ValueAsNat(Half(w)); }
  }

  // On every chunk size the word test gives the layout: where the chunks begin.
  lemma BitTestPlacesChunks(w: bv32)
    requires 0 < w <= 16384
    ensures BitTest(w) <==> PowerOfTwo(w as nat)
    ensures w as nat > 0 && Off(w as nat) == if BitTest(w) then Up(HEADER, w as nat) else Up(HEADER, 8)
  {
    ChunkyHalf(w);
    ValueAsNat(w);
    BitTestIsPowerOfTwo(w);
    hide Value, PowerOfTwo, BitTest, Up;
  }

  predicate IsZero(w: bv32) { w == 0 }

  lemma ZeroValue(w: bv32)
    requires IsZero(w)
    ensures Value(w) == 0
  {
  }

  lemma SmallNotZero(w: bv32)
    requires Small(w)
    ensures w != 0
  {
  }

  lemma LastBit(w: bv32)
    requires w != 0 && IsZero(Half(w))
    ensures !Even(w) && BitTest(w)
  {
    assert w == 1;
  }

  lemma EvenHalf(w: bv32)
    requires Even(w)
    ensures w == Twice(Half(w))
  {
  }

  lemma OddHalf(w: bv32)
    requires !Even(w)
    ensures w == Next(Twice(Half(w)))
  {
  }

  lemma HalfBound(w: bv32)
    requires Small(w)
    ensures Quarter(Half(w)) && (!IsZero(Half(w)) ==> Small(Half(w)))
  {
  }

  lemma SmallHalf(w: bv32)
    requires Small(w) && !IsZero(Half(w))
    ensures Small(Half(w))
    ensures Even(w) ==> (BitTest(w) <==> BitTest(Half(w)))
    ensures !Even(w) ==> !BitTest(w)
  {
    hide BitTest, Small, IsZero, Half, Even, Twice, Next, Quarter;
    HalfBound(w);
    BitTestHalves(Half(w));
    if Even(w) { EvenHalf(w); } else { OddHalf(w); }
  }

  lemma SplitBit(w: bv32)
    requires w != 0
    ensures Half(w) < w
  {
    hide Even, Small;
  }

  // ---- the layout of a zone ----

  // Where the chunks of size c begin: aligned to c if that is a power of two, else to 8.
  function Off(c: nat): nat
    requires c > 0
  {
    if PowerOfTwo(c) then Up(HEADER, c) else Up(HEADER, 8)
  }

  function Whole(room: nat, c: nat): nat
    requires c > 0
  {
    room / c
  }

  function MaxChunks(zoneSize: nat, c: nat): nat
    requires c > 0
  {
    if zoneSize < Off(c) then 0 else Whole(zoneSize - Off(c), c)
  }

  predicate ZoneSize(z: nat) { z == 32768 || z == 65536 || z == 131072 }

  // zone_limit
  function Limit(zoneSize: nat): nat {
    if zoneSize / 4 > 16384 then 16384 else zoneSize / 4
  }

  lemma UpBounds(n: nat, m: nat)
    requires m > 0
    ensures n <= Up(n, m) < n + m
  {
    var a := n + (m - 1);
    assert a == a / m * m + a % m;
  }

  lemma UpOnce(n: nat, m: nat)
    requires 0 < n <= m
    ensures Up(n, m) == m
  {
    var a := n + (m - 1);
    var q := a / m;
    assert a == q * m + a % m;
    Product(q, m);
  }

  lemma Product(d: int, c: nat)
    requires c > 0
    ensures d >= 3 ==> d * c >= 3 * c
    ensures d >= 2 ==> d * c >= 2 * c
    ensures d >= 1 ==> d * c >= c
    ensures d <= 0 ==> d * c <= 0
    ensures d <= -1 ==> d * c + c <= 0
    ensures d <= 2 ==> d * c <= 2 * c
  {
  }

  lemma DivBounds(a: nat, c: nat)
    requires c > 0
    ensures a / c * c <= a < a / c * c + c
  {
    assert a == a / c * c + a % c;
  }

  lemma RoomForThree(room: nat, c: nat)
    requires c > 0 && room >= 3 * c
    ensures room / c >= 3 && room / c * c <= room
  {
    DivBounds(room, c);
    Product(room / c, c);
  }

  lemma OffBounds(zoneSize: nat, c: nat)
    requires ZoneSize(zoneSize) && 8 <= c && 4 * c <= zoneSize
    ensures HEADER <= Off(c) && Off(c) + 3 * c <= zoneSize
  {
    hide PowerOfTwo, Up;
    UpBounds(HEADER, c);
    UpBounds(HEADER, 8);
    if c >= HEADER { UpOnce(HEADER, c); }
  }

  // Requests below a quarter of the zone size, and below 16384, are small.
  lemma LimitMeans(zoneSize: nat)
    requires ZoneSize(zoneSize)
    ensures Limit(zoneSize) == if zoneSize == 32768 then 8192 else 16384
  {
  }

  // The chunks of every class a zone can serve lie behind its header and inside it; there
  // are at least three, and no place is left for one more.
  lemma ZoneHolds(zoneSize: nat, n: nat)
    requires ZoneSize(zoneSize) && 1 <= n < Limit(zoneSize)
    ensures var c := ChunkSize(n);
      && c >= 8 && HEADER <= Off(c) && MaxChunks(zoneSize, c) >= 3
      && Off(c) + MaxChunks(zoneSize, c) * c <= zoneSize < Off(c) + MaxChunks(zoneSize, c) * c + c
      && Off(c) < 36 + (if PowerOfTwo(c) then c else 8)
  {
    hide ChunkSize, PowerOfTwo, Up, ClassIndex, Off;
    var c := ChunkSize(n);
    ClassBounds(n);
    LimitChunk(zoneSize, n);
    OffBounds(zoneSize, c);
    OffTight(c);
    RoomForThree(zoneSize - Off(c), c);
    DivBounds(zoneSize - Off(c), c);
  }

  lemma OffTight(c: nat)
    requires c > 0
    ensures Off(c) < 36 + (if PowerOfTwo(c) then c else 8)
  {
    hide PowerOfTwo, Up;
    UpBounds(HEADER, c);
    UpBounds(HEADER, 8);
  }

  lemma LimitChunk(zoneSize: nat, n: nat)
    requires ZoneSize(zoneSize) && 1 <= n < Limit(zoneSize)
    ensures 4 * ChunkSize(n) <= zoneSize
  {
    hide ChunkSize;
    ChunkFits(n);
    if n < 8192 {
      hide ClassIndex, Units;
      InClass(n);
    }
  }

  lemma {:induction false} PowersDivide(n: nat, m: nat) returns (r: nat)
    requires PowerOfTwo(n) && PowerOfTwo(m) && n <= m
    ensures m == r * n
    decreases n
  {
    if n == 1 {
      r := m;
    } else {
      r := PowersDivide(n / 2, m / 2);
      assert m == r * (n / 2) * 2;
      assert r * n == r * (n / 2 * 2);
    }
  }

  lemma MultipleMod(x: nat, c: nat)
    requires c > 0
    ensures x * c % c == 0
  {
    var q, r := x * c / c, x * c % c;
    assert x * c == q * c + r;
    assert (x - q) * c == r;
    Product(x - q, c);
  }

  // Small power-of-two requests come out naturally aligned.
  lemma PowersAligned(page: nat, c: nat, k: nat)
    requires PowerOfTwo(c) && 0 < c <= PAGE
    ensures (PAGE * page + Off(c) + k * c) % c == 0
  {
    PagePower();
    hide PowerOfTwo;
    var r := PowersDivide(c, PAGE);
    var q := (HEADER + (c - 1)) / c;
    AlignedSum(r, page, q, k, c);
    assert PAGE * page == r * c * page;
    assert Off(c) == q * c;
  }

  lemma AlignedSum(r: nat, page: nat, q: nat, k: nat, c: nat)
    requires c > 0
    ensures (r * c * page + q * c + k * c) % c == 0
  {
    Sum3(r, page, q, k, c);
    MultipleMod(r * page + q + k, c);
  }

  lemma Sum3(r: nat, page: nat, q: nat, k: nat, c: nat)
    ensures r * c * page + q * c + k * c == (r * page + q + k) * c
  {
  }

  lemma PagePower()
    ensures PowerOfTwo(4096)
  {
    assert PowerOfTwo(16);
    assert PowerOfTwo(256);
  }
}
