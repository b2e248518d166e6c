// The slab allocator: small requests from zones of equal chunks, large ones from the page
// allocator. Addresses are bytes, the heap's pages are numbered from address 0.
module SlabZones {
  import opened Words
  import opened Lists
  import opened PageRuns
  import opened PageSpans
  import opened SizeClasses
  import opened ZoneChunks
  import opened SlabState
  import HeapData

  const RELEASE_THRESH: nat := 2     // ZONE_RELEASE_THRESH

  // ---- the bytes counted as used ----

  type Sizes = map<nat, nat>

  ghost function Sum(m: Sizes): nat {
    if m.Keys == {} then 0
    else
      var k :| k in m.Keys;
      m[k] + Sum(m - {k})
  }

  lemma {:induction false} SumWithout(m: Sizes, k: nat)
    requires k in m
    ensures Sum(m) == m[k] + Sum(m - {k})
    decreases m.Keys
  {
    var j :| j in m.Keys && Sum(m) == m[j] + Sum(m - {j});
    if j != k {
      SumWithout(m - {j}, k);
      SumWithout(m - {k}, j);
      assert m - {j} - {k} == m - {k} - {j};
    }
  }

  lemma SumWith(m: Sizes, k: nat, n: nat)
    requires k !in m
    ensures Sum(m[k := n]) == Sum(m) + n
  {
    SumWithout(m[k := n], k);
    assert m[k := n] - {k} == m;
  }

  // Each live pointer counts for the whole of its chunk or run.
  ghost predicate Counted(s: Slab, sizes: Sizes) {
    && sizes.Keys == s.live.Keys
    && forall a :: a in s.live ==> (s.live[a].Chunk? ==> s.live[a].zone in s.zones) && sizes[a] == Extent(s, a)
  }

  lemma CountedServed(s: Slab, sizes: Sizes, p: nat, z: Zone, classes: seq<seq<nat>>, a: nat)
    requires Counted(s, sizes) && p in s.zones && z.chunk == s.zones[p].chunk && a !in s.live
    ensures Counted(Changed(s, p, z, classes, s.live[a := Chunk(p)]), sizes[a := z.chunk])
  {
  }

  lemma CountedOpened(s: Slab, sizes: Sizes, p: nat, z: Zone)
    requires Counted(s, sizes) && p !in s.zones && Addr(z, 0) !in s.live && z.zi < |s.classes|
    ensures Counted(Opened(s, p, z), sizes[Addr(z, 0) := z.chunk])
  {
    hide Addr;
  }

  lemma CountedLarge(s: Slab, sizes: Sizes, b: nat, n: nat, runs': seq<Run>)
    requires Counted(s, sizes) && s.lo <= b < s.lo + |s.usage| && PAGE * b !in s.live
    ensures Counted(LargeTaken(s, b, n, runs'), sizes[PAGE * b := PAGE * n])
  {
  }

  lemma CountedLargeFreed(s: Slab, sizes: Sizes, b: nat, runs': seq<Run>)
    requires Counted(s, sizes) && s.lo <= b < s.lo + |s.usage|
    ensures Counted(LargeFreed(s, b, runs'), sizes - {PAGE * b})
  {
  }

  lemma CountedBack(s: Slab, sizes: Sizes, p: nat, z: Zone, classes: seq<seq<nat>>, a: nat)
    requires Counted(s, sizes) && p in s.zones && z.chunk == s.zones[p].chunk
    ensures Counted(Changed(s, p, z, classes, s.live - {a}), sizes - {a})
  {
  }

  lemma CountedRetired(s: Slab, sizes: Sizes, p: nat)
    requires Counted(s, sizes) && p in s.zones && s.zones[p].zi < |s.classes| && forall a :: !Mine(s.live, p, a)
    ensures Counted(Retired(s, p), sizes)
  {
    hide Without;
    forall a | a in s.live && s.live[a].Chunk? ensures s.live[a].zone != p { assert !Mine(s.live, p, a); }
  }

  // ---- what rt_malloc promises ----

  // RT_ALIGN(size, RT_MM_PAGE_SIZE) >> RT_MM_PAGE_BITS
  function PagesFor(size: u32): nat { AlignPage(size) / PAGE }

  lemma PagesEnough(size: u32)
    ensures PagesFor(size) > 0 ==> PAGE * PagesFor(size) >= size
    ensures PagesFor(size) == 0 <==> size == 0 || size > 0xFFFF_F000
    ensures 0 < size <= 0xFFFF_F000 ==> 4096 * PagesFor(size) < size + 4096
  {
  }

  // Page p lies in the range of bytes from begin to end.
  predicate PageWithin(p: nat, begin: u32, end: u32) {
    begin <= PAGE * p && PAGE * (p + 1) <= end
  }

  // Rounding the start up and the end down leaves exactly the whole pages in between.
  lemma WholePages(begin: u32, end: u32)
    requires AlignPage(begin) != 0 || end < PAGE
    ensures forall p: nat :: PageWithin(p, begin, end) <==> AlignPage(begin) / PAGE <= p < end / PAGE
  {
    forall p: nat ensures PageWithin(p, begin, end) <==> AlignPage(begin) / PAGE <= p < end / PAGE {
      WholePage(p, begin, end);
    }
  }

  lemma WholePage(p: nat, begin: u32, end: u32)
    requires AlignPage(begin) != 0 || end < PAGE
    ensures PageWithin(p, begin, end) <==> AlignPage(begin) / PAGE <= p < end / PAGE
  {
  }

  lemma StartsAboveZero(begin: u32, end: u32)
    requires AlignPage(begin) != 0 || end < PAGE
    requires AlignPage(begin) / PAGE < end / PAGE
    ensures AlignPage(begin) / PAGE > 0
  {
  }

  // No request of this size can be met: no zone with a free chunk, no parked zone, and no
  // run of pages long enough.
  ghost predicate NoRoom(s: Slab, size: u32) {
    if size == 0 then true
    else if size < Limit(s.zoneSize) then
      && 0 <= ClassIndex(size) < |s.classes| && s.classes[ClassIndex(size)] == [] && s.parked == []
      && forall at: nat :: !Stretch(s.runs, at, ZonePagesOf(s))
    else
      PagesFor(size) == 0 || forall at: nat :: !Stretch(s.runs, at, PagesFor(size))
  }

  // The bytes handed out for a request.
  function Granted(zoneSize: nat, size: u32): nat {
    if size < Limit(zoneSize) then ChunkSize(size) else PAGE * PagesFor(size)
  }

  // A new pointer, to at least as many bytes as asked for; the other pointers stay.
  ghost predicate Grants(s: Slab, size: u32, a: nat, s': Slab) {
    && a !in s.live && a in s'.live && s'.live == s.live[a := s'.live[a]]
    && (s'.live[a].Chunk? ==> s'.live[a].zone in s'.zones)
    && size <= Extent(s', a)
    && Extent(s', a) == Granted(s.zoneSize, size)
  }

  ghost predicate LowestFit(runs: seq<Run>, b: nat, n: nat) {
    Stretch(runs, b, n) && forall at: nat :: at < b ==> !Stretch(runs, at, n)
  }

  // The zone a class without free chunks is given: the zone parked last, else the lowest
  // pages that can hold one.
  ghost predicate ZoneChosen(s: Slab, p: nat) {
    if s.parked != [] then p == s.parked[0] else LowestFit(s.runs, p, ZonePagesOf(s))
  }

  // Which memory a request gets: the next chunk of the first zone on its class list, else
  // the first chunk of a zone set up for it, or the lowest run of pages.
  ghost predicate Chosen(s: Slab, size: u32, a: nat, s': Slab) {
    if size < Limit(s.zoneSize) then
      && 0 <= ClassIndex(size) < |s.classes|
      && var zi := ClassIndex(size);
         if s.classes[zi] != []
         then HeadOf(s, zi, s.classes[zi][0]) && a == NextChunk(s.zones[s.classes[zi][0]]) && s' == Served(s, zi)
         else exists p :: ZoneChosen(s, p) && OpenedFor(s, size, p, a, s')
    else
      exists b: nat :: LargeChosen(s, size, b, a, s')
  }

  ghost predicate OpenedFor(s: Slab, size: u32, p: nat, a: nat, s': Slab) {
    var c := ChunkSize(size);
    && c > 0 && MaxChunks(s.zoneSize, c) > 0 && ClassIndex(size) >= 0
    && a == Addr(ZoneFor(s.zoneSize, p, ClassIndex(size), c), 0)
    && s'.zones == s.zones[p := ZoneFor(s.zoneSize, p, ClassIndex(size), c)]
    && s'.parked == (if s.parked != [] then s.parked[1..] else [])
    && a in s'.live && s'.live[a] == Chunk(p)
  }

  ghost predicate LargeChosen(s: Slab, size: u32, b: nat, a: nat, s': Slab) {
    && a == PAGE * b && LowestFit(s.runs, b, PagesFor(size)) && Taken(s.runs, b, PagesFor(size), s'.runs)
    && s'.spans == s.spans[b := PagesFor(size)] && PagesFor(size) > 0
    && s'.live[a := Pages(b, PagesFor(size))] == s'.live
  }

  lemma LimitBounds(zoneSize: nat, size: u32)
    requires ZoneSize(zoneSize) && 0 < size < Limit(zoneSize)
    ensures 1 <= size < 16384 && 0 <= ClassIndex(size) < CLASSES && size <= ChunkSize(size)
  {
    hide ChunkSize, ClassIndex;
    ClassBounds(size);
    ChunkFits(size);
  }

  lemma StretchPrefix(rs: seq<Run>, at: nat, n: nat, m: nat)
    requires Stretch(rs, at, n)
    ensures m <= n ==> Stretch(rs, at, m)
  {
  }

  // A large request is refused exactly when no stretch of free pages covers its bytes.
  lemma LargeRefusedIff(s: Slab, size: u32)
    requires size >= Limit(s.zoneSize) && 0 < size <= 0xFFFF_F000
    ensures NoRoom(s, size) <==> forall at: nat, n: nat :: Stretch(s.runs, at, n) ==> 4096 * n < size
  {
    PagesEnough(size);
    hide PagesFor, Limit;
    var m := PagesFor(size);
    if NoRoom(s, size) {
      forall at: nat, n: nat | Stretch(s.runs, at, n) ensures 4096 * n < size {
        StretchPrefix(s.runs, at, n, m);
      }
    }
    hide Stretch;
  }

  // A small one exactly when no zone of its chunk size has a chunk left, no zone is parked
  // and no stretch of pages holds a new one.
  lemma SmallRefusedIff(s: Slab, size: u32)
    requires Inv(s) && 0 < size < Limit(s.zoneSize)
    ensures NoRoom(s, size) <==>
              && (forall p :: p in s.zones && s.zones[p].chunk == ChunkSize(size) ==> s.zones[p].nfree == 0)
              && s.parked == [] && forall at: nat :: !Stretch(s.runs, at, s.zoneSize / 4096)
  {
    hide ClassIndex, ChunkSize, Stretch, Owned, Placed, Accounted, Indexed, ZonesRight, OneWhole, NoRepeats;
    LimitBounds(s.zoneSize, size);
    var zi := ClassIndex(size);
    if s.classes[zi] != [] {
      HeadSize(s, zi, size);
      assert s.zones[s.classes[zi][0]].nfree > 0;
    }
    forall p | p in s.zones && s.zones[p].chunk == ChunkSize(size) && s.zones[p].nfree > 0
      ensures s.classes[zi] != []
    {
      ZoneClass(s, p, size);
    }
    assert ZonePagesOf(s) == s.zoneSize / 4096;
  }

  lemma ZoneClass(s: Slab, p: nat, n: nat)
    requires Core(s, Null) && p in s.zones && 1 <= n < 16384 && s.zones[p].chunk == ChunkSize(n)
    ensures s.zones[p].zi == ClassIndex(n) && 0 <= ClassIndex(n) < |s.classes|
    ensures s.zones[p].nfree > 0 ==> p in s.classes[ClassIndex(n)]
  {
    hide ClassIndex, ChunkSize, Owned, Placed, Accounted, Indexed, ZoneOk, OfClass, Off;
    assert Shaped(s.zoneSize, p, s.zones[p]);
    SizeHasOneClass(s.zones[p].zi, n, s.zones[p].chunk);
  }

  // Little is wasted: less than a page on large requests, on small ones less than 8 bytes
  // or an eighth.
  lemma GrantedMeans(zoneSize: nat, size: u32)
    requires ZoneSize(zoneSize) && 0 < size <= 0xFFFF_F000
    ensures size <= Granted(zoneSize, size)
    ensures size >= Limit(zoneSize) ==> Granted(zoneSize, size) < size + 4096
    ensures size < Limit(zoneSize) ==>
              Granted(zoneSize, size) < size + 8 || 8 * (Granted(zoneSize, size) - size) < size
  {
    PagesEnough(size);
    hide PagesFor, ChunkSize;
    if size < Limit(zoneSize) { ChunkFits(size); }
  }

  lemma GrantKind(s: Slab, size: u32, a: nat, s': Slab)
    requires ZoneSize(s.zoneSize) && 0 < size && Grants(s, size, a, s') && Chosen(s, size, a, s')
    ensures a in s'.live && (s'.live[a].Chunk? <==> size < Limit(s.zoneSize))
    ensures s'.live[a].Chunk? ==> s'.live[a].zone in s'.zones
    ensures size <= Extent(s', a) == Granted(s.zoneSize, size) && size <= 0xFFFF_F000
    ensures size >= Limit(s.zoneSize) ==> Extent(s', a) < size + 4096
    ensures size < Limit(s.zoneSize) ==> Extent(s', a) < size + 8 || 8 * (Extent(s', a) - size) < size
  {
    LimitMeans(s.zoneSize);
    PagesEnough(size);
    hide ChunkSize, ClassIndex, PagesFor, Addr, Limit, Stretch, Taken;
    if size <= 0xFFFF_F000 { GrantedMeans(s.zoneSize, size); }
  }

  lemma HeadSize(s: Slab, zi: nat, n: nat)
    requires Inv(s) && zi < CLASSES && s.classes[zi] != [] && 1 <= n < 16384 && ClassIndex(n) == zi
    ensures HeadOf(s, zi, s.classes[zi][0])
    ensures s.zones[s.classes[zi][0]].chunk == ChunkSize(n)
  {
    hide ChunkSize, ClassIndex, Owned, Placed, Accounted, Indexed, Off;
    HeadServes(s, Null, zi);
    ClassHasOneSize(zi, n, s.zones[s.classes[zi][0]].chunk);
  }

  lemma InvParts(s: Slab)
    requires Inv(s)
    ensures Core(s, Null) && OneWhole(s.zones, s.classes, Null) && |s.parked| <= 2 && ZoneSize(s.zoneSize) &&
            |s.classes| == CLASSES
    ensures |s.usage| == s.hi - s.lo
  {
    hide Owned, Placed, Accounted, ZonesRight, OneWhole;
  }

  // The zone p, wholly free, goes to the parked zones; if two are parked already, its pages
  // go back at once.
  ghost predicate ZoneParked(s: Slab, p: nat, s': Slab) {
    && p in s.zones && s.zones[p].zi < |s.classes|
    && var s1 := Retired(s, p);
       if |s.parked| < RELEASE_THRESH then s' == s1.(parked := [p] + s.parked)
       else s.lo <= p && FreedPages(s1, p, s'.runs) && s' == Released(s1, p, s'.runs)
  }

  // Whether the zone p is wholly free and not alone on the list of its class.
  predicate Spare(s: Slab, p: nat)
    requires p in s.zones && s.zones[p].zi < |s.classes| && s.classes[s.zones[p].zi] != []
  {
    var z := s.zones[p];
    z.nfree == z.nmax && (|s.classes[z.zi]| > 1 || s.classes[z.zi][0] != p)
  }

  // One chunk more makes the zone p wholly free, and its class has another zone with a
  // free chunk.
  ghost predicate MakesSpare(zones: Zones, classes: seq<seq<nat>>, p: nat) {
    && p in zones && zones[p].zi < |classes| && zones[p].nfree + 1 == zones[p].nmax
    && exists q :: q != p && q in classes[zones[p].zi]
  }

  lemma SpareMeans(s: Slab, p: nat, a: nat)
    requires Inv(s) && p in s.zones && s.zones[p].zi < |s.classes|
    requires var s' := GivenBack(s, p, a);
      p in s'.zones && s'.zones[p].zi < |s'.classes| && s'.classes[s'.zones[p].zi] != []
    ensures Spare(GivenBack(s, p, a), p) <==> MakesSpare(s.zones, s.classes, p)
  {
    hide Owned, Placed, Accounted, Indexed, ZonesRight, OneWhole;
    var list := s.classes[s.zones[p].zi];
    var list' := GivenBack(s, p, a).classes[s.zones[p].zi];
    if s.zones[p].nfree == 0 {
      assert list' == [p] + list && p !in list;
      if list != [] { assert list[0] in list; }
    } else {
      assert list' == list && p in list;
      if |list| > 1 { assert list[0] in list && list[1] in list; }
    }
  }

  // The chunk a goes back to its zone p, and the zone is parked if that makes it spare.
  ghost predicate ChunkFreed(s: Slab, p: nat, a: nat, s': Slab) {
    && p in s.zones && s.zones[p].zi < |s.classes|
    && var s1 := GivenBack(s, p, a);
       && s1.classes[s1.zones[p].zi] != []
       && if Spare(s1, p) then ZoneParked(s1, p, s') else s' == s1
  }

  // What freeing the live pointer a does: to its zone, or to the pages of a large piece.
  ghost predicate PieceFreed(s: Slab, a: nat, s': Slab) {
    && a in s.live
    && match s.live[a]
       case Chunk(p) => ChunkFreed(s, p, a, s')
       case Pages(b, n) =>
         && b in s.spans && s.spans[b] == n && s.lo <= b < s.lo + |s.usage|
         && Freed(s.runs, b, n, s'.runs) && s' == LargeFreed(s, b, s'.runs)
  }

  class SlabAllocator {
    const pages: PageAllocator     // rt_page_list and the heads in free pages
    const lo: nat                  // heap_start, as a page number
    const hi: nat                  // heap_end
    const zoneSize: nat
    var usage: seq<Usage>          // memusage
    var zones: Zones               // the zone headers
    var classes: seq<seq<nat>>     // zone_array
    var parked: seq<nat>           // zone_free
    var parkedCnt: nat             // zone_free_cnt
    var usedMem: int
    var maxMem: int
    var ram: seq<bv8>              // what users store in their memory
    ghost var spans: Spans
    ghost var live: Live
    ghost var sizes: Sizes

    ghost function Abs(): Slab
      reads this, pages
    {
      Slab(lo, hi, zoneSize, pages.runs, spans, usage, zones, classes, parked, live)
    }

    // x is a zone on its way between lists.
    ghost predicate Between(x: Ptr)
      reads this, pages
    {
      && pages.Valid() && Core(Abs(), x) && parkedCnt == |parked|
      && Counted(Abs(), sizes) && usedMem == Sum(sizes) && usedMem <= maxMem && |ram| == PAGE * hi
    }

    ghost predicate Valid()
      reads this, pages
    {
      Between(Null) && Inv(Abs())
    }

    // The zone size grows with the heap, from 32 KB to 128 KB.
    static method ZoneSizeFor(limsize: nat) returns (size: nat)
      ensures ZoneSize(size)
      ensures size == if limsize / 1024 <= 65536 then 32768 else if limsize / 1024 <= 131072 then 65536 else 131072
    {
      size := 32768;
      while size < 131072 && size * 2 < limsize / 1024
        invariant ZoneSize(size)
        invariant size == 65536 ==> 65536 < limsize / 1024
        invariant size == 131072 ==> 131072 < limsize / 1024
        decreases 131072 - size
      {
        size := size * 2;
      }
    }

    // rt_system_heap_init, once the bounds are known to enclose whole pages. A heap does not
    // begin at address 0: rt_page_free asserts it.
    constructor (lo: nat, hi: nat)
      requires 0 < lo < hi < 0x10_0000
      ensures Valid() && this.lo == lo && this.hi == hi && live == map[] && zones == map[] && parked == []
      ensures forall p: nat :: IsFree(pages.runs, p) <==> lo + (4 * (hi - lo) + 4095) / 4096 <= p < hi
      ensures zoneSize == if (hi - lo) * 4 <= 65536 then 32768 else if (hi - lo) * 4 <= 131072 then 65536 else 131072
      ensures fresh(pages)
    {
      hide Inv, Core, Chain, Canonical, IsFree, Stretch, Taken, Counted, Sum, AlignPage;
      var size := ZoneSizeFor((hi - lo) * PAGE);
      this.lo, this.hi, zoneSize := lo, hi, size;
      pages := new PageAllocator(lo, hi - lo);
      zones, classes, parked, parkedCnt := map[], seq(CLASSES, i => []), [], 0;
      usedMem, maxMem := 0, 0;
      assert |seq(hi - lo, i => Usage(FreePage, 0))| == hi - lo;
      var junk: seq<Usage> :| |junk| == hi - lo;      // the index is not cleared
      usage := junk;
      ram := seq(hi * PAGE, i => 0);
      live, sizes := map[], map[];
      var n := AlignPage(4 * (hi - lo)) / PAGE;
      spans := map[lo := n];
      new;
      ghost var runs0 := pages.runs;
      IndexRoom(lo, hi);
      OneRunFree(lo, hi - lo, n);
      var b := pages.Alloc(n);
      FirstPagesTaken(lo, hi, n, b, runs0, pages.runs);
      EmptyHolds(Abs(), sizes);
    }

    // rt_system_heap_init: the heap is made of the whole pages of the range; without one there is
    // no heap.
    static method Init(begin: u32, end: u32) returns (heap: SlabAllocator?)
      requires AlignPage(begin) != 0 || end < PAGE
      ensures heap == null <==> forall p: nat :: !PageWithin(p, begin, end)
      ensures heap != null ==> fresh(heap) && fresh(heap.pages) && heap.Valid()
      ensures heap != null ==> forall p: nat :: heap.lo <= p < heap.hi <==> PageWithin(p, begin, end)
      ensures heap != null ==> heap.live == map[] && heap.zones == map[] && heap.parked == []
    {
      hide Inv, Core, PageWithin;
      WholePages(begin, end);
      var start, limit := AlignPage(begin) / PAGE, end / PAGE;
      if start >= limit {
        heap := null;
      } else {
        assert start > 0 by { StartsAboveZero(begin, end); }
        heap := new SlabAllocator(start, limit);
        assert PageWithin(start, begin, end);
      }
    }

    // used_mem and max_mem after n more bytes have been handed out.
    method Count(n: nat)
      modifies this`usedMem, this`maxMem
      ensures usedMem == old(usedMem) + n
      ensures maxMem == if usedMem > old(maxMem) then usedMem else old(maxMem)
    {
      usedMem := usedMem + n;
      if usedMem > maxMem { maxMem := usedMem; }
    }

    // The part of rt_malloc for size >= zone_limit.
    method MallocLarge(size: u32) returns (p: Ptr)
      requires Valid() && size >= Limit(zoneSize) && size > 0
      modifies this, pages
      ensures Valid() && ram == old(ram)
      ensures p == Null <==> NoRoom(old(Abs()), size)
      ensures p == Null ==> Abs() == old(Abs()) && usedMem == old(usedMem) && maxMem == old(maxMem)
      ensures p.At? ==> Grants(old(Abs()), size, p.addr, Abs()) && p.addr % PAGE == 0
      ensures p.At? ==> Chosen(old(Abs()), size, p.addr, Abs())
      ensures sizes == if p == Null then old(sizes) else old(sizes)[p.addr := PAGE * PagesFor(size)]
      ensures p.At? ==> usedMem == old(usedMem) + PAGE * PagesFor(size)
      ensures p.At? ==> live[p.addr].Pages? && size <= 4096 * live[p.addr].n < size + 4096
      ensures p.At? ==> usedMem == old(usedMem) + 4096 * live[p.addr].n
      ensures p == Null <==>
                size > 0xFFFF_F000 ||
                forall at: nat, n: nat :: Stretch(old(pages.runs), at, n) ==> 4096 * n < size
      ensures p.At? ==> maxMem == if usedMem > old(maxMem) then usedMem else old(maxMem)
    {
      hide Inv, Core, Chain, Canonical, IsFree, Stretch, Taken, Sum, Counted, Grants, PagesFor, Limit, NoRoom, Chosen,
           LowestFit;
      ghost var s := Abs();
      var n := PagesFor(size);
      var b := pages.Alloc(n);
      LargeRefused(s, size, b);
      PagesEnough(size);
      if size <= 0xFFFF_F000 { LargeRefusedIff(s, size); }
      if b == Null { return Null; }
      LargeGood(s, sizes, usedMem, size, b.addr, n, pages.runs);
      LargeChoice(s, size, b.addr, n, pages.runs);
      RecordLarge(b.addr, n);
      p := At(PAGE * b.addr);
    }

    // The index entry and the statistics of a large allocation.
    method RecordLarge(b: nat, n: nat)
      requires lo <= b < lo + |usage|
      modifies this`spans, this`usage, this`live, this`sizes, this`usedMem, this`maxMem
      ensures spans == old(spans)[b := n] && usage == old(usage)[b - lo := Usage(LargePage, n)]
      ensures live == old(live)[PAGE * b := Pages(b, n)] && sizes == old(sizes)[PAGE * b := PAGE * n]
      ensures usedMem == old(usedMem) + PAGE * n && maxMem == if usedMem > old(maxMem) then usedMem else old(maxMem)
    {
      spans := spans[b := n];
      usage := usage[b - lo := Usage(LargePage, n)];
      live := live[PAGE * b := Pages(b, n)];
      sizes := sizes[PAGE * b := PAGE * n];
      Count(PAGE * n);
    }

    // A chunk from the first zone of the class.
    method TakeChunk(zi: nat, size: nat) returns (chunk: nat)
      requires zi < |classes| && classes[zi] != [] && HeadOf(Abs(), zi, classes[zi][0])
      requires zones[classes[zi][0]].uindex < zones[classes[zi][0]].nmax && zones[classes[zi][0]].chunk == size
      modifies this`zones, this`classes, this`live, this`sizes, this`usedMem, this`maxMem
      ensures chunk == NextChunk(old(zones)[old(classes)[zi][0]])
      ensures Abs() == Served(old(Abs()), zi) && sizes == old(sizes)[chunk := size]
      // the next chunk never used before, or else the first that was given back
      ensures var p := old(classes)[zi][0]; var z := old(zones)[p];
        && (z.uindex + 1 < z.nmax ==>
              && chunk == z.base + (z.uindex + 1) * size
              && zones == old(zones)[p := z.(nfree := z.nfree - 1, uindex := z.uindex + 1)])
        && (z.uindex + 1 >= z.nmax ==>
              && z.free != [] && chunk == z.free[0]
              && zones == old(zones)[p := z.(nfree := z.nfree - 1, free := z.free[1..])])
        && classes == if z.nfree == 1 then old(classes)[zi := old(classes)[zi][1..]] else old(classes)
      ensures usedMem == old(usedMem) + size && maxMem == if usedMem > old(maxMem) then usedMem else old(maxMem)
    {
      hide Addr;
      var p := classes[zi][0];
      var z := zones[p];
      z := z.(nfree := z.nfree - 1);
      if z.nfree == 0 {
        classes := classes[zi := classes[zi][1..]];
      }
      if z.uindex + 1 != z.nmax {
        z := z.(uindex := z.uindex + 1);
        chunk := z.base + z.uindex * size;
        AddrIs(old(zones)[p], z, size);
      } else {
        chunk := z.free[0];
        z := z.(free := z.free[1..]);
      }
      zones := zones[p := z];
      live, sizes := live[chunk := Chunk(p)], sizes[chunk := size];
      Count(size);
    }

    // The index entries of a new zone.
    method MarkZone(b: nat)
      requires lo <= b && b - lo + zoneSize / PAGE <= |usage|
      modifies this`usage
      ensures usage == Marked(old(usage), b - lo, zoneSize / PAGE)
    {
      var off := 0;
      while off < zoneSize / PAGE
        invariant off <= zoneSize / PAGE && usage == Marked(old(usage), b - lo, off)
      {
        usage := usage[b - lo + off := Usage(SmallPage, off)];
        off := off + 1;
      }
    }

    // A parked zone, or new pages for one.
    method GetZone() returns (z: Ptr)
      requires Valid()
      modifies this, pages
      ensures pages.Valid() && ram == old(ram) && usedMem == old(usedMem) && maxMem == old(maxMem) &&
              sizes == old(sizes)
      ensures zones == old(zones) && classes == old(classes) && live == old(live)
      ensures z == Null <==> old(parked) == [] && forall at: nat :: !Stretch(old(pages.runs), at, zoneSize / PAGE)
      ensures z == Null ==> Abs() == old(Abs()) && Valid()
      ensures z.At? ==> Between(z) && |parked| <= 2 && ZoneChosen(old(Abs()), z.addr)
      ensures z.At? ==> parked == if old(parked) != [] then old(parked)[1..] else []
    {
      hide Inv, Core, Chain, Canonical, IsFree, Stretch, Taken, Sum, Counted, Marked;
      ghost var s := Abs();
      InvParts(s);
      if parked != [] {
        Unparked(s);
        CountedSame(s, s.(parked := s.parked[1..]), sizes);
        z := At(parked[0]);
        parked := parked[1..];
        parkedCnt := parkedCnt - 1;
      } else {
        z := pages.Alloc(zoneSize / PAGE);
        if z == Null { return; }
        ZoneGood(s, sizes, z.addr, pages.runs);
        MarkZone(z.addr);
        spans := spans[z.addr := zoneSize / PAGE];
      }
    }

    // A zone set up for a class, its first chunk handed out.
    method OpenZone(p: nat, zi: nat, size: nat) returns (chunk: nat)
      requires zi < |classes| && size > 0 && MaxChunks(zoneSize, size) > 0
      modifies this`zones, this`classes, this`live, this`sizes, this`usedMem, this`maxMem
      ensures chunk == Addr(ZoneFor(zoneSize, p, zi, size), 0)
      ensures Abs() == Opened(old(Abs()), p, ZoneFor(zoneSize, p, zi, size)) && sizes == old(sizes)[chunk := size]
      ensures chunk == PAGE * p + Off(size) && classes == old(classes)[zi := [p] + old(classes)[zi]]
      ensures live == old(live)[chunk := Chunk(p)]
      ensures usedMem == old(usedMem) + size && maxMem == if usedMem > old(maxMem) then usedMem else old(maxMem)
    {
      hide MaxChunks, Off;
      var off := Off(size);
      var nmax := MaxChunks(zoneSize, size);
      var z := Zone(zi, size, PAGE * p + off, nmax, nmax - 1, 0, []);
      chunk := z.base + z.uindex * size;
      zones := zones[p := z];
      classes := classes[zi := [p] + classes[zi]];
      live, sizes := live[chunk := Chunk(p)], sizes[chunk := size];
      Count(size);
    }

    // rt_malloc
    method Malloc(size: u32) returns (p: Ptr)
      requires Valid()
      modifies this, pages
      ensures Valid() && ram == old(ram)
      ensures p == Null <==> NoRoom(old(Abs()), size)
      ensures p == Null ==> Abs() == old(Abs()) && usedMem == old(usedMem) && maxMem == old(maxMem)
      ensures p.At? ==> Grants(old(Abs()), size, p.addr, Abs()) && Chosen(old(Abs()), size, p.addr, Abs())
      ensures sizes == if p == Null then old(sizes) else old(sizes)[p.addr := Granted(zoneSize, size)]
      ensures p.At? ==> usedMem == old(usedMem) + Granted(zoneSize, size)
      // small requests get a chunk and large ones pages of their own; little is wasted, and
      // used_mem counts what is handed out
      ensures p.At? ==>
                && (live[p.addr].Chunk? <==> size < Limit(zoneSize))
                && (live[p.addr].Chunk? ==> live[p.addr].zone in zones)
                && var e := Extent(Abs(), p.addr);
                   && size <= e && usedMem == old(usedMem) + e
                   && (size >= Limit(zoneSize) ==> e < size + 4096)
                   && (size < Limit(zoneSize) ==> e < size + 8 || 8 * (e - size) < size)
      // what a refusal means
      ensures size == 0 || size > 0xFFFF_F000 ==> p == Null
      ensures size >= Limit(zoneSize) && 0 < size <= 0xFFFF_F000 ==>
                (p == Null <==> forall at: nat, n: nat :: Stretch(old(pages.runs), at, n) ==> 4096 * n < size)
      ensures 0 < size < Limit(zoneSize) ==>
                (p == Null <==>
                   && (forall q :: q in old(zones) && old(zones)[q].chunk == ChunkSize(size) ==>
                         old(zones)[q].nfree == 0)
                   && old(parked) == [] && forall at: nat :: !Stretch(old(pages.runs), at, zoneSize / 4096))
      ensures p.At? ==> maxMem == if usedMem > old(maxMem) then usedMem else old(maxMem)
    {
      hide Inv, Core, Chain, Canonical, IsFree, Stretch, Taken, Sum, Counted, Grants, NoRoom, Limit, ChunkSize,
           ClassIndex, HeadOf, MaxChunks, Chosen, ZoneChosen;
      ghost var s := Abs();
      ZeroRefused(s);
      if size == 0 { return Null; }
      InvParts(s);
      LimitMeans(zoneSize);
      if size >= Limit(zoneSize) {
        p := MallocLarge(size);
        if p.At? { GrantKind(s, size, p.addr, Abs()); }
        return;
      }
      SmallRefusedIff(s, size);
      LimitBounds(zoneSize, size);
      var zi := ClassIndex(size);
      var c := ChunkSize(size);
      if classes[zi] != [] {
        ServeGood(s, sizes, usedMem, size);
        ServeChoice(s, size);
        var a := TakeChunk(zi, c);
        GrantKind(s, size, a, Abs());
        return At(a);
      }
      p := MallocInNewZone(size, zi, c);
      if p.At? { GrantKind(s, size, p.addr, Abs()); }
    }

    // The part of rt_malloc for a class none of whose zones has a free chunk.
    method MallocInNewZone(size: u32, zi: nat, c: nat) returns (p: Ptr)
      requires Valid() && 0 < size < Limit(zoneSize) && zi == ClassIndex(size) && c == ChunkSize(size)
      requires zi < CLASSES && |classes| == CLASSES && classes[zi] == []
      modifies this, pages
      ensures Valid() && ram == old(ram)
      ensures p == Null <==> NoRoom(old(Abs()), size)
      ensures p == Null ==> Abs() == old(Abs()) && usedMem == old(usedMem) && maxMem == old(maxMem)
      ensures p.At? ==> Grants(old(Abs()), size, p.addr, Abs()) && Chosen(old(Abs()), size, p.addr, Abs())
      ensures sizes == if p == Null then old(sizes) else old(sizes)[p.addr := Granted(zoneSize, size)]
      ensures p.At? ==> usedMem == old(usedMem) + Granted(zoneSize, size)
      ensures p.At? ==> maxMem == if usedMem > old(maxMem) then usedMem else old(maxMem)
    {
      hide Inv, Core, Chain, Canonical, IsFree, Stretch, Taken, Sum, Counted, Grants, NoRoom, Limit, ChunkSize,
           ClassIndex, HeadOf, MaxChunks, Chosen, ZoneChosen;
      ghost var s := Abs();
      InvParts(s);
      var z := GetZone();
      SmallRefused(s, size, z);
      if z == Null { return Null; }
      ghost var s1 := Abs();
      OpenGood(s, s1, sizes, usedMem, z.addr, size);
      OpenChoice(s, s1, z.addr, size);
      var a := OpenZone(z.addr, zi, c);
      p := At(a);
    }

    // rt_free of a large allocation of n pages.
    method FreeLarge(b: nat, n: nat)
      requires Valid() && PAGE * b in live && live[PAGE * b] == Pages(b, n)
      modifies this, pages
      ensures Valid() && ram == old(ram) && live == old(live) - {PAGE * b}
      ensures usedMem == old(usedMem) - PAGE * n && maxMem == old(maxMem) && sizes == old(sizes) - {PAGE * b}
      ensures Freed(old(pages.runs), b, n, pages.runs) && b in old(spans) && old(spans)[b] == n
      ensures lo <= b < lo + |old(usage)| && Abs() == LargeFreed(old(Abs()), b, pages.runs)
    {
      hide Inv, Core, Chain, Canonical, IsFree, Freed, Sum, Counted;
      ghost var s := Abs();
      LargeFreeable(s, b, n);
      ghost var sizes0, used0 := sizes, usedMem;
      RecordFreed(b, n);
      pages.Free(b, n);
      LargeFreeGood(s, sizes0, used0, b, n, pages.runs);
    }

    // The index entry and the statistics when a large piece is freed.
    method RecordFreed(b: nat, n: nat)
      requires lo <= b < lo + |usage|
      modifies this`spans, this`usage, this`live, this`sizes, this`usedMem
      ensures spans == old(spans) - {b} && usage == old(usage)[b - lo := old(usage)[b - lo].(size := 0)]
      ensures live == old(live) - {PAGE * b} && sizes == old(sizes) - {PAGE * b} && usedMem == old(usedMem) - PAGE * n
    {
      usage := usage[b - lo := usage[b - lo].(size := 0)];
      usedMem := usedMem - PAGE * n;
      spans := spans - {b};
      live := live - {PAGE * b};
      sizes := sizes - {PAGE * b};
    }

    // The chunk goes to the head of its zone's free list, the zone back on its class list
    // if it had no free chunk.
    method GiveChunk(p: nat, a: nat)
      requires p in zones && zones[p].zi < |classes|
      modifies this`zones, this`classes, this`live, this`sizes, this`usedMem
      ensures Abs() == GivenBack(old(Abs()), p, a) && sizes == old(sizes) - {a}
      ensures var z := old(zones)[p];
        && zones == old(zones)[p := z.(free := [a] + z.free, nfree := z.nfree + 1)]
        && classes == if z.nfree == 0 then old(classes)[z.zi := [p] + old(classes)[z.zi]] else old(classes)
      ensures usedMem == old(usedMem) - old(zones)[p].chunk
    {
      var z := zones[p];
      z := z.(free := [a] + z.free);
      usedMem := usedMem - z.chunk;
      z := z.(nfree := z.nfree + 1);
      if z.nfree == 1 {
        classes := classes[z.zi := [p] + classes[z.zi]];
      }
      zones := zones[p := z];
      live, sizes := live - {a}, sizes - {a};
    }

    // The loop that finds a zone on the list of its class and takes it out.
    method Unlink(p: nat)
      requires p in zones && zones[p].zi < |classes| && p in classes[zones[p].zi] && NoRepeats(classes[zones[p].zi])
      modifies this`zones, this`classes
      ensures Abs() == Retired(old(Abs()), p) && zones == old(zones) - {p}
      ensures var zi := old(zones)[p].zi; var list := old(classes)[zi];
        forall i :: 0 <= i < |list| && list[i] == p ==> classes == old(classes)[zi := list[..i] + list[i + 1..]]
    {
      var zi := zones[p].zi;
      var list := classes[zi];
      var i := 0;
      while list[i] != p
        invariant i < |list| && forall k :: 0 <= k < i ==> list[k] != p
        decreases |list| - i
        modifies {}
      {
        InRest(list, p, i);
        i := i + 1;
      }
      WithoutSplits(list, i);
      classes := classes[zi := Dropped(list, i)];
      zones := zones - {p};
    }

    // A parked zone's pages go back to the page allocator.
    method Release(p: nat)
      requires pages.Valid() && Core(Abs(), At(p)) && parkedCnt == |parked| <= 2 && OneWhole(zones, classes, Null)
      requires Counted(Abs(), sizes) && usedMem == Sum(sizes) && usedMem <= maxMem && |ram| == PAGE * hi
      modifies this`usage, this`spans, pages
      ensures Valid()
      ensures lo <= p && FreedPages(old(Abs()), p, pages.runs) && Abs() == Released(old(Abs()), p, pages.runs)
      ensures spans == old(spans) - {p} && parked == old(parked) && |usage| == |old(usage)|
      ensures forall i :: 0 <= i < |usage| ==>
                usage[i] == if p <= lo + i < p + zoneSize / PAGE then Usage(FreePage, 0) else old(usage)[i]
    {
      hide OneWhole, Core, Chain, Canonical, IsFree, Freed, Sum, Counted, Cleared, SlabState.Indexed;
      ghost var s := Abs();
      Releasable(s, p);
      ClearNone(s.usage, p - lo);
      var i := 0;
      while i < zoneSize / PAGE
        invariant i <= zoneSize / PAGE && usage == SlabState.Cleared(s.usage, p - lo, i)
        modifies this`usage
      {
        ClearNext(s.usage, p - lo, i);
        usage := usage[p - lo + i := Usage(FreePage, 0)];
        i := i + 1;
      }
      pages.Free(p, zoneSize / PAGE);
      ReleaseGood(s, sizes, p, pages.runs);
      ClearedAt(s.usage, p - lo, zoneSize / PAGE);
      spans := spans - {p};
    }

    // A zone that is wholly free and not the only one on its list is parked; with more
    // than two parked, it is released.
    method Park(p: nat)
      requires pages.Valid() && Core(Abs(), Null) && parkedCnt == |parked| <= 2 && OneWhole(zones, classes, At(p)) &&
               IsWhole(zones, p)
      requires Counted(Abs(), sizes) && usedMem == Sum(sizes) && usedMem <= maxMem && |ram| == PAGE * hi
      modifies this`zones, this`classes, this`parked, this`parkedCnt, this`usage, this`spans, pages
      ensures Valid() && ZoneParked(old(Abs()), p, Abs())
      // with fewer than two parked it keeps its pages, else it gives them back
      ensures p !in zones
      ensures old(|parked|) < 2 ==> parked == [p] + old(parked) && spans == old(spans) && pages.runs == old(pages.runs)
      ensures old(|parked|) >= 2 ==> parked == old(parked) && spans == old(spans) - {p}
    {
      hide OneWhole, Core, Chain, Sum, Counted, NoRepeats, Canonical, Without;
      ghost var s := Abs();
      OnItsList(s, p);
      RetireGood(s, sizes, p);
      Unlink(p);
      ghost var s2 := Abs();
      Parking(s2, p);
      CountedSame(s2, s2.(parked := [p] + s2.parked), sizes);
      parked := [p] + parked;
      parkedCnt := parkedCnt + 1;
      if parkedCnt > RELEASE_THRESH {
        parked := parked[1..];
        parkedCnt := parkedCnt - 1;
        Release(p);
      }
    }

    // rt_free
    method Free(ptr: Ptr)
      requires Valid() && (ptr.At? ==> ptr.addr in live)
      modifies this, pages
      ensures Valid() && ram == old(ram) && maxMem == old(maxMem)
      ensures ptr == Null ==> Abs() == old(Abs()) && usedMem == old(usedMem)
      ensures ptr.At? ==> live == old(live) - {ptr.addr}
      ensures ptr.At? ==> (old(live)[ptr.addr].Chunk? ==> old(live)[ptr.addr].zone in old(zones))
      ensures ptr.At? ==> usedMem == old(usedMem) - Extent(old(Abs()), ptr.addr)
      ensures ptr.At? ==> sizes == old(sizes) - {ptr.addr}
      ensures ptr.At? ==> PieceFreed(old(Abs()), ptr.addr, Abs())
    {
      hide Inv, Core, OneWhole, Chain, Canonical, IsFree, Freed, Sum, Counted, GivenBack, NoRepeats, Shaped, ZoneOk;
      hide ChunkFreed, LargeFreed;
      if ptr == Null { return; }
      ghost var s := Abs();
      IndexFindsOwner(s, ptr.addr);
      OwnerKnown(s, ptr.addr);
      var page := ptr.addr / PAGE;
      var kup := usage[page - lo];
      if kup.kind == LargePage {
        FreeLarge(page, kup.size);
        return;
      }
      FreeChunk(page - kup.size, ptr.addr);
    }

    // The part of rt_free for a chunk of the zone p.
    method FreeChunk(p: nat, a: nat)
      requires Valid() && a in live && live[a] == Chunk(p) && p in zones
      modifies this, pages
      ensures Valid() && ram == old(ram) && maxMem == old(maxMem)
      ensures live == old(live) - {a} && sizes == old(sizes) - {a}
      ensures usedMem == old(usedMem) - Extent(old(Abs()), a) && ChunkFreed(old(Abs()), p, a, Abs())
      // a zone that is not wholly free, or the only one of its class with free chunks, stays
      ensures old(zones)[p].zi < |old(classes)|
      ensures MakesSpare(old(zones), old(classes), p) ==> p !in zones
      ensures MakesSpare(old(zones), old(classes), p) && old(|parked|) < 2 ==>
                parked == [p] + old(parked) && spans == old(spans) && pages.runs == old(pages.runs)
      ensures MakesSpare(old(zones), old(classes), p) && old(|parked|) >= 2 ==>
                parked == old(parked) && spans == old(spans) - {p}
      ensures !MakesSpare(old(zones), old(classes), p) ==>
                p in zones && parked == old(parked) && spans == old(spans) && pages.runs == old(pages.runs)
    {
      hide Inv, Core, OneWhole, Chain, Canonical, IsFree, Freed, Sum, Counted, GivenBack, NoRepeats, Shaped, ZoneOk;
      hide ZoneParked;
      BackGood(Abs(), sizes, usedMem, p, a);
      SpareMeans(Abs(), p, a);
      GiveChunk(p, a);
      var z := zones[p];
      if z.nfree == z.nmax && (|classes[z.zi]| > 1 || classes[z.zi][0] != p) {
        Park(p);
      } else {
        Stays(Abs(), p);
      }
    }

    // Giving back what has just been handed out.
    method MallocThenFree(size: u32) returns (p: Ptr)
      requires Valid()
      modifies this, pages
      ensures Valid() && live == old(live) && sizes == old(sizes) && usedMem == old(usedMem) && ram == old(ram)
      ensures size >= Limit(zoneSize) ==> pages.runs == old(pages.runs) && spans == old(spans)
    {
      hide Inv, Core, Chain, Canonical, IsFree, Stretch, Taken, Freed, Sum, Counted, Grants, NoRoom, Limit, Chosen,
           Granted;
      ghost var s := Abs();
      CountedKeys(s, sizes);
      p := Malloc(size);
      if p != Null {
        ghost var s1 := Abs();
        GrantSize(s, size, p.addr, s1, sizes);
        SizeKept(s1, sizes, p.addr);
        Free(p);
        if size >= Limit(zoneSize) {
          LargeUndone(s, s1, size, p.addr, pages.runs);
        }
      }
    }

    // Copies n bytes to a piece that does not overlap them.
    method CopyUser(p: nat, ptr: nat, n: nat)
      requires Valid() && (p + n <= ptr || ptr + n <= p) && p + n <= PAGE * hi && ptr + n <= PAGE * hi
      modifies this`ram
      ensures Valid() && |ram| == |old(ram)| == PAGE * hi && CopiedPart(old(ram), ptr, n, p, ram)
      ensures forall k :: 0 <= k < |old(ram)| && !(p <= k < p + n) ==> ram[k] == old(ram)[k]
    {
      hide Inv, Core, Counted, Sum;
      ram := HeapData.CopyBytes(ram, p, ptr, n);
    }

    // A new piece for the contents of a live one, which is freed.
    method Move(ptr: nat, osize: nat, size: u32) returns (p: Ptr)
      requires Valid() && ptr in live && ptr in sizes && osize == sizes[ptr] && size > 0
      modifies this, pages
      ensures Valid()
      ensures p == Null <==> NoRoom(old(Abs()), size)
      ensures p == Null ==> Abs() == old(Abs()) && ram == old(ram)
      ensures p.At? ==> p.addr != ptr && Moved(old(live), old(sizes), old(ram), ptr, p.addr, size, live, sizes, ram)
    {
      hide Inv, Core, Chain, NoRoom, Grants, Chosen, Counted, Sum, Granted, Moved, Freed, Extent, Canonical;
      ghost var s, sizes0 := Abs(), sizes;
      CountedKeys(s, sizes);
      p := Malloc(size);
      if p == Null { return; }
      ghost var s1, ram1, sizes1 := Abs(), ram, sizes;
      GrantSize(s, size, p.addr, s1, sizes1);
      PiecesApart(s1, sizes1, ptr, p.addr);
      var n := if size > osize then osize else size;
      CopyUser(p.addr, ptr, n);
      ghost var ram2 := ram;
      Free(At(ptr));
      MovedIs(s, s1, sizes0, sizes1, ptr, p.addr, size, ram1, ram2);
    }

    // rt_realloc
    method Realloc(ptr: Ptr, size: u32) returns (p: Ptr)
      requires Valid() && (ptr.At? ==> ptr.addr in live)
      modifies this, pages
      ensures Valid()
      ensures ptr == Null ==>
                && (p == Null <==> NoRoom(old(Abs()), size))
                && (p == Null ==> Abs() == old(Abs()))
                && (p.At? ==> Grants(old(Abs()), size, p.addr, Abs()) && Chosen(old(Abs()), size, p.addr, Abs()))
      ensures ptr.At? && size == 0 ==> p == Null && PieceFreed(old(Abs()), ptr.addr, Abs())
      ensures ptr.At? && size > 0 ==> Resized(old(Abs()), old(sizes), old(ram), ptr.addr, p, size, Abs(), sizes, ram)
    {
      hide Inv, Core, Chain, NoRoom, Grants, Chosen, Counted, Moved, ChunkSize, Resized, Sum, Freed, Canonical,
           PieceFreed;
      if ptr == Null {
        p := Malloc(size);
        return;
      }
      if size == 0 {
        Free(ptr);
        return Null;
      }
      ghost var s, sizes0, ram0 := Abs(), sizes, ram;
      IndexFindsOwner(s, ptr.addr);
      OwnerSize(s, sizes, ptr.addr);
      var page := ptr.addr / PAGE;
      var kup := usage[page - lo];
      if kup.kind == LargePage {
        p := Move(ptr.addr, kup.size * PAGE, size);
        ResizedLarge(s, sizes0, ram0, ptr.addr, p, size, Abs(), sizes, ram);
        return;
      }
      var z := zones[page - kup.size];
      var rounded := Rounded(size);
      if z.chunk == rounded {
        p := ptr;
      } else {
        p := Move(ptr.addr, z.chunk, rounded);
      }
      ResizedSmall(s, sizes0, ram0, ptr.addr, p, size, Abs(), sizes, ram);
    }
  }

  // zoneindex(&size): the request after rounding.
  function Rounded(size: u32): (r: u32)
    ensures r == ChunkSize(size) && r >= size
  {
    if size > 0 then
      RoundedUp(size);
      ChunkSize(size)
    else 0
  }

  // What rt_realloc looks for: chunks are asked for in the size zoneindex rounds to.
  function Wanted(s: Slab, a: nat, size: u32): u32
    requires a in s.live
  {
    if s.live[a].Chunk? then Rounded(size) else size
  }

  // What rt_realloc does with a live pointer: nothing if the chunk is of the right size
  // already, nothing if there is no room, else it moves the contents.
  ghost predicate Resized(s: Slab, sizes: Sizes, ram: seq<bv8>, a: nat, p: Ptr, size: u32, s': Slab, sizes': Sizes,
      ram': seq<bv8>)
  {
    && a in s.live && a in sizes
    && if s.live[a].Chunk? && sizes[a] == Rounded(size) then p == At(a) && s' == s && ram' == ram
       else if NoRoom(s, Wanted(s, a, size)) then p == Null && s' == s && ram' == ram
       else p.At? && p.addr != a && Moved(s.live, sizes, ram, a, p.addr, size, s'.live, sizes', ram')
  }

  lemma ResizedLarge(s: Slab, sizes: Sizes, ram: seq<bv8>, a: nat, p: Ptr, size: u32, s': Slab, sizes': Sizes,
      ram': seq<bv8>)
    requires a in s.live && a in sizes && s.live[a].Pages?
    requires p == Null <==> NoRoom(s, size)
    requires p == Null ==> s' == s && ram' == ram
    requires p.At? ==> Moved(s.live, sizes, ram, a, p.addr, size, s'.live, sizes', ram')
    ensures Resized(s, sizes, ram, a, p, size, s', sizes', ram')
  {
    hide NoRoom;
    if p.At? { MovedAway(s.live, sizes, ram, a, p.addr, size, s'.live, sizes', ram'); }
    hide Moved;
  }

  lemma ResizedSmall(s: Slab, sizes: Sizes, ram: seq<bv8>, a: nat, p: Ptr, size: u32, s': Slab, sizes': Sizes,
      ram': seq<bv8>)
    requires a in s.live && a in sizes && s.live[a].Chunk?
    requires sizes[a] == Rounded(size) ==> p == At(a) && s' == s && ram' == ram
    requires sizes[a] != Rounded(size) ==> (p == Null <==> NoRoom(s, Rounded(size)))
    requires sizes[a] != Rounded(size) && p == Null ==> s' == s && ram' == ram
    requires sizes[a] != Rounded(size) && p.At? ==>
               Moved(s.live, sizes, ram, a, p.addr, Rounded(size), s'.live, sizes', ram')
    ensures Resized(s, sizes, ram, a, p, size, s', sizes', ram')
  {
    hide NoRoom;
    if sizes[a] != Rounded(size) && p.At? {
      MovedAway(s.live, sizes, ram, a, p.addr, Rounded(size), s'.live, sizes', ram');
      MovedLess(s.live, sizes, ram, a, p.addr, Rounded(size), size, s'.live, sizes', ram');
    }
    hide Moved;
  }

  lemma MovedAway(live: Live, sizes: Sizes, ram: seq<bv8>, ptr: nat, p: nat, size: nat, live': Live, sizes': Sizes,
      ram': seq<bv8>)
    requires Moved(live, sizes, ram, ptr, p, size, live', sizes', ram')
    ensures p != ptr
  {
  }

  ghost predicate Untouched(a: nat, sizes: Sizes, ram: seq<bv8>, sizes': Sizes, ram': seq<bv8>) {
    && a in sizes && a in sizes' && sizes'[a] == sizes[a]
    && forall k :: a <= k < a + sizes[a] && k < |ram| && k < |ram'| ==> ram'[k] == ram[k]
  }

  ghost predicate CopiedPart(ram: seq<bv8>, ptr: nat, n: nat, p: nat, ram': seq<bv8>) {
    ptr + n <= |ram| && p + n <= |ram'| && ram'[p..p + n] == ram[ptr..ptr + n]
  }

  // The pointer has moved: its old bytes, as far as both pieces reach, are in the new
  // piece, and every other live piece keeps all its bytes.
  ghost predicate Moved(live: Live, sizes: Sizes, ram: seq<bv8>, ptr: nat, p: nat, size: nat, live': Live,
      sizes': Sizes, ram': seq<bv8>)
  {
    && |ram'| == |ram| && sizes.Keys == live.Keys && sizes'.Keys == live'.Keys
    && p !in live && ptr in live && p in live' && live' == (live - {ptr})[p := live'[p]] && size <= sizes'[p]
    && CopiedPart(ram, ptr, if size > sizes[ptr] then sizes[ptr] else size, p, ram')
    && forall a :: a in live && a != ptr ==> Untouched(a, sizes, ram, sizes', ram')
  }

  lemma CountedKeys(s: Slab, sizes: Sizes)
    requires Counted(s, sizes)
    ensures sizes.Keys == s.live.Keys
  {
  }

  lemma SizeKept(s: Slab, sizes: Sizes, a: nat)
    requires Counted(s, sizes) && a in s.live
    ensures a in sizes && (s.live[a].Chunk? ==> s.live[a].zone in s.zones) && sizes[a] == Extent(s, a)
  {
  }

  lemma LargeUndone(s: Slab, s1: Slab, size: u32, a: nat, runs2: seq<Run>)
    requires Inv(s) && size >= Limit(s.zoneSize) && Chosen(s, size, a, s1) && a in s1.live
    requires s1.live[a].Pages? ==> Freed(s1.runs, s1.live[a].page, s1.live[a].n, runs2)
    ensures s1.live[a].Pages?
    ensures runs2 == s.runs && s1.spans - {s1.live[a].page} == s.spans
  {
    hide Limit, PagesFor, Placed, Accounted, Indexed, ZonesRight, Listed, OneWhole, Stretch, Taken, Freed;
    var b: nat :| LargeChosen(s, size, b, a, s1);
    assert s1.live[a] == Pages(b, PagesFor(size));
    SpanRoundTrip(s.lo, s.hi, s.runs, s.spans, b, PagesFor(size), s1.runs, runs2);
  }

  lemma OwnerSize(s: Slab, sizes: Sizes, a: nat)
    requires Inv(s) && Counted(s, sizes) && a in s.live
    ensures a in sizes
    ensures match s.live[a]
      case Chunk(p) => p in s.zones && sizes[a] == s.zones[p].chunk
      case Pages(p, n) => sizes[a] == PAGE * n
  {
    hide Core;
  }

  lemma RoundedUp(size: u32)
    requires size > 0
    ensures size <= ChunkSize(size) < 0x1_0000_0000
  {
    if size < 16384 {
      ChunkFits(size);
      hide ChunkSize;
    }
  }

  lemma GrantSize(s: Slab, size: u32, p: nat, s1: Slab, sizes1: Sizes)
    requires Grants(s, size, p, s1) && Counted(s1, sizes1)
    ensures p !in s.live && p in s1.live && s1.live == s.live[p := s1.live[p]] && p in sizes1 && size <= sizes1[p]
    ensures sizes1.Keys == s1.live.Keys
  {
    hide Granted;
  }

  lemma PiecesApart(s: Slab, sizes: Sizes, a: nat, b: nat)
    requires Inv(s) && Counted(s, sizes) && a in s.live && b in s.live && a != b
    ensures sizes.Keys == s.live.Keys
    ensures a + sizes[a] <= b || b + sizes[b] <= a
    ensures a + sizes[a] <= PAGE * s.hi && b + sizes[b] <= PAGE * s.hi
  {
    hide Core, OneWhole;
    LiveApart(s, if a < b then a else b, if a < b then b else a);
    LiveInHeap(s, a);
    LiveInHeap(s, b);
  }

  lemma LiveInHeap(s: Slab, a: nat)
    requires Inv(s) && a in s.live
    ensures s.live[a].Chunk? ==> s.live[a].zone in s.zones
    ensures a + Extent(s, a) <= PAGE * s.hi
  {
    LiveInSpan(s, Null, a);
    hide Placed, Accounted, Indexed, ZonesRight, Listed, OneWhole, IsFree, Canonical, InSpan, SpansApart;
  }

  lemma MovedIs(s: Slab, s1: Slab, sizes: Sizes, sizes1: Sizes, ptr: nat, p: nat, size: nat, ram: seq<bv8>,
      ram2: seq<bv8>)
    requires Inv(s1) && Counted(s1, sizes1) && p !in s.live && ptr in s.live && p in s1.live &&
             s1.live == s.live[p := s1.live[p]]
    requires sizes.Keys == s.live.Keys && p in sizes1 && size <= sizes1[p] && sizes1 == sizes[p := sizes1[p]]
    requires |ram2| == |ram| == PAGE * s1.hi
    requires var n := if size > sizes[ptr] then sizes[ptr] else size;
      && CopiedPart(ram, ptr, n, p, ram2)
      && forall k :: 0 <= k < |ram| && !(p <= k < p + n) ==> ram2[k] == ram[k]
    ensures Moved(s.live, sizes, ram, ptr, p, size, s1.live - {ptr}, sizes1 - {ptr}, ram2)
  {
    hide Inv, Counted;
    assert s1.live - {ptr} == (s.live - {ptr})[p := s1.live[p]];
    forall a | a in s.live && a != ptr ensures Untouched(a, sizes, ram, sizes1 - {ptr}, ram2) {
      PiecesApart(s1, sizes1, a, p);
    }
  }

  lemma CopiedLess(ram: seq<bv8>, ptr: nat, n: nat, m: nat, p: nat, ram': seq<bv8>)
    requires CopiedPart(ram, ptr, n, p, ram') && m <= n
    ensures CopiedPart(ram, ptr, m, p, ram')
  {
    assert ram'[p..p + m] == ram'[p..p + n][..m];
    assert ram[ptr..ptr + m] == ram[ptr..ptr + n][..m];
  }

  lemma MovedLess(live: Live, sizes: Sizes, ram: seq<bv8>, ptr: nat, p: nat, size: nat, less: nat, live': Live,
      sizes': Sizes, ram': seq<bv8>)
    requires Moved(live, sizes, ram, ptr, p, size, live', sizes', ram') && less <= size
    ensures Moved(live, sizes, ram, ptr, p, less, live', sizes', ram')
  {
    var n := if size > sizes[ptr] then sizes[ptr] else size;
    var m := if less > sizes[ptr] then sizes[ptr] else less;
    CopiedLess(ram, ptr, n, m, p, ram');
    hide CopiedPart, Untouched;
  }

  lemma InRest(list: seq<nat>, p: nat, i: nat)
    requires p in list && i < |list| && list[i] != p && forall k :: 0 <= k < i ==> list[k] != p
    ensures i + 1 < |list|
  {
  }

  lemma ClearNone(usage: seq<Usage>, at: nat)
    ensures SlabState.Cleared(usage, at, 0) == usage
  {
  }

  lemma ClearedAt(usage: seq<Usage>, at: nat, n: nat)
    ensures forall i :: 0 <= i < |usage| ==>
              SlabState.Cleared(usage, at, n)[i] == if at <= i < at + n then Usage(FreePage, 0) else usage[i]
  {
  }

  lemma ClearNext(usage: seq<Usage>, at: nat, i: nat)
    requires at + i < |usage|
    ensures SlabState.Cleared(usage, at, i)[at + i := Usage(FreePage, 0)] == SlabState.Cleared(usage, at, i + 1)
  {
  }

  lemma LargeFreeable(s: Slab, b: nat, n: nat)
    requires Inv(s) && PAGE * b in s.live && s.live[PAGE * b] == Pages(b, n)
    ensures s.lo <= b < s.lo + |s.usage| && n > 0 && forall p: nat :: b <= p < b + n ==> !IsFree(s.runs, p)
    ensures b in s.spans && s.spans[b] == n
  {
    hide Accounted, ZonesRight, Listed, OneWhole, IsFree, Canonical, InSpan, SpansApart;
    SpanUsed(s.lo, s.hi, s.runs, s.spans, b);
  }

  lemma LargeFreeGood(s: Slab, sizes: Sizes, used: int, b: nat, n: nat, runs': seq<Run>)
    requires Inv(s) && Counted(s, sizes) && used == Sum(sizes) && PAGE * b in s.live && s.live[PAGE * b] == Pages(b, n)
    requires b in s.spans && s.spans[b] == n && Freed(s.runs, b, n, runs')
    ensures s.lo <= b < s.lo + |s.usage|
    ensures var s' := LargeFreed(s, b, runs'); var sizes' := sizes - {PAGE * b};
      Core(s', Null) && Inv(s') && Counted(s', sizes') && used - PAGE * n == Sum(sizes')
  {
    hide Core, OneWhole, Sum, Freed;
    assert FreedPages(s, b, runs');
    LargeFreedKeeps(s, b, runs');
    CountedLargeFreed(s, sizes, b, runs');
    SumWithout(sizes, PAGE * b);
    hide LargeFreed;
  }

  lemma OwnerKnown(s: Slab, a: nat)
    requires Inv(s) && a in s.live
    ensures s.live[a].Chunk? ==> s.live[a].zone in s.zones
    ensures s.live[a].Pages? ==> a == PAGE * s.live[a].page && s.live[a].page in s.spans
  {
    hide Owned, Accounted, Indexed, ZonesRight, Listed, OneWhole;
  }

  lemma BackGood(s: Slab, sizes: Sizes, used: int, p: nat, a: nat)
    requires Inv(s) && Counted(s, sizes) && used == Sum(sizes) && a in s.live && s.live[a] == Chunk(p)
    ensures p in s.zones && s.zones[p].zi < |s.classes|
    ensures var s' := GivenBack(s, p, a); var sizes' := sizes - {a};
      && Core(s', Null) && OneWhole(s'.zones, s'.classes, At(p))
      && Counted(s', sizes') && used - s.zones[p].chunk == Sum(sizes')
      && s'.live == s.live - {a} && |s'.parked| <= 2
      && p in s'.zones && s'.zones[p].zi < |s'.classes| && s'.classes[s'.zones[p].zi] != []
  {
    hide Core, OneWhole, Sum, Relisted;
    GivenBackKeeps(s, p, a);
    var z := Pushed(s.zones[p], a);
    CountedBack(s, sizes, p, z, Relisted(s.classes, p, z), a);
    SumWithout(sizes, a);
    StillListed(GivenBack(s, p, a), p);
  }

  lemma StillListed(s: Slab, p: nat)
    requires Core(s, Null) && p in s.zones && s.zones[p].nfree > 0
    ensures s.zones[p].zi < |s.classes| && p in s.classes[s.zones[p].zi] && NoRepeats(s.classes[s.zones[p].zi])
  {
    hide Owned, Placed, Accounted, Indexed, ZonesRight;
  }

  lemma Stays(s: Slab, p: nat)
    requires Core(s, Null) && OneWhole(s.zones, s.classes, At(p)) && p in s.zones && |s.parked| <= 2
    requires s.zones[p].zi < |s.classes| && s.classes[s.zones[p].zi] != []
    requires !(s.zones[p].nfree == s.zones[p].nmax &&
               (|s.classes[s.zones[p].zi]| > 1 || s.classes[s.zones[p].zi][0] != p))
    ensures Inv(s)
  {
    hide Core, OneWhole;
    var list := s.classes[s.zones[p].zi];
    if |list| == 1 && list[0] == p { assert list == [p]; }
    MayStay(s, p);
  }

  lemma OnItsList(s: Slab, p: nat)
    requires Core(s, Null) && IsWhole(s.zones, p)
    ensures s.zones[p].zi < |s.classes| && p in s.classes[s.zones[p].zi] && NoRepeats(s.classes[s.zones[p].zi])
  {
    hide Owned, Placed, Accounted, Indexed, NoRepeats, ZoneOk;
    assert Shaped(s.zoneSize, p, s.zones[p]);
  }

  lemma RetireGood(s: Slab, sizes: Sizes, p: nat)
    requires Core(s, Null) && OneWhole(s.zones, s.classes, At(p)) && IsWhole(s.zones, p) && Counted(s, sizes)
    ensures s.zones[p].zi < |s.classes|
    ensures Core(Retired(s, p), At(p)) && OneWhole(Retired(s, p).zones, Retired(s, p).classes, Null) &&
            Counted(Retired(s, p), sizes)
  {
    hide Owned, Placed, Accounted, Indexed, Listed, OneWhole, ZonesRight, Counted, Retired;
    RetiredKeeps(s, p);
    WholeIsEmpty(s, p);
    CountedRetired(s, sizes, p);
  }

  lemma Releasable(s: Slab, p: nat)
    requires Core(s, At(p))
    ensures s.lo <= p && p - s.lo + ZonePagesOf(s) <= |s.usage| && ZonePagesOf(s) > 0
    ensures p in s.spans && s.spans[p] == ZonePagesOf(s)
    ensures forall q: nat :: p <= q < p + ZonePagesOf(s) ==> !IsFree(s.runs, q)
  {
    hide Accounted, ZonesRight, Listed, IsFree, Canonical, InSpan, SpansApart;
    SpanUsed(s.lo, s.hi, s.runs, s.spans, p);
  }

  lemma ReleaseGood(s: Slab, sizes: Sizes, p: nat, runs': seq<Run>)
    requires Core(s, At(p)) && Counted(s, sizes) && p in s.spans && Freed(s.runs, p, s.spans[p], runs')
    ensures s.lo <= p && Core(Released(s, p, runs'), Null) && Counted(Released(s, p, runs'), sizes)
  {
    hide Core, Freed, SlabState.Cleared;
    assert FreedPages(s, p, runs');
    ReleasedKeeps(s, p, runs');
    CountedSame(s, Released(s, p, runs'), sizes);
  }

  lemma AddrIs(z0: Zone, z: Zone, size: nat)
    requires z.chunk == z0.chunk == size && z.base == z0.base
    ensures z.base + z.uindex * size == Addr(z0, z.uindex)
  {
  }

  lemma CountedSame(s: Slab, s': Slab, sizes: Sizes)
    requires Counted(s, sizes) && s'.live == s.live && s'.zones == s.zones
    ensures Counted(s', sizes)
  {
  }

  lemma ZoneGood(s: Slab, sizes: Sizes, b: nat, runs': seq<Run>)
    requires Core(s, Null) && Counted(s, sizes)
    requires Stretch(s.runs, b, ZonePagesOf(s)) && Taken(s.runs, b, ZonePagesOf(s), runs')
    ensures s.lo <= b && b - s.lo + ZonePagesOf(s) <= |s.usage|
    ensures Core(ZoneTaken(s, b, runs'), At(b)) && Counted(ZoneTaken(s, b, runs'), sizes)
  {
    hide Core, Stretch, Taken, Counted, Marked;
    IndexSize(s, Null);
    assert TakenPages(s, b, ZonePagesOf(s), runs');
    ZoneTakenKeeps(s, b, runs');
    CountedSame(s, ZoneTaken(s, b, runs'), sizes);
  }

  lemma ZeroRefused(s: Slab)
    ensures NoRoom(s, 0)
  {
  }

  lemma SmallRefused(s: Slab, size: u32, z: Ptr)
    requires ZoneSize(s.zoneSize) && 0 < size < Limit(s.zoneSize) && |s.classes| == CLASSES
    requires 0 <= ClassIndex(size) < CLASSES && s.classes[ClassIndex(size)] == []
    requires z == Null <==> s.parked == [] && forall at: nat :: !Stretch(s.runs, at, s.zoneSize / PAGE)
    ensures z == Null <==> NoRoom(s, size)
  {
    hide ClassIndex, Stretch;
    assert ZonePagesOf(s) == s.zoneSize / PAGE;
    if z == Null {
      assert forall at: nat :: !Stretch(s.runs, at, ZonePagesOf(s));
    }
  }

  lemma ServeGood(s: Slab, sizes: Sizes, used: int, size: u32)
    requires Inv(s) && Counted(s, sizes) && used == Sum(sizes) && 0 < size < Limit(s.zoneSize)
    requires 0 <= ClassIndex(size) < |s.classes| && s.classes[ClassIndex(size)] != []
    ensures var zi := ClassIndex(size); var p := s.classes[zi][0];
      && HeadOf(s, zi, p) && s.zones[p].chunk == ChunkSize(size) && s.zones[p].uindex < s.zones[p].nmax
      && var a := NextChunk(s.zones[p]); var s' := Served(s, zi); var sizes' := sizes[a := ChunkSize(size)];
         Core(s', Null) && Inv(s') && Counted(s', sizes') && used + ChunkSize(size) == Sum(sizes') &&
           Grants(s, size, a, s')
    ensures !NoRoom(s, size)
  {
    hide ChunkSize, ClassIndex, Core, OneWhole, Sum, NextChunk;
    var zi := ClassIndex(size);
    var p := s.classes[zi][0];
    InvParts(s);
    LimitBounds(s.zoneSize, size);
    HeadSize(s, zi, size);
    ServedKeeps(s, zi);
    UindexBelow(s, p);
    CountedServed(s, sizes, p, AfterNext(s.zones[p]), Unlisted(s.classes, AfterNext(s.zones[p])),
                  NextChunk(s.zones[p]));
    SumWith(sizes, NextChunk(s.zones[p]), ChunkSize(size));
  }

  lemma ServeChoice(s: Slab, size: u32)
    requires size < Limit(s.zoneSize) && 0 <= ClassIndex(size) < |s.classes|
    requires s.classes[ClassIndex(size)] != [] && HeadOf(s, ClassIndex(size), s.classes[ClassIndex(size)][0])
    ensures Chosen(s, size, NextChunk(s.zones[s.classes[ClassIndex(size)][0]]), Served(s, ClassIndex(size)))
  {
    hide ClassIndex, NextChunk, AfterNext, Unlisted, Limit;
  }

  lemma OpenChoice(s: Slab, s1: Slab, p: nat, size: u32)
    requires size < Limit(s.zoneSize) && 0 <= ClassIndex(size) < |s.classes| && s.classes[ClassIndex(size)] == []
    requires ChunkSize(size) > 0 && MaxChunks(s.zoneSize, ChunkSize(size)) > 0 && ZoneChosen(s, p)
    requires s1.zones == s.zones && s1.classes == s.classes && s1.zoneSize == s.zoneSize
    requires s1.parked == if s.parked != [] then s.parked[1..] else []
    ensures var z := ZoneFor(s.zoneSize, p, ClassIndex(size), ChunkSize(size));
      Chosen(s, size, Addr(z, 0), Opened(s1, p, z))
  {
    hide ClassIndex, ChunkSize, MaxChunks, Limit, ZoneChosen;
    var z := ZoneFor(s.zoneSize, p, ClassIndex(size), ChunkSize(size));
    assert OpenedFor(s, size, p, Addr(z, 0), Opened(s1, p, z));
  }

  lemma UindexBelow(s: Slab, p: nat)
    requires Inv(s) && p in s.zones
    ensures s.zones[p].uindex < s.zones[p].nmax
  {
    hide Owned, Placed, Accounted, Indexed, Listed, OneWhole;
  }

  lemma OpenGood(s: Slab, s1: Slab, sizes: Sizes, used: int, p: nat, size: u32)
    requires Inv(s) && Core(s1, At(p)) && Counted(s1, sizes) && used == Sum(sizes) && 0 < size < Limit(s.zoneSize)
    requires s1.zones == s.zones && s1.classes == s.classes && s1.live == s.live && s1.zoneSize == s.zoneSize &&
             |s1.parked| <= 2
    requires 0 <= ClassIndex(size) < |s.classes| && s.classes[ClassIndex(size)] == []
    ensures ChunkSize(size) > 0 && MaxChunks(s.zoneSize, ChunkSize(size)) > 0
    ensures var z := ZoneFor(s.zoneSize, p, ClassIndex(size), ChunkSize(size)); var a := Addr(z, 0);
      var s' := Opened(s1, p, z); var sizes' := sizes[a := ChunkSize(size)];
      Core(s', Null) && Inv(s') && Counted(s', sizes') && used + ChunkSize(size) == Sum(sizes') &&
        Grants(s, size, a, s')
  {
    hide ChunkSize, ClassIndex, Core, OneWhole, Sum, MaxChunks, Shaped, Addr;
    InvParts(s);
    LimitBounds(s.zoneSize, size);
    ZoneForShaped(s.zoneSize, p, size);
    var z := ZoneFor(s.zoneSize, p, ClassIndex(size), ChunkSize(size));
    OpenedKeeps(s1, p, z);
    NoneMine(s1, p);
    CountedOpened(s1, sizes, p, z);
    SumWith(sizes, Addr(z, 0), ChunkSize(size));
  }

  lemma LargeRefused(s: Slab, size: u32, b: Ptr)
    requires size > 0 && size >= Limit(s.zoneSize)
    requires b == Null <==> PagesFor(size) == 0 || forall at: nat :: !Stretch(s.runs, at, PagesFor(size))
    ensures b == Null <==> NoRoom(s, size)
  {
  }

  lemma LargeChoice(s: Slab, size: u32, b: nat, n: nat, runs': seq<Run>)
    requires n > 0 && n == PagesFor(size) && size >= Limit(s.zoneSize) && s.lo <= b < s.lo + |s.usage|
    requires Stretch(s.runs, b, n) && Taken(s.runs, b, n, runs') && forall at: nat :: at < b ==> !Stretch(s.runs, at, n)
    ensures Chosen(s, size, PAGE * b, LargeTaken(s, b, n, runs'))
  {
    hide Stretch, Taken, Limit, PagesFor;
    assert LargeChosen(s, size, b, PAGE * b, LargeTaken(s, b, n, runs'));
  }

  lemma LargeGood(s: Slab, sizes: Sizes, used: int, size: u32, b: nat, n: nat, runs': seq<Run>)
    requires Inv(s) && Counted(s, sizes) && used == Sum(sizes) && size >= Limit(s.zoneSize)
    requires n > 0 && n == PagesFor(size) && Stretch(s.runs, b, n) && Taken(s.runs, b, n, runs')
    ensures s.lo <= b < s.lo + |s.usage|
    ensures var s' := LargeTaken(s, b, n, runs'); var sizes' := sizes[PAGE * b := PAGE * n];
      && Core(s', Null) && Inv(s') && Counted(s', sizes') && used + PAGE * n == Sum(sizes')
      && Grants(s, size, PAGE * b, s') && PAGE * b % PAGE == 0
  {
    hide Core, OneWhole, Stretch, Taken, Sum;
    assert TakenPages(s, b, n, runs');
    LargeTakenKeeps(s, b, n, runs');
    CountedLarge(s, sizes, b, n, runs');
    SumWith(sizes, PAGE * b, PAGE * n);
    PagesEnough(size);
    hide Counted;
  }

  lemma IndexRoom(lo: nat, hi: nat)
    requires lo < hi < 0x10_0000
    ensures var n := AlignPage(4 * (hi - lo)) / PAGE; 0 < n <= hi - lo && n == (4 * (hi - lo) + 4095) / 4096
  {
  }

  lemma OneRunFree(lo: nat, m: nat, n: nat)
    requires 0 < n <= m
    ensures Canonical([Run(lo, m)]) && forall p: nat :: IsFree([Run(lo, m)], p) <==> lo <= p < lo + m
    ensures Stretch([Run(lo, m)], lo, n)
  {
  }

  lemma FirstPagesTaken(lo: nat, hi: nat, n: nat, b: Ptr, runs: seq<Run>, runs': seq<Run>)
    requires lo < hi && 0 < n <= hi - lo && runs == [Run(lo, hi - lo)]
    requires b == Null ==> forall at: nat :: !Stretch(runs, at, n)
    requires b.At? ==>
               Stretch(runs, b.addr, n) && Taken(runs, b.addr, n, runs') &&
               forall at: nat :: at < b.addr ==> !Stretch(runs, at, n)
    ensures b == At(lo) && Canonical(runs')
    ensures forall p: nat :: IsFree(runs', p) <==> lo + n <= p < hi
  {
    OneRunFree(lo, hi - lo, n);
    if b.At? {
      assert IsFree(runs, b.addr);
    }
  }

  lemma EmptyHolds(s: Slab, sizes: Sizes)
    requires sizes == map[]
    requires ZoneSize(s.zoneSize) && s.lo < s.hi && s.lo in s.spans && s.spans == map[s.lo := s.spans[s.lo]]
    requires 0 < s.spans[s.lo] <= s.hi - s.lo && Canonical(s.runs)
    requires forall p: nat :: IsFree(s.runs, p) <==> s.lo + s.spans[s.lo] <= p < s.hi
    requires s.zones == map[] && s.classes == seq(CLASSES, i => []) && s.parked == [] && s.live == map[] &&
             |s.usage| == s.hi - s.lo
    ensures Inv(s) && Core(s, Null) && Counted(s, sizes) && Sum(sizes) == 0
  {
    SpanAdded(map[], s.lo, s.spans[s.lo], s.spans);
    forall p: nat ensures !InSpan(map[], p) {}
    hide InSpan, IsFree, Canonical;
    assert Owned(s.lo, s.hi, s.runs, s.spans);
    hide Owned;
  }
}
