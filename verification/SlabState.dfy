// What the slab allocator keeps true: where zones, parked zones and large allocations lie,
// that the page index describes them, and which zones are on which list.
module SlabState {
  import opened Words
  import opened Lists
  import opened PageRuns
  import opened PageSpans
  import opened SizeClasses
  import opened ZoneChunks

  datatype Kind = FreePage | SmallPage | LargePage

  // One entry of memusage.
  datatype Usage = Usage(kind: Kind, size: nat)

  type Zones = map<nat, Zone>

  datatype Slab = Slab(
    lo: nat,                      // first page of the heap; the page index lies there
    hi: nat,
    zoneSize: nat,
    runs: seq<Run>,               // free pages
    spans: Spans,                 // pages in use
    usage: seq<Usage>,            // memusage
    zones: Zones,                 // zones in service, by their first page
    classes: seq<seq<nat>>,       // zone_array
    parked: seq<nat>,             // zone_free
    live: Live)                   // pointers handed out and not given back

  function ZonePagesOf(s: Slab): nat { s.zoneSize / PAGE }

  // ---- the parts of the invariant ----

  // The index entries of a zone's pages say how far back its first page is.
  ghost predicate ZoneIndexed(usage: seq<Usage>, lo: nat, p: nat, zp: nat) {
    lo <= p && p - lo + zp <= |usage| && forall o :: 0 <= o < zp ==> usage[p - lo + o] == Usage(SmallPage, o)
  }

  ghost predicate LargeIndexed(usage: seq<Usage>, lo: nat, p: nat, n: nat) {
    lo <= p && p - lo < |usage| && usage[p - lo] == Usage(LargePage, n)
  }

  // Everything taken from the page allocator is the index, a zone, a parked zone, a live
  // large allocation, or x, which is being moved between these.
  ghost predicate Placed(s: Slab, x: Ptr) {
    && s.lo in s.spans
    && (forall p :: p in s.zones ==> p in s.spans && s.spans[p] == ZonePagesOf(s) && p != s.lo && x != At(p))
    && (forall p :: p in s.parked ==>
          p in s.spans && s.spans[p] == ZonePagesOf(s) && p != s.lo && x != At(p) && p !in s.zones)
    && (forall a :: a in s.live && s.live[a].Chunk? ==> s.live[a].zone in s.zones)
    && (forall a :: a in s.live && s.live[a].Pages? ==>
          var p := s.live[a].page;
          a == PAGE * p && p in s.spans && s.spans[p] == s.live[a].n && p != s.lo && x != At(p) && p !in s.zones &&
            p !in s.parked)
    && (x.At? ==> x.addr in s.spans && s.spans[x.addr] == ZonePagesOf(s) && x.addr != s.lo)
    && NoRepeats(s.parked)
  }

  ghost predicate Accounted(s: Slab, x: Ptr) {
    forall p :: p in s.spans ==>
      p == s.lo || p in s.zones || p in s.parked || x == At(p) || (PAGE * p in s.live && s.live[PAGE * p].Pages?)
  }

  ghost predicate Indexed(s: Slab, x: Ptr) {
    && |s.usage| == s.hi - s.lo
    && (forall p :: p in s.zones ==> ZoneIndexed(s.usage, s.lo, p, ZonePagesOf(s)))
    && (forall p :: p in s.parked ==> ZoneIndexed(s.usage, s.lo, p, ZonePagesOf(s)))
    && (forall a :: a in s.live && s.live[a].Pages? ==> LargeIndexed(s.usage, s.lo, s.live[a].page, s.live[a].n))
    && (x.At? ==> ZoneIndexed(s.usage, s.lo, x.addr, ZonePagesOf(s)))
  }

  ghost predicate ZonesRight(s: Slab) {
    forall p :: p in s.zones ==> Shaped(s.zoneSize, p, s.zones[p]) && ZoneOk(p, s.zones[p], s.live)
  }

  // A zone in service is on the list of its class exactly when it has a free chunk.
  ghost predicate Listed(zones: Zones, classes: seq<seq<nat>>) {
    && |classes| == CLASSES
    && (forall c :: 0 <= c < CLASSES ==> NoRepeats(classes[c]))
    && (forall c, p :: 0 <= c < CLASSES && p in classes[c] ==> p in zones && zones[p].zi == c && zones[p].nfree > 0)
    && (forall p :: p in zones ==> zones[p].zi < CLASSES && (zones[p].nfree > 0 ==> p in classes[zones[p].zi]))
  }

  ghost predicate IsWhole(zones: Zones, p: nat) {
    p in zones && zones[p].nfree == zones[p].nmax
  }

  ghost predicate WholeOn(zones: Zones, list: seq<nat>, p: nat, x: Ptr) {
    p in list && x != At(p) && IsWhole(zones, p)
  }

  // At most one zone of each class, x apart, is wholly free.
  ghost predicate OneWhole(zones: Zones, classes: seq<seq<nat>>, x: Ptr) {
    forall c, p, q :: 0 <= c < |classes| && WholeOn(zones, classes[c], p, x) && WholeOn(zones, classes[c], q, x) ==>
        p == q
  }

  ghost predicate Core(s: Slab, x: Ptr) {
    && ZoneSize(s.zoneSize) && s.lo < s.hi
    && Owned(s.lo, s.hi, s.runs, s.spans)
    && Placed(s, x) && Accounted(s, x) && Indexed(s, x)
    && ZonesRight(s) && Listed(s.zones, s.classes)
  }

  ghost predicate Inv(s: Slab) {
    Core(s, Null) && OneWhole(s.zones, s.classes, Null) && |s.parked| <= 2
  }

  // ---- where live pointers are ----

  function HomeOf(piece: Piece): nat {
    match piece
    case Chunk(p) => p
    case Pages(p, n) => p
  }

  function Extent(s: Slab, a: nat): nat
    requires a in s.live && (s.live[a].Chunk? ==> s.live[a].zone in s.zones)
  {
    match s.live[a]
    case Chunk(p) => s.zones[p].chunk
    case Pages(p, n) => PAGE * n
  }

  lemma PagesTimes(zoneSize: nat)
    requires ZoneSize(zoneSize)
    ensures PAGE * (zoneSize / PAGE) == zoneSize
  {
  }

  // A live pointer lies in its span, behind the header if the span is a zone.
  lemma LiveInSpan(s: Slab, x: Ptr, a: nat)
    requires Core(s, x) && a in s.live
    ensures s.live[a].Chunk? ==> s.live[a].zone in s.zones
    ensures var h := HomeOf(s.live[a]);
      && h in s.spans && h != s.lo
      && PAGE * h <= a && a + Extent(s, a) <= PAGE * (h + s.spans[h])
      && (s.live[a].Chunk? ==> PAGE * h + HEADER <= a)
  {
    hide Owned, Indexed, Accounted, Listed, Off, Issued, OfClass;
    match s.live[a]
    case Chunk(p) =>
      assert Mine(s.live, p, a);
      PagesTimes(s.zoneSize);
      ChunkInside(s.zoneSize, p, s.zones[p], a);
    case Pages(p, n) =>
  }

  lemma SpansMeet(s: Slab, x: Ptr, h: nat, k: nat, a: nat)
    requires Core(s, x) && h in s.spans && k in s.spans
    requires PAGE * h <= a < PAGE * (h + s.spans[h]) && PAGE * k <= a < PAGE * (k + s.spans[k])
    ensures h == k
  {
    hide Placed, Accounted, Indexed, ZonesRight, Listed, IsFree, Canonical, InSpan;
  }

  // Two live pointers never overlap.
  lemma LiveApart(s: Slab, a: nat, b: nat)
    requires Inv(s) && a in s.live && b in s.live && a < b
    ensures (s.live[a].Chunk? ==> s.live[a].zone in s.zones) && a + Extent(s, a) <= b
  {
    hide Owned, Indexed, Accounted, Listed, OneWhole, Off, OfClass, Shaped;
    LiveInSpan(s, Null, a);
    LiveInSpan(s, Null, b);
    var h, k := HomeOf(s.live[a]), HomeOf(s.live[b]);
    if h == k {
      if s.live[a].Chunk? {
        assert s.live[b].Chunk?;
        ChunksApart(s.zones[h], a, b);
      }
    } else {
      SpansOrdered(s, Null, h, k);
    }
  }

  lemma SpansOrdered(s: Slab, x: Ptr, h: nat, k: nat)
    requires Core(s, x) && h in s.spans && k in s.spans && h != k
    ensures PAGE * (h + s.spans[h]) <= PAGE * k || PAGE * (k + s.spans[k]) <= PAGE * h
  {
    hide Placed, Accounted, Indexed, ZonesRight, Listed, IsFree, Canonical, InSpan;
  }

  // No live pointer reaches into a free page or into the page index.
  lemma LiveOnUsedPages(s: Slab, a: nat, p: nat)
    requires Inv(s) && a in s.live && (s.live[a].Chunk? ==> s.live[a].zone in s.zones)
    requires PAGE * p < a + Extent(s, a) && a < PAGE * (p + 1)
    ensures !IsFree(s.runs, p) && s.lo <= p < s.hi && !(s.lo in s.spans && s.lo <= p < s.lo + s.spans[s.lo])
  {
    LiveInSpan(s, Null, a);
    var h := HomeOf(s.live[a]);
    SpanHolds(s.spans, h, p);
    SpansOrdered(s, Null, h, s.lo);
    hide Placed, Accounted, Indexed, ZonesRight, Listed, OneWhole, Canonical, InSpan;
  }

  // The page index finds the owner of every live pointer: the zone, from the distance
  // stored for the page the pointer is in, or the length of the run.
  lemma IndexFindsOwner(s: Slab, a: nat)
    requires Inv(s) && a in s.live
    ensures s.lo <= a / PAGE < s.lo + |s.usage|
    ensures var u := s.usage[a / PAGE - s.lo];
      match s.live[a]
      case Chunk(p) => u.kind == SmallPage && a / PAGE - u.size == p
      case Pages(p, n) => u == Usage(LargePage, n) && p == a / PAGE
  {
    hide Owned, Accounted, Listed, OneWhole, ZonesRight;
    LiveInSpan(s, Null, a);
    ExtentPositive(s, Null, a);
    match s.live[a]
    case Chunk(p) =>
      PagesTimes(s.zoneSize);
      var o := a / PAGE - p;
      assert ZoneIndexed(s.usage, s.lo, p, ZonePagesOf(s));
      assert s.usage[p - s.lo + o] == Usage(SmallPage, o);
    case Pages(p, n) =>
      assert LargeIndexed(s.usage, s.lo, p, n);
  }

  // An address in a zone that is not one of its live chunks is not live at all.
  lemma NotLive(s: Slab, x: Ptr, p: nat, a: nat)
    requires Core(s, x) && (p in s.zones || x == At(p)) && !Mine(s.live, p, a)
    requires PAGE * p <= a < PAGE * p + s.zoneSize
    ensures a !in s.live
  {
    if a in s.live {
      LiveInSpan(s, x, a);
      PagesTimes(s.zoneSize);
      hide Owned, Indexed, Accounted, Listed, ZonesRight;
      ExtentPositive(s, x, a);
      SpansMeet(s, x, HomeOf(s.live[a]), p, a);
    }
  }

  lemma ExtentPositive(s: Slab, x: Ptr, a: nat)
    requires Core(s, x) && a in s.live && (s.live[a].Chunk? ==> s.live[a].zone in s.zones)
    ensures Extent(s, a) > 0
  {
    hide Indexed, Accounted, Listed, Off, OfClass, ZoneOk, IsFree, Canonical, InSpan;
  }

  // ---- handing out a chunk of a zone that has one ----

  // zone_array without a zone that has just become empty.
  function Unlisted(classes: seq<seq<nat>>, z: Zone): seq<seq<nat>>
    requires z.zi < |classes| && classes[z.zi] != []
  {
    if z.nfree == 0 then classes[z.zi := classes[z.zi][1..]] else classes
  }

  function NextChunk(z: Zone): nat
    requires z.uindex + 1 < z.nmax || z.free != []
  {
    if z.uindex + 1 < z.nmax then Addr(z, z.uindex + 1) else z.free[0]
  }

  function AfterNext(z: Zone): Zone
    requires z.nfree > 0 && (z.uindex + 1 < z.nmax || z.free != [])
  {
    if z.uindex + 1 < z.nmax then Fresh(z) else Popped(z)
  }

  lemma NextIsRight(p: nat, z: Zone, live: Live)
    requires ZoneOk(p, z, live) && z.nfree > 0
    ensures z.uindex + 1 < z.nmax || z.free != []
    ensures !Mine(live, p, NextChunk(z)) && ZoneOk(p, AfterNext(z), live[NextChunk(z) := Chunk(p)])
    ensures Issued(AfterNext(z), NextChunk(z)) && AfterNext(z).uindex < z.nmax
  {
    hide Issued, Addr;
    if z.uindex + 1 < z.nmax { TakeFresh(p, z, live); } else { TakeFreed(p, z, live); }
    var live' := live[NextChunk(z) := Chunk(p)];
    assert NextChunk(z) in live' && live'[NextChunk(z)] == Chunk(p);
  }

  ghost predicate HeadOf(s: Slab, zi: nat, p: nat) {
    && zi < |s.classes| && s.classes[zi] != [] && s.classes[zi][0] == p
    && p in s.zones && s.zones[p].zi == zi && s.zones[p].nfree > 0
    && (s.zones[p].uindex + 1 < s.zones[p].nmax || s.zones[p].free != [])
  }

  lemma HeadServes(s: Slab, x: Ptr, zi: nat)
    requires Core(s, x) && zi < CLASSES && s.classes[zi] != []
    ensures HeadOf(s, zi, s.classes[zi][0])
  {
    hide Owned, Placed, Accounted, Indexed, Shaped;
    var p := s.classes[zi][0];
    assert p in s.classes[zi];
    NextIsRight(p, s.zones[p], s.live);
  }

  function Served(s: Slab, zi: nat): Slab
    requires zi < |s.classes| && s.classes[zi] != [] && HeadOf(s, zi, s.classes[zi][0])
  {
    var p := s.classes[zi][0];
    var z := AfterNext(s.zones[p]);
    s.(zones := s.zones[p := z], classes := Unlisted(s.classes, z), live := s.live[NextChunk(s.zones[p]) := Chunk(p)])
  }

  lemma ListedServed(zones: Zones, classes: seq<seq<nat>>, zi: nat, z: Zone)
    requires Listed(zones, classes) && zi < CLASSES && classes[zi] != []
    requires z.zi == zi && z.nfree == zones[classes[zi][0]].nfree - 1
    ensures Listed(zones[classes[zi][0] := z], Unlisted(classes, z))
  {
    var p := classes[zi][0];
    var l := classes[zi];
    assert p in l && l == [p] + l[1..] && p !in l[1..];
    assert forall q :: q in l <==> q == p || q in l[1..];
  }

  lemma OneWholeServed(zones: Zones, classes: seq<seq<nat>>, zi: nat, z: Zone)
    requires Listed(zones, classes) && OneWhole(zones, classes, Null) && zi < CLASSES && classes[zi] != []
    requires z.zi == zi && z.nfree < z.nmax
    ensures OneWhole(zones[classes[zi][0] := z], Unlisted(classes, z), Null)
  {
    hide NoRepeats;
    var p := classes[zi][0];
    var zones', classes' := zones[p := z], Unlisted(classes, z);
    forall c, q | 0 <= c < |classes'| && WholeOn(zones', classes'[c], q, Null)
      ensures WholeOn(zones, classes[c], q, Null) {
      assert q in classes[c];
    }
  }

  // A chunk from the head of the list of its class: the pointer is new, and what the
  // allocator keeps true stays true.
  lemma ServedKeeps(s: Slab, zi: nat)
    requires Inv(s) && zi < CLASSES && s.classes[zi] != []
    ensures HeadOf(s, zi, s.classes[zi][0])
    ensures NextChunk(s.zones[s.classes[zi][0]]) !in s.live
    ensures Inv(Served(s, zi))
  {
    HeadServes(s, Null, zi);
    var p := s.classes[zi][0];
    var z := s.zones[p];
    var a, z' := NextChunk(z), AfterNext(z);
    var s' := Served(s, zi);
    ZoneServed(s, p);
    ListedServed(s.zones, s.classes, zi, z');
    hide NextChunk, AfterNext, Unlisted, ZoneOk, Shaped, Mine;
    ServedPlaces(s, p, z', a, s'.classes);
    FreeBelowMax(s, p);
    OneWholeServed(s.zones, s.classes, zi, z');
  }

  lemma FreeBelowMax(s: Slab, p: nat)
    requires ZonesRight(s) && p in s.zones && s.zones[p].nfree > 0
    requires s.zones[p].uindex + 1 < s.zones[p].nmax || s.zones[p].free != []
    ensures AfterNext(s.zones[p]).nfree < AfterNext(s.zones[p]).nmax
  {
    FreeWithinMax(p, s.zones[p], s.live);
  }

  lemma ZoneServed(s: Slab, p: nat)
    requires Core(s, Null) && p in s.zones && s.zones[p].nfree > 0
    ensures s.zones[p].uindex + 1 < s.zones[p].nmax || s.zones[p].free != []
    ensures var z := s.zones[p]; var a := NextChunk(z);
      && a !in s.live && ZoneOk(p, AfterNext(z), s.live[a := Chunk(p)]) && Shaped(s.zoneSize, p, AfterNext(z))
      && AfterNext(z).zi == z.zi && AfterNext(z).nfree == z.nfree - 1
  {
    hide Owned, Placed, Accounted, Indexed, Listed, Issued, Addr, Off, OfClass;
    var z := s.zones[p];
    NextIsRight(p, z, s.live);
    ChunkInside(s.zoneSize, p, AfterNext(z), NextChunk(z));
    NotLive(s, Null, p, NextChunk(z));
  }

  // Changing one zone and making one address live in it.
  function Changed(s: Slab, p: nat, z: Zone, classes: seq<seq<nat>>, live: Live): Slab {
    s.(zones := s.zones[p := z], classes := classes, live := live)
  }

  lemma ServedZones(s: Slab, p: nat, z: Zone, classes: seq<seq<nat>>, live: Live)
    requires ZonesRight(s) && ZoneOk(p, z, live) && Shaped(s.zoneSize, p, z)
    requires forall q, a :: q != p ==> (Mine(s.live, q, a) <==> Mine(live, q, a))
    ensures ZonesRight(Changed(s, p, z, classes, live))
  {
    hide ZoneOk, Shaped, Mine;
    var s' := Changed(s, p, z, classes, live);
    forall q | q in s'.zones ensures Shaped(s.zoneSize, q, s'.zones[q]) && ZoneOk(q, s'.zones[q], s'.live) {
      if q != p { OthersDoNotMatter(q, s.zones[q], s.live, s'.live); }
    }
  }

  lemma ServedPlaced(s: Slab, p: nat, z: Zone, a: nat, classes: seq<seq<nat>>)
    requires Placed(s, Null) && p in s.zones && a !in s.live
    ensures Placed(Changed(s, p, z, classes, s.live[a := Chunk(p)]), Null)
  {
    hide NoRepeats;
  }

  lemma ServedIndexed(s: Slab, p: nat, z: Zone, a: nat, classes: seq<seq<nat>>)
    requires Indexed(s, Null) && Accounted(s, Null) && p in s.zones && a !in s.live
    ensures Indexed(Changed(s, p, z, classes, s.live[a := Chunk(p)]), Null)
    ensures Accounted(Changed(s, p, z, classes, s.live[a := Chunk(p)]), Null)
  {
    hide ZoneIndexed, LargeIndexed;
  }

  lemma ServedPlaces(s: Slab, p: nat, z: Zone, a: nat, classes: seq<seq<nat>>)
    requires Core(s, Null) && p in s.zones && a !in s.live
    requires ZoneOk(p, z, s.live[a := Chunk(p)]) && Shaped(s.zoneSize, p, z)
    requires Listed(s.zones[p := z], classes)
    ensures Core(Changed(s, p, z, classes, s.live[a := Chunk(p)]), Null)
  {
    hide ZoneOk, Shaped, Listed, Owned, Placed, Accounted, Indexed, ZonesRight;
    ServedZones(s, p, z, classes, s.live[a := Chunk(p)]);
    ServedPlaced(s, p, z, a, classes);
    ServedIndexed(s, p, z, a, classes);
  }

  // ---- a zone for a class that has none with free chunks ----

  function ZoneFor(zoneSize: nat, p: nat, zi: nat, c: nat): Zone
    requires c > 0 && MaxChunks(zoneSize, c) > 0
  {
    Zone(zi, c, PAGE * p + Off(c), MaxChunks(zoneSize, c), MaxChunks(zoneSize, c) - 1, 0, [])
  }

  lemma ZoneForShaped(zoneSize: nat, p: nat, n: nat)
    requires ZoneSize(zoneSize) && 1 <= n < Limit(zoneSize)
    ensures ChunkSize(n) > 0 && MaxChunks(zoneSize, ChunkSize(n)) >= 3 && 0 <= ClassIndex(n) < CLASSES
    ensures Shaped(zoneSize, p, ZoneFor(zoneSize, p, ClassIndex(n), ChunkSize(n)))
  {
    hide ChunkSize, ClassIndex, Off, MaxChunks;
    ZoneHolds(zoneSize, n);
    ClassBounds(n);
    assert OfClass(ClassIndex(n), ChunkSize(n));
  }

  function Opened(s: Slab, p: nat, z: Zone): Slab
    requires z.zi < |s.classes|
  {
    s.(zones := s.zones[p := z], classes := s.classes[z.zi := [p] + s.classes[z.zi]],
       live := s.live[Addr(z, 0) := Chunk(p)])
  }

  lemma NoneMine(s: Slab, p: nat)
    requires Core(s, At(p))
    ensures p !in s.zones && forall a :: !Mine(s.live, p, a)
  {
    hide Owned, Accounted, Indexed, ZonesRight, Listed;
  }

  lemma ListedOpened(zones: Zones, classes: seq<seq<nat>>, p: nat, z: Zone)
    requires Listed(zones, classes) && p !in zones && z.zi < CLASSES && z.nfree > 0
    ensures Listed(zones[p := z], classes[z.zi := [p] + classes[z.zi]])
  {
    var l := classes[z.zi];
    assert p !in l;
    assert forall q :: q in [p] + l <==> q == p || q in l;
  }

  lemma OneWholeOpened(zones: Zones, classes: seq<seq<nat>>, p: nat, z: Zone)
    requires Listed(zones, classes) && OneWhole(zones, classes, Null) && p !in zones && z.zi < CLASSES &&
             z.nfree < z.nmax
    ensures OneWhole(zones[p := z], classes[z.zi := [p] + classes[z.zi]], Null)
  {
    hide NoRepeats;
    var zones', classes' := zones[p := z], classes[z.zi := [p] + classes[z.zi]];
    forall c, q | 0 <= c < |classes'| && WholeOn(zones', classes'[c], q, Null)
      ensures WholeOn(zones, classes[c], q, Null) {
      assert q in classes[c] || q == p;
    }
  }

  lemma OpenedKeeps(s: Slab, p: nat, z: Zone)
    requires Core(s, At(p)) && OneWhole(s.zones, s.classes, Null) && Shaped(s.zoneSize, p, z)
    requires z.nfree == z.nmax - 1 && z.uindex == 0 && z.free == []
    ensures Addr(z, 0) !in s.live && z.zi < |s.classes|
    ensures Core(Opened(s, p, z), Null) && OneWhole(Opened(s, p, z).zones, Opened(s, p, z).classes, Null)
  {
    NoneMine(s, p);
    NewZone(p, z, s.live);
    IssuedUpTo(z, 0);
    FirstInside(s.zoneSize, p, z);
    NotLive(s, At(p), p, Addr(z, 0));
    ListedOpened(s.zones, s.classes, p, z);
    OneWholeOpened(s.zones, s.classes, p, z);
    OpenedPlaces(s, p, z);
  }

  lemma FirstInside(zoneSize: nat, p: nat, z: Zone)
    requires Shaped(zoneSize, p, z) && z.uindex == 0
    ensures PAGE * p <= Addr(z, 0) < PAGE * p + zoneSize
  {
    hide Off, OfClass;
    IssuedUpTo(z, 0);
    ChunkInside(zoneSize, p, z, Addr(z, 0));
  }

  lemma OpenedZones(s: Slab, p: nat, z: Zone)
    requires ZonesRight(s) && p !in s.zones && Addr(z, 0) !in s.live && z.zi < |s.classes|
    requires ZoneOk(p, z, s.live[Addr(z, 0) := Chunk(p)]) && Shaped(s.zoneSize, p, z)
    ensures ZonesRight(Opened(s, p, z))
  {
    hide ZoneOk, Shaped, Addr;
    var s' := Opened(s, p, z);
    forall q | q in s'.zones ensures Shaped(s.zoneSize, q, s'.zones[q]) && ZoneOk(q, s'.zones[q], s'.live) {
      if q != p { OthersDoNotMatter(q, s.zones[q], s.live, s'.live); }
    }
  }

  lemma OpenedPlaced(s: Slab, p: nat, z: Zone)
    requires Placed(s, At(p)) && Addr(z, 0) !in s.live && z.zi < |s.classes|
    ensures Placed(Opened(s, p, z), Null)
  {
    hide NoRepeats, Addr;
  }

  lemma OpenedIndexed(s: Slab, p: nat, z: Zone)
    requires Indexed(s, At(p)) && Accounted(s, At(p)) && Addr(z, 0) !in s.live && z.zi < |s.classes|
    ensures Indexed(Opened(s, p, z), Null) && Accounted(Opened(s, p, z), Null)
  {
    hide ZoneIndexed, LargeIndexed, Addr;
  }

  lemma OpenedPlaces(s: Slab, p: nat, z: Zone)
    requires Core(s, At(p)) && Addr(z, 0) !in s.live && z.zi < |s.classes| && p !in s.zones
    requires ZoneOk(p, z, s.live[Addr(z, 0) := Chunk(p)]) && Shaped(s.zoneSize, p, z)
    requires Listed(Opened(s, p, z).zones, Opened(s, p, z).classes)
    ensures Core(Opened(s, p, z), Null)
  {
    hide ZoneOk, Shaped, Listed, Owned, Placed, Accounted, Indexed, ZonesRight, Addr;
    OpenedZones(s, p, z);
    OpenedPlaced(s, p, z);
    OpenedIndexed(s, p, z);
  }

  // ---- where such a zone comes from ----

  lemma UnparkedPlaced(s: Slab, p: nat, rest: seq<nat>)
    requires Placed(s, Null) && Accounted(s, Null) && NoRepeats(rest) && p !in rest
    requires forall q :: q in s.parked <==> q == p || q in rest
    ensures Placed(s.(parked := rest), At(p)) && Accounted(s.(parked := rest), At(p))
  {
    hide NoRepeats;
  }

  lemma UnparkedIndexed(s: Slab, p: nat, rest: seq<nat>)
    requires Indexed(s, Null) && forall q :: q in s.parked <==> q == p || q in rest
    ensures Indexed(s.(parked := rest), At(p))
  {
    hide ZoneIndexed, LargeIndexed;
    assert p in s.parked;
  }

  lemma Unparked(s: Slab)
    requires Core(s, Null) && s.parked != []
    ensures Core(s.(parked := s.parked[1..]), At(s.parked[0]))
  {
    hide Owned, ZonesRight, Listed, Placed, Accounted, Indexed, NoRepeats;
    PlacedParked(s, Null);
    FirstAndRest(s.parked);
    UnparkedPlaced(s, s.parked[0], s.parked[1..]);
    UnparkedIndexed(s, s.parked[0], s.parked[1..]);
    SameZones(s, s.(parked := s.parked[1..]));
  }

  lemma PlacedParked(s: Slab, x: Ptr)
    requires Placed(s, x)
    ensures NoRepeats(s.parked) && (x.At? ==> x.addr !in s.parked && x.addr !in s.zones)
  {
    hide NoRepeats;
  }

  lemma ParkedPlaced(s: Slab, p: nat, all: seq<nat>)
    requires Placed(s, At(p)) && Accounted(s, At(p)) && NoRepeats(all) && p !in s.zones
    requires forall q :: q in all <==> q == p || q in s.parked
    ensures Placed(s.(parked := all), Null) && Accounted(s.(parked := all), Null)
  {
    hide NoRepeats;
  }

  lemma ParkedIndexed(s: Slab, p: nat, all: seq<nat>)
    requires Indexed(s, At(p)) && forall q :: q in all <==> q == p || q in s.parked
    ensures Indexed(s.(parked := all), Null)
  {
    hide ZoneIndexed, LargeIndexed;
  }

  lemma Parking(s: Slab, p: nat)
    requires Core(s, At(p))
    ensures Core(s.(parked := [p] + s.parked), Null)
  {
    hide Owned, ZonesRight, Listed, Placed, Accounted, Indexed, NoRepeats;
    PlacedParked(s, At(p));
    Prepended(p, s.parked);
    ParkedPlaced(s, p, [p] + s.parked);
    ParkedIndexed(s, p, [p] + s.parked);
    SameZones(s, s.(parked := [p] + s.parked));
  }

  // The index entries of zp pages from place `at` on, for a zone that begins there.
  function Marked(usage: seq<Usage>, at: nat, zp: nat): (r: seq<Usage>)
    ensures |r| == |usage|
  {
    seq(|usage|, i requires 0 <= i < |usage| => if at <= i < at + zp then Usage(SmallPage, i - at) else usage[i])
  }

  function Cleared(usage: seq<Usage>, at: nat, zp: nat): (r: seq<Usage>)
    ensures |r| == |usage|
  {
    seq(|usage|, i requires 0 <= i < |usage| => if at <= i < at + zp then Usage(FreePage, 0) else usage[i])
  }

  // Entries of other spans are not touched.
  ghost predicate SameOutside(usage: seq<Usage>, usage': seq<Usage>, at: nat, n: nat) {
    |usage'| == |usage| && forall i :: 0 <= i < |usage| && !(at <= i < at + n) ==> usage'[i] == usage[i]
  }

  lemma IndexedElsewhere(s: Slab, x: Ptr, usage': seq<Usage>, at: nat, n: nat)
    requires Core(s, x) && s.lo <= at && n > 0 && SameOutside(s.usage, usage', at - s.lo, n)
    requires forall p :: p in s.spans ==> p + s.spans[p] <= at || at + n <= p
    ensures forall p :: p in s.zones || p in s.parked || x == At(p) ==> ZoneIndexed(usage', s.lo, p, ZonePagesOf(s))
    ensures forall a :: a in s.live && s.live[a].Pages? ==> LargeIndexed(usage', s.lo, s.live[a].page, s.live[a].n)
  {
    hide ZonesRight, Listed, Accounted, IsFree, Canonical, InSpan, SpansApart;
    forall p | p in s.zones || p in s.parked || x == At(p) ensures ZoneIndexed(usage', s.lo, p, ZonePagesOf(s)) {
      assert p in s.spans && s.spans[p] == ZonePagesOf(s);
      assert ZoneIndexed(s.usage, s.lo, p, ZonePagesOf(s));
    }
    forall a | a in s.live && s.live[a].Pages? ensures LargeIndexed(usage', s.lo, s.live[a].page, s.live[a].n) {
      assert s.live[a].page in s.spans && s.spans[s.live[a].page] > 0;
    }
  }

  ghost predicate TakenPages(s: Slab, b: nat, n: nat, runs': seq<Run>) {
    n > 0 && Stretch(s.runs, b, n) && Taken(s.runs, b, n, runs')
  }

  lemma SpanIsNew(s: Slab, x: Ptr, b: nat, n: nat, runs': seq<Run>)
    requires Core(s, x) && TakenPages(s, b, n, runs')
    ensures s.lo <= b && b + n <= s.hi && b !in s.spans && b != s.lo
    ensures Owned(s.lo, s.hi, runs', s.spans[b := n])
    ensures forall p :: p in s.spans ==> p + s.spans[p] <= b || b + n <= p
  {
    hide Accounted, Indexed, ZonesRight, Listed, Stretch, Taken, IsFree, Canonical;
    StretchInHeap(s.lo, s.hi, s.runs, s.spans, b, n);
    SpanTaken(s.lo, s.hi, s.runs, s.spans, b, n, runs');
    forall p | p in s.spans ensures p + s.spans[p] <= b || b + n <= p {
      FreeStretchApart(s.lo, s.hi, s.runs, s.spans, b, n, p);
    }
  }

  function ZoneTaken(s: Slab, b: nat, runs': seq<Run>): Slab
    requires s.lo <= b
  {
    s.(runs := runs', spans := s.spans[b := ZonePagesOf(s)], usage := Marked(s.usage, b - s.lo, ZonePagesOf(s)))
  }

  lemma ZoneTakenPlaced(s: Slab, b: nat, runs': seq<Run>)
    requires Placed(s, Null) && s.lo <= b && b !in s.spans && b != s.lo
    ensures Placed(ZoneTaken(s, b, runs'), At(b))
  {
    hide Marked, NoRepeats;
  }

  lemma ZoneTakenAccounted(s: Slab, b: nat, runs': seq<Run>)
    requires Accounted(s, Null) && s.lo <= b
    ensures Accounted(ZoneTaken(s, b, runs'), At(b))
  {
    hide Marked;
  }

  lemma ZoneTakenKeeps(s: Slab, b: nat, runs': seq<Run>)
    requires Core(s, Null) && TakenPages(s, b, ZonePagesOf(s), runs')
    ensures s.lo <= b && b + ZonePagesOf(s) <= s.hi && Core(ZoneTaken(s, b, runs'), At(b))
  {
    hide ZonesRight, Listed, Owned, TakenPages, Placed, Accounted, ZoneIndexed, LargeIndexed, Marked, SameOutside;
    SpanIsNew(s, Null, b, ZonePagesOf(s), runs');
    IndexSize(s, Null);
    var s' := ZoneTaken(s, b, runs');
    MarkedRight(s.usage, s.lo, b, ZonePagesOf(s));
    IndexedElsewhere(s, Null, s'.usage, b, ZonePagesOf(s));
    ZoneTakenPlaced(s, b, runs');
    ZoneTakenAccounted(s, b, runs');
    SameZones(s, s');
  }

  lemma IndexSize(s: Slab, x: Ptr)
    requires Core(s, x)
    ensures |s.usage| == s.hi - s.lo && ZonePagesOf(s) > 0
  {
    hide ZonesRight, Listed, Owned, Placed, Accounted, ZoneIndexed, LargeIndexed;
  }

  lemma MarkedRight(usage: seq<Usage>, lo: nat, b: nat, zp: nat)
    requires lo <= b && b - lo + zp <= |usage|
    ensures ZoneIndexed(Marked(usage, b - lo, zp), lo, b, zp)
    ensures SameOutside(usage, Marked(usage, b - lo, zp), b - lo, zp) && |Marked(usage, b - lo, zp)| == |usage|
  {
  }

  lemma SameZones(s: Slab, s': Slab)
    requires ZonesRight(s) && s'.zones == s.zones && s'.live == s.live && s'.zoneSize == s.zoneSize
    ensures ZonesRight(s')
  {
    hide Shaped, ZoneOk;
  }

  // ---- large allocations ----

  function LargeTaken(s: Slab, b: nat, n: nat, runs': seq<Run>): Slab
    requires s.lo <= b < s.lo + |s.usage|
  {
    s.(runs := runs', spans := s.spans[b := n], usage := s.usage[b - s.lo := Usage(LargePage, n)],
       live := s.live[PAGE * b := Pages(b, n)])
  }

  lemma NewPageNotLive(s: Slab, b: nat)
    requires Core(s, Null) && b !in s.spans
    requires forall p :: p in s.spans ==> p + s.spans[p] <= b || b < p
    ensures PAGE * b !in s.live
  {
    hide Owned, Accounted, Indexed, ZonesRight, Listed, Placed;
    if PAGE * b in s.live {
      LiveInSpan(s, Null, PAGE * b);
      ExtentPositive(s, Null, PAGE * b);
    }
  }

  lemma LargeZones(s: Slab, live: Live, s': Slab)
    requires ZonesRight(s) && s'.zones == s.zones && s'.zoneSize == s.zoneSize && s'.live == live
    requires forall q, a :: Mine(s.live, q, a) <==> Mine(live, q, a)
    ensures ZonesRight(s')
  {
    hide ZoneOk, Shaped, Mine;
    forall q | q in s'.zones ensures Shaped(s'.zoneSize, q, s'.zones[q]) && ZoneOk(q, s'.zones[q], s'.live) {
      OthersDoNotMatter(q, s.zones[q], s.live, s'.live);
    }
  }

  lemma LargePlaced(s: Slab, b: nat, n: nat, runs': seq<Run>)
    requires Placed(s, Null) && s.lo <= b < s.lo + |s.usage| && b !in s.spans && b != s.lo && PAGE * b !in s.live
    ensures Placed(LargeTaken(s, b, n, runs'), Null)
  {
    hide NoRepeats;
  }

  lemma LargeAccounted(s: Slab, b: nat, n: nat, runs': seq<Run>)
    requires Accounted(s, Null) && s.lo <= b < s.lo + |s.usage|
    ensures Accounted(LargeTaken(s, b, n, runs'), Null)
  {
  }

  lemma LargeTakenIndexed(s: Slab, b: nat, n: nat, runs': seq<Run>)
    requires Core(s, Null) && s.lo <= b < s.lo + |s.usage| && n > 0 && PAGE * b !in s.live
    requires forall p :: p in s.spans ==> p + s.spans[p] <= b || b + n <= p
    ensures Indexed(LargeTaken(s, b, n, runs'), Null)
  {
    hide Owned, Accounted, ZonesRight, Listed, Placed, ZoneIndexed;
    var usage' := s.usage[b - s.lo := Usage(LargePage, n)];
    assert SameOutside(s.usage, usage', b - s.lo, n);
    IndexedElsewhere(s, Null, usage', b, n);
    assert LargeIndexed(usage', s.lo, b, n);
    hide LargeIndexed, SameOutside;
  }

  lemma LargeTakenKeeps(s: Slab, b: nat, n: nat, runs': seq<Run>)
    requires Core(s, Null) && TakenPages(s, b, n, runs')
    ensures s.lo <= b < s.lo + |s.usage| && PAGE * b !in s.live
    ensures Core(LargeTaken(s, b, n, runs'), Null)
  {
    hide Owned, Placed, Accounted, Indexed, ZonesRight, Listed, TakenPages;
    SpanIsNew(s, Null, b, n, runs');
    PositivePages(s, b, n, runs');
    IndexSize(s, Null);
    NewPageNotLive(s, b);
    LargePlaced(s, b, n, runs');
    LargeAccounted(s, b, n, runs');
    LargeTakenIndexed(s, b, n, runs');
    LargeZones(s, s.live[PAGE * b := Pages(b, n)], LargeTaken(s, b, n, runs'));
  }

  lemma PositivePages(s: Slab, b: nat, n: nat, runs': seq<Run>)
    requires TakenPages(s, b, n, runs')
    ensures n > 0 && Taken(s.runs, b, n, runs')
  {
  }

  // What the release of a span needs: none of its pages is free yet.
  ghost predicate FreedPages(s: Slab, b: nat, runs': seq<Run>) {
    b in s.spans && Freed(s.runs, b, s.spans[b], runs')
  }

  function LargeFreed(s: Slab, b: nat, runs': seq<Run>): Slab
    requires s.lo <= b < s.lo + |s.usage|
  {
    s.(runs := runs', spans := s.spans - {b}, usage := s.usage[b - s.lo := s.usage[b - s.lo].(size := 0)],
       live := s.live - {PAGE * b})
  }

  lemma LargeFreedPlaced(s: Slab, b: nat, runs': seq<Run>)
    requires Placed(s, Null) && s.lo <= b < s.lo + |s.usage| && PAGE * b in s.live && s.live[PAGE * b].Pages? &&
             s.live[PAGE * b].page == b
    ensures Placed(LargeFreed(s, b, runs'), Null)
  {
    hide NoRepeats;
  }

  lemma LargeFreedIndexed(s: Slab, b: nat, runs': seq<Run>)
    requires Core(s, Null) && s.lo <= b < s.lo + |s.usage| && PAGE * b in s.live && s.live[PAGE * b].Pages? &&
             s.live[PAGE * b].page == b
    ensures Indexed(LargeFreed(s, b, runs'), Null)
  {
    hide Owned, Accounted, ZonesRight, Listed, NoRepeats;
    var s' := LargeFreed(s, b, runs');
    forall p | p in s'.zones || p in s'.parked ensures ZoneIndexed(s'.usage, s.lo, p, ZonePagesOf(s)) {
      SpansOrdered(s, Null, p, b);
      assert ZoneIndexed(s.usage, s.lo, p, ZonePagesOf(s));
    }
    forall a | a in s'.live && s'.live[a].Pages? ensures LargeIndexed(s'.usage, s.lo, s'.live[a].page, s'.live[a].n) {
      assert LargeIndexed(s.usage, s.lo, s.live[a].page, s.live[a].n);
    }
  }

  lemma LargeFreedAccounted(s: Slab, b: nat, runs': seq<Run>)
    requires Accounted(s, Null) && s.lo <= b < s.lo + |s.usage|
    ensures Accounted(LargeFreed(s, b, runs'), Null)
  {
  }

  lemma LargeFreedKeeps(s: Slab, b: nat, runs': seq<Run>)
    requires Core(s, Null) && PAGE * b in s.live && s.live[PAGE * b].Pages? && s.live[PAGE * b].page == b &&
             FreedPages(s, b, runs')
    ensures s.lo <= b < s.lo + |s.usage| && Core(LargeFreed(s, b, runs'), Null)
  {
    hide Placed, Accounted, Indexed, ZonesRight, Listed, IsFree, Canonical, InSpan, Freed;
    IndexSize(s, Null);
    SpanFreed(s.lo, s.hi, s.runs, s.spans, b, runs');
    LargeFreedPlaced(s, b, runs');
    LargeFreedAccounted(s, b, runs');
    LargeFreedIndexed(s, b, runs');
    LargeZones(s, s.live - {PAGE * b}, LargeFreed(s, b, runs'));
    hide Owned;
  }

  // ---- giving a chunk back ----

  // zone_array with a zone that has just got its first free chunk.
  function Relisted(classes: seq<seq<nat>>, p: nat, z: Zone): seq<seq<nat>>
    requires z.zi < |classes|
  {
    if z.nfree == 1 then classes[z.zi := [p] + classes[z.zi]] else classes
  }

  function GivenBack(s: Slab, p: nat, a: nat): Slab
    requires p in s.zones && s.zones[p].zi < |s.classes|
  {
    var z := Pushed(s.zones[p], a);
    Changed(s, p, z, Relisted(s.classes, p, z), s.live - {a})
  }

  lemma BackPlaced(s: Slab, p: nat, z: Zone, a: nat, classes: seq<seq<nat>>)
    requires Placed(s, Null) && p in s.zones
    ensures Placed(Changed(s, p, z, classes, s.live - {a}), Null)
  {
    hide NoRepeats;
  }

  lemma BackIndexed(s: Slab, p: nat, z: Zone, a: nat, classes: seq<seq<nat>>)
    requires Indexed(s, Null) && Accounted(s, Null) && p in s.zones && Mine(s.live, p, a)
    ensures Indexed(Changed(s, p, z, classes, s.live - {a}), Null)
    ensures Accounted(Changed(s, p, z, classes, s.live - {a}), Null)
  {
    hide ZoneIndexed, LargeIndexed;
  }

  lemma ListedBack(zones: Zones, classes: seq<seq<nat>>, p: nat, z: Zone)
    requires Listed(zones, classes) && p in zones && z.zi == zones[p].zi && z.zi < CLASSES &&
             z.nfree == zones[p].nfree + 1
    ensures Listed(zones[p := z], Relisted(classes, p, z))
  {
    var l := classes[z.zi];
    assert z.nfree == 1 ==> p !in l;
    assert forall q :: q in [p] + l <==> q == p || q in l;
  }

  lemma OneWholeBack(zones: Zones, classes: seq<seq<nat>>, p: nat, z: Zone)
    requires OneWhole(zones, classes, Null) && z.zi < |classes|
    ensures OneWhole(zones[p := z], Relisted(classes, p, z), At(p))
  {
    var zones', classes' := zones[p := z], Relisted(classes, p, z);
    forall c, q | 0 <= c < |classes'| && WholeOn(zones', classes'[c], q, At(p))
      ensures WholeOn(zones, classes[c], q, Null) {
      assert q != p && q in classes[c];
    }
  }

  lemma BackZone(s: Slab, p: nat, a: nat)
    requires Core(s, Null) && Mine(s.live, p, a)
    ensures p in s.zones && ZoneOk(p, Pushed(s.zones[p], a), s.live - {a}) &&
            Shaped(s.zoneSize, p, Pushed(s.zones[p], a))
    ensures s.zones[p].zi < |s.classes| == CLASSES && s.zones[p].nfree < s.zones[p].nmax
  {
    hide Owned, Accounted, Indexed, NoRepeats, Off, OfClass;
    GiveBack(p, s.zones[p], s.live, a);
    NotWhole(p, s.zones[p], s.live, a);
  }

  lemma OthersSame(live: Live, p: nat, a: nat)
    requires Mine(live, p, a)
    ensures forall q, b :: q != p ==> (Mine(live, q, b) <==> Mine(live - {a}, q, b))
  {
  }

  lemma GivenBackKeeps(s: Slab, p: nat, a: nat)
    requires Core(s, Null) && OneWhole(s.zones, s.classes, Null) && Mine(s.live, p, a)
    ensures p in s.zones && s.zones[p].zi < |s.classes|
    ensures Core(GivenBack(s, p, a), Null) && OneWhole(GivenBack(s, p, a).zones, GivenBack(s, p, a).classes, At(p))
  {
    hide ZoneOk, Shaped, Listed, Owned, Placed, Accounted, Indexed, ZonesRight, OneWhole, Relisted, Mine;
    BackZone(s, p, a);
    OthersSame(s.live, p, a);
    var z := Pushed(s.zones[p], a);
    var classes := Relisted(s.classes, p, z);
    ServedZones(s, p, z, classes, s.live - {a});
    BackPlaced(s, p, z, a, classes);
    BackIndexed(s, p, z, a, classes);
    ListedBack(s.zones, s.classes, p, z);
    OneWholeBack(s.zones, s.classes, p, z);
  }

  // A zone that stays is not the second wholly free one of its class.
  lemma MayStay(s: Slab, p: nat)
    requires Core(s, Null) && OneWhole(s.zones, s.classes, At(p)) && p in s.zones
    requires s.zones[p].nfree != s.zones[p].nmax || s.classes[s.zones[p].zi] == [p]
    ensures OneWhole(s.zones, s.classes, Null)
  {
    hide Owned, Placed, Accounted, Indexed, ZonesRight, NoRepeats;
    forall c, q, r | 0 <= c < |s.classes| &&
                     WholeOn(s.zones, s.classes[c], q, Null) && WholeOn(s.zones, s.classes[c], r, Null)
      ensures q == r
    {
      assert s.zones[q].zi == c && s.zones[r].zi == c;
      if q != p && r != p {
        assert WholeOn(s.zones, s.classes[c], q, At(p)) && WholeOn(s.zones, s.classes[c], r, At(p));
      }
    }
  }

  // ---- taking a wholly free zone out of service ----

  function Retired(s: Slab, p: nat): Slab
    requires p in s.zones && s.zones[p].zi < |s.classes|
  {
    var zi := s.zones[p].zi;
    s.(zones := s.zones - {p}, classes := s.classes[zi := Without(s.classes[zi], p)])
  }

  lemma ListedRetired(zones: Zones, classes: seq<seq<nat>>, p: nat)
    requires Listed(zones, classes) && p in zones
    ensures zones[p].zi < |classes|
    ensures Listed(zones - {p}, classes[zones[p].zi := Without(classes[zones[p].zi], p)])
  {
    WithoutMembers(classes[zones[p].zi], p);
    hide Without;
  }

  lemma OneWholeRetired(zones: Zones, classes: seq<seq<nat>>, p: nat)
    requires Listed(zones, classes) && OneWhole(zones, classes, At(p)) && p in zones && zones[p].zi < |classes|
    ensures OneWhole(zones - {p}, classes[zones[p].zi := Without(classes[zones[p].zi], p)], Null)
  {
    WithoutMembers(classes[zones[p].zi], p);
    hide Without, NoRepeats;
    var zones', classes' := zones - {p}, classes[zones[p].zi := Without(classes[zones[p].zi], p)];
    forall c, q | 0 <= c < |classes'| && WholeOn(zones', classes'[c], q, Null)
      ensures WholeOn(zones, classes[c], q, At(p)) {
    }
  }

  lemma RetiredPlaced(s: Slab, p: nat)
    requires Placed(s, Null) && p in s.zones && s.zones[p].zi < |s.classes| && forall a :: !Mine(s.live, p, a)
    ensures Placed(Retired(s, p), At(p))
  {
    hide NoRepeats, Without;
    forall a | a in s.live && s.live[a].Chunk? ensures s.live[a].zone in s.zones - {p} { assert !Mine(s.live, p, a); }
  }

  lemma RetiredIndexed(s: Slab, p: nat)
    requires Indexed(s, Null) && Accounted(s, Null) && p in s.zones && s.zones[p].zi < |s.classes|
    ensures Indexed(Retired(s, p), At(p)) && Accounted(Retired(s, p), At(p))
  {
    hide ZoneIndexed, LargeIndexed, Without;
  }

  lemma RetiredZones(s: Slab, p: nat)
    requires ZonesRight(s) && p in s.zones && s.zones[p].zi < |s.classes|
    ensures ZonesRight(Retired(s, p))
  {
    hide ZoneOk, Shaped, Without;
  }

  lemma WholeIsEmpty(s: Slab, p: nat)
    requires ZonesRight(s) && p in s.zones && s.zones[p].nfree == s.zones[p].nmax
    ensures forall a :: !Mine(s.live, p, a)
  {
    WholeMeansNone(p, s.zones[p], s.live);
  }

  lemma RetiredKeeps(s: Slab, p: nat)
    requires Core(s, Null) && OneWhole(s.zones, s.classes, At(p)) && IsWhole(s.zones, p)
    ensures s.zones[p].zi < |s.classes|
    ensures Core(Retired(s, p), At(p)) && OneWhole(Retired(s, p).zones, Retired(s, p).classes, Null)
  {
    hide Listed, Owned, Placed, Accounted, Indexed, ZonesRight, OneWhole, Without;
    WholeIsEmpty(s, p);
    ListedRetired(s.zones, s.classes, p);
    OneWholeRetired(s.zones, s.classes, p);
    RetiredPlaced(s, p);
    RetiredIndexed(s, p);
    RetiredZones(s, p);
  }

  // ---- giving a zone's pages back ----

  function Released(s: Slab, p: nat, runs': seq<Run>): Slab
    requires s.lo <= p
  {
    s.(runs := runs', spans := s.spans - {p}, usage := Cleared(s.usage, p - s.lo, ZonePagesOf(s)))
  }

  lemma ReleasedPlaced(s: Slab, p: nat, runs': seq<Run>)
    requires Placed(s, At(p)) && s.lo <= p
    ensures Placed(Released(s, p, runs'), Null)
  {
    hide NoRepeats, Cleared;
  }

  lemma ReleasedAccounted(s: Slab, p: nat, runs': seq<Run>)
    requires Accounted(s, At(p)) && s.lo <= p
    ensures Accounted(Released(s, p, runs'), Null)
  {
    hide Cleared;
  }

  lemma ReleasedIndexed(s: Slab, p: nat, runs': seq<Run>)
    requires Core(s, At(p)) && s.lo <= p
    ensures Indexed(Released(s, p, runs'), Null)
  {
    hide Owned, Accounted, ZonesRight, Listed, NoRepeats;
    var s' := Released(s, p, runs');
    forall q | q in s'.zones || q in s'.parked ensures ZoneIndexed(s'.usage, s.lo, q, ZonePagesOf(s)) {
      SpansOrdered(s, At(p), q, p);
      assert ZoneIndexed(s.usage, s.lo, q, ZonePagesOf(s));
    }
    forall a | a in s'.live && s'.live[a].Pages? ensures LargeIndexed(s'.usage, s.lo, s'.live[a].page, s'.live[a].n) {
      SpansOrdered(s, At(p), s.live[a].page, p);
      LargeSpanPositive(s, At(p), a);
      assert LargeIndexed(s.usage, s.lo, s.live[a].page, s.live[a].n);
    }
  }

  lemma LargeSpanPositive(s: Slab, x: Ptr, a: nat)
    requires Core(s, x) && a in s.live && s.live[a].Pages?
    ensures s.live[a].page in s.spans && s.spans[s.live[a].page] > 0
  {
    hide Accounted, Indexed, ZonesRight, Listed, IsFree, Canonical, InSpan, SpansApart;
  }

  lemma ReleasedKeeps(s: Slab, p: nat, runs': seq<Run>)
    requires Core(s, At(p)) && FreedPages(s, p, runs')
    ensures s.lo <= p && Core(Released(s, p, runs'), Null)
  {
    hide Placed, Accounted, Indexed, ZonesRight, Listed, IsFree, Canonical, InSpan, Freed;
    SpanFreed(s.lo, s.hi, s.runs, s.spans, p, runs');
    ReleasedPlaced(s, p, runs');
    ReleasedAccounted(s, p, runs');
    ReleasedIndexed(s, p, runs');
    SameZones(s, Released(s, p, runs'));
    hide Owned;
  }
}
