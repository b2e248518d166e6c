// One zone of the slab allocator: chunks of one size, handed out first from the part
// never used before and then from a list of chunks given back.
module ZoneChunks {
  import opened Lists
  import opened SizeClasses

  datatype Zone = Zone(
    zi: nat,                 // z_zoneindex
    chunk: nat,              // z_chunksize
    base: nat,               // z_baseptr
    nmax: nat,               // z_nmax
    nfree: nat,              // z_nfree
    uindex: nat,             // z_uindex
    free: seq<nat>)          // the chunks on z_freechunk, first one first

  // Where a pointer handed out came from: a zone, named by its first page, or a run of
  // whole pages.
  datatype Piece = Chunk(zone: nat) | Pages(page: nat, n: nat)

  type Live = map<nat, Piece>

  function Times(k: nat, c: nat): nat { k * c }

  function Addr(z: Zone, k: nat): nat { z.base + Times(k, z.chunk) }

  // Which chunk an address is the beginning of.
  function Index(z: Zone, a: nat): nat {
    if a < z.base || z.chunk == 0 then 0 else Whole(a - z.base, z.chunk)
  }

  // a is the beginning of a chunk that has been handed out at some time.
  ghost predicate Issued(z: Zone, a: nat) {
    Index(z, a) <= z.uindex && a == Addr(z, Index(z, a))
  }

  ghost predicate Mine(live: Live, p: nat, a: nat) {
    a in live && live[a] == Chunk(p)
  }

  // The counter is right, and every chunk handed out before is either on the free list
  // or live, never both.
  ghost predicate ZoneOk(p: nat, z: Zone, live: Live) {
    && z.uindex < z.nmax && z.chunk > 0
    && z.nfree == z.nmax - 1 - z.uindex + |z.free|
    && NoRepeats(z.free)
    && (forall a :: a in z.free ==> Issued(z, a) && !Mine(live, p, a))
    && (forall a :: a in live && live[a] == Chunk(p) ==> Issued(z, a))
    && (forall k :: 0 <= k <= z.uindex ==> Addr(z, k) in z.free || Mine(live, p, Addr(z, k)))
  }

  lemma IndexOfAddr(z: Zone, k: nat)
    requires z.chunk > 0
    ensures Index(z, Addr(z, k)) == k
  {
    var q := Times(k, z.chunk) / z.chunk;
    DivBounds(Times(k, z.chunk), z.chunk);
    assert Times(k, z.chunk) - q * z.chunk == (k - q) * z.chunk;
    Product(k - q, z.chunk);
  }

  lemma IssuedUpTo(z: Zone, k: nat)
    requires z.chunk > 0
    ensures Issued(z, Addr(z, k)) <==> k <= z.uindex
  {
    IndexOfAddr(z, k);
  }

  lemma IssuedLater(z: Zone, z': Zone, a: nat)
    requires Issued(z, a) && z'.base == z.base && z'.chunk == z.chunk && z'.uindex >= z.uindex
    ensures Issued(z', a)
  {
  }

  // A zone cares only about its own chunks.
  lemma OthersDoNotMatter(p: nat, z: Zone, live: Live, live': Live)
    requires ZoneOk(p, z, live) && forall a :: Mine(live, p, a) <==> Mine(live', p, a)
    ensures ZoneOk(p, z, live')
  {
    hide Issued, NoRepeats, Addr;
    forall a | a in live' && live'[a] == Chunk(p) ensures Issued(z, a) { assert Mine(live, p, a); }
  }

  function Fresh(z: Zone): Zone
    requires z.nfree > 0
  {
    z.(nfree := z.nfree - 1, uindex := z.uindex + 1)
  }

  // The next chunk never used before.
  lemma TakeFresh(p: nat, z: Zone, live: Live)
    requires ZoneOk(p, z, live) && z.uindex + 1 < z.nmax
    ensures z.nfree > 0 && !Mine(live, p, Addr(z, z.uindex + 1))
    ensures ZoneOk(p, Fresh(z), live[Addr(z, z.uindex + 1) := Chunk(p)])
  {
    var a := Addr(z, z.uindex + 1);
    var z', live' := Fresh(z), live[a := Chunk(p)];
    IssuedUpTo(z, z.uindex + 1);
    IssuedUpTo(z', z.uindex + 1);
    hide Issued, NoRepeats, Times;
    forall b | b in z'.free ensures Issued(z', b) && !Mine(live', p, b) { IssuedLater(z, z', b); }
    forall b | b in live' && live'[b] == Chunk(p) ensures Issued(z', b) {
      if b != a { IssuedLater(z, z', b); }
    }
    forall k | 0 <= k <= z'.uindex ensures Addr(z', k) in z'.free || Mine(live', p, Addr(z', k)) {
      assert Addr(z', k) == Addr(z, k);
    }
  }

  function Popped(z: Zone): Zone
    requires z.nfree > 0 && z.free != []
  {
    z.(nfree := z.nfree - 1, free := z.free[1..])
  }

  // No chunk is left that was never used: the free list has one, and it is taken.
  lemma TakeFreed(p: nat, z: Zone, live: Live)
    requires ZoneOk(p, z, live) && z.uindex + 1 >= z.nmax && z.nfree > 0
    ensures z.free != [] && !Mine(live, p, z.free[0])
    ensures ZoneOk(p, Popped(z), live[z.free[0] := Chunk(p)])
  {
    var a := z.free[0];
    assert z.free == [a] + z.free[1..];
    assert a in z.free && a !in z.free[1..];
    hide Issued, Addr;
    var z', live' := Popped(z), live[a := Chunk(p)];
    forall b | b in z'.free ensures Issued(z', b) && !Mine(live', p, b) { IssuedLater(z, z', b); }
    forall b | b in live' && live'[b] == Chunk(p) ensures Issued(z', b) { IssuedLater(z, z', b); }
    forall k | 0 <= k <= z'.uindex ensures Addr(z', k) in z'.free || Mine(live', p, Addr(z', k)) {
      SameAddr(z, z', k);
    }
  }

  lemma SameAddr(z: Zone, z': Zone, k: nat)
    requires z'.base == z.base && z'.chunk == z.chunk
    ensures Addr(z', k) == Addr(z, k)
  {
  }

  function Pushed(z: Zone, a: nat): Zone {
    z.(nfree := z.nfree + 1, free := [a] + z.free)
  }

  lemma GiveBack(p: nat, z: Zone, live: Live, a: nat)
    requires ZoneOk(p, z, live) && Mine(live, p, a)
    ensures ZoneOk(p, Pushed(z, a), live - {a})
  {
    var z', live' := Pushed(z, a), live - {a};
    assert a !in z.free && forall b :: b in z'.free <==> b in z.free || b == a;
    assert NoRepeats(z'.free);
    hide Issued, Addr, NoRepeats;
    forall b | b in z'.free ensures Issued(z', b) && !Mine(live', p, b) { IssuedLater(z, z', b); }
    forall b | b in live' && live'[b] == Chunk(p) ensures Issued(z', b) { IssuedLater(z, z', b); }
    forall k | 0 <= k <= z'.uindex ensures Addr(z', k) in z'.free || Mine(live', p, Addr(z', k)) {
      SameAddr(z, z', k);
    }
  }

  lemma NewZone(p: nat, z: Zone, live: Live)
    requires z.chunk > 0 && z.nmax > 0 && z.nfree == z.nmax - 1 && z.uindex == 0 && z.free == []
    requires forall a :: !Mine(live, p, a)
    ensures ZoneOk(p, z, live[Addr(z, 0) := Chunk(p)])
  {
    IssuedUpTo(z, 0);
    var live' := live[Addr(z, 0) := Chunk(p)];
    forall b | b in live' && live'[b] == Chunk(p) ensures Issued(z, b) {
      assert b == Addr(z, 0) || Mine(live, p, b);
    }
  }

  function Indices(z: Zone): seq<nat> {
    seq(|z.free|, i requires 0 <= i < |z.free| => Index(z, z.free[i]))
  }

  lemma IndicesDistinct(p: nat, z: Zone, live: Live)
    requires ZoneOk(p, z, live)
    ensures NoRepeats(Indices(z)) && forall i :: 0 <= i < |Indices(z)| ==> Indices(z)[i] < z.uindex + 1
  {
    hide Index, Addr;
    var q := Indices(z);
    forall i | 0 <= i < |q| ensures q[i] < z.uindex + 1 && z.free[i] == Addr(z, q[i]) { assert z.free[i] in z.free; }
  }

  lemma AllListed(p: nat, z: Zone, live: Live, a: nat)
    requires ZoneOk(p, z, live) && z.nfree == z.nmax && Issued(z, a)
    ensures a in z.free
  {
    IndicesDistinct(p, z, live);
    DistinctCover(Indices(z), z.uindex + 1, Index(z, a));
    var i :| 0 <= i < |Indices(z)| && Indices(z)[i] == Index(z, a);
    hide Index, Addr;
    assert z.free[i] in z.free && z.free[i] == a;
  }

  // A zone whose chunks are all free has no live chunk.
  lemma AllFree(p: nat, z: Zone, live: Live, a: nat)
    requires ZoneOk(p, z, live) && z.nfree == z.nmax
    ensures !Mine(live, p, a)
  {
    if Issued(z, a) { AllListed(p, z, live, a); }
    hide Issued;
  }

  lemma FreeWithinMax(p: nat, z: Zone, live: Live)
    requires ZoneOk(p, z, live)
    ensures z.nfree <= z.nmax
  {
    IndicesDistinct(p, z, live);
    DistinctFit(Indices(z), z.uindex + 1);
  }

  // A live chunk means the zone is not wholly free.
  lemma NotWhole(p: nat, z: Zone, live: Live, a: nat)
    requires ZoneOk(p, z, live) && Mine(live, p, a)
    ensures z.nfree < z.nmax
  {
    FreeWithinMax(p, z, live);
    WholeMeansNone(p, z, live);
    hide ZoneOk;
  }

  lemma WholeMeansNone(p: nat, z: Zone, live: Live)
    requires ZoneOk(p, z, live)
    ensures z.nfree == z.nmax ==> forall a :: !Mine(live, p, a)
  {
    hide Issued;
    if z.nfree == z.nmax {
      forall a ensures !Mine(live, p, a) { AllFree(p, z, live, a); }
    }
  }

  // ---- where chunks lie ----

  // The header, then the chunks, all within the zone's pages.
  ghost predicate Shaped(zoneSize: nat, p: nat, z: Zone) {
    && z.chunk >= 8 && z.nmax >= 3 && z.zi < CLASSES && OfClass(z.zi, z.chunk)
    && PAGE * p + HEADER <= z.base && z.base == PAGE * p + Off(z.chunk)
    && z.base + Times(z.nmax, z.chunk) <= PAGE * p + zoneSize
  }

  ghost predicate OfClass(zi: nat, c: nat) {
    exists n: nat :: 1 <= n < 16384 && ClassIndex(n) == zi && ChunkSize(n) == c
  }

  lemma ClassHasOneSize(zi: nat, n: nat, c: nat)
    requires OfClass(zi, c) && 1 <= n < 16384 && ClassIndex(n) == zi
    ensures ChunkSize(n) == c
  {
    hide ClassIndex, ChunkSize;
    var m: nat :| 1 <= m < 16384 && ClassIndex(m) == zi && ChunkSize(m) == c;
    ClassesMonotone(n, m);
    ClassesMonotone(m, n);
  }

  lemma SizeHasOneClass(zi: nat, n: nat, c: nat)
    requires OfClass(zi, c) && 1 <= n < 16384 && ChunkSize(n) == c
    ensures ClassIndex(n) == zi
  {
    hide ClassIndex, ChunkSize;
    var m: nat :| 1 <= m < 16384 && ClassIndex(m) == zi && ChunkSize(m) == c;
    ClassesMonotone(n, m);
    ClassesMonotone(m, n);
  }

  lemma ChunkInside(zoneSize: nat, p: nat, z: Zone, a: nat)
    requires Shaped(zoneSize, p, z) && Issued(z, a) && z.uindex < z.nmax
    ensures PAGE * p + HEADER <= a && a + z.chunk <= PAGE * p + zoneSize
  {
    hide Off, OfClass, Index;
    var k := Index(z, a);
    var rest := z.nmax - k;
    assert Times(z.nmax, z.chunk) == Times(k, z.chunk) + rest * z.chunk;
    Product(rest, z.chunk);
  }

  // Two chunks of a zone do not overlap.
  lemma ChunksApart(z: Zone, a: nat, b: nat)
    requires Issued(z, a) && Issued(z, b) && a < b
    ensures a + z.chunk <= b
  {
    hide Index;
    var i, j := Index(z, a), Index(z, b);
    assert Times(j, z.chunk) - Times(i, z.chunk) == (j - i) * z.chunk;
    if z.chunk > 0 { Product(j - i, z.chunk); }
  }
}
