// The memory heap: every item sits on a ring in address order, every free item also
// on a ring of free items, with running byte accounts.
module MemHeap {
  import opened Words
  import opened Lists
  import opened KernelList
  import opened HeapBlocks
  import opened HeapData

  const HDR: nat := 24   // RT_MEMHEAP_SIZE

  // A node of the free ring: the header inside the heap object, or an item.
  datatype Node = Header | Item(at: nat)

  // ---- the two rings ----

  // Item starts in address order, ending with the tail item.
  function Starts(bs: seq<Block>, top: nat): seq<nat> {
    seq(|bs| + 1, i requires 0 <= i <= |bs| => if i < |bs| then bs[i].at else top)
  }

  function FreeNodes(ring: seq<nat>): seq<Node> {
    seq(|ring| + 1, i requires 0 <= i <= |ring| => if i == 0 then Header else Item(ring[i - 1]))
  }

  ghost predicate FreeAt(bs: seq<Block>, a: nat) {
    exists i :: 0 <= i < |bs| && bs[i].at == a && !bs[i].used
  }

  // An item is on the free ring exactly when its USED bit is clear.
  ghost predicate RingMatches(bs: seq<Block>, ring: seq<nat>) {
    forall a: nat :: a in ring <==> FreeAt(bs, a)
  }

  ghost predicate Flags(used: map<nat, bool>, bs: seq<Block>, top: nat) {
    && top in used && used[top]
    && forall i :: 0 <= i < |bs| ==> bs[i].at in used && used[bs[i].at] == bs[i].used
  }

  // ---- byte accounts ----

  ghost function FreeData(bs: seq<Block>, h: nat): int {
    if bs == [] then 0 else (if bs[0].used then 0 else bs[0].end - bs[0].at - h) + FreeData(bs[1..], h)
  }

  ghost function UsedData(bs: seq<Block>, h: nat): int {
    if bs == [] then 0 else (if bs[0].used then bs[0].end - bs[0].at - h else 0) + UsedData(bs[1..], h)
  }

  // Conservation: free bytes, used bytes and one header per item make up the pool.
  lemma {:induction false} BytesConserved(bs: seq<Block>, h: nat, lo: nat, hi: nat)
    requires Tiles(bs, h, lo, hi)
    ensures FreeData(bs, h) + UsedData(bs, h) + |bs| * h == hi - lo
    ensures FreeData(bs, h) >= 0 && UsedData(bs, h) >= 0
  {
    if bs != [] {
      TilesTail(bs, h, lo, hi);
      BytesConserved(bs[1..], h, bs[0].end, hi);
      assert |bs| * h == h + (|bs| - 1) * h;
    }
  }

  lemma {:induction false} FreeDataConcat(a: seq<Block>, b: seq<Block>, h: nat)
    ensures FreeData(a + b, h) == FreeData(a, h) + FreeData(b, h)
  {
    if a == [] {
      assert a + b == b;
    } else {
      assert (a + b)[1..] == a[1..] + b;
      FreeDataConcat(a[1..], b, h);
    }
  }

  lemma FreeDataSplice(bs: seq<Block>, i: nat, j: nat, mid: seq<Block>, h: nat)
    requires i <= j <= |bs|
    ensures FreeData(bs[..i] + mid + bs[j..], h) == FreeData(bs, h) - FreeData(bs[i..j], h) + FreeData(mid, h)
  {
    FreeDataConcat(bs[..i] + mid, bs[j..], h);
    FreeDataConcat(bs[..i], mid, h);
    assert bs == bs[..i] + bs[i..j] + bs[j..];
    FreeDataConcat(bs[..i] + bs[i..j], bs[j..], h);
    FreeDataConcat(bs[..i], bs[i..j], h);
  }

  lemma FreeDataOne(b: Block, h: nat)
    ensures FreeData([b], h) == if b.used then 0 else b.end - b.at - h
  {
  }

  lemma FreeDataTwo(b: Block, c: Block, h: nat)
    ensures FreeData([b, c], h) == FreeData([b], h) + FreeData([c], h)
  {
    assert [b, c] == [b] + [c];
    FreeDataConcat([b], [c], h);
  }

  // One free block's data is part of the total.
  lemma FreeDataAtLeast(bs: seq<Block>, h: nat, top: nat, i: nat)
    requires Layout(bs, h, top) && i < |bs| && !bs[i].used
    ensures bs[i].end - bs[i].at - h <= FreeData(bs, h)
  {
    forall k | 0 <= k < |bs| ensures bs[k].at + h <= bs[k].end { BlockBounds(bs, h, top, k); }
    FreeDataParts(bs, h, i);
    hide Layout, FreeData;
    FreeDataNonneg(bs[..i], h);
    FreeDataNonneg(bs[i + 1..], h);
    FreeDataOne(bs[i], h);
  }

  lemma FreeDataParts(bs: seq<Block>, h: nat, i: nat)
    requires i < |bs|
    ensures FreeData(bs, h) == FreeData(bs[..i], h) + FreeData([bs[i]], h) + FreeData(bs[i + 1..], h)
  {
    hide FreeData;
    assert bs == bs[..i] + ([bs[i]] + bs[i + 1..]);
    FreeDataConcat(bs[..i], [bs[i]] + bs[i + 1..], h);
    FreeDataConcat([bs[i]], bs[i + 1..], h);
  }

  lemma {:induction false} FreeDataNonneg(bs: seq<Block>, h: nat)
    requires forall i :: 0 <= i < |bs| ==> bs[i].at + h <= bs[i].end
    ensures FreeData(bs, h) >= 0
  {
    if bs != [] { FreeDataNonneg(bs[1..], h); }
  }

  // ---- free items of a spliced tiling ----

  lemma SpliceFreeAt(bs: seq<Block>, h: nat, top: nat, i: nat, j: nat, mid: seq<Block>, a: nat)
    requires Layout(bs, h, top) && i <= j <= |bs|
    ensures FreeAt(bs[..i] + mid + bs[j..], a) <==> FreeAt(mid, a) || (FreeAt(bs, a) && !FreeAt(bs[i..j], a))
  {
    hide Layout, FreeAt, Spliced;
    SpliceIs(bs, i, j, mid);
    FreeAfterSplice(bs, h, top, i, j, mid, bs[..i] + mid + bs[j..], a);
    FreeKeptBySplice(bs, i, j, mid, bs[..i] + mid + bs[j..], a);
  }

  lemma FreeAfterSplice(bs: seq<Block>, h: nat, top: nat, i: nat, j: nat, mid: seq<Block>, bs': seq<Block>, a: nat)
    requires Layout(bs, h, top) && i <= j <= |bs| && Spliced(bs, i, j, mid, bs')
    ensures FreeAt(bs', a) ==> FreeAt(mid, a) || (FreeAt(bs, a) && !FreeAt(bs[i..j], a))
  {
    hide Layout;
    if k :| 0 <= k < |bs'| && bs'[k].at == a && !bs'[k].used {
      if k < i || k >= i + |mid| {
        OutsideSpan(bs, h, top, i, j, if k < i then k else k - i - |mid| + j);
      } else {
        assert mid[k - i].at == a;
      }
    }
  }

  lemma FreeKeptBySplice(bs: seq<Block>, i: nat, j: nat, mid: seq<Block>, bs': seq<Block>, a: nat)
    requires i <= j <= |bs| && Spliced(bs, i, j, mid, bs')
    ensures FreeAt(mid, a) || (FreeAt(bs, a) && !FreeAt(bs[i..j], a)) ==> FreeAt(bs', a)
  {
    if k :| 0 <= k < |mid| && mid[k].at == a && !mid[k].used {
      assert bs'[i + k] == mid[k];
    }
    if k :| 0 <= k < |bs| && bs[k].at == a && !bs[k].used {
      if k < i { assert bs'[k] == bs[k]; }
      else if k >= j { assert bs'[k - j + i + |mid|] == bs[k]; }
      else { assert bs[i..j][k - i] == bs[k]; }
    }
  }

  lemma OutsideSpan(bs: seq<Block>, h: nat, top: nat, i: nat, j: nat, k: nat)
    requires Layout(bs, h, top) && i <= j <= |bs| && k < |bs| && !(i <= k < j)
    ensures !FreeAt(bs[i..j], bs[k].at)
    ensures !bs[k].used ==> FreeAt(bs, bs[k].at)
  {
    forall m | 0 <= m < |bs[i..j]| ensures bs[i..j][m].at != bs[k].at {
      BlocksOrdered(bs, h, top, i + m, k);
      BlocksOrdered(bs, h, top, k, i + m);
    }
  }

  // ---- starts of a spliced tiling ----

  lemma StartsInsert(bs: seq<Block>, top: nat, i: nat, x: Block, y: Block)
    requires i < |bs| && x.at == bs[i].at
    ensures Starts(bs[..i] + [x, y] + bs[i + 1..], top) == InsertAt(Starts(bs, top), i + 1, y.at)
  {
  }

  lemma StartsKeep(bs: seq<Block>, top: nat, i: nat, x: Block)
    requires i < |bs| && x.at == bs[i].at
    ensures Starts(bs[..i] + [x] + bs[i + 1..], top) == Starts(bs, top)
  {
  }

  lemma StartsMerge(bs: seq<Block>, top: nat, i: nat)
    requires i + 1 < |bs|
    ensures Starts(MergeAt(bs, i), top) == RemoveAt(Starts(bs, top), i + 1)
  {
  }

  // A place inside block i is no item's start.
  lemma InsideIsNoStart(bs: seq<Block>, h: nat, top: nat, i: nat, a: nat)
    requires Layout(bs, h, top) && i < |bs| && bs[i].at < a < bs[i].end
    ensures a !in Starts(bs, top)
  {
    forall k | 0 <= k < |Starts(bs, top)| ensures Starts(bs, top)[k] != a {
      BlocksOrdered(bs, h, top, i, k);
      BlocksOrdered(bs, h, top, k, i);
      BlockBounds(bs, h, top, i);
      BlockBounds(bs, h, top, k);
    }
  }

  lemma InFreeNodes(ring: seq<nat>, a: nat)
    ensures Item(a) in FreeNodes(ring) <==> a in ring
  {
    if a in ring {
      var k :| 0 <= k < |ring| && ring[k] == a;
      assert FreeNodes(ring)[k + 1] == Item(a);
    }
  }

  lemma FreeNodesRemove(ring: seq<nat>, k: nat)
    requires k < |ring|
    ensures RemoveAt(FreeNodes(ring), k + 1) == FreeNodes(RemoveAt(ring, k))
  {
  }

  lemma FreeNodesFront(ring: seq<nat>, a: nat)
    ensures InsertAt(FreeNodes(ring), 1, Item(a)) == FreeNodes([a] + ring)
  {
  }

  lemma RingDistinct(free: map<Node, Links<Node>>, ring: seq<nat>)
    requires Ring(free, FreeNodes(ring))
    ensures Distinct(ring)
  {
    forall i, j | 0 <= i < j < |ring| ensures ring[i] != ring[j] {
      assert FreeNodes(ring)[i + 1] != FreeNodes(ring)[j + 1];
    }
  }

  lemma RemovedMembers(ring: seq<nat>, k: nat, a: nat)
    requires Distinct(ring) && k < |ring|
    ensures a in RemoveAt(ring, k) <==> a in ring && a != ring[k]
  {
    if a in ring && a != ring[k] {
      var j :| 0 <= j < |ring| && ring[j] == a;
      assert j < k ==> RemoveAt(ring, k)[j] == a;
      assert j > k ==> RemoveAt(ring, k)[j - 1] == a;
    }
  }

  // ---- what each operation does to the free ring ----

  function Size(size: u32): nat {
    if Align4(size) < MIN_DATA then MIN_DATA else Align4(size)
  }

  // The free item starting at a has room for `want` bytes.
  ghost predicate RoomyAt(bs: seq<Block>, a: nat, want: nat) {
    exists i :: 0 <= i < |bs| && bs[i].at == a && Room(bs[i], HDR, want)
  }

  // The first roomy item in ring order.
  ghost predicate FirstRoomy(bs: seq<Block>, ring: seq<nat>, want: nat, k: nat) {
    && k < |ring| && RoomyAt(bs, ring[k], want)
    && forall j :: 0 <= j < k ==> !RoomyAt(bs, ring[j], want)
  }

  function TakeRing(ring: seq<nat>, k: nat, b: Block, want: nat): seq<nat>
    requires k < |ring|
  {
    (if TakenEnd(b, HDR, want) < b.end then [TakenEnd(b, HDR, want)] else []) + RemoveAt(ring, k)
  }

  lemma OneFreeAt(b: Block, a: nat)
    ensures FreeAt([b], a) <==> !b.used && b.at == a
  {
    if !b.used && b.at == a { assert [b][0].at == a; }
  }

  lemma TwoFreeAt(b: Block, c: Block, a: nat)
    ensures FreeAt([b, c], a) <==> FreeAt([b], a) || FreeAt([c], a)
  {
    assert [b, c][0] == b && [b, c][1] == c && [b][0] == b && [c][0] == c;
  }

  lemma TakeMatches(bs: seq<Block>, ring: seq<nat>, top: nat, i: nat, want: nat, k: nat)
    requires Layout(bs, HDR, top) && RingMatches(bs, ring) && Distinct(ring)
    requires i < |bs| && k < |ring| && ring[k] == bs[i].at && Room(bs[i], HDR, want)
    ensures RingMatches(Take(bs, HDR, i, want), TakeRing(ring, k, bs[i], want))
  {
    hide Layout, Distinct, FreeAt;
    var mid := TakenParts(bs[i], HDR, want);
    var e := TakenEnd(bs[i], HDR, want);
    assert bs[i..i + 1] == [bs[i]];
    forall a: nat ensures a in TakeRing(ring, k, bs[i], want) <==> FreeAt(Take(bs, HDR, i, want), a) {
      SpliceFreeAt(bs, HDR, top, i, i + 1, mid, a);
      OneFreeAt(bs[i], a);
      OneFreeAt(mid[0], a);
      if |mid| == 2 {
        TwoFreeAt(mid[0], mid[1], a);
        OneFreeAt(mid[1], a);
        assert mid == [mid[0], mid[1]];
      } else {
        assert mid == [mid[0]];
      }
      RemovedMembers(ring, k, a);
    }
  }

  // The free bytes lost when the free item b gives `want` bytes away.
  function TakenData(b: Block, want: nat): int {
    if TakenEnd(b, HDR, want) < b.end then want + HDR else b.end - b.at - HDR
  }

  lemma TakeFreeData(bs: seq<Block>, top: nat, i: nat, want: nat)
    requires Layout(bs, HDR, top) && i < |bs| && Room(bs[i], HDR, want)
    ensures FreeData(Take(bs, HDR, i, want), HDR) == FreeData(bs, HDR) - TakenData(bs[i], want)
  {
    hide Layout, FreeData;
    var mid := TakenParts(bs[i], HDR, want);
    FreeDataSplice(bs, i, i + 1, mid, HDR);
    assert bs[i..i + 1] == [bs[i]];
    FreeDataOne(bs[i], HDR);
    FreeDataOne(mid[0], HDR);
    if |mid| == 2 {
      FreeDataTwo(mid[0], mid[1], HDR);
      FreeDataOne(mid[1], HDR);
      assert mid == [mid[0], mid[1]];
    } else {
      assert mid == [mid[0]];
    }
  }

  // A request that is refused although some item has room asks for exactly the bytes
  // available, and those all lie in that one item.
  lemma RefusedExactFit(bs: seq<Block>, top: nat, want: nat, i: nat)
    requires Layout(bs, HDR, top) && want >= FreeData(bs, HDR)
    requires i < |bs| && Room(bs[i], HDR, want)
    ensures want == FreeData(bs, HDR) == bs[i].end - bs[i].at - HDR
  {
    FreeDataAtLeast(bs, HDR, top, i);
  }

  // A case in point: a fresh pool refuses to give out all its bytes in one item.
  lemma WholePoolRefused(n: nat)
    ensures var bs := [Block(0, HDR + n, false)];
      && Layout(bs, HDR, HDR + n) && Coalesced(bs) && RingMatches(bs, [0])
      && Room(bs[0], HDR, n) && !NoneRoomy(bs, [0], n) && n >= FreeData(bs, HDR)
  {
    var bs := [Block(0, HDR + n, false)];
    FreeDataOne(bs[0], HDR);
    forall a: nat ensures a in [0] <==> FreeAt(bs, a) { OneFreeAt(bs[0], a); }
    assert bs[0].at == [0][0] && RoomyAt(bs, [0][0], n);
  }

  // What the address ring and the USED bits say about item i.
  lemma ItemFacts(used: map<nat, bool>, links: map<nat, Links<nat>>, bs: seq<Block>, top: nat, i: nat)
    requires Layout(bs, HDR, top) && Flags(used, bs, top) && Ring(links, Starts(bs, top)) && i <= |bs|
    ensures |Starts(bs, top)| == |bs| + 1
    ensures Starts(bs, top)[i] in links && Starts(bs, top)[i] == if i < |bs| then bs[i].at else top
    ensures i < |bs| ==> links[bs[i].at].next == bs[i].end && bs[i].at in used && used[bs[i].at] == bs[i].used
    ensures i < |bs| ==> links[bs[i].at].prev == if i > 0 then bs[i - 1].at else top
    ensures i < |bs| ==> bs[i].at + HDR <= bs[i].end <= top
    ensures i < |bs| ==> bs[i].end in used && used[bs[i].end] == (i + 1 < |bs| ==> bs[i + 1].used)
    ensures i + 1 < |bs| ==> bs[i].end == bs[i + 1].at
    ensures top in used && used[top]
  {
    Neighbours(links, Starts(bs, top), i);
  }

  lemma ItemOnRing(bs: seq<Block>, ring: seq<nat>, k: nat) returns (i: nat)
    requires RingMatches(bs, ring) && k < |ring|
    ensures i < |bs| && bs[i].at == ring[k] && !bs[i].used
  {
    assert ring[k] in ring;
    i :| 0 <= i < |bs| && bs[i].at == ring[k] && !bs[i].used;
  }

  lemma RingIndex(bs: seq<Block>, ring: seq<nat>, i: nat) returns (k: nat)
    requires RingMatches(bs, ring) && i < |bs| && !bs[i].used
    ensures k < |ring| && ring[k] == bs[i].at
  {
    assert FreeAt(bs, bs[i].at);
    k :| 0 <= k < |ring| && ring[k] == bs[i].at;
  }

  lemma RoomyIff(bs: seq<Block>, top: nat, i: nat, want: nat)
    requires Layout(bs, HDR, top) && i < |bs|
    ensures RoomyAt(bs, bs[i].at, want) <==> Room(bs[i], HDR, want)
  {
    forall j | 0 <= j < |bs| && bs[j].at == bs[i].at ensures j == i {
      BlocksOrdered(bs, HDR, top, i, j);
      BlocksOrdered(bs, HDR, top, j, i);
      BlockBounds(bs, HDR, top, i);
      BlockBounds(bs, HDR, top, j);
    }
  }

  // What malloc-like calls leave behind when they take item i, found at place k of the ring.
  ghost predicate Allocated(bs: seq<Block>, ring: seq<nat>, want: nat, i: nat, k: nat, bs': seq<Block>,
      ring': seq<nat>)
  {
    && FirstRoomy(bs, ring, want, k) && i < |bs| && bs[i].at == ring[k]
    && bs' == Take(bs, HDR, i, want) && ring' == TakeRing(ring, k, bs[i], want)
  }

  // What that comes to: the first item of the ring that is large enough, cut to size.
  lemma AllocatedMeans(bs: seq<Block>, ring: seq<nat>, want: nat, i: nat, k: nat, bs': seq<Block>, ring': seq<nat>)
    requires Allocated(bs, ring, want, i, k, bs', ring') && Room(bs[i], HDR, want)
    ensures k < |ring| && ring[k] == bs[i].at
    ensures forall m, j :: 0 <= m < k && 0 <= j < |bs| && bs[j].at == ring[m] ==>
              bs[j].used || bs[j].end - bs[j].at - 24 < want
    ensures HandsOut(bs, 24, i, want, bs')
    ensures ring' == (if |bs'| > |bs| then [bs'[i].end] else []) + ring[..k] + ring[k + 1..]
    ensures TakenData(bs[i], want) == bs'[i].end - bs'[i].at - 24 + (if |bs'| > |bs| then 24 else 0)
  {
    TakeHandsOut(bs, HDR, i, want);
    TakeIndex(bs, HDR, i, want, i);
    forall m, j | 0 <= m < k && 0 <= j < |bs| && bs[j].at == ring[m]
      ensures bs[j].used || bs[j].end - bs[j].at - 24 < want
    {
      assert !RoomyAt(bs, ring[m], want);
    }
    hide RoomyAt, HandsOut, Take;
  }

  ghost predicate NoneRoomy(bs: seq<Block>, ring: seq<nat>, want: nat) {
    forall k :: 0 <= k < |ring| ==> !RoomyAt(bs, ring[k], want)
  }

  lemma SizeAligned(size: u32)
    ensures Size(size) % 4 == 0 && Size(size) >= MIN_DATA
    ensures Size(size) >= size <==> size <= 0xFFFF_FFFC
    ensures size <= 12 || size > 0xFFFF_FFFC ==> Size(size) == 12
    ensures 12 < size <= 0xFFFF_FFFC ==> Size(size) < size + 4
  {
  }

  lemma FirstFreeNode(free: map<Node, Links<Node>>, ring: seq<nat>)
    requires Ring(free, FreeNodes(ring))
    ensures Header in free && free[Header].next == if 0 < |ring| then Item(ring[0]) else Header
  {
    Neighbours(free, FreeNodes(ring), 0);
  }

  lemma NextFreeNode(free: map<Node, Links<Node>>, ring: seq<nat>, k: nat)
    requires Ring(free, FreeNodes(ring)) && k < |ring|
    ensures Item(ring[k]) in free && free[Item(ring[k])].next == if k + 1 < |ring| then Item(ring[k + 1]) else Header
  {
    Neighbours(free, FreeNodes(ring), k + 1);
  }

  // USED bits after the items i..j have been replaced.
  lemma SpliceFlags(used: map<nat, bool>, used': map<nat, bool>, bs: seq<Block>, top: nat, i: nat, j: nat,
      mid: seq<Block>)
    requires Layout(bs, HDR, top) && Flags(used, bs, top) && i < j <= |bs|
    requires forall a :: a in used && !(bs[i].at <= a < bs[j - 1].end) ==> a in used' && used'[a] == used[a]
    requires forall m :: 0 <= m < |mid| ==> mid[m].at in used' && used'[mid[m].at] == mid[m].used
    ensures Flags(used', bs[..i] + mid + bs[j..], top)
  {
    var bs' := bs[..i] + mid + bs[j..];
    BlockBounds(bs, HDR, top, j - 1);
    forall k | 0 <= k < |bs'| ensures bs'[k].at in used' && used'[bs'[k].at] == bs'[k].used {
      SpliceIndex(bs, i, j, mid, k);
      if k < i {
        BlocksOrdered(bs, HDR, top, k, i);
        BlockBounds(bs, HDR, top, k);
      } else if k >= i + |mid| {
        BlocksOrdered(bs, HDR, top, j - 1, k - i - |mid| + j);
      }
    }
  }

  lemma TakeFlags(used: map<nat, bool>, bs: seq<Block>, top: nat, i: nat, want: nat)
    requires Layout(bs, HDR, top) && Flags(used, bs, top) && i < |bs| && Room(bs[i], HDR, want)
    ensures TakenEnd(bs[i], HDR, want) < bs[i].end ==>
              Flags(used[TakenEnd(bs[i], HDR, want) := false][bs[i].at := true], Take(bs, HDR, i, want), top)
    ensures TakenEnd(bs[i], HDR, want) == bs[i].end ==> Flags(used[bs[i].at := true], Take(bs, HDR, i, want), top)
  {
    hide Layout, Flags;
    var e := TakenEnd(bs[i], HDR, want);
    BlockBounds(bs, HDR, top, i);
    SpliceFlags(used, if e < bs[i].end then used[e := false][bs[i].at := true] else used[bs[i].at := true],
                bs, top, i, i + 1, TakenParts(bs[i], HDR, want));
  }

  lemma TakeSplitStarts(bs: seq<Block>, top: nat, i: nat, want: nat)
    requires i < |bs| && TakenEnd(bs[i], HDR, want) < bs[i].end
    ensures Starts(Take(bs, HDR, i, want), top) == InsertAt(Starts(bs, top), i + 1, TakenEnd(bs[i], HDR, want))
  {
    var mid := TakenParts(bs[i], HDR, want);
    assert mid == [mid[0], mid[1]];
    StartsInsert(bs, top, i, mid[0], mid[1]);
  }

  lemma TakeWholeStarts(bs: seq<Block>, top: nat, i: nat, want: nat)
    requires i < |bs| && TakenEnd(bs[i], HDR, want) >= bs[i].end
    ensures Starts(Take(bs, HDR, i, want), top) == Starts(bs, top)
  {
    StartsKeep(bs, top, i, TakenParts(bs[i], HDR, want)[0]);
  }

  lemma NotOnRing(bs: seq<Block>, ring: seq<nat>, top: nat, i: nat, k: nat, a: nat)
    requires Layout(bs, HDR, top) && RingMatches(bs, ring) && Distinct(ring) && k < |ring|
    requires i < |bs| && bs[i].at < a < bs[i].end
    ensures a !in RemoveAt(ring, k)
  {
    RemovedMembers(ring, k, a);
    InsideIsNoStart(bs, HDR, top, i, a);
    if FreeAt(bs, a) {
      var j :| 0 <= j < |bs| && bs[j].at == a && !bs[j].used;
      assert Starts(bs, top)[j] == a;
    }
  }

  // ---- freeing ----

  lemma {:induction false} WithoutIsRemove(ring: seq<nat>, k: nat)
    requires Distinct(ring) && k < |ring|
    ensures Without(ring, ring[k]) == RemoveAt(ring, k)
  {
    if k > 0 {
      assert ring[0] != ring[k];
      WithoutIsRemove(ring[1..], k - 1);
      assert ring[1..][k - 1] == ring[k];
    }
  }

  // The free ring after item i is freed: a free right neighbour leaves it, and the item
  // goes to its front unless a free left neighbour absorbs it.
  function FreedRing(bs: seq<Block>, ring: seq<nat>, i: nat): seq<nat>
    requires i < |bs|
  {
    var r := if i + 1 < |bs| && !bs[i + 1].used then Without(ring, bs[i + 1].at) else ring;
    if i > 0 && !bs[i - 1].used then r else [bs[i].at] + r
  }

  lemma FreedMatches(bs: seq<Block>, ring: seq<nat>, top: nat, i: nat, kr: nat)
    requires Layout(bs, HDR, top) && RingMatches(bs, ring) && Distinct(ring) && i < |bs| && bs[i].used
    requires i + 1 < |bs| && !bs[i + 1].used ==> kr < |ring| && ring[kr] == bs[i + 1].at
    ensures RingMatches(Plug(Unuse(bs, i), i), FreedRing(bs, ring, i))
  {
    hide Layout, Distinct, FreeAt, Plug, Unuse, PlugBlock;
    var u := Unuse(bs, i);
    UnuseLayout(bs, HDR, top, i);
    UnuseNear(bs, i);
    forall a: nat ensures a in FreedRing(bs, ring, i) <==> FreeAt(Plug(u, i), a) {
      UnuseFreeAt(bs, top, i, a);
      PlugFreeAt(u, top, i, a);
      if i + 1 < |bs| && !bs[i + 1].used {
        WithoutIsRemove(ring, kr);
        RemovedMembers(ring, kr, a);
      }
      RightIsNotLeft(bs, top, i);
      UsedNotFree(bs, top, i);
      if i > 0 && !bs[i - 1].used { OutsideSpan(bs, HDR, top, i, i, i - 1); }
    }
  }

  lemma UsedNotFree(bs: seq<Block>, top: nat, i: nat)
    requires Layout(bs, HDR, top) && i < |bs| && bs[i].used
    ensures !FreeAt(bs, bs[i].at)
  {
    forall j | 0 <= j < |bs| && bs[j].at == bs[i].at ensures j == i {
      BlocksOrdered(bs, HDR, top, i, j);
      BlocksOrdered(bs, HDR, top, j, i);
      BlockBounds(bs, HDR, top, i);
      BlockBounds(bs, HDR, top, j);
    }
  }

  lemma RightIsNotLeft(bs: seq<Block>, top: nat, i: nat)
    requires Layout(bs, HDR, top) && i < |bs|
    ensures i > 0 ==> bs[i - 1].at < bs[i].at
    ensures i + 1 < |bs| ==> bs[i].at < bs[i + 1].at
  {
  }

  lemma UnuseNear(bs: seq<Block>, i: nat)
    requires i < |bs|
    ensures |Unuse(bs, i)| == |bs| && Unuse(bs, i)[i] == Block(bs[i].at, bs[i].end, false)
    ensures i > 0 ==> Unuse(bs, i)[i - 1] == bs[i - 1]
    ensures i + 1 < |bs| ==> Unuse(bs, i)[i + 1] == bs[i + 1]
  {
  }

  lemma UnuseFreeAt(bs: seq<Block>, top: nat, i: nat, a: nat)
    requires Layout(bs, HDR, top) && i < |bs| && bs[i].used
    ensures FreeAt(Unuse(bs, i), a) <==> FreeAt(bs, a) || a == bs[i].at
  {
    hide Layout, FreeAt;
    var f := Block(bs[i].at, bs[i].end, false);
    assert bs[i..i + 1] == [bs[i]];
    SpliceFreeAt(bs, HDR, top, i, i + 1, [f], a);
    OneFreeAt(bs[i], a);
    OneFreeAt(f, a);
  }

  lemma PlugFreeAt(bs: seq<Block>, top: nat, i: nat, a: nat)
    requires Layout(bs, HDR, top) && i < |bs| && !bs[i].used
    ensures FreeAt(Plug(bs, i), a) <==>
            a == bs[PlugLo(bs, i)].at ||
            (FreeAt(bs, a) && a != bs[i].at && (i + 1 < |bs| && !bs[i + 1].used ==> a != bs[i + 1].at))
  {
    hide Layout, FreeAt;
    var lo, hi := PlugLo(bs, i), PlugHi(bs, i);
    SpliceFreeAt(bs, HDR, top, lo, hi + 1, [PlugBlock(bs, i)], a);
    OneFreeAt(PlugBlock(bs, i), a);
    SpanFreeAt(bs, lo, i, hi, a);
  }

  lemma SpanFreeAt(bs: seq<Block>, lo: nat, i: nat, hi: nat, a: nat)
    requires lo <= i <= hi < |bs| && i <= lo + 1 && hi <= i + 1 && forall k :: lo <= k <= hi ==> !bs[k].used
    ensures FreeAt(bs[lo..hi + 1], a) <==> a == bs[lo].at || a == bs[i].at || a == bs[hi].at
  {
    var s := bs[lo..hi + 1];
    assert s[0] == bs[lo] && s[i - lo] == bs[i] && s[hi - lo] == bs[hi];
    if FreeAt(s, a) {
      var k :| 0 <= k < |s| && s[k].at == a && !s[k].used;
      assert s[k] == bs[lo + k];
    }
  }

  lemma UnuseFreeData(bs: seq<Block>, i: nat)
    requires i < |bs| && bs[i].used
    ensures FreeData(Unuse(bs, i), HDR) == FreeData(bs, HDR) + bs[i].end - bs[i].at - HDR
  {
    hide FreeData;
    var f := Block(bs[i].at, bs[i].end, false);
    assert bs[i..i + 1] == [bs[i]];
    FreeDataSplice(bs, i, i + 1, [f], HDR);
    FreeDataOne(bs[i], HDR);
    FreeDataOne(f, HDR);
  }

  lemma MergeFreeData(bs: seq<Block>, i: nat)
    requires i + 1 < |bs| && !bs[i].used && !bs[i + 1].used && bs[i].end == bs[i + 1].at
    ensures FreeData(MergeAt(bs, i), HDR) == FreeData(bs, HDR) + HDR
  {
    hide FreeData;
    var f := Block(bs[i].at, bs[i + 1].end, false);
    assert bs[i..i + 2] == [bs[i], bs[i + 1]];
    FreeDataSplice(bs, i, i + 2, [f], HDR);
    FreeDataTwo(bs[i], bs[i + 1], HDR);
    FreeDataOne(bs[i], HDR);
    FreeDataOne(bs[i + 1], HDR);
    FreeDataOne(f, HDR);
  }

  // Merging to the left first and then to the right is plugging.
  function PlugLeft(bs: seq<Block>, i: nat): seq<Block>
    requires i < |bs|
  {
    if PlugLo(bs, i) < i then MergeAt(bs, i - 1) else bs
  }

  lemma PlugLeftShape(bs: seq<Block>, i: nat)
    requires i < |bs| && !bs[i].used
    ensures var f, lo := PlugLeft(bs, i), PlugLo(bs, i);
            && lo < |f| && f[lo] == Block(bs[lo].at, bs[i].end, false) && f[lo + 1..] == bs[i + 1..]
            && f[..lo] == bs[..lo]
            && (lo + 1 < |f| <==> i + 1 < |bs|) && (i + 1 < |bs| ==> f[lo + 1] == bs[i + 1])
  {
  }

  lemma PlugLeftThenRight(bs: seq<Block>, i: nat)
    requires i < |bs| && !bs[i].used
    ensures PlugLo(bs, i) < |PlugLeft(bs, i)|
    ensures PlugHi(bs, i) > i ==>
              PlugLo(bs, i) + 1 < |PlugLeft(bs, i)| && Plug(bs, i) == MergeAt(PlugLeft(bs, i), PlugLo(bs, i))
    ensures PlugHi(bs, i) == i ==> Plug(bs, i) == PlugLeft(bs, i)
  {
    hide PlugLeft;
    PlugLeftShape(bs, i);
    var f, lo := PlugLeft(bs, i), PlugLo(bs, i);
    assert f == f[..lo] + [f[lo]] + f[lo + 1..];
    if PlugHi(bs, i) > i { SameRest(f, lo + 1, bs, i + 1); }
  }

  lemma SameRest(a: seq<Block>, k: nat, b: seq<Block>, m: nat)
    requires k < |a| && m < |b| && a[k..] == b[m..]
    ensures a[k + 1..] == b[m + 1..]
  {
    assert a[k..][1..] == a[k + 1..] && b[m..][1..] == b[m + 1..];
  }

  lemma MergedLayout(bs: seq<Block>, used: map<nat, bool>, top: nat, p: nat)
    requires Layout(bs, HDR, top) && Flags(used, bs, top) && p + 1 < |bs| && !bs[p].used
    ensures Layout(MergeAt(bs, p), HDR, top) && Flags(used, MergeAt(bs, p), top)
  {
    var mid := [Block(bs[p].at, bs[p + 1].end, false)];
    SpliceLayout(bs, HDR, top, p, p + 2, mid);
    assert bs[p].at in used && used[bs[p].at] == bs[p].used;
    hide Layout;
    SpliceFlags(used, used, bs, top, p, p + 2, mid);
  }

  predicate LeftFree(bs: seq<Block>, i: nat)
    requires i < |bs|
  {
    i > 0 && !bs[i - 1].used
  }

  predicate RightFree(bs: seq<Block>, i: nat)
    requires i < |bs|
  {
    i + 1 < |bs| && !bs[i + 1].used
  }

  // Clearing the USED bit of item i: the address ring now spells out Unuse(bs, i).
  lemma UnusedCore(used: map<nat, bool>, links: map<nat, Links<nat>>, bs: seq<Block>, top: nat, i: nat)
    requires Layout(bs, HDR, top) && Flags(used, bs, top) && Ring(links, Starts(bs, top)) && i < |bs| && bs[i].used
    ensures Layout(Unuse(bs, i), HDR, top) && Flags(used[bs[i].at := false], Unuse(bs, i), top)
    ensures Starts(Unuse(bs, i), top) == Starts(bs, top)
    ensures bs[i].at in links && links[bs[i].at].next == bs[i].end && bs[i].at + HDR <= bs[i].end
    ensures links[bs[i].at].prev == if i > 0 then bs[i - 1].at else top
    ensures var used' := used[bs[i].at := false];
            links[bs[i].at].prev in used' && used'[links[bs[i].at].prev] == !LeftFree(bs, i)
  {
    UnuseLayout(bs, HDR, top, i);
    hide Layout;
    ItemFacts(used, links, bs, top, i);
    RightIsNotLeft(bs, top, i);
    var f := Block(bs[i].at, bs[i].end, false);
    StartsKeep(bs, top, i, f);
    SpliceFlags(used, used[bs[i].at := false], bs, top, i, i + 1, [f]);
  }

  // After the merge to the left, what the item ahead looks like.
  lemma LeftFacts(used: map<nat, bool>, links: map<nat, Links<nat>>, u: seq<Block>, cur: seq<Block>, top: nat, i: nat)
    requires i < |u| && !u[i].used && cur == PlugLeft(u, i)
    requires Layout(cur, HDR, top) && Flags(used, cur, top) && Ring(links, Starts(cur, top))
    ensures var p := PlugLo(u, i);
            && p < |cur| && cur[p].at == u[p].at && !cur[p].used && cur[p].at in links && links[cur[p].at].next in used
            && used[links[cur[p].at].next] == !RightFree(u, i)
            && (RightFree(u, i) ==>
                  p + 1 < |cur| && cur[p + 1].at == links[cur[p].at].next == u[i + 1].at && !cur[p + 1].used)
  {
    hide Layout, Flags, Starts, Ring, PlugLeft;
    PlugLeftShape(u, i);
    ItemFacts(used, links, cur, top, PlugLo(u, i));
  }

  lemma PlugFreeData(u: seq<Block>, top: nat, i: nat)
    requires Layout(u, HDR, top) && i < |u| && !u[i].used
    ensures FreeData(PlugLeft(u, i), HDR) == FreeData(u, HDR) + if LeftFree(u, i) then HDR else 0
    ensures FreeData(Plug(u, i), HDR) == FreeData(PlugLeft(u, i), HDR) + if RightFree(u, i) then HDR else 0
  {
    hide FreeData, Plug;
    if LeftFree(u, i) { MergeFreeData(u, i - 1); }
    PlugLeftThenRight(u, i);
    PlugLeftShape(u, i);
    if RightFree(u, i) { MergeFreeData(PlugLeft(u, i), PlugLo(u, i)); }
  }

  // Everything freeing item i establishes about the abstract pool.
  lemma FreedPool(bs: seq<Block>, ring: seq<nat>, top: nat, i: nat, kr: nat)
    requires Layout(bs, HDR, top) && Coalesced(bs) && RingMatches(bs, ring) && Distinct(ring) && i < |bs| && bs[i].used
    requires RightFree(bs, i) ==> kr < |ring| && ring[kr] == bs[i + 1].at
    ensures var g := Plug(Unuse(bs, i), i);
            && Coalesced(g) && RingMatches(g, FreedRing(bs, ring, i)) && Exchanged(bs, [bs[i]], [], g)
            && FreeData(g, HDR) == FreeData(bs, HDR) + bs[i].end - bs[i].at - HDR
                 + (if LeftFree(bs, i) then HDR else 0) + (if RightFree(bs, i) then HDR else 0)
    ensures bs[i].at !in ring && (RightFree(bs, i) ==> bs[i].at !in RemoveAt(ring, kr))
  {
    hide Layout, FreeData, Plug, FreedRing, RingMatches, Distinct, Unuse, Exchanged, SameUsed, CoalescedBut;
    var u := Unuse(bs, i);
    UnuseNear(bs, i);
    UnuseLayout(bs, HDR, top, i);
    PlugCoalesced(u, i);
    UnuseUsed(bs, HDR, top, i);
    PlugUsed(u, HDR, top, i);
    ThenSameUsed(bs, bs[i], u, Plug(u, i));
    FreedMatches(bs, ring, top, i, kr);
    UnuseFreeData(bs, i);
    PlugFreeData(u, top, i);
    UsedNotFree(bs, top, i);
    NotFreeNotOnRing(bs, ring, bs[i].at);
    if RightFree(bs, i) { RemovedMembers(ring, kr, bs[i].at); }
  }

  lemma NotFreeNotOnRing(bs: seq<Block>, ring: seq<nat>, a: nat)
    requires RingMatches(bs, ring) && !FreeAt(bs, a)
    ensures a !in ring
  {
  }

  lemma ThenSameUsed(bs: seq<Block>, b: Block, u: seq<Block>, g: seq<Block>)
    requires Exchanged(bs, [b], [], u) && SameUsed(u, g)
    ensures Exchanged(bs, [b], [], g)
  {
  }

  lemma FreedRingSteps(bs: seq<Block>, ring: seq<nat>, i: nat, kr: nat)
    requires i < |bs| && Distinct(ring) && (RightFree(bs, i) ==> kr < |ring| && ring[kr] == bs[i + 1].at)
    ensures FreedRing(bs, ring, i) ==
            var r := if RightFree(bs, i) then RemoveAt(ring, kr) else ring;
            if LeftFree(bs, i) then r else [bs[i].at] + r
  {
    if RightFree(bs, i) { WithoutIsRemove(ring, kr); }
  }

  // ---- resizing in place ----

  lemma CutFreeAt(bs: seq<Block>, top: nat, i: nat, n: nat, a: nat)
    requires Layout(bs, HDR, top) && i < |bs| && bs[i].used
    ensures FreeAt(Cut(bs, HDR, i, n), a) <==> FreeAt(bs, a) || a == bs[i].at + HDR + n
  {
    hide Layout, FreeAt;
    var u, f := CutParts(bs[i], HDR, n)[0], CutParts(bs[i], HDR, n)[1];
    assert bs[i..i + 1] == [bs[i]];
    SpliceFreeAt(bs, HDR, top, i, i + 1, [u, f], a);
    OneFreeAt(bs[i], a);
    TwoFreeAt(u, f, a);
    OneFreeAt(u, a);
    OneFreeAt(f, a);
  }

  lemma CutFreeData(bs: seq<Block>, i: nat, n: nat)
    requires i < |bs| && bs[i].used && bs[i].at + HDR + n <= bs[i].end
    ensures FreeData(Cut(bs, HDR, i, n), HDR) == FreeData(bs, HDR) + bs[i].end - bs[i].at - HDR - n - HDR
  {
    hide FreeData;
    var u, f := CutParts(bs[i], HDR, n)[0], CutParts(bs[i], HDR, n)[1];
    assert bs[i..i + 1] == [bs[i]];
    FreeDataSplice(bs, i, i + 1, [u, f], HDR);
    FreeDataOne(bs[i], HDR);
    FreeDataTwo(u, f, HDR);
    FreeDataOne(u, HDR);
    FreeDataOne(f, HDR);
  }

  // What cutting item i does to the USED bits and to the starts.
  lemma CutCore(used: map<nat, bool>, bs: seq<Block>, top: nat, i: nat, n: nat)
    requires Layout(bs, HDR, top) && Flags(used, bs, top)
    requires i < |bs| && bs[i].used && n % 4 == 0 && bs[i].at + HDR + n + HDR <= bs[i].end
    ensures Layout(Cut(bs, HDR, i, n), HDR, top) && Flags(used[bs[i].at + HDR + n := false], Cut(bs, HDR, i, n), top)
    ensures Starts(Cut(bs, HDR, i, n), top) == InsertAt(Starts(bs, top), i + 1, bs[i].at + HDR + n)
    ensures bs[i].at + HDR + n !in Starts(bs, top)
  {
    assert bs[i].at in used && used[bs[i].at] == bs[i].used;
    hide Layout, Flags, Starts;
    CutLayout(bs, HDR, top, i, n);
    InsideIsNoStart(bs, HDR, top, i, bs[i].at + HDR + n);
    StartsInsert(bs, top, i, CutParts(bs[i], HDR, n)[0], CutParts(bs[i], HDR, n)[1]);
    SpliceFlags(used, used[bs[i].at + HDR + n := false], bs, top, i, i + 1, CutParts(bs[i], HDR, n));
  }

  // The used item i takes over the whole of its right neighbour.
  function Swallow(bs: seq<Block>, i: nat): seq<Block>
    requires i + 1 < |bs|
  {
    bs[..i] + [Block(bs[i].at, bs[i + 1].end, true)] + bs[i + 2..]
  }

  lemma SwallowCore(used: map<nat, bool>, bs: seq<Block>, top: nat, i: nat)
    requires Layout(bs, HDR, top) && Flags(used, bs, top) && i + 1 < |bs| && bs[i].used
    ensures Layout(Swallow(bs, i), HDR, top) && Flags(used, Swallow(bs, i), top)
    ensures Starts(Swallow(bs, i), top) == RemoveAt(Starts(bs, top), i + 1)
    ensures i < |Swallow(bs, i)| && Swallow(bs, i)[i] == Block(bs[i].at, bs[i + 1].end, true)
  {
    var mid := [Block(bs[i].at, bs[i + 1].end, true)];
    SpliceLayout(bs, HDR, top, i, i + 2, mid);
    assert bs[i].at in used && used[bs[i].at] == bs[i].used;
    hide Layout;
    SpliceFlags(used, used, bs, top, i, i + 2, mid);
  }

  lemma SwallowFree(bs: seq<Block>, top: nat, i: nat, a: nat)
    requires Layout(bs, HDR, top) && i + 1 < |bs| && bs[i].used && !bs[i + 1].used && bs[i].end == bs[i + 1].at
    ensures FreeAt(Swallow(bs, i), a) <==> FreeAt(bs, a) && a != bs[i + 1].at
    ensures FreeData(Swallow(bs, i), HDR) == FreeData(bs, HDR) - (bs[i + 1].end - bs[i + 1].at - HDR)
  {
    hide Layout, FreeAt, FreeData;
    var m := Block(bs[i].at, bs[i + 1].end, true);
    assert bs[i..i + 2] == [bs[i], bs[i + 1]];
    SpliceFreeAt(bs, HDR, top, i, i + 2, [m], a);
    TwoFreeAt(bs[i], bs[i + 1], a);
    OneFreeAt(bs[i], a);
    OneFreeAt(bs[i + 1], a);
    OneFreeAt(m, a);
    FreeDataSplice(bs, i, i + 2, [m], HDR);
    FreeDataTwo(bs[i], bs[i + 1], HDR);
    FreeDataOne(bs[i], HDR);
    FreeDataOne(bs[i + 1], HDR);
    FreeDataOne(m, HDR);
  }

  // Growing item i to n bytes into the free item behind it.
  function Grow(bs: seq<Block>, i: nat, n: nat): seq<Block>
    requires i + 1 < |bs|
  {
    Cut(Swallow(bs, i), HDR, i, n)
  }

  // Everything growing in place establishes about the abstract pool.
  lemma GrownPool(bs: seq<Block>, ring: seq<nat>, top: nat, i: nat, n: nat, kr: nat)
    requires Layout(bs, HDR, top) && Coalesced(bs) && RingMatches(bs, ring) && Distinct(ring)
    requires i + 1 < |bs| && bs[i].used && !bs[i + 1].used && n % 4 == 0 && bs[i].at + HDR + n + HDR <= bs[i + 1].end
    requires n > bs[i].end - bs[i].at - HDR && kr < |ring| && ring[kr] == bs[i + 1].at
    ensures var g, p2 := Grow(bs, i, n), bs[i].at + HDR + n;
            && Coalesced(g) && RingMatches(g, [p2] + RemoveAt(ring, kr)) && p2 !in RemoveAt(ring, kr)
            && Exchanged(bs, [bs[i]], [Block(bs[i].at, p2, true)], g)
            && FreeData(g, HDR) == FreeData(bs, HDR) - (n - (bs[i].end - bs[i].at - HDR))
  {
    hide FreeData, RingMatches, Distinct, Layout, Coalesced, Swallow, Exchanged, Starts, Cut;
    var m := Swallow(bs, i);
    var p2 := bs[i].at + HDR + n;
    SwallowLayout(bs, top, i);
    GrowCoalesced(bs, i, n);
    SwallowFree(bs, top, i, 0);
    CutFreeData(m, i, n);
    GrowMatches(bs, ring, top, i, n, kr);
    GrowUsed(bs, top, i, n);
    InsideIsNoStart(bs, HDR, top, i + 1, p2);
    NoStartNoRing(bs, ring, top, p2);
    RemovedMembers(ring, kr, p2);
  }

  lemma NoStartNoRing(bs: seq<Block>, ring: seq<nat>, top: nat, a: nat)
    requires RingMatches(bs, ring) && a !in Starts(bs, top)
    ensures a !in ring
  {
    FreeIsStart(bs, top, a);
  }

  lemma FreeIsStart(bs: seq<Block>, top: nat, a: nat)
    ensures FreeAt(bs, a) ==> a in Starts(bs, top)
  {
    if j :| 0 <= j < |bs| && bs[j].at == a && !bs[j].used {
      assert Starts(bs, top)[j] == a;
    }
  }

  lemma SwallowLayout(bs: seq<Block>, top: nat, i: nat)
    requires Layout(bs, HDR, top) && i + 1 < |bs|
    ensures Layout(Swallow(bs, i), HDR, top)
    ensures i < |Swallow(bs, i)| && Swallow(bs, i)[i] == Block(bs[i].at, bs[i + 1].end, true)
    ensures bs[i].end == bs[i + 1].at
  {
    SpliceLayout(bs, HDR, top, i, i + 2, [Block(bs[i].at, bs[i + 1].end, true)]);
  }

  lemma GrowCoalesced(bs: seq<Block>, i: nat, n: nat)
    requires Coalesced(bs) && i + 1 < |bs| && bs[i].used && !bs[i + 1].used
    ensures Coalesced(Grow(bs, i, n))
  {
    CoalescedAt(bs, i + 1);
    var mid := [Block(bs[i].at, bs[i].at + HDR + n, true), Block(bs[i].at + HDR + n, bs[i + 1].end, false)];
    assert Grow(bs, i, n) == bs[..i] + mid + bs[i + 2..];
    hide Grow;
    SpliceCoalesced(bs, i, i + 2, mid);
  }

  lemma GrowMatches(bs: seq<Block>, ring: seq<nat>, top: nat, i: nat, n: nat, kr: nat)
    requires Layout(bs, HDR, top) && RingMatches(bs, ring) && Distinct(ring) && i + 1 < |bs| && bs[i].used &&
             !bs[i + 1].used
    requires Layout(Swallow(bs, i), HDR, top) && bs[i].end == bs[i + 1].at && kr < |ring| && ring[kr] == bs[i + 1].at
    ensures RingMatches(Grow(bs, i, n), [bs[i].at + HDR + n] + RemoveAt(ring, kr))
  {
    hide Layout, FreeAt, Distinct, FreeData;
    var m := Swallow(bs, i);
    forall a: nat ensures a in [bs[i].at + HDR + n] + RemoveAt(ring, kr) <==> FreeAt(Grow(bs, i, n), a) {
      SwallowFree(bs, top, i, a);
      CutFreeAt(m, top, i, n, a);
      RemovedMembers(ring, kr, a);
    }
  }

  lemma GrowUsed(bs: seq<Block>, top: nat, i: nat, n: nat)
    requires Layout(bs, HDR, top) && i + 1 < |bs| && bs[i].used && !bs[i + 1].used
    ensures Exchanged(bs, [bs[i]], [Block(bs[i].at, bs[i].at + HDR + n, true)], Grow(bs, i, n))
  {
    var m := Swallow(bs, i);
    var f := Block(bs[i].at + HDR + n, bs[i + 1].end, false);
    var u := Block(bs[i].at, bs[i].at + HDR + n, true);
    assert bs[i..i + 2] == [bs[i], bs[i + 1]];
    assert Grow(bs, i, n) == bs[..i] + [u, f] + bs[i + 2..];
    hide Layout, Exchanged, Grow;
    SpliceInLayout(bs, HDR, top, i, i + 2, [u, f]);
    FreeRiders(bs, bs[i], bs[i + 1], u, f, Grow(bs, i, n));
  }

  lemma FreeRiders(bs: seq<Block>, b: Block, c: Block, u: Block, f: Block, bs': seq<Block>)
    requires Exchanged(bs, [b, c], [u, f], bs') && !c.used && !f.used
    ensures Exchanged(bs, [b], [u], bs')
  {
  }

  // The free ring after item i has been cut down to n bytes.
  function CutRing(bs: seq<Block>, ring: seq<nat>, i: nat, n: nat): seq<nat>
    requires i < |bs|
  {
    [bs[i].at + HDR + n] + if RightFree(bs, i) then Without(ring, bs[i + 1].at) else ring
  }

  // What plugging the piece cut off comes to.
  lemma CutPlug(bs: seq<Block>, i: nat, n: nat)
    requires i < |bs| && bs[i].used
    ensures var cut, p2 := Cut(bs, HDR, i, n), bs[i].at + HDR + n;
            && |cut| == |bs| + 1 && cut[i + 1] == Block(p2, bs[i].end, false)
            && (i + 1 < |bs| ==> cut[i + 2] == bs[i + 1])
            && Plug(cut, i + 1) == (if RightFree(bs, i) then MergeAt(cut, i + 1) else cut)
            && i + 1 < |Plug(cut, i + 1)| && Plug(cut, i + 1)[i + 1].at == p2
            && (Plug(cut, i + 1)[i + 1].end == if RightFree(bs, i) then bs[i + 1].end else bs[i].end)
            && !Plug(cut, i + 1)[i + 1].used
  {
    hide Cut, Plug;
    CutAt(bs, HDR, i, n);
    PlugSteps(Cut(bs, HDR, i, n), i + 1);
    PlugRightShape(Cut(bs, HDR, i, n), i + 1);
  }

  // Everything shrinking in place establishes about the abstract pool.
  lemma CutPool(bs: seq<Block>, ring: seq<nat>, top: nat, i: nat, n: nat, kr: nat)
    requires Layout(bs, HDR, top) && Coalesced(bs) && RingMatches(bs, ring) && Distinct(ring)
    requires i < |bs| && bs[i].used && n % 4 == 0 && bs[i].at + HDR + n + HDR <= bs[i].end
    requires RightFree(bs, i) ==> kr < |ring| && ring[kr] == bs[i + 1].at
    ensures var cut, p2 := Cut(bs, HDR, i, n), bs[i].at + HDR + n;
            && Layout(cut, HDR, top) && |cut| == |bs| + 1
            && Coalesced(Plug(cut, i + 1)) && RingMatches(Plug(cut, i + 1), CutRing(bs, ring, i, n))
            && p2 !in ring && (RightFree(bs, i) ==> p2 !in RemoveAt(ring, kr))
            && Exchanged(bs, [bs[i]], [Block(bs[i].at, p2, true)], Plug(cut, i + 1))
            && FreeData(cut, HDR) == FreeData(bs, HDR) + bs[i].end - p2 - HDR
            && FreeData(Plug(cut, i + 1), HDR) == FreeData(cut, HDR) + if RightFree(bs, i) then HDR else 0
  {
    hide Layout, FreeData, RingMatches, Distinct, Coalesced, CoalescedBut, Cut, Plug, Exchanged, SameUsed, Starts;
    var cut, p2 := Cut(bs, HDR, i, n), bs[i].at + HDR + n;
    CutLayout(bs, HDR, top, i, n);
    CutAt(bs, HDR, i, n);
    CutCoalesced(bs, HDR, i, n);
    PlugCoalesced(cut, i + 1);
    CutUsed(bs, HDR, top, i, n);
    PlugUsed(cut, HDR, top, i + 1);
    AlsoSameUsed(bs, bs[i], Block(bs[i].at, p2, true), cut, Plug(cut, i + 1));
    CutFreeData(bs, i, n);
    PlugFreeData(cut, top, i + 1);
    CutPlug(bs, i, n);
    CutMatches(bs, ring, top, i, n, kr);
    InsideIsNoStart(bs, HDR, top, i, p2);
    NoStartNoRing(bs, ring, top, p2);
    if RightFree(bs, i) { RemovedMembers(ring, kr, p2); }
  }

  lemma AlsoSameUsed(bs: seq<Block>, b: Block, c: Block, u: seq<Block>, g: seq<Block>)
    requires Exchanged(bs, [b], [c], u) && SameUsed(u, g)
    ensures Exchanged(bs, [b], [c], g)
  {
  }

  lemma CutMatches(bs: seq<Block>, ring: seq<nat>, top: nat, i: nat, n: nat, kr: nat)
    requires Layout(bs, HDR, top) && RingMatches(bs, ring) && Distinct(ring) && i < |bs| && bs[i].used
    requires Layout(Cut(bs, HDR, i, n), HDR, top)
    requires RightFree(bs, i) ==> kr < |ring| && ring[kr] == bs[i + 1].at
    ensures RingMatches(Plug(Cut(bs, HDR, i, n), i + 1), CutRing(bs, ring, i, n))
  {
    hide Layout, Distinct, FreeAt, Plug, Cut, PlugBlock;
    var cut := Cut(bs, HDR, i, n);
    CutAt(bs, HDR, i, n);
    forall a: nat ensures a in CutRing(bs, ring, i, n) <==> FreeAt(Plug(cut, i + 1), a) {
      CutFreeAt(bs, top, i, n, a);
      PlugFreeAt(cut, top, i + 1, a);
      if RightFree(bs, i) {
        WithoutIsRemove(ring, kr);
        RemovedMembers(ring, kr, a);
      }
    }
  }

  lemma BytesConservedIn(g: seq<Block>, bs: seq<Block>, top: nat, i: nat, n: nat)
    requires Layout(bs, HDR, top) && i + 1 < |bs| && bs[i].used && !bs[i + 1].used && n % 4 == 0
    requires bs[i].at + HDR + n + HDR <= bs[i + 1].end && g == Grow(bs, i, n)
    ensures FreeData(g, HDR) >= 0
  {
    SwallowLayout(bs, top, i);
    hide Swallow, Cut, FreeData;
    CutLayout(Swallow(bs, i), HDR, top, i, n);
    BytesConserved(g, HDR, 0, top);
  }

  lemma WithoutIsRemoveIf(free: map<Node, Links<Node>>, ring: seq<nat>, k: nat)
    requires Ring(free, FreeNodes(ring)) && k < |ring|
    ensures Without(ring, ring[k]) == RemoveAt(ring, k)
  {
    RingDistinct(free, ring);
    WithoutIsRemove(ring, k);
  }

  lemma SameBytes(r: seq<bv8>)
    ensures forall a, b :: KeepsBoth(a, HDR, b, r, r)
  {
  }

  lemma AlignedSize(n: u32)
    requires n % 4 == 0 && n >= MIN_DATA
    ensures Size(n) == n
  {
  }

  // What the caller may rely on after alloc: a new item inside the pool, clear of every
  // item in use.
  lemma TookItem(bs: seq<Block>, ring': seq<nat>, ring: seq<nat>, top: nat, j: nat, k: nat, want: nat)
    requires Layout(bs, HDR, top) && j < |bs| && Allocated(bs, ring, want, j, k, Take(bs, HDR, j, want), ring') &&
             want % 4 == 0
    ensures Room(bs[j], HDR, want)
    ensures var nb := Block(bs[j].at, TakenEnd(bs[j], HDR, want), true);
            && nb !in bs && Exchanged(bs, [], [nb], Take(bs, HDR, j, want)) && nb.at + HDR + want <= nb.end <= top
            && forall x: Block :: x in bs && x.used ==> x.end <= nb.at || nb.end <= x.at
  {
    hide Layout, Take, Exchanged;
    RoomyIff(bs, top, j, want);
    BlockBounds(bs, HDR, top, j);
    TakeUsed(bs, HDR, top, j, want);
    TakenDisjoint(bs, HDR, top, j, want);
    TakenIsNew(bs, j, Block(bs[j].at, TakenEnd(bs[j], HDR, want), true));
  }

  // Freeing the item alloc has just handed out restores the item list, and with it every
  // byte count; only the order of the free ring may differ.
  lemma AllocThenFreeRestores(bs: seq<Block>, ring: seq<nat>, top: nat, want: nat, j: nat, k: nat,
                              bs1: seq<Block>, ring1: seq<nat>, bs2: seq<Block>, ring2: seq<nat>)
    requires Layout(bs, HDR, top) && Coalesced(bs) && RingMatches(bs, ring) && want % 4 == 0
    requires Allocated(bs, ring, want, j, k, bs1, ring1)
    requires Layout(bs2, HDR, top) && Coalesced(bs2) && RingMatches(bs2, ring2)
    requires Exchanged(bs1, [Block(bs[j].at, TakenEnd(bs[j], HDR, want), true)], [], bs2)
    ensures bs2 == bs && FreeData(bs2, HDR) == FreeData(bs, HDR) && forall a :: a in ring2 <==> a in ring
  {
    hide Layout, Coalesced, Exchanged, FreeData, FreeAt;
    TookItem(bs, ring1, ring, top, j, k, want);
    AddThenDrop(bs, Block(bs[j].at, TakenEnd(bs[j], HDR, want), true), bs1, bs2);
    LayoutUnique(bs, bs2, HDR, top);
  }

  // The links and flags of all items, and of the tail, lie clear of all data in use.
  lemma HeadersClearOfData(bs: seq<Block>, top: nat, k: nat, i: nat)
    requires Layout(bs, HDR, top) && k <= |bs| && i < |bs| && bs[i].used
    ensures var a := Starts(bs, top)[k];
            a + HDR <= bs[i].at + HDR || bs[i].end <= a
  {
    BlocksOrdered(bs, HDR, top, i, k);
    BlocksOrdered(bs, HDR, top, k, i);
    BlockBounds(bs, HDR, top, i);
    if k < |bs| { BlockBounds(bs, HDR, top, k); }
  }

  lemma FreshPool(used: map<nat, bool>, links: map<nat, Links<nat>>, free: map<Node, Links<Node>>, top: nat)
    requires top >= HDR && top % 4 == 0
    requires used == map[0 := false, top := true]
    requires links == map[0 := Links(top, top), top := Links(0, 0)]
    requires free == map[Header := Links(Item(0), Item(0)), Item(0) := Links(Header, Header)]
    ensures var bs := [Block(0, top, false)];
            && Layout(bs, HDR, top) && Flags(used, bs, top) && Ring(links, Starts(bs, top))
            && Ring(free, FreeNodes([0]))
            && Coalesced(bs) && RingMatches(bs, [0]) && FreeData(bs, HDR) == top - HDR
  {
    var bs := [Block(0, top, false)];
    assert Starts(bs, top) == [0, top] && FreeNodes([0]) == [Header, Item(0)];
    FreeDataOne(bs[0], HDR);
    forall a: nat ensures a in [0] <==> FreeAt(bs, a) { OneFreeAt(bs[0], a); }
  }

  // Item j taken, at place k of the free ring, and then item i freed.
  ghost predicate MovedItems(bs: seq<Block>, rg: seq<nat>, want: nat, i: nat, j: nat, k: nat, bs': seq<Block>,
      rg': seq<nat>)
    requires i < |bs|
  {
    exists bs1, rg1, i1: nat ::
      && Allocated(bs, rg, want, j, k, bs1, rg1)
      && i1 < |bs1| && bs1[i1] == bs[i]
      && Exchanged(bs1, [bs[i]], [], bs') && rg' == FreedRing(bs1, rg1, i1)
  }

  lemma MovedIs(bs: seq<Block>, rg: seq<nat>, want: nat, i: nat, j: nat, k: nat, bs1: seq<Block>, rg1: seq<nat>,
      i1: nat, bs': seq<Block>)
    requires i < |bs| && Allocated(bs, rg, want, j, k, bs1, rg1) && i1 < |bs1| && bs1[i1] == bs[i]
    requires Exchanged(bs1, [bs[i]], [], bs')
    ensures MovedItems(bs, rg, want, i, j, k, bs', FreedRing(bs1, rg1, i1))
  {
  }

  // The item x in place of b, over bytes that nobody has changed.
  lemma KeptPiece(bs: seq<Block>, b: Block, n: nat, bs': seq<Block>, r: seq<bv8>)
    requires Exchanged(bs, [b], [Block(b.at, b.at + HDR + n, true)], bs') && b.at + HDR <= b.end <= |r|
    requires b.at + HDR + n <= |r|
    ensures HoldsPrefix(bs', 24, b.end - b.at - 24, n, r, b.at + 24, r, b.at + 24)
  {
    hide Exchanged, KeepsData;
    ComesIn(bs, b, Block(b.at, b.at + HDR + n, true), bs');
    KeepsDataReflexive(bs', HDR, r);
    SamePiece(bs', HDR, Block(b.at, b.at + HDR + n, true), b.end - b.at - HDR, n, r, r);
  }

  lemma CopiedPiece(bs: seq<Block>, x: Block, src: nat, size: nat, n: nat, r: seq<bv8>, r': seq<bv8>)
    requires x in bs && x.used && x.at + HDR + n <= x.end && size <= n && Copied(r, HDR, src, r', x.at, size)
    ensures HoldsPrefix(bs, 24, size, n, r, src + 24, r', x.at + 24)
  {
  }

  class Pool {
    const start: nat               // start_addr
    const poolSize: nat
    const top: nat                 // the tail item, as an offset
    var used: map<nat, bool>             // USED bits, by item offset
    var links: map<nat, Links<nat>>      // next and prev
    var free: map<Node, Links<Node>>     // next_free and prev_free; no entry is RT_NULL
    var available: nat
    var maxUsed: nat
    var ram: seq<bv8>
    ghost var blocks: seq<Block>
    ghost var ring: seq<nat>

    // The address ring and the USED bits spell out a tiling of the pool.
    ghost predicate Core()
      reads this
    {
      && poolSize == top + HDR && start + poolSize < WORD && |ram| == poolSize
      && Layout(blocks, HDR, top) && Flags(used, blocks, top)
      && Ring(links, Starts(blocks, top)) && Ring(free, FreeNodes(ring))
    }

    ghost predicate Valid()
      reads this
    {
      && Core() && Coalesced(blocks) && RingMatches(blocks, ring)
      && available == FreeData(blocks, HDR) && poolSize <= available + maxUsed
    }

    // Conservation, on every pool: what is available, the bytes in use, and a header for
    // each item and the tail make up the pool.
    lemma AccountsBalance()
      requires Valid()
      ensures poolSize == available + UsedData(blocks, HDR) + (|blocks| + 1) * HDR
      ensures UsedData(blocks, HDR) >= 0
    {
      BytesConserved(blocks, HDR, 0, top);
    }

    // Takes an item off the free ring.
    method UnlinkFree(at: nat, ghost k: nat)
      requires Ring(free, FreeNodes(ring)) && k < |ring| && ring[k] == at
      modifies this`free, this`ring
      ensures Ring(free, FreeNodes(ring)) && ring == RemoveAt(old(ring), k)
    {
      ghost var r := FreeNodes(ring);
      Neighbours(free, r, k + 1);
      var n, p := free[Item(at)].next, free[Item(at)].prev;
      free := free[n := Links(free[n].next, p)];
      free := free[p := Links(n, free[p].prev)];
      free := free - {Item(at)};
      forall j | 0 <= j < |r| && j != k + 1
        ensures r[j] in free && free[r[j]] == Links(if Succ(r, j) == Item(at) then Succ(r, k + 1) else Succ(r, j),
                                                     if Pred(r, j) == Item(at) then Pred(r, k + 1) else Pred(r, j))
      {
        LinkFact(old(free), r, j);
        MutualNeighbours(r, k + 1, j);
        assert r[j] != r[k + 1];
      }
      RemovedRing(old(free), free, r, k + 1);
      FreeNodesRemove(ring, k);
      ring := RemoveAt(ring, k);
    }

    // Puts an item behind the header of the free ring.
    method LinkFront(at: nat)
      requires Ring(free, FreeNodes(ring)) && at !in ring
      modifies this`free, this`ring
      ensures Ring(free, FreeNodes(ring)) && ring == [at] + old(ring)
    {
      ghost var r := FreeNodes(ring);
      Neighbours(free, r, 0);
      InFreeNodes(ring, at);
      var h := free[Header].next;
      free := free[Item(at) := Links(h, Header)];
      free := free[h := Links(free[h].next, Item(at))];
      free := free[Header := Links(Item(at), free[Header].prev)];
      forall j | 0 <= j < |r|
        ensures r[j] in free &&
                free[r[j]] ==
                Links(if j == 0 then Item(at) else Succ(r, j), if r[j] == Succ(r, 0) then Item(at) else Pred(r, j))
      {
        LinkFact(old(free), r, j);
        assert r[j] in r;
      }
      InsertedRing(old(free), free, r, 0, Item(at));
      FreeNodesFront(ring, at);
      ring := [at] + ring;
    }

    // Links a new item behind item i on the address ring.
    method LinkAfter(n: nat, at: nat, ghost s: seq<nat>, ghost i: nat)
      requires Ring(links, s) && i < |s| && s[i] == at && n !in s
      modifies this`links
      ensures Ring(links, InsertAt(s, i + 1, n))
    {
      Neighbours(links, s, i);
      var x := links[at].next;
      links := links[n := Links(x, at)];
      links := links[x := Links(links[x].next, n)];
      links := links[at := Links(n, links[at].prev)];
      forall j | 0 <= j < |s|
        ensures s[j] in links &&
                links[s[j]] == Links(if j == i then n else Succ(s, j), if s[j] == Succ(s, i) then n else Pred(s, j))
      {
        LinkFact(old(links), s, j);
        assert s[j] in s;
        assert j != i ==> s[j] != s[i];
      }
      InsertedRing(old(links), links, s, i, n);
    }

    // Takes item i off the address ring; its neighbours close up.
    method Unlink(at: nat, ghost s: seq<nat>, ghost i: nat)
      requires Ring(links, s) && i < |s| && s[i] == at && |s| > 1
      modifies this`links
      ensures Ring(links, RemoveAt(s, i))
    {
      Neighbours(links, s, i);
      var n, p := links[at].next, links[at].prev;
      links := links[p := Links(n, links[p].prev)];
      links := links[n := Links(links[n].next, p)];
      forall j | 0 <= j < |s| && j != i
        ensures s[j] in links && links[s[j]] == Links(if Succ(s, j) == at then Succ(s, i) else Succ(s, j),
                                                       if Pred(s, j) == at then Pred(s, i) else Pred(s, j))
      {
        LinkFact(old(links), s, j);
        MutualNeighbours(s, i, j);
        assert s[j] != s[i];
      }
      RemovedRing(old(links), links, s, i);
    }

    // rt_memheap_alloc
    method Alloc(size: u32) returns (p: Ptr, ghost i: nat, ghost k: nat)
      requires Valid()
      modifies this
      ensures Valid() && ram == old(ram)
      ensures p == Null <==> Size(size) >= old(available) || NoneRoomy(old(blocks), old(ring), Size(size))
      ensures p == Null ==> blocks == old(blocks) && ring == old(ring)
      ensures p.At? ==> i < |old(blocks)| && Allocated(old(blocks), old(ring), Size(size), i, k, blocks, ring)
      ensures p.At? ==> p.addr == start + old(blocks)[i].at + HDR
      // no item before it on the free ring was large enough
      ensures p.At? ==>
                && k < |old(ring)| && old(ring)[k] == old(blocks)[i].at
                && forall m, j :: 0 <= m < k && 0 <= j < |old(blocks)| && old(blocks)[j].at == old(ring)[m] ==>
                     old(blocks)[j].used || old(blocks)[j].end - old(blocks)[j].at - 24 < Size(size)
      // the rest of a large item stays free, at the front of the free ring
      ensures p.At? ==>
                && HandsOut(old(blocks), 24, i, Size(size), blocks)
                && ring == (if |blocks| > |old(blocks)| then [blocks[i].end] else [])
                           + old(ring)[..k] + old(ring)[k + 1..]
                && available == old(available) - (blocks[i].end - blocks[i].at - 24)
                                - (if |blocks| > |old(blocks)| then 24 else 0)
      ensures available == old(available) - (if p.At? then TakenData(old(blocks)[i], Size(size)) else 0)
      ensures maxUsed == Raised(old(maxUsed), poolSize - available)
    {
      hide TakenData;
      hide Layout, Flags, Coalesced, RingMatches, FreeNodes, FreeData, RoomyAt, Take, TakeRing, TakenEnd, Starts;
      p, i, k := Null, 0, 0;
      var want := Align4(size);
      if want < MIN_DATA { want := MIN_DATA; }
      if want < available {
        ghost var bs, rg := blocks, ring;
        var freeSize := 0;
        FirstFreeNode(free, rg);
        var node := free[Header].next;
        while node != Header && freeSize < want
          invariant blocks == bs && ring == rg && Valid() && maxUsed == old(maxUsed) && ram == old(ram) &&
                    available == old(available)
          invariant k <= |rg| && node == if k < |rg| then Item(rg[k]) else Header
          invariant forall j :: 0 <= j < k ==> !RoomyAt(bs, rg[j], want)
          invariant freeSize >= want ==>
                      k < |rg| && i < |bs| && bs[i].at == rg[k] && Room(bs[i], HDR, want) &&
                      freeSize == bs[i].end - bs[i].at - HDR
          decreases |rg| - k, want - freeSize
        {
          i := ItemOnRing(bs, rg, k);
          ItemFacts(used, links, bs, top, i);
          RoomyIff(bs, top, i, want);
          var at := node.at;
          freeSize := links[at].next - at - HDR;
          if freeSize < want {
            NextFreeNode(free, rg, k);
            node := free[node].next;
            k := k + 1;
          }
        }
        if freeSize >= want {
          RoomyIff(bs, top, i, want);
          TakeItem(node.at, freeSize, want, i, k);
          AllocatedMeans(bs, rg, want, i, k, blocks, ring);
          p := At(start + node.at + HDR);
        }
      }
    }

    // The two rings when item i gives its front `want` bytes away.
    method SplitItem(at: nat, want: nat, ghost i: nat, ghost k: nat)
      requires Core() && RingMatches(blocks, ring) && i < |blocks| && blocks[i].at == at && Room(blocks[i], HDR, want)
      requires TakenEnd(blocks[i], HDR, want) < blocks[i].end && k < |ring| && ring[k] == at
      modifies this`used, this`links, this`free, this`ring
      ensures used == old(used)[TakenEnd(blocks[i], HDR, want) := false]
      ensures Ring(links, Starts(Take(blocks, HDR, i, want), top)) && Ring(free, FreeNodes(ring))
      ensures ring == TakeRing(old(ring), k, blocks[i], want)
    {
      hide Layout, Flags, RingMatches, FreeNodes, Take, Starts, Distinct, Ring;
      ghost var rg := ring;
      ItemFacts(used, links, blocks, top, i);
      RingDistinct(free, rg);
      var cut := at + want + HDR;
      used := used[cut := false];
      InsideIsNoStart(blocks, HDR, top, i, cut);
      LinkAfter(cut, at, Starts(blocks, top), i);
      TakeSplitStarts(blocks, top, i, want);
      UnlinkFree(at, k);
      NotOnRing(blocks, rg, top, i, k, cut);
      LinkFront(cut);
    }

    // The part of rt_memheap_alloc that takes the item found.
    method TakeItem(at: nat, freeSize: nat, want: nat, ghost i: nat, ghost k: nat)
      requires Valid() && i < |blocks| && blocks[i].at == at && Room(blocks[i], HDR, want) && want % 4 == 0
      requires freeSize == blocks[i].end - at - HDR && k < |ring| && ring[k] == at
      modifies this
      ensures Valid() && ram == old(ram)
      ensures blocks == Take(old(blocks), HDR, i, want) && ring == TakeRing(old(ring), k, old(blocks)[i], want)
      ensures HandsOut(old(blocks), 24, i, want, blocks)
      ensures available == old(available) - TakenData(old(blocks)[i], want) &&
              maxUsed == Raised(old(maxUsed), poolSize - available)
    {
      hide Layout, Flags, Coalesced, RingMatches, FreeNodes, FreeData, Take, Starts, Distinct, Ring, Tiles,
           HandsOut;
      ghost var bs, rg := blocks, ring;
      ItemFacts(used, links, bs, top, i);
      RingDistinct(free, rg);
      TakeLayout(bs, HDR, top, i, want);
      TakeMatches(bs, rg, top, i, want, k);
      TakeHandsOut(bs, HDR, i, want);
      TakeFreeData(bs, top, i, want);
      TakeFlags(used, bs, top, i, want);
      BytesConserved(Take(bs, HDR, i, want), HDR, 0, top);
      if freeSize >= want + HDR + MIN_DATA {
        SplitItem(at, want, i, k);
        available := available - want - HDR;
        if poolSize - available > maxUsed { maxUsed := poolSize - available; }
      } else {
        TakeWholeStarts(bs, top, i, want);
        available := available - freeSize;
        if poolSize - available > maxUsed { maxUsed := poolSize - available; }
        UnlinkFree(at, k);
      }
      used := used[at := true];
      assert ring == TakeRing(rg, k, bs[i], want);
      blocks := Take(bs, HDR, i, want);
    }

    // Item p absorbs item p + 1 on the address ring; both are free.
    method JoinNext(n: nat, ghost p: nat)
      requires Core() && p + 1 < |blocks| && blocks[p + 1].at == n && !blocks[p].used
      modifies this`links, this`blocks
      ensures Core() && blocks == MergeAt(old(blocks), p)
    {
      hide Layout, Flags, FreeNodes, Ring, MergeAt, Starts, Tiles;
      ghost var bs := blocks;
      ItemFacts(used, links, bs, top, p + 1);
      ItemFacts(used, links, bs, top, p);
      Unlink(n, Starts(bs, top), p + 1);
      StartsMerge(bs, top, p);
      MergedLayout(bs, used, top, p);
      blocks := MergeAt(bs, p);
    }

    // rt_memheap_free of item i.
    method Free(ptr: Ptr, ghost i: nat)
      requires Valid()
      requires ptr.At? ==> i < |blocks| && blocks[i].used && ptr.addr == start + blocks[i].at + HDR
      modifies this
      ensures Valid() && ram == old(ram) && maxUsed == old(maxUsed)
      ensures ptr == Null ==> blocks == old(blocks) && ring == old(ring)
      ensures ptr.At? ==> Exchanged(old(blocks), [old(blocks)[i]], [], blocks)
      ensures ptr.At? ==> ring == FreedRing(old(blocks), old(ring), i)
    {
      hide RemoveAt, Without, PlugBlock, PlugLeft, Layout, Flags, FreeNodes, Ring, MergeAt, Starts, Tiles, Unuse,
           Coalesced, RingMatches, FreeData, Exchanged, Plug, FreedRing, Distinct;
      if ptr == Null { return; }
      ghost var bs, rg, u := blocks, ring, Unuse(blocks, i);
      ghost var kr := 0;
      if RightFree(bs, i) { kr := RingIndex(bs, rg, i + 1); }
      RingDistinct(free, rg);
      FreedPool(bs, rg, top, i, kr);
      FreedRingSteps(bs, rg, i, kr);
      UnuseNear(bs, i);
      UnusedCore(used, links, bs, top, i);
      var item := ptr.addr - start - HDR;
      var insert;
      used := used[item := false];
      available := available + (links[item].next - item - HDR);
      blocks := u;
      item, insert := AbsorbLeft(item, i);
      AbsorbRight(item, u, i, kr);
      if insert { LinkFront(item); }
    }

    // The first half of the merging in rt_memheap_free: with the previous neighbour.
    method AbsorbLeft(item: nat, ghost i: nat) returns (at: nat, insert: bool)
      requires Core() && i < |blocks| && !blocks[i].used && blocks[i].at == item
      modifies this`links, this`blocks, this`available
      ensures Core() && blocks == PlugLeft(old(blocks), i) && at == old(blocks)[PlugLo(old(blocks), i)].at
      ensures insert <==> !LeftFree(old(blocks), i)
      ensures available == old(available) + if LeftFree(old(blocks), i) then HDR else 0
    {
      hide Layout, Flags, FreeNodes, Ring, MergeAt, Starts;
      ghost var bs := blocks;
      ItemFacts(used, links, bs, top, i);
      if i > 0 { ItemFacts(used, links, bs, top, i - 1); }
      at, insert := item, true;
      if !used[links[item].prev] {
        available := available + HDR;
        at := links[item].prev;
        JoinNext(item, i - 1);
        insert := false;
      }
    }

    // The second half of rt_memheap_free: merge with the next neighbour.
    method AbsorbRight(item: nat, ghost u: seq<Block>, ghost i: nat, ghost kr: nat)
      requires Core() && i < |u| && !u[i].used && blocks == PlugLeft(u, i) && item == u[PlugLo(u, i)].at
      requires RightFree(u, i) ==> kr < |ring| && ring[kr] == u[i + 1].at
      modifies this`links, this`blocks, this`free, this`ring, this`available
      ensures Core() && blocks == Plug(u, i)
      ensures ring == if RightFree(u, i) then RemoveAt(old(ring), kr) else old(ring)
      ensures available == old(available) + if RightFree(u, i) then HDR else 0
    {
      hide Layout, Flags, FreeNodes, Ring, MergeAt, Starts, PlugLeft, Plug;
      LeftFacts(used, links, u, blocks, top, i);
      PlugLeftThenRight(u, i);
      if !used[links[item].next] {
        available := available + HDR;
        var next := links[item].next;
        JoinNext(next, PlugLo(u, i));
        UnlinkFree(next, kr);
      }
    }

    // Links a free item behind the used item i, at n data bytes.
    method CutItem(item: nat, n: nat, ghost i: nat)
      requires Core() && i < |blocks| && blocks[i].used && blocks[i].at == item
      requires n % 4 == 0 && item + HDR + n + HDR <= blocks[i].end
      modifies this`used, this`links, this`blocks
      ensures Core() && blocks == Cut(old(blocks), HDR, i, n)
    {
      hide Layout, Flags, FreeNodes, Ring, Starts, Cut;
      ghost var bs := blocks;
      ItemFacts(used, links, bs, top, i);
      CutCore(used, bs, top, i, n);
      used := used[item + HDR + n := false];
      LinkAfter(item + HDR + n, item, Starts(bs, top), i);
      blocks := Cut(bs, HDR, i, n);
    }

    // rt_memheap_realloc, growing into the free item behind.
    method GrowItem(item: nat, n: nat, oldsize: nat, ghost i: nat)
      requires Valid() && i < |blocks| && RightFree(blocks, i) && blocks[i].used && blocks[i].at == item && n % 4 == 0
      requires oldsize == blocks[i].end - item - HDR < n && item + HDR + n + HDR <= blocks[i + 1].end
      modifies this
      ensures Valid() && ram == old(ram)
      ensures blocks == Grow(old(blocks), i, n)
      ensures Exchanged(old(blocks), [old(blocks)[i]], [Block(item, item + HDR + n, true)], blocks)
      ensures ring == [item + HDR + n] + Without(old(ring), old(blocks)[i + 1].at)
      ensures maxUsed == Raised(old(maxUsed), poolSize - available)
    {
      hide Layout, Flags, FreeNodes, Ring, Starts, Cut, Swallow, Coalesced, RingMatches, FreeData, Distinct,
           Exchanged, Tiles;
      ghost var bs, rg := blocks, ring;
      ghost var kr := RingIndex(bs, rg, i + 1);
      ItemFacts(used, links, bs, top, i);
      ItemFacts(used, links, bs, top, i + 1);
      RingDistinct(free, rg);
      WithoutIsRemove(rg, kr);
      GrownPool(bs, rg, top, i, n, kr);
      BytesConservedIn(Grow(bs, i, n), bs, top, i, n);
      var next := links[item].next;
      available := available - (n - oldsize);
      if poolSize - available > maxUsed { maxUsed := poolSize - available; }
      MoveRoom(item, next, n, i, kr);
    }

    // The links when item i grows into the free item behind, and what is left of that
    // becomes a new free item.
    method MoveRoom(item: nat, next: nat, n: nat, ghost i: nat, ghost kr: nat)
      requires Core() && i < |blocks| && RightFree(blocks, i) && blocks[i].used && blocks[i].at == item && n % 4 == 0
      requires blocks[i].end < item + HDR + n && item + HDR + n + HDR <= blocks[i + 1].end && next == blocks[i + 1].at
      requires kr < |ring| && ring[kr] == next && item + HDR + n !in RemoveAt(ring, kr)
      modifies this`used, this`links, this`blocks, this`free, this`ring
      ensures Core() && blocks == Grow(old(blocks), i, n)
      ensures ring == [item + HDR + n] + RemoveAt(old(ring), kr)
    {
      hide Layout, Flags, FreeNodes, Ring, Starts, Cut, Swallow;
      ghost var bs := blocks;
      ItemFacts(used, links, bs, top, i + 1);
      UnlinkFree(next, kr);
      Unlink(next, Starts(bs, top), i + 1);
      SwallowCore(used, bs, top, i);
      blocks := Swallow(bs, i);
      CutItem(item, n, i);
      LinkFront(item + HDR + n);
    }

    // Splits the tail at p2 off item i, and merges it with a free item behind.
    method CutTail(item: nat, p2: nat, n: nat, ghost i: nat, ghost kr: nat)
      requires Core() && i < |blocks| && blocks[i].used && blocks[i].at == item && n % 4 == 0
      requires p2 == item + HDR + n && p2 + HDR <= blocks[i].end
      requires RightFree(blocks, i) ==>
        && kr < |ring| && ring[kr] == blocks[i + 1].at
        && blocks[i + 1].end - blocks[i + 1].at - HDR <= available
      modifies this`used, this`links, this`blocks, this`free, this`ring, this`available
      ensures Core() && blocks == Plug(Cut(old(blocks), HDR, i, n), i + 1)
      ensures ring == if RightFree(old(blocks), i) then RemoveAt(old(ring), kr) else old(ring)
      ensures available == old(available) -
        if RightFree(old(blocks), i) then old(blocks)[i + 1].end - old(blocks)[i + 1].at - HDR else 0
    {
      hide Layout, Flags, FreeNodes, Ring, Starts, Cut, Plug, MergeAt;
      ghost var bs := blocks;
      CutPlug(bs, i, n);
      ItemFacts(used, links, bs, top, i);
      ItemFacts(used, links, bs, top, i + 1);
      CutItem(item, n, i);
      ItemFacts(used, links, blocks, top, i + 1);
      ItemFacts(used, links, blocks, top, i + 2);
      var next := links[p2].next;
      if !used[next] {
        available := available - (links[next].next - next - HDR);
        JoinNext(next, i + 1);
        UnlinkFree(next, kr);
      }
    }

    // rt_memheap_realloc, splitting the tail off item i.
    method ShrinkItem(item: nat, n: nat, ghost i: nat)
      requires Valid() && i < |blocks| && blocks[i].used && blocks[i].at == item && n % 4 == 0
      requires item + HDR + n + HDR <= blocks[i].end
      modifies this
      ensures Valid() && ram == old(ram) && maxUsed == old(maxUsed)
      ensures blocks == Plug(Cut(old(blocks), HDR, i, n), i + 1) && ring == CutRing(old(blocks), old(ring), i, n)
      ensures Exchanged(old(blocks), [old(blocks)[i]], [Block(item, item + HDR + n, true)], blocks)
    {
      hide MergeAt, RemoveAt, Without, PlugBlock, Layout, Flags, FreeNodes, Ring, Starts, Cut, Plug, Coalesced,
           RingMatches, FreeData, Distinct, Exchanged, Tiles;
      ghost var bs, rg := blocks, ring;
      ghost var kr := 0;
      if RightFree(bs, i) {
        kr := RingIndex(bs, rg, i + 1);
        FreeDataAtLeast(bs, HDR, top, i + 1);
        WithoutIsRemoveIf(free, rg, kr);
      }
      RingDistinct(free, rg);
      CutPool(bs, rg, top, i, n, kr);
      CutPlug(bs, i, n);
      ItemFacts(used, links, bs, top, i);
      var p2 := item + HDR + n;
      CutTail(item, p2, n, i, kr);
      AddFree(p2, i + 1);
    }

    // Puts the free item i, on no ring yet, on the free ring and accounts for it.
    method AddFree(item: nat, ghost i: nat)
      requires Core() && i < |blocks| && blocks[i].at == item && item !in ring
      modifies this`free, this`ring, this`available
      ensures Core() && ring == [item] + old(ring) && available == old(available) + (blocks[i].end - item - HDR)
    {
      hide Layout, Flags, FreeNodes, Ring, Starts;
      ItemFacts(used, links, blocks, top, i);
      LinkFront(item);
      available := available + (links[item].next - item - HDR);
    }

    // What a successful move of item i leaves behind: the new item, taken from item j at
    // place k of the free ring, the old one freed, the data copied.
    ghost predicate Moved(bs: seq<Block>, rg: seq<nat>, r: seq<bv8>, i: nat, want: nat, j: nat, k: nat, p: Ptr)
      reads this
    {
      && i < |bs| && j < |bs| && p == At(start + bs[j].at + HDR)
      && MovedItems(bs, rg, want, i, j, k, blocks, ring)
      && Copied(r, HDR, bs[i].at, ram, bs[j].at, bs[i].end - bs[i].at - HDR)
    }

    // Copies n data bytes from the item at `src` into the newly taken item nb.
    method CopyUser(dst: nat, src: nat, n: nat, ghost bs: seq<Block>, ghost nb: Block)
      requires Valid() && Layout(bs, HDR, top) && nb.at == dst && dst + HDR + n <= nb.end <= top && src + HDR + n <= top
      requires forall x: Block :: x in bs && x.used ==> x.end <= nb.at || nb.end <= x.at
      requires dst + HDR + n <= src || src + HDR + n <= dst
      modifies this`ram
      ensures Valid() && KeepsData(bs, HDR, old(ram), ram) && Copied(old(ram), HDR, src, ram, dst, n)
    {
      hide Layout, Coalesced, KeepsData, Copied, Flags, Ring, RingMatches, FreeData;
      ram := CopyBytes(ram, dst + HDR, src + HDR, n);
      CopySpares(bs, HDR, top, nb, old(ram), ram, n);
      CopyIsCopied(old(ram), HDR, src, ram, dst, n);
    }

    // rt_memheap_realloc, allocating elsewhere.
    method Move(ptr: nat, oldsize: nat, want: u32, ghost i: nat) returns (p: Ptr, ghost j: nat, ghost k: nat)
      requires Valid() && i < |blocks| && blocks[i].used && ptr == start + blocks[i].at + HDR
      requires oldsize == blocks[i].end - blocks[i].at - HDR && oldsize < want && want % 4 == 0 && want >= MIN_DATA
      modifies this
      ensures Valid()
      ensures p == Null <==> want >= old(available) || NoneRoomy(old(blocks), old(ring), want)
      ensures p == Null ==> blocks == old(blocks) && ring == old(ring) && ram == old(ram)
      ensures KeepsBoth(old(blocks), HDR, blocks, old(ram), ram)
      ensures p.At? ==> j < |old(blocks)| && p != At(ptr) && Moved(old(blocks), old(ring), old(ram), i, want, j, k, p)
      ensures p.At? ==> maxUsed == Raised(old(maxUsed), poolSize - old(available) + TakenData(old(blocks)[j], want))
      ensures p == Null ==> maxUsed == old(maxUsed) && available == old(available)
      ensures p.At? ==> HoldsPrefix(blocks, 24, oldsize, want, old(ram), ptr - start, ram, p.addr - start)
    {
      hide Layout, Flags, FreeNodes, Ring, Starts, Coalesced, RingMatches, FreeData, Exchanged, KeepsBoth, KeepsData,
           Copied, Take, FirstRoomy, FreedRing, NoneRoomy, HoldsPrefix, HandsOut;
      hide MovedItems, TakenData, RemoveAt, MergeAt;
      ghost var bs, r := blocks, ram;
      KeepsDataReflexive(bs, HDR, r);
      KeptIsBoth(bs, HDR, r, r);
      AlignedSize(want);
      p, j, k := Alloc(want);
      if p != Null {
        ghost var bs1, rg1, nb := blocks, ring, Block(bs[j].at, TakenEnd(bs[j], HDR, want), true);
        TookItem(bs, ring, old(ring), top, j, k, want);
        StartsDiffer(bs, HDR, top, i, bs[j]);
        ghost var i1 := TakeShift(bs, HDR, top, j, want, i);
        BlockBounds(bs, HDR, top, i);
        CopyUser(p.addr - start - HDR, ptr - start - HDR, if oldsize < want then oldsize else want, bs, nb);
        ghost var r2 := ram;
        Free(At(ptr), i1);
        MovedIs(bs, old(ring), want, i, j, k, bs1, rg1, i1, blocks);
        KeepsDataReflexive(blocks, HDR, r2);
        MoveKeeps(bs, HDR, bs1, blocks, bs[i], nb, oldsize, r, r2, ram);
        AddedIn(bs, nb, bs1);
        StaysIn(bs1, bs[i], nb, blocks);
        CopiedPiece(blocks, nb, bs[i].at, oldsize, want, r, ram);
      }
    }

    // The part of rt_memheap_realloc that gives item i, in use, n data bytes.
    method Resize(ptr: nat, n: u32, ghost i: nat) returns (p: Ptr, ghost j: nat, ghost k: nat)
      requires Valid() && i < |blocks| && blocks[i].used && ptr == start + blocks[i].at + HDR
      requires n % 4 == 0 && n >= MIN_DATA
      modifies this
      ensures Valid()
      ensures KeepsBoth(old(blocks), HDR, blocks, old(ram), ram)
      ensures p == Null || p == At(ptr) ==> maxUsed == Raised(old(maxUsed), poolSize - available)
      ensures p.At? && p != At(ptr) ==>
                && j < |old(blocks)|
                && maxUsed == Raised(old(maxUsed), poolSize - old(available) + TakenData(old(blocks)[j], n))
      ensures var bs := old(blocks);
              var b := bs[i];
              var oldsize := b.end - b.at - 24;
              if n > oldsize && RightFree(bs, i) && (bs[i + 1].end - bs[i + 1].at - 24) + oldsize > n + 12 then
                && p == At(ptr) && ram == old(ram) && blocks == Grow(bs, i, n)
                && Exchanged(bs, [b], [Block(b.at, b.at + HDR + n, true)], blocks)
                && ring == [b.at + HDR + n] + Without(old(ring), bs[i + 1].at)
              else if n > oldsize then
                && (p == Null <==> n >= old(available) || NoneRoomy(bs, old(ring), n))
                && (p == Null ==> blocks == bs && ring == old(ring) && ram == old(ram))
                && (p.At? ==> Moved(bs, old(ring), old(ram), i, n, j, k, p))
              else if n + 36 >= oldsize then
                p == At(ptr) && blocks == bs && ring == old(ring) && ram == old(ram)
              else
                && p == At(ptr) && ram == old(ram) && blocks == Plug(Cut(bs, HDR, i, n), i + 1)
                && Exchanged(bs, [b], [Block(b.at, b.at + HDR + n, true)], blocks)
                && ring == CutRing(bs, old(ring), i, n)
      ensures p.At? ==>
                HoldsPrefix(blocks, 24, old(blocks)[i].end - old(blocks)[i].at - 24, n, old(ram), ptr - start,
                            ram, p.addr - start)
    {
      hide Layout, Flags, FreeNodes, Ring, Starts, Coalesced, RingMatches, FreeData, Exchanged, KeepsBoth, KeepsData,
           Copied;
      hide Take, FirstRoomy, FreedRing, NoneRoomy, Allocated, Moved, Grow, Plug, Cut, CutRing, Without, TakenData,
           MergeAt, RemoveAt, HoldsPrefix, HandsOut;
      ghost var bs, r := blocks, ram;
      p, j, k := At(ptr), 0, 0;
      SameBytes(r);
      var item := ptr - start - HDR;
      ItemFacts(used, links, bs, top, i);
      ItemFacts(used, links, bs, top, i + 1);
      var oldsize := links[item].next - item - HDR;
      if n > oldsize {
        var next := links[item].next;
        if !used[next] {
          var nextsize := links[next].next - next - HDR;
          if nextsize + oldsize > n + MIN_DATA {
            GrowItem(item, n, oldsize, i);
            KeptPiece(bs, bs[i], n, blocks, r);
            return;
          }
        }
        p, j, k := Move(ptr, oldsize, n, i);
        return;
      }
      if n + HDR + MIN_DATA >= oldsize {
        KeepsDataReflexive(bs, HDR, r);
        SamePiece(bs, HDR, bs[i], oldsize, n, r, r);
        return;
      }
      ShrinkItem(item, n, i);
      KeptPiece(bs, bs[i], n, blocks, r);
    }

    // rt_memheap_realloc of item i.
    method Realloc(ptr: Ptr, newsize: u32, ghost i: nat) returns (p: Ptr, ghost j: nat, ghost k: nat)
      requires Valid()
      requires ptr.At? ==> i < |blocks| && blocks[i].used && ptr.addr == start + blocks[i].at + HDR
      modifies this
      ensures Valid()
      ensures KeepsBoth(old(blocks), HDR, blocks, old(ram), ram)
      // max_used_size counts the bytes used at the end, or just after a new item was taken
      ensures p == Null || p == ptr ==> maxUsed == Raised(old(maxUsed), poolSize - available)
      ensures p.At? && p != ptr ==>
                && j < |old(blocks)|
                && maxUsed == Raised(old(maxUsed), poolSize - old(available) + TakenData(old(blocks)[j], Size(newsize)))
      // size zero frees
      ensures newsize == 0 ==> p == Null && ram == old(ram)
      ensures newsize == 0 && ptr == Null ==> blocks == old(blocks) && ring == old(ring)
      ensures newsize == 0 && ptr.At? ==>
                Exchanged(old(blocks), [old(blocks)[i]], [], blocks) && ring == FreedRing(old(blocks), old(ring), i)
      // no item yet: like alloc
      ensures newsize != 0 && ptr == Null ==>
                && (p == Null <==> Size(newsize) >= old(available) || NoneRoomy(old(blocks), old(ring), Size(newsize)))
                && (p == Null ==> blocks == old(blocks) && ring == old(ring))
                && (p.At? ==>
                      Allocated(old(blocks), old(ring), Size(newsize), j, k, blocks, ring) &&
                      p.addr == start + old(blocks)[j].at + HDR)
      ensures newsize != 0 && ptr.At? ==>
                var bs, n := old(blocks), Size(newsize);
                var b := bs[i];
                var oldsize := b.end - b.at - 24;
                if n > oldsize && RightFree(bs, i) && (bs[i + 1].end - bs[i + 1].at - 24) + oldsize > n + 12 then
                  && p == ptr && ram == old(ram) && blocks == Grow(bs, i, n)
                  && Exchanged(bs, [b], [Block(b.at, b.at + HDR + n, true)], blocks)
                  && ring == [b.at + HDR + n] + Without(old(ring), bs[i + 1].at)
                else if n > oldsize then
                  && (p == Null <==> n >= old(available) || NoneRoomy(bs, old(ring), n))
                  && (p == Null ==> blocks == bs && ring == old(ring) && ram == old(ram))
                  && (p.At? ==> Moved(bs, old(ring), old(ram), i, n, j, k, p))
                else if n + 36 >= oldsize then
                  p == ptr && blocks == bs && ring == old(ring) && ram == old(ram)
                else
                  && p == ptr && ram == old(ram) && blocks == Plug(Cut(bs, HDR, i, n), i + 1)
                  && Exchanged(bs, [b], [Block(b.at, b.at + HDR + n, true)], blocks)
                  && ring == CutRing(bs, old(ring), i, n)
      // whatever happened, the new piece is large enough and begins with the old data
      ensures newsize != 0 && ptr.At? && p.At? ==>
                HoldsPrefix(blocks, 24, old(blocks)[i].end - old(blocks)[i].at - 24, Size(newsize), old(ram),
                            ptr.addr - start, ram, p.addr - start)
    {
      hide Layout, Flags, FreeNodes, Ring, Starts, Coalesced, RingMatches, FreeData, Exchanged, KeepsBoth, KeepsData,
           Copied;
      hide Take, FirstRoomy, FreedRing, NoneRoomy, Allocated, Moved, Grow, Plug, Cut, CutRing, Without, TakenData,
           MergeAt, RemoveAt, HoldsPrefix, HandsOut;
      p, j, k := Null, 0, 0;
      ghost var bs, r := blocks, ram;
      SameBytes(r);
      if newsize == 0 {
        Free(ptr, i);
        return;
      }
      var n := Align4(newsize);
      if n < MIN_DATA { n := MIN_DATA; }
      SizeAligned(newsize);
      AlignedSize(n);
      if ptr == Null {
        p, j, k := Alloc(n);
        return;
      }
      p, j, k := Resize(ptr.addr, n, i);
    }

    // rt_memheap_init: one free item and the tail. The size is not looked at: below two
    // headers available_size wraps, and there is no pool.
    constructor (startAddr: u32, size: u32)
      requires startAddr + size < WORD
      ensures Valid() <==> size / 4 * 4 >= 48
      ensures start == startAddr && poolSize == size / 4 * 4 && available == (poolSize - 48) % WORD && maxUsed == 48
      ensures Valid() ==> blocks == [Block(0, top, false)] && ring == [0]
    {
      var ps := size / 4 * 4;
      var tail := (ps - HDR) % WORD;
      start, poolSize, top := startAddr, ps, tail;
      available, maxUsed := (ps - 2 * HDR) % WORD, 2 * HDR;
      used := map[0 := false][tail := true];
      links := map[0 := Links(tail, tail)][tail := Links(0, 0)];
      free := map[Header := Links(Item(0), Item(0)), Item(0) := Links(Header, Header)];
      ram := seq(ps, _ => 0 as bv8);
      blocks, ring := [Block(0, tail, false)], [0];
      new;
      if top >= HDR { FreshPool(used, links, free, top); }
    }
  }
}
