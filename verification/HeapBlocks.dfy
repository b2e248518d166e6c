// Tilings of a heap by used and free blocks: what both first-fit heaps keep, and
// why the used blocks alone determine the rest.
module HeapBlocks {

  // The smallest data area either heap splits off (MIN_SIZE_ALIGNED, RT_MEMHEAP_MINIALLOC).
  const MIN_DATA: nat := 12

  // A block occupies [at, end); its header sits at the front.
  datatype Block = Block(at: nat, end: nat, used: bool)

  // Consecutive blocks, each with room for its h-byte header, from lo to hi.
  ghost predicate Tiles(bs: seq<Block>, h: nat, lo: nat, hi: nat) {
    && (forall i :: 0 <= i < |bs| ==> lo <= bs[i].at && bs[i].at + h <= bs[i].end <= hi)
    && (forall i :: 0 <= i < |bs| - 1 ==> bs[i].end == bs[i + 1].at)
    && (forall i, j :: 0 <= i < j < |bs| ==> bs[i].end <= bs[j].at)
    && (if bs == [] then lo == hi else bs[0].at == lo && bs[|bs| - 1].end == hi)
  }

  // No two neighbours are both free.
  ghost predicate Coalesced(bs: seq<Block>) {
    forall i :: 0 <= i < |bs| - 1 ==> bs[i].used || bs[i + 1].used
  }

  ghost predicate SameUsed(a: seq<Block>, b: seq<Block>) {
    forall x: Block :: x.used ==> (x in a <==> x in b)
  }

  // bs' has the used blocks of bs, with `gone` removed and `come` added.
  ghost predicate Exchanged(bs: seq<Block>, gone: seq<Block>, come: seq<Block>, bs': seq<Block>) {
    forall x: Block :: x.used ==> (x in bs' <==> (x in bs && x !in gone) || x in come)
  }

  ghost function UsedBytes(bs: seq<Block>): int {
    if bs == [] then 0 else (if bs[0].used then bs[0].end - bs[0].at else 0) + UsedBytes(bs[1..])
  }

  // `l` is where the first free block at or after `from` starts, or `top` when there is none.
  ghost predicate NextFree(bs: seq<Block>, top: nat, from: nat, l: nat) {
    && (l == top || exists i :: 0 <= i < |bs| && bs[i].at == l && !bs[i].used)
    && from <= l
    && forall i :: 0 <= i < |bs| && !bs[i].used && from <= bs[i].at ==> l <= bs[i].at
  }

  // ---- uniqueness ----

  lemma TilesTail(bs: seq<Block>, h: nat, lo: nat, hi: nat)
    requires bs != [] && Tiles(bs, h, lo, hi)
    ensures Tiles(bs[1..], h, bs[0].end, hi)
    ensures Coalesced(bs) ==> Coalesced(bs[1..])
  {
  }

  lemma TailUsed(a: seq<Block>, b: seq<Block>, h: nat, lo: nat, hi: nat)
    requires a != [] && b != [] && h > 0 && Tiles(a, h, lo, hi) && Tiles(b, h, lo, hi)
    requires a[0] == b[0] && SameUsed(a, b)
    ensures SameUsed(a[1..], b[1..])
  {
    forall x: Block | x.used ensures x in a[1..] <==> x in b[1..] {
      InTail(a, h, lo, hi, x);
      InTail(b, h, lo, hi, x);
    }
  }

  lemma InTail(bs: seq<Block>, h: nat, lo: nat, hi: nat, x: Block)
    requires bs != [] && h > 0 && Tiles(bs, h, lo, hi)
    ensures x in bs[1..] <==> x in bs && x != bs[0]
  {
    if x in bs && x != bs[0] {
      var i :| 0 <= i < |bs| && bs[i] == x;
      assert bs[1..][i - 1] == x;
    }
  }

  // Where the same address starts a block in both, a used block of one is that block of the other.
  lemma UsedHeadMatches(a: seq<Block>, b: seq<Block>, h: nat, lo: nat, hi: nat)
    requires a != [] && h > 0 && Tiles(a, h, lo, hi) && Tiles(b, h, lo, hi) && SameUsed(a, b) && a[0].used
    ensures b != [] && b[0] == a[0]
  {
    assert a[0] in b;
    var j :| 0 <= j < |b| && b[j] == a[0];
    assert forall k :: 0 < k < |b| ==> b[0].end <= b[k].at;
  }

  // If the first block of a is free, the first block of b reaches at most as far.
  lemma FreeHeadBound(a: seq<Block>, b: seq<Block>, h: nat, lo: nat, hi: nat)
    requires a != [] && b != [] && h > 0 && Tiles(a, h, lo, hi) && Tiles(b, h, lo, hi)
    requires Coalesced(a) && SameUsed(a, b) && !a[0].used && !b[0].used
    ensures b[0].end <= a[0].end
  {
    if |a| > 1 {
      assert a[0].end == a[1].at && a[1].used && a[1] in a;
      assert a[1] in b;
      var j :| 0 <= j < |b| && b[j] == a[1];
      assert b[0].end <= b[j].at;
    }
  }

  lemma HeadsMatch(a: seq<Block>, b: seq<Block>, h: nat, lo: nat, hi: nat)
    requires a != [] && b != [] && h > 0 && Tiles(a, h, lo, hi) && Tiles(b, h, lo, hi)
    requires Coalesced(a) && Coalesced(b) && SameUsed(a, b)
    ensures a[0] == b[0]
  {
    if a[0].used {
      UsedHeadMatches(a, b, h, lo, hi);
    } else if b[0].used {
      UsedHeadMatches(b, a, h, lo, hi);
    } else {
      FreeHeadBound(a, b, h, lo, hi);
      FreeHeadBound(b, a, h, lo, hi);
    }
  }

  lemma TailsMatch(a: seq<Block>, b: seq<Block>, h: nat, lo: nat, hi: nat)
    requires a != [] && b != [] && h > 0 && Tiles(a, h, lo, hi) && Tiles(b, h, lo, hi)
    requires Coalesced(a) && Coalesced(b) && SameUsed(a, b) && a[0] == b[0]
    ensures Tiles(a[1..], h, a[0].end, hi) && Tiles(b[1..], h, a[0].end, hi)
    ensures Coalesced(a[1..]) && Coalesced(b[1..]) && SameUsed(a[1..], b[1..])
  {
    TilesTail(a, h, lo, hi);
    TilesTail(b, h, lo, hi);
    TailUsed(a, b, h, lo, hi);
  }

  lemma SameHeadAndTail<T>(a: seq<T>, b: seq<T>)
    requires a != [] && b != [] && a[0] == b[0] && a[1..] == b[1..]
    ensures a == b
  {
    assert a == [a[0]] + a[1..] && b == [b[0]] + b[1..];
  }

  // A coalesced tiling is determined by its used blocks.
  lemma {:induction false} TilingUnique(a: seq<Block>, b: seq<Block>, h: nat, lo: nat, hi: nat)
    requires h > 0 && Tiles(a, h, lo, hi) && Tiles(b, h, lo, hi)
    requires Coalesced(a) && Coalesced(b) && SameUsed(a, b)
    ensures a == b
  {
    if a != [] && b != [] {
      HeadsMatch(a, b, h, lo, hi);
      TailsMatch(a, b, h, lo, hi);
      TilingUnique(a[1..], b[1..], h, a[0].end, hi);
      SameHeadAndTail(a, b);
    }
  }

  lemma CoalescedAt(bs: seq<Block>, i: nat)
    requires Coalesced(bs)
    ensures i + 1 < |bs| ==> bs[i].used || bs[i + 1].used
  {
  }

  // With nothing used, one free block covers the heap.
  lemma NothingUsedOneBlock(bs: seq<Block>, h: nat, lo: nat, hi: nat)
    requires 0 < h <= hi - lo && Tiles(bs, h, lo, hi) && Coalesced(bs)
    requires forall x: Block :: x in bs ==> !x.used
    ensures bs == [Block(lo, hi, false)]
  {
    forall i | 0 <= i < |bs| ensures !bs[i].used { assert bs[i] in bs; }
    CoalescedAt(bs, 0);
  }

  // ---- sums ----

  lemma {:induction false} UsedBytesConcat(a: seq<Block>, b: seq<Block>)
    ensures UsedBytes(a + b) == UsedBytes(a) + UsedBytes(b)
  {
    if a == [] {
      assert a + b == b;
    } else {
      assert (a + b)[1..] == a[1..] + b;
      UsedBytesConcat(a[1..], b);
    }
  }

  lemma {:induction false} UsedBytesRange(bs: seq<Block>, h: nat, lo: nat, hi: nat)
    requires Tiles(bs, h, lo, hi)
    ensures 0 <= UsedBytes(bs) <= hi - lo
  {
    if bs != [] {
      TilesTail(bs, h, lo, hi);
      UsedBytesRange(bs[1..], h, bs[0].end, hi);
    }
  }

  lemma UsedBytesSplice(bs: seq<Block>, i: nat, j: nat, mid: seq<Block>)
    requires i <= j <= |bs|
    ensures UsedBytes(bs[..i] + mid + bs[j..]) == UsedBytes(bs) - UsedBytes(bs[i..j]) + UsedBytes(mid)
  {
    UsedBytesConcat(bs[..i] + mid, bs[j..]);
    UsedBytesConcat(bs[..i], mid);
    assert bs == bs[..i] + bs[i..j] + bs[j..];
    UsedBytesConcat(bs[..i] + bs[i..j], bs[j..]);
    UsedBytesConcat(bs[..i], bs[i..j]);
  }

  // ---- rewriting part of a tiling ----

  // bs' is bs with mid in place of the blocks i..j, told index by index.
  ghost predicate Spliced(bs: seq<Block>, i: nat, j: nat, mid: seq<Block>, bs': seq<Block>) {
    && i <= j <= |bs| && |bs'| == |bs| - (j - i) + |mid|
    && forall k {:trigger bs'[k]} :: 0 <= k < |bs'| ==>
         bs'[k] == if k < i then bs[k] else if k < i + |mid| then mid[k - i] else bs[k - i - |mid| + j]
  }

  lemma SpliceIndex(bs: seq<Block>, i: nat, j: nat, mid: seq<Block>, k: nat)
    requires i <= j <= |bs| && k < |bs[..i] + mid + bs[j..]|
    ensures (bs[..i] + mid + bs[j..])[k] ==
            if k < i then bs[k] else if k < i + |mid| then mid[k - i] else bs[k - i - |mid| + j]
  {
  }

  lemma SpliceIs(bs: seq<Block>, i: nat, j: nat, mid: seq<Block>)
    requires i <= j <= |bs|
    ensures Spliced(bs, i, j, mid, bs[..i] + mid + bs[j..])
  {
    forall k | 0 <= k < |bs[..i] + mid + bs[j..]|
      ensures (bs[..i] + mid + bs[j..])[k] ==
              if k < i then bs[k] else if k < i + |mid| then mid[k - i] else bs[k - i - |mid| + j]
    {
      SpliceIndex(bs, i, j, mid, k);
    }
  }

  // Putting another tiling of the same interval in place of the blocks i..j.
  lemma SpliceTiles(bs: seq<Block>, h: nat, lo: nat, hi: nat, i: nat, j: nat, mid: seq<Block>)
    requires Tiles(bs, h, lo, hi) && i < j <= |bs| && mid != []
    requires Tiles(mid, h, bs[i].at, bs[j - 1].end)
    ensures Tiles(bs[..i] + mid + bs[j..], h, lo, hi)
  {
    hide Tiles, Spliced;
    SpliceIs(bs, i, j, mid);
    SplicedTiles(bs, h, lo, hi, i, j, mid, bs[..i] + mid + bs[j..]);
  }

  lemma SplicedTiles(bs: seq<Block>, h: nat, lo: nat, hi: nat, i: nat, j: nat, mid: seq<Block>, bs': seq<Block>)
    requires Tiles(bs, h, lo, hi) && i < j <= |bs| && mid != []
    requires Tiles(mid, h, bs[i].at, bs[j - 1].end) && Spliced(bs, i, j, mid, bs')
    ensures Tiles(bs', h, lo, hi)
  {
    forall k | 0 <= k < |bs'| ensures lo <= bs'[k].at && bs'[k].at + h <= bs'[k].end <= hi {
      SplicedBounds(bs, h, lo, hi, i, j, mid, bs', k);
    }
    forall k | 0 <= k < |bs'| - 1 ensures bs'[k].end == bs'[k + 1].at {
      SplicedJoins(bs, h, lo, hi, i, j, mid, bs', k);
    }
    forall k, l | 0 <= k < l < |bs'| ensures bs'[k].end <= bs'[l].at {
      SplicedOrdered(bs, h, lo, hi, i, j, mid, bs', k, l);
    }
    SplicedEnds(bs, h, lo, hi, i, j, mid, bs');
    hide Spliced;
  }

  lemma SplicedBounds(bs: seq<Block>, h: nat, lo: nat, hi: nat, i: nat, j: nat, mid: seq<Block>, bs': seq<Block>,
      k: nat)
    requires Tiles(bs, h, lo, hi) && i < j <= |bs| && Tiles(mid, h, bs[i].at, bs[j - 1].end)
    requires Spliced(bs, i, j, mid, bs') && k < |bs'|
    ensures lo <= bs'[k].at && bs'[k].at + h <= bs'[k].end <= hi
  {
  }

  lemma SplicedJoins(bs: seq<Block>, h: nat, lo: nat, hi: nat, i: nat, j: nat, mid: seq<Block>, bs': seq<Block>, k: nat)
    requires Tiles(bs, h, lo, hi) && i < j <= |bs| && mid != [] && Tiles(mid, h, bs[i].at, bs[j - 1].end)
    requires Spliced(bs, i, j, mid, bs') && k < |bs'| - 1
    ensures bs'[k].end == bs'[k + 1].at
  {
    var o := k - i - |mid| + j;
    assert k + 1 < i ==> bs[k].end == bs[k + 1].at;
    assert k + 1 == i ==> bs[k].end == bs[i].at;
    assert i <= k && k + 1 < i + |mid| ==> mid[k - i].end == mid[k - i + 1].at;
    assert k + 1 == i + |mid| ==> bs[j - 1].end == bs[j].at;
    assert k >= i + |mid| ==> bs[o].end == bs[o + 1].at;
  }

  lemma SplicedEnds(bs: seq<Block>, h: nat, lo: nat, hi: nat, i: nat, j: nat, mid: seq<Block>, bs': seq<Block>)
    requires Tiles(bs, h, lo, hi) && i < j <= |bs| && mid != [] && Tiles(mid, h, bs[i].at, bs[j - 1].end)
    requires Spliced(bs, i, j, mid, bs')
    ensures bs' != [] && bs'[0].at == lo && bs'[|bs'| - 1].end == hi
  {
    assert bs'[0] == if i > 0 then bs[0] else mid[0];
    assert bs'[|bs'| - 1] == if j < |bs| then bs[|bs| - 1] else mid[|mid| - 1];
  }

  lemma SplicedOrdered(bs: seq<Block>, h: nat, lo: nat, hi: nat, i: nat, j: nat, mid: seq<Block>, bs': seq<Block>,
      k: nat, l: nat)
    requires Tiles(bs, h, lo, hi) && i < j <= |bs| && mid != [] && Tiles(mid, h, bs[i].at, bs[j - 1].end)
    requires Spliced(bs, i, j, mid, bs') && k < l < |bs'|
    ensures bs'[k].end <= bs'[l].at
  {
    var m, n := k - i - |mid| + j, l - i - |mid| + j;
    if k < i {
      assert bs[k].end <= bs[i].at;
      assert l < i ==> bs[k].end <= bs[l].at;
      assert l >= i + |mid| ==> bs[k].end <= bs[n].at;
    } else if k < i + |mid| {
      assert l < i + |mid| ==> mid[k - i].end <= mid[l - i].at;
      assert l >= i + |mid| ==> mid[k - i].end <= bs[j - 1].end <= bs[n].at;
    } else {
      assert bs[m].end <= bs[n].at;
    }
  }

  lemma SpliceMembers(bs: seq<Block>, i: nat, j: nat, mid: seq<Block>, x: Block)
    requires i <= j <= |bs|
    ensures x in bs[..i] + mid + bs[j..] <==> x in bs[..i] || x in mid || x in bs[j..]
    ensures x in bs <==> x in bs[..i] || x in bs[i..j] || x in bs[j..]
  {
    assert bs == bs[..i] + bs[i..j] + bs[j..];
  }

  // Distinct positions hold distinct blocks.
  lemma BlocksDiffer(bs: seq<Block>, h: nat, lo: nat, hi: nat, i: nat, j: nat, x: Block)
    requires h > 0 && Tiles(bs, h, lo, hi) && i <= j <= |bs| && x in bs[i..j]
    ensures x !in bs[..i] && x !in bs[j..]
  {
    var k :| i <= k < j && bs[k] == x;
    forall l | 0 <= l < i ensures bs[l] != x { assert bs[l].end <= bs[k].at; }
    forall l | j <= l < |bs| ensures bs[l] != x { assert bs[k].end <= bs[l].at; }
  }

  // The used blocks after a splice.
  lemma SpliceExchanges(bs: seq<Block>, h: nat, lo: nat, hi: nat, i: nat, j: nat, mid: seq<Block>)
    requires h > 0 && Tiles(bs, h, lo, hi) && i <= j <= |bs|
    ensures Exchanged(bs, bs[i..j], mid, bs[..i] + mid + bs[j..])
  {
    forall x: Block | x.used
      ensures x in bs[..i] + mid + bs[j..] <==> (x in bs && x !in bs[i..j]) || x in mid
    {
      SpliceMembers(bs, i, j, mid, x);
      if x in bs[i..j] { BlocksDiffer(bs, h, lo, hi, i, j, x); }
    }
  }

  // Only the two joints need checking when the middle of a coalesced tiling is replaced.
  lemma SpliceCoalesced(bs: seq<Block>, i: nat, j: nat, mid: seq<Block>)
    requires Coalesced(bs) && Coalesced(mid) && i < j <= |bs| && mid != []
    requires i > 0 ==> bs[i - 1].used || mid[0].used
    requires j < |bs| ==> mid[|mid| - 1].used || bs[j].used
    ensures Coalesced(bs[..i] + mid + bs[j..])
  {
    var bs' := bs[..i] + mid + bs[j..];
    forall k | 0 <= k < |bs'| - 1 ensures bs'[k].used || bs'[k + 1].used {
      SpliceIndex(bs, i, j, mid, k);
      SpliceIndex(bs, i, j, mid, k + 1);
    }
  }

  // ==== operations on tilings with h-byte headers ====

  ghost predicate Aligned(bs: seq<Block>) {
    forall i :: 0 <= i < |bs| ==> bs[i].at % 4 == 0
  }

  // The tiling [0, top) with blocks aligned to four bytes.
  ghost predicate Layout(bs: seq<Block>, h: nat, top: nat) {
    Tiles(bs, h, 0, top) && bs != [] && Aligned(bs) && 0 < h && h % 4 == 0
  }

  lemma BlockBounds(bs: seq<Block>, h: nat, top: nat, i: nat)
    requires Layout(bs, h, top)
    ensures i < |bs| ==> bs[i].at + h <= bs[i].end <= top && (i > 0 ==> bs[i - 1].end <= bs[i].at)
  {
  }

  lemma BlocksOrdered(bs: seq<Block>, h: nat, top: nat, i: nat, j: nat)
    requires Layout(bs, h, top)
    ensures i < j < |bs| ==> bs[i].end <= bs[j].at
  {
  }

  // The used blocks determine the layout.
  lemma LayoutUnique(a: seq<Block>, b: seq<Block>, h: nat, top: nat)
    requires Layout(a, h, top) && Layout(b, h, top) && Coalesced(a) && Coalesced(b) && SameUsed(a, b)
    ensures a == b
  {
    hide Tiles, Coalesced, SameUsed;
    TilingUnique(a, b, h, 0, top);
  }

  lemma SpliceLayout(bs: seq<Block>, h: nat, top: nat, i: nat, j: nat, mid: seq<Block>)
    requires Layout(bs, h, top) && i < j <= |bs| && mid != []
    requires Tiles(mid, h, bs[i].at, bs[j - 1].end) && Aligned(mid)
    ensures Layout(bs[..i] + mid + bs[j..], h, top)
  {
    SpliceTiles(bs, h, 0, top, i, j, mid);
  }

  predicate Room(b: Block, h: nat, want: nat) {
    !b.used && b.end - b.at - h >= want
  }

  // The block taken is split when the remainder can hold a header and a minimum block.
  function TakenEnd(b: Block, h: nat, want: nat): nat {
    if b.end - b.at - h >= want + h + MIN_DATA then b.at + h + want else b.end
  }

  function TakenParts(b: Block, h: nat, want: nat): seq<Block> {
    var e := TakenEnd(b, h, want);
    [Block(b.at, e, true)] + if e < b.end then [Block(e, b.end, false)] else []
  }

  function Take(bs: seq<Block>, h: nat, i: nat, want: nat): seq<Block>
    requires i < |bs|
  {
    bs[..i] + TakenParts(bs[i], h, want) + bs[i + 1..]
  }

  // A running maximum that was m, once `peak` has been reached.
  function Raised(m: nat, peak: int): nat {
    if m < peak then peak else m
  }

  lemma RaisedMeans(m: nat, peak: int)
    ensures m <= Raised(m, peak) && peak <= Raised(m, peak)
    ensures Raised(m, peak) == m || Raised(m, peak) == peak
  {
  }

  lemma OneTile(b: Block, h: nat)
    requires b.at + h <= b.end
    ensures Tiles([b], h, b.at, b.end) && Coalesced([b])
    ensures b.at % 4 == 0 ==> Aligned([b])
  {
  }

  lemma TwoTile(b: Block, c: Block, h: nat)
    requires b.at + h <= b.end == c.at && c.at + h <= c.end
    ensures Tiles([b, c], h, b.at, c.end)
    ensures b.used ==> Coalesced([b, c])
    ensures b.at % 4 == 0 && c.at % 4 == 0 ==> Aligned([b, c])
  {
    var bs := [b, c];
    assert bs[0] == b && bs[1] == c && |bs| == 2;
  }

  lemma AlignedSum(a: nat, h: nat, n: nat)
    requires a % 4 == 0 && h % 4 == 0 && n % 4 == 0
    ensures (a + h + n) % 4 == 0
  {
  }

  lemma TakenPartsTile(b: Block, h: nat, want: nat)
    requires Room(b, h, want) && want % 4 == 0 && b.at % 4 == 0 && 0 < h && h % 4 == 0
    ensures Tiles(TakenParts(b, h, want), h, b.at, b.end) && Aligned(TakenParts(b, h, want)) &&
            Coalesced(TakenParts(b, h, want))
    ensures UsedBytes(TakenParts(b, h, want)) == TakenEnd(b, h, want) - b.at
  {
    hide Tiles, Aligned, Coalesced, UsedBytes;
    var e := TakenEnd(b, h, want);
    var u, f := Block(b.at, e, true), Block(e, b.end, false);
    UsedBytesOne(u);
    if e < b.end {
      AlignedSum(b.at, h, want);
      TwoTile(u, f, h);
      UsedBytesPair(u, f);
      UsedBytesOne(f);
      assert TakenParts(b, h, want) == [u, f];
    } else {
      OneTile(u, h);
      assert TakenParts(b, h, want) == [u];
    }
  }

  lemma TakeLayout(bs: seq<Block>, h: nat, top: nat, i: nat, want: nat)
    requires Layout(bs, h, top) && Coalesced(bs) && i < |bs| && Room(bs[i], h, want) && want % 4 == 0
    ensures Layout(Take(bs, h, i, want), h, top) && Coalesced(Take(bs, h, i, want))
  {
    TakenPartsTile(bs[i], h, want);
    SpliceLayout(bs, h, top, i, i + 1, TakenParts(bs[i], h, want));
    CoalescedAt(bs, i);
    SpliceCoalesced(bs, i, i + 1, TakenParts(bs[i], h, want));
  }

  lemma TakeUsed(bs: seq<Block>, h: nat, top: nat, i: nat, want: nat)
    requires Layout(bs, h, top) && i < |bs| && Room(bs[i], h, want) && want % 4 == 0
    ensures Exchanged(bs, [], [Block(bs[i].at, TakenEnd(bs[i], h, want), true)], Take(bs, h, i, want))
    ensures UsedBytes(Take(bs, h, i, want)) == UsedBytes(bs) + TakenEnd(bs[i], h, want) - bs[i].at
  {
    var mid := TakenParts(bs[i], h, want);
    SpliceExchanges(bs, h, 0, top, i, i + 1, mid);
    assert bs[i..i + 1] == [bs[i]];
    forall x: Block | x.used ensures x in mid <==> x == Block(bs[i].at, TakenEnd(bs[i], h, want), true) {
      assert mid[0] in mid;
    }
    TakenPartsTile(bs[i], h, want);
    UsedBytesSplice(bs, i, i + 1, mid);
  }

  lemma TakeIndex(bs: seq<Block>, h: nat, i: nat, want: nat, k: nat)
    requires i < |bs| && Room(bs[i], h, want)
    ensures |Take(bs, h, i, want)| == |bs| - 1 + |TakenParts(bs[i], h, want)|
    ensures k < i ==> Take(bs, h, i, want)[k] == bs[k]
    ensures i < k < |bs| ==> Take(bs, h, i, want)[k - 1 + |TakenParts(bs[i], h, want)|] == bs[k]
    ensures Take(bs, h, i, want)[i] == Block(bs[i].at, TakenEnd(bs[i], h, want), true)
  {
  }

  // What a caller who asks for `want` data bytes gets out of the free block k: at least
  // that many and fewer than a header and 12 bytes more. If that much was left, the block
  // is cut to size, and what lies behind it is one free block.
  ghost predicate HandsOut(bs: seq<Block>, h: nat, k: nat, want: nat, bs': seq<Block>) {
    && k < |bs| && k < |bs'| && bs'[..k] == bs[..k] && bs'[k].used && bs'[k].at == bs[k].at
    && want <= bs'[k].end - bs'[k].at - h < want + h + 12
    && if bs[k].end - bs[k].at - h >= want + h + 12 then
         && bs'[k].end == bs[k].at + h + want && bs[k].end - bs'[k].end >= h + 12
         && bs'[k + 1..] == [Block(bs'[k].end, bs[k].end, false)] + bs[k + 1..]
       else
         bs'[k].end == bs[k].end && bs'[k + 1..] == bs[k + 1..]
  }

  lemma TakeHandsOut(bs: seq<Block>, h: nat, k: nat, want: nat)
    requires k < |bs| && Room(bs[k], h, want)
    ensures HandsOut(bs, h, k, want, Take(bs, h, k, want))
  {
    var e := TakenEnd(bs[k], h, want);
    var bs' := Take(bs, h, k, want);
    assert bs' == bs[..k] + TakenParts(bs[k], h, want) + bs[k + 1..];
    assert bs'[..k] == bs[..k] && bs'[k] == Block(bs[k].at, e, true);
    assert bs'[k + 1..] == (if e < bs[k].end then [Block(e, bs[k].end, false)] else []) + bs[k + 1..];
  }

  function MergeAt(bs: seq<Block>, i: nat): seq<Block>
    requires i + 1 < |bs|
  {
    bs[..i] + [Block(bs[i].at, bs[i + 1].end, false)] + bs[i + 2..]
  }

  // The blocks lo..hi that plugging around block i makes into one.
  function PlugLo(bs: seq<Block>, i: nat): nat
    requires i < |bs|
  {
    if i > 0 && !bs[i - 1].used then i - 1 else i
  }

  function PlugHi(bs: seq<Block>, i: nat): nat
    requires i < |bs|
  {
    if i + 1 < |bs| && !bs[i + 1].used then i + 1 else i
  }

  function PlugBlock(bs: seq<Block>, i: nat): Block
    requires i < |bs|
  {
    Block(bs[PlugLo(bs, i)].at, bs[PlugHi(bs, i)].end, false)
  }

  // plug_holes: merge the free block i with its free neighbours.
  function Plug(bs: seq<Block>, i: nat): seq<Block>
    requires i < |bs|
  {
    bs[..PlugLo(bs, i)] + [PlugBlock(bs, i)] + bs[PlugHi(bs, i) + 1..]
  }

  // Free neighbours meet at most around block i.
  ghost predicate CoalescedBut(bs: seq<Block>, i: nat) {
    forall k :: 0 <= k < |bs| - 1 && k != i && k + 1 != i ==> bs[k].used || bs[k + 1].used
  }

  lemma PlugIndex(bs: seq<Block>, i: nat, k: nat)
    requires i < |bs| && k < |Plug(bs, i)|
    ensures k - PlugLo(bs, i) + PlugHi(bs, i) < |bs|
    ensures Plug(bs, i)[k] == if k < PlugLo(bs, i) then bs[k] else if k == PlugLo(bs, i) then PlugBlock(bs, i)
                              else bs[k - PlugLo(bs, i) + PlugHi(bs, i)]
  {
  }

  lemma PlugLayout(bs: seq<Block>, h: nat, top: nat, i: nat)
    requires Layout(bs, h, top) && i < |bs|
    ensures Layout(Plug(bs, i), h, top)
    ensures PlugBlock(bs, i).at <= bs[i].at < bs[i].end <= PlugBlock(bs, i).end
  {
    SpliceLayout(bs, h, top, PlugLo(bs, i), PlugHi(bs, i) + 1, [PlugBlock(bs, i)]);
  }

  lemma PlugCoalesced(bs: seq<Block>, i: nat)
    requires i < |bs| && !bs[i].used && CoalescedBut(bs, i)
    ensures Coalesced(Plug(bs, i))
  {
    var lo, hi := PlugLo(bs, i), PlugHi(bs, i);
    var g := Plug(bs, i);
    assert lo > 0 ==> bs[lo - 1].used;
    assert hi + 1 < |bs| ==> bs[hi + 1].used;
    forall k | 0 <= k < |g| - 1 ensures g[k].used || g[k + 1].used {
      SpliceIndex(bs, lo, hi + 1, [PlugBlock(bs, i)], k);
      SpliceIndex(bs, lo, hi + 1, [PlugBlock(bs, i)], k + 1);
    }
  }

  // One merge keeps the layout and the used blocks ...
  lemma MergeKeeps(bs: seq<Block>, h: nat, top: nat, i: nat)
    requires Layout(bs, h, top) && i + 1 < |bs| && !bs[i].used && !bs[i + 1].used
    ensures Layout(MergeAt(bs, i), h, top) && UsedBytes(MergeAt(bs, i)) == UsedBytes(bs)
  {
    var mid := [Block(bs[i].at, bs[i + 1].end, false)];
    SpliceLayout(bs, h, top, i, i + 2, mid);
    NoneUsed(bs[i..i + 2]);
    UsedBytesSplice(bs, i, i + 2, mid);
  }

  lemma MergeUsed(bs: seq<Block>, h: nat, top: nat, i: nat)
    requires Layout(bs, h, top) && i + 1 < |bs| && !bs[i].used && !bs[i + 1].used
    ensures SameUsed(bs, MergeAt(bs, i))
  {
    SpliceExchanges(bs, h, 0, top, i, i + 2, [Block(bs[i].at, bs[i + 1].end, false)]);
  }

  // plug_holes works in two steps: first the merge with the right neighbour ...
  function PlugRight(bs: seq<Block>, i: nat): seq<Block>
    requires i < |bs|
  {
    if PlugHi(bs, i) > i then MergeAt(bs, i) else bs
  }

  lemma PlugRightShape(bs: seq<Block>, i: nat)
    requires i < |bs| && !bs[i].used
    ensures var f := PlugRight(bs, i);
            && i < |f| && f[..i] == bs[..i] && f[i + 1..] == bs[PlugHi(bs, i) + 1..]
            && f[i] == Block(bs[i].at, bs[PlugHi(bs, i)].end, false)
            && (i > 0 ==> f[i - 1] == bs[i - 1])
  {
  }

  // ... then, on the result, the merge with the left one.
  lemma PlugSteps(bs: seq<Block>, i: nat)
    requires i < |bs| && !bs[i].used
    ensures i < |PlugRight(bs, i)| && PlugLo(PlugRight(bs, i), i) == PlugLo(bs, i)
    ensures Plug(bs, i) == if PlugLo(bs, i) < i then MergeAt(PlugRight(bs, i), i - 1) else PlugRight(bs, i)
  {
    PlugRightShape(bs, i);
    var f := PlugRight(bs, i);
    assert f == f[..i] + [f[i]] + f[i + 1..];
    hide PlugRight;
    if PlugLo(bs, i) < i {
      assert f[..i - 1] == bs[..i - 1];
    }
  }

  lemma {:induction false} NoneUsed(bs: seq<Block>)
    requires forall k :: 0 <= k < |bs| ==> !bs[k].used
    ensures UsedBytes(bs) == 0
  {
    if bs != [] { NoneUsed(bs[1..]); }
  }

  lemma PlugUsed(bs: seq<Block>, h: nat, top: nat, i: nat)
    requires Layout(bs, h, top) && i < |bs| && !bs[i].used
    ensures SameUsed(bs, Plug(bs, i)) && UsedBytes(Plug(bs, i)) == UsedBytes(bs)
  {
    hide Tiles, Aligned, SameUsed, UsedBytes;
    FreeSpanUsed(bs, h, top, PlugLo(bs, i), PlugHi(bs, i), PlugBlock(bs, i));
  }

  // Free blocks lo..hi in a row may be made one without touching what is used.
  lemma FreeSpanUsed(bs: seq<Block>, h: nat, top: nat, lo: nat, hi: nat, b: Block)
    requires Layout(bs, h, top) && lo <= hi < |bs| && !b.used
    requires forall k :: lo <= k <= hi ==> !bs[k].used
    ensures SameUsed(bs, bs[..lo] + [b] + bs[hi + 1..])
    ensures UsedBytes(bs[..lo] + [b] + bs[hi + 1..]) == UsedBytes(bs)
  {
    hide Tiles, Aligned, Exchanged, SameUsed, UsedBytes;
    SpliceExchanges(bs, h, 0, top, lo, hi + 1, [b]);
    FreeForFree(bs, bs[lo..hi + 1], [b], bs[..lo] + [b] + bs[hi + 1..]);
    UsedBytesSplice(bs, lo, hi + 1, [b]);
    NoneUsed(bs[lo..hi + 1]);
    NoneUsed([b]);
  }

  // Exchanging free blocks for free blocks leaves the used ones the same.
  lemma FreeForFree(bs: seq<Block>, gone: seq<Block>, come: seq<Block>, bs': seq<Block>)
    requires Exchanged(bs, gone, come, bs')
    requires forall x: Block :: x in gone || x in come ==> !x.used
    ensures SameUsed(bs, bs')
  {
  }

  // Clearing the used flag of block i, with the hint lowered to it.
  function Unuse(bs: seq<Block>, i: nat): seq<Block>
    requires i < |bs|
  {
    bs[..i] + [Block(bs[i].at, bs[i].end, false)] + bs[i + 1..]
  }

  lemma UnuseLayout(bs: seq<Block>, h: nat, top: nat, i: nat)
    requires Layout(bs, h, top) && i < |bs|
    ensures Layout(Unuse(bs, i), h, top)
    ensures Coalesced(bs) ==> CoalescedBut(Unuse(bs, i), i)
  {
    UnuseCoalesced(bs, i);
    hide Coalesced, CoalescedBut;
    SpliceLayout(bs, h, top, i, i + 1, [Block(bs[i].at, bs[i].end, false)]);
  }

  lemma UnuseCoalesced(bs: seq<Block>, i: nat)
    requires i < |bs|
    ensures Coalesced(bs) ==> CoalescedBut(Unuse(bs, i), i)
  {
  }

  lemma UnuseUsed(bs: seq<Block>, h: nat, top: nat, i: nat)
    requires Layout(bs, h, top) && i < |bs| && bs[i].used
    ensures Exchanged(bs, [bs[i]], [], Unuse(bs, i))
    ensures UsedBytes(Unuse(bs, i)) == UsedBytes(bs) - (bs[i].end - bs[i].at)
  {
    var mid := [Block(bs[i].at, bs[i].end, false)];
    assert bs[i..i + 1] == [bs[i]];
    SpliceExchanges(bs, h, 0, top, i, i + 1, mid);
    UsedBytesSplice(bs, i, i + 1, mid);
  }

  lemma UnuseIndex(bs: seq<Block>, i: nat, k: nat)
    requires i < |bs| && k < |bs|
    ensures |Unuse(bs, i)| == |bs| && Unuse(bs, i)[k] == if k == i then Block(bs[i].at, bs[i].end, false) else bs[k]
  {
  }

  lemma UnuseAt(bs: seq<Block>, i: nat)
    requires i < |bs|
    ensures |Unuse(bs, i)| == |bs| && Unuse(bs, i)[i] == Block(bs[i].at, bs[i].end, false)
  {
  }

  function CutParts(b: Block, h: nat, n: nat): seq<Block> {
    [Block(b.at, b.at + h + n, true), Block(b.at + h + n, b.end, false)]
  }

  lemma CutPartsTile(b: Block, h: nat, n: nat)
    requires b.at + h + n + h <= b.end
    ensures Tiles(CutParts(b, h, n), h, b.at, b.end)
    ensures b.at % 4 == 0 && h % 4 == 0 && n % 4 == 0 ==> Aligned(CutParts(b, h, n))
  {
    hide Tiles, Aligned;
    if b.at % 4 == 0 && h % 4 == 0 && n % 4 == 0 { AlignedSum(b.at, h, n); }
    TwoTile(Block(b.at, b.at + h + n, true), Block(b.at + h + n, b.end, false), h);
  }

  lemma AlignedStart(bs: seq<Block>, h: nat, top: nat, i: nat)
    requires Layout(bs, h, top) && i < |bs|
    ensures bs[i].at % 4 == 0 && h % 4 == 0 && h > 0
  {
  }

  // Block i gives up everything beyond n data bytes.
  function Cut(bs: seq<Block>, h: nat, i: nat, n: nat): seq<Block>
    requires i < |bs|
  {
    bs[..i] + CutParts(bs[i], h, n) + bs[i + 1..]
  }

  lemma CutAt(bs: seq<Block>, h: nat, i: nat, n: nat)
    requires i < |bs|
    ensures |Cut(bs, h, i, n)| == |bs| + 1
    ensures Cut(bs, h, i, n)[i] == Block(bs[i].at, bs[i].at + h + n, true)
    ensures Cut(bs, h, i, n)[i + 1] == Block(bs[i].at + h + n, bs[i].end, false)
    ensures i + 1 < |bs| ==> Cut(bs, h, i, n)[i + 2] == bs[i + 1]
  {
  }

  lemma CutLayout(bs: seq<Block>, h: nat, top: nat, i: nat, n: nat)
    requires Layout(bs, h, top) && i < |bs| && bs[i].used && n % 4 == 0 && bs[i].at + h + n + h <= bs[i].end
    ensures Layout(Cut(bs, h, i, n), h, top)
    ensures |Cut(bs, h, i, n)| == |bs| + 1
    ensures Cut(bs, h, i, n)[i + 1] == Block(bs[i].at + h + n, bs[i].end, false)
  {
    hide Layout, Tiles, Aligned;
    CutPartsTile(bs[i], h, n);
    AlignedStart(bs, h, top, i);
    SpliceLayout(bs, h, top, i, i + 1, CutParts(bs[i], h, n));
  }

  lemma CutCoalesced(bs: seq<Block>, h: nat, i: nat, n: nat)
    requires Coalesced(bs) && i < |bs| && bs[i].used
    ensures CoalescedBut(Cut(bs, h, i, n), i + 1)
  {
    var mid := [Block(bs[i].at, bs[i].at + h + n, true), Block(bs[i].at + h + n, bs[i].end, false)];
    var cut := Cut(bs, h, i, n);
    forall k | 0 <= k < |cut| - 1 && k != i + 1 && k + 1 != i + 1 ensures cut[k].used || cut[k + 1].used {
      SpliceIndex(bs, i, i + 1, mid, k);
      SpliceIndex(bs, i, i + 1, mid, k + 1);
    }
  }

  lemma CutUsed(bs: seq<Block>, h: nat, top: nat, i: nat, n: nat)
    requires Layout(bs, h, top) && i < |bs| && bs[i].used && bs[i].at + h + n + h <= bs[i].end
    ensures Exchanged(bs, [bs[i]], [Block(bs[i].at, bs[i].at + h + n, true)], Cut(bs, h, i, n))
    ensures UsedBytes(Cut(bs, h, i, n)) == UsedBytes(bs) - (bs[i].end - bs[i].at - h - n)
  {
    hide Layout, Tiles, Exchanged, UsedBytes;
    var u := Block(bs[i].at, bs[i].at + h + n, true);
    var f := Block(bs[i].at + h + n, bs[i].end, false);
    SpliceInLayout(bs, h, top, i, i + 1, [u, f]);
    assert bs[i..i + 1] == [bs[i]];
    FreeRider(bs, [bs[i]], u, f, Cut(bs, h, i, n));
    UsedBytesSplice(bs, i, i + 1, [u, f]);
    UsedBytesOne(bs[i]);
    UsedBytesOne(u);
    UsedBytesOne(f);
    UsedBytesPair(u, f);
  }

  lemma SpliceInLayout(bs: seq<Block>, h: nat, top: nat, i: nat, j: nat, mid: seq<Block>)
    requires Layout(bs, h, top) && i <= j <= |bs|
    ensures Exchanged(bs, bs[i..j], mid, bs[..i] + mid + bs[j..])
  {
    hide Tiles, Aligned, Exchanged;
    SpliceExchanges(bs, h, 0, top, i, j, mid);
  }

  lemma UsedBytesOne(b: Block)
    ensures UsedBytes([b]) == if b.used then b.end - b.at else 0
  {
  }

  lemma UsedBytesPair(u: Block, f: Block)
    ensures UsedBytes([u, f]) == UsedBytes([u]) + UsedBytes([f])
  {
    assert [u, f] == [u] + [f];
    UsedBytesConcat([u], [f]);
  }

  lemma FreeRider(bs: seq<Block>, gone: seq<Block>, u: Block, f: Block, bs': seq<Block>)
    requires Exchanged(bs, gone, [u, f], bs') && !f.used
    ensures Exchanged(bs, gone, [u], bs')
  {
  }

  // Once nothing is in use, one free block covers the heap and nothing is counted as used.
  lemma AllFreed(bs: seq<Block>, h: nat, top: nat)
    requires top >= h && Layout(bs, h, top) && Coalesced(bs) && forall x: Block :: x in bs ==> !x.used
    ensures bs == [Block(0, top, false)] && UsedBytes(bs) == 0
  {
    NothingUsedOneBlock(bs, h, 0, top);
  }

  // Conservation: the used bytes never exceed the heap.
  lemma UsedBytesBound(bs: seq<Block>, h: nat, top: nat)
    requires Layout(bs, h, top)
    ensures 0 <= UsedBytes(bs) <= top
  {
    UsedBytesRange(bs, h, 0, top);
  }

  // Where a block that was not taken stands after malloc.
  lemma TakeShift(bs: seq<Block>, h: nat, top: nat, k: nat, want: nat, i: nat) returns (i': nat)
    requires Layout(bs, h, top) && k < |bs| && Room(bs[k], h, want) && i < |bs| && i != k
    ensures i' < |Take(bs, h, k, want)| && Take(bs, h, k, want)[i'] == bs[i]
    ensures bs[i].end <= bs[k].at || TakenEnd(bs[k], h, want) <= bs[i].at
  {
    TakeIndex(bs, h, k, want, i);
    i' := if i < k then i else i - 1 + |TakenParts(bs[k], h, want)|;
    assert i < k ==> bs[i].end <= bs[k].at;
    assert k < i ==> bs[k].end <= bs[i].at;
  }

  // A block just taken overlaps no block used before.
  lemma TakenDisjoint(bs: seq<Block>, h: nat, top: nat, k: nat, want: nat)
    requires Layout(bs, h, top) && k < |bs| && Room(bs[k], h, want)
    ensures forall x: Block :: x in bs && x.used ==> x.end <= bs[k].at || TakenEnd(bs[k], h, want) <= x.at
  {
    forall x: Block | x in bs && x.used ensures x.end <= bs[k].at || TakenEnd(bs[k], h, want) <= x.at {
      var i :| 0 <= i < |bs| && bs[i] == x;
      var i' := TakeShift(bs, h, top, k, want, i);
    }
  }

  lemma TakenIsNew(bs: seq<Block>, k: nat, nb: Block)
    requires k < |bs| && !bs[k].used && nb.used && nb.at == bs[k].at && nb.at < nb.end
    requires forall x: Block :: x in bs && x.used ==> x.end <= nb.at || nb.end <= x.at
    ensures nb !in bs
  {
  }

  lemma StartsDiffer(bs: seq<Block>, h: nat, top: nat, i: nat, x: Block)
    requires Layout(bs, h, top) && i < |bs| && x in bs && x != bs[i]
    ensures x.at != bs[i].at
  {
    var j :| 0 <= j < |bs| && bs[j] == x;
    assert j < i ==> bs[j].end <= bs[i].at;
    assert i < j ==> bs[i].end <= bs[j].at;
  }

  lemma AddThenDrop(bs: seq<Block>, nb: Block, bs1: seq<Block>, bs2: seq<Block>)
    requires Exchanged(bs, [], [nb], bs1) && Exchanged(bs1, [nb], [], bs2) && nb !in bs
    ensures SameUsed(bs, bs2)
  {
  }
}
