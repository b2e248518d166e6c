// The small-memory heap: first fit over offset-linked block headers, with
// coalescing on free, a hint to where the search starts, and usage statistics.
module SmallHeap {
  import opened Words
  import opened HeapBlocks
  import opened HeapData

  const HDR: nat := 12        // SIZEOF_STRUCT_MEM

  // A block header, found at the block's offset from the start of the heap.
  datatype HeapMem = HeapMem(magic: bool, used: bool, next: nat, prev: nat)

  // ---- headers spell out the tiling ----

  function PrevOf(bs: seq<Block>, i: nat): nat
    requires i <= |bs|
  {
    if i == 0 then 0 else bs[i - 1].at
  }

  ghost predicate Spells(hdr: map<nat, HeapMem>, b: Block, prev: nat) {
    && b.at in hdr
    && hdr[b.at].next == b.end && hdr[b.at].prev == prev && hdr[b.at].used == b.used
    && (b.used ==> hdr[b.at].magic)
  }

  ghost predicate HdrOk(hdr: map<nat, HeapMem>, bs: seq<Block>, i: nat)
    requires i < |bs|
  {
    Spells(hdr, bs[i], PrevOf(bs, i))
  }

  // Every block's header is right; so is the end sentinel, whose prev is not maintained.
  ghost predicate HdrsOk(hdr: map<nat, HeapMem>, bs: seq<Block>, top: nat) {
    && (forall i :: 0 <= i < |bs| ==> HdrOk(hdr, bs, i))
    && top in hdr && hdr[top].used && hdr[top].next == top
  }

  ghost predicate LfreeOk(bs: seq<Block>, top: nat, l: nat) {
    l == top || exists i :: 0 <= i < |bs| && bs[i].at == l && !bs[i].used
  }

  // ---- the arithmetic of requests ----

  // The data size malloc looks for.
  function Wanted(size: u32): u32 {
    if Align4(size) < MIN_DATA then MIN_DATA else Align4(size)
  }

  // The rounding honours the request exactly when it does not wrap; a request in the
  // last three bytes of the address space is served with a minimum block.
  lemma RequestHonoured(size: u32)
    ensures Wanted(size) >= size <==> size <= 0xFFFF_FFFC
    ensures size > 0xFFFF_FFFC ==> Wanted(size) == 12
    ensures size <= 12 ==> Wanted(size) == 12
    ensures 12 < size <= 0xFFFF_FFFC ==> Wanted(size) < size + 4 && Wanted(size) % 4 == 0
  {
  }

  // The block malloc may take: free, at or above the hint, roomy, and starting
  // strictly below memSize - want.
  ghost predicate Eligible(b: Block, lfree: nat, want: nat, memSize: nat) {
    Room(b, HDR, want) && lfree <= b.at && b.at < memSize - want
  }

  // The first eligible block.
  ghost predicate FirstFit(bs: seq<Block>, lfree: nat, want: nat, memSize: nat, i: nat) {
    && i < |bs| && Eligible(bs[i], lfree, want, memSize)
    && forall k :: 0 <= k < i ==> !Eligible(bs[k], lfree, want, memSize)
  }

  // First fit: no earlier block from the hint on is free and large enough.
  lemma FirstFitMeans(bs: seq<Block>, l: nat, want: nat, memSize: nat, k: nat)
    requires Layout(bs, HDR, memSize + HDR) && FirstFit(bs, l, want, memSize, k)
    ensures l <= bs[k].at && !bs[k].used && bs[k].end - bs[k].at - 12 >= want
    ensures forall m :: 0 <= m < k && l <= bs[m].at ==> bs[m].used || bs[m].end - bs[m].at - 12 < want
  {
    forall m | 0 <= m < k && l <= bs[m].at ensures bs[m].used || bs[m].end - bs[m].at - 12 < want {
      assert !Eligible(bs[m], l, want, memSize) && bs[m].end <= bs[k].at;
    }
  }

  ghost predicate NoFit(bs: seq<Block>, lfree: nat, want: nat, memSize: nat) {
    forall k :: 0 <= k < |bs| ==> !Eligible(bs[k], lfree, want, memSize)
  }

  // With an accurate hint, the only roomy block malloc passes over is an exact fit
  // that ends at the sentinel.
  lemma PassesOverOnlyExactTail(bs: seq<Block>, lfree: nat, want: nat, memSize: nat)
    requires Layout(bs, HDR, memSize + HDR) && NextFree(bs, memSize + HDR, 0, lfree)
    ensures NoFit(bs, lfree, want, memSize) <==>
            forall i :: 0 <= i < |bs| && Room(bs[i], HDR, want) ==> bs[i] == Block(memSize - want, memSize + HDR, false)
  {
    forall i | 0 <= i < |bs| && Room(bs[i], HDR, want)
      ensures Eligible(bs[i], lfree, want, memSize) <==> bs[i] != Block(memSize - want, memSize + HDR, false)
    {
      assert bs[i].end <= memSize + HDR;
    }
  }

  // On a fresh heap of any size, asking for all of it fails although it is all free.
  lemma WholeHeapRequestFails(memSize: nat)
    requires memSize >= MIN_DATA
    ensures var bs := [Block(0, memSize + HDR, false)];
            Room(bs[0], HDR, memSize) && NoFit(bs, 0, memSize, memSize)
  {
  }

  // ---- what malloc does to the tiling ----

  // One successful malloc: the first eligible block is taken, and a hint that pointed at
  // it moves on to the next free block.
  ghost predicate Took(bs: seq<Block>, l: nat, want: nat, memSize: nat, i: nat, bs': seq<Block>, l': nat) {
    && FirstFit(bs, l, want, memSize, i)
    && bs' == Take(bs, HDR, i, want)
    && if bs[i].at == l then NextFree(bs', memSize + HDR, l, l') else l' == l
  }

  lemma TookParts(bs: seq<Block>, l': nat, l: nat, want: nat, memSize: nat, i: nat, bs': seq<Block>)
    requires Took(bs, l, want, memSize, i, bs', l')
    ensures i < |bs| && Room(bs[i], HDR, want) && !bs[i].used && bs' == Take(bs, HDR, i, want)
  {
  }

  lemma TookHintOk(bs: seq<Block>, l: nat, want: nat, memSize: nat, i: nat, bs': seq<Block>, l': nat)
    requires LfreeOk(bs, memSize + HDR, l) && Took(bs, l, want, memSize, i, bs', l')
    ensures LfreeOk(bs', memSize + HDR, l')
  {
    if m :| 0 <= m < |bs| && bs[m].at == l && !bs[m].used {
      TakeIndex(bs, HDR, i, want, m);
    }
  }

  // malloc keeps the hint lowest.
  lemma TookHintLowest(bs: seq<Block>, l: nat, want: nat, memSize: nat, i: nat, bs': seq<Block>, l': nat)
    requires Layout(bs, HDR, memSize + HDR) && NextFree(bs, memSize + HDR, 0, l) &&
             Took(bs, l, want, memSize, i, bs', l')
    ensures NextFree(bs', memSize + HDR, 0, l')
  {
    TookHintOk(bs, l, want, memSize, i, bs', l');
    var mid := TakenParts(bs[i], HDR, want);
    forall k | 0 <= k < |bs'| && !bs'[k].used ensures l' <= bs'[k].at {
      SpliceIndex(bs, i, i + 1, mid, k);
      assert k >= i + |mid| ==> bs[k - i - |mid| + i + 1].at >= l;
      assert k < i ==> bs[k].at >= l;
    }
  }

  // ---- where the search hint goes ----

  // Where plug_holes moves a hint that pointed at one of the merged blocks.
  function PlugHint(bs: seq<Block>, i: nat, l: nat): nat
    requires i < |bs|
  {
    if PlugBlock(bs, i).at <= l < PlugBlock(bs, i).end then PlugBlock(bs, i).at else l
  }

  // The hint follows the free block that now holds `at`: if the hint pointed into that
  // block it moves to the block's start, otherwise it stays.
  ghost predicate Settled(bs: seq<Block>, at: nat, l: nat, l': nat) {
    exists p :: 0 <= p < |bs| && !bs[p].used && bs[p].at <= at < bs[p].end &&
      l' == if bs[p].at <= l < bs[p].end then bs[p].at else l
  }

  // plug_holes compares the hint with the starts of the blocks it merges, one after the
  // other; since the hint starts a free block, that amounts to PlugHint.
  lemma PlugHintSteps(bs: seq<Block>, top: nat, i: nat, l: nat)
    requires Layout(bs, HDR, top) && i < |bs| && !bs[i].used && LfreeOk(bs, top, l)
    ensures PlugHint(bs, i, l) ==
            var l1 := if PlugHi(bs, i) > i && l == bs[i + 1].at then bs[i].at else l;
            if PlugLo(bs, i) < i && l1 == bs[i].at then bs[i - 1].at else l1
  {
    assert bs[PlugHi(bs, i)].end <= top;
    if m :| 0 <= m < |bs| && bs[m].at == l && !bs[m].used {
      assert m < PlugLo(bs, i) ==> bs[m].end <= bs[PlugLo(bs, i)].at;
      assert m > PlugHi(bs, i) ==> bs[PlugHi(bs, i)].end <= bs[m].at;
    }
  }

  lemma PlugHintSettles(bs: seq<Block>, top: nat, i: nat, l: nat)
    requires Layout(bs, HDR, top) && i < |bs|
    ensures Settled(Plug(bs, i), bs[i].at, l, PlugHint(bs, i, l))
  {
    PlugLayout(bs, HDR, top, i);
    assert Plug(bs, i)[PlugLo(bs, i)] == PlugBlock(bs, i);
  }

  lemma PlugHintOk(bs: seq<Block>, top: nat, i: nat, l: nat)
    requires Layout(bs, HDR, top) && i < |bs| && !bs[i].used && LfreeOk(bs, top, l)
    ensures LfreeOk(Plug(bs, i), top, PlugHint(bs, i, l))
  {
    var lo, hi, g := PlugLo(bs, i), PlugHi(bs, i), Plug(bs, i);
    assert g[lo] == PlugBlock(bs, i);
    if m :| 0 <= m < |bs| && bs[m].at == l && !bs[m].used {
      if m < lo { assert g[m] == bs[m] && bs[m].end <= bs[lo].at; }
      if m > hi { assert g[m - hi + lo] == bs[m] && bs[hi].end <= bs[m].at; }
    } else {
      assert bs[hi].end <= top;
    }
  }

  // Every free block lies at or above l.
  ghost predicate NoneBelow(bs: seq<Block>, l: nat) {
    forall i :: 0 <= i < |bs| && !bs[i].used ==> l <= bs[i].at
  }

  lemma LowestIs(bs: seq<Block>, top: nat, l: nat)
    ensures NextFree(bs, top, 0, l) <==> LfreeOk(bs, top, l) && NoneBelow(bs, l)
  {
  }

  lemma PlugNoneBelow(bs: seq<Block>, i: nat, l: nat)
    requires i < |bs| && !bs[i].used && NoneBelow(bs, l)
    ensures NoneBelow(Plug(bs, i), PlugHint(bs, i, l))
  {
    var g := Plug(bs, i);
    forall k | 0 <= k < |g| && !g[k].used ensures PlugHint(bs, i, l) <= g[k].at { PlugIndex(bs, i, k); }
  }

  // Plugging keeps the hint lowest.
  lemma PlugHintLowest(bs: seq<Block>, top: nat, i: nat, l: nat)
    requires Layout(bs, HDR, top) && i < |bs| && !bs[i].used && NextFree(bs, top, 0, l)
    ensures NextFree(Plug(bs, i), top, 0, PlugHint(bs, i, l))
  {
    hide Layout, NextFree, LfreeOk, NoneBelow, Plug, PlugHint;
    LowestIs(bs, top, l);
    PlugHintOk(bs, top, i, l);
    PlugNoneBelow(bs, i, l);
    LowestIs(Plug(bs, i), top, PlugHint(bs, i, l));
  }

  lemma FreedNoneBelow(bs: seq<Block>, i: nat, l: nat)
    requires i < |bs| && NoneBelow(bs, l)
    ensures NoneBelow(Unuse(bs, i), if bs[i].at < l then bs[i].at else l)
  {
    var u := Unuse(bs, i);
    UnuseIndex(bs, i, i);
    hide Unuse;
    forall k | 0 <= k < |u| && !u[k].used
      ensures (if bs[i].at < l then bs[i].at else l) <= u[k].at
    {
      UnuseIndex(bs, i, k);
    }
  }

  lemma FreedHintOk(bs: seq<Block>, top: nat, i: nat, l: nat)
    requires Layout(bs, HDR, top) && i < |bs| && LfreeOk(bs, top, l)
    ensures LfreeOk(Unuse(bs, i), top, if bs[i].at < l then bs[i].at else l)
  {
    UnuseIndex(bs, i, i);
    BlockBounds(bs, HDR, top, i);
    hide Layout, Unuse;
    if m :| 0 <= m < |bs| && bs[m].at == l && !bs[m].used { UnuseIndex(bs, i, m); }
  }

  lemma FreedHintLowest(bs: seq<Block>, top: nat, i: nat, l: nat, bs': seq<Block>)
    requires Layout(bs, HDR, top) && i < |bs| && bs' == Unuse(bs, i)
    requires LfreeOk(bs, top, l)
    ensures LfreeOk(bs', top, if bs[i].at < l then bs[i].at else l)
    ensures NextFree(bs, top, 0, l) ==> NextFree(bs', top, 0, if bs[i].at < l then bs[i].at else l)
  {
    hide Layout, Unuse, NextFree, LfreeOk, NoneBelow;
    FreedHintOk(bs, top, i, l);
    LowestIs(bs, top, l);
    if NoneBelow(bs, l) { FreedNoneBelow(bs, i, l); }
    LowestIs(bs', top, if bs[i].at < l then bs[i].at else l);
  }

  // ---- shrinking in place ----

  lemma CutHintOk(bs: seq<Block>, top: nat, i: nat, n: nat, l: nat)
    requires i < |bs| && bs[i].used && LfreeOk(bs, top, l)
    ensures LfreeOk(Cut(bs, HDR, i, n), top, l)
  {
    if m :| 0 <= m < |bs| && bs[m].at == l && !bs[m].used {
      assert m < i ==> Cut(bs, HDR, i, n)[m] == bs[m];
      assert m > i ==> Cut(bs, HDR, i, n)[m + 1] == bs[m];
    }
  }

  // A shrink leaves a lowest hint lowest exactly when the hint was not the sentinel and
  // lay no further than the block right behind the shrunk one.
  lemma CutHintLowest(bs: seq<Block>, top: nat, i: nat, n: nat, l: nat)
    requires Layout(bs, HDR, top) && i < |bs| && bs[i].used && n % 4 == 0 && bs[i].at + HDR + n + HDR <= bs[i].end
    requires NextFree(bs, top, 0, l)
    ensures var cut := Cut(bs, HDR, i, n);
            NextFree(Plug(cut, i + 1), top, 0, PlugHint(cut, i + 1, l)) <==> l < top && l <= bs[i].end
  {
    hide Layout, LfreeOk, Cut, NextFree, Plug;
    var cut := Cut(bs, HDR, i, n);
    CutAt(bs, HDR, i, n);
    CutLayout(bs, HDR, top, i, n);
    CutPiece(bs, top, i, n, l);
    BlockBounds(bs, HDR, top, i);
    if l < top && l <= bs[i].end {
      CutHintStaysLowest(bs, top, i, n, l);
    } else {
      CutHintTooHigh(cut, top, i + 1, l, PlugHint(cut, i + 1, l));
    }
  }

  lemma PlugHintAtMost(bs: seq<Block>, i: nat, l: nat)
    requires i < |bs|
    ensures PlugHint(bs, i, l) <= l
    ensures l < PlugBlock(bs, i).end ==> PlugHint(bs, i, l) <= PlugBlock(bs, i).at
  {
  }

  // Where the piece cut off lies with respect to a lowest hint.
  lemma CutPiece(bs: seq<Block>, top: nat, i: nat, n: nat, l: nat)
    requires Layout(bs, HDR, top) && i < |bs| && bs[i].used && bs[i].at + HDR + n + HDR <= bs[i].end
    requires NextFree(bs, top, 0, l)
    ensures var b := PlugBlock(Cut(bs, HDR, i, n), i + 1);
            && PlugLo(Cut(bs, HDR, i, n), i + 1) == i + 1 && b.at == bs[i].at + HDR + n
            && (b.at <= l < b.end <==> l < top && l == bs[i].end) && (l < b.at <==> l <= bs[i].at)
  {
    hide Cut;
    CutAt(bs, HDR, i, n);
    if m :| 0 <= m < |bs| && bs[m].at == l && !bs[m].used {
      assert m < i ==> bs[m].end <= bs[i].at;
      assert i < m ==> bs[i].end <= bs[m].at;
      assert i + 1 < m ==> bs[i + 1].end <= bs[m].at;
    }
    BlockBounds(bs, HDR, top, i);
    BlockBounds(bs, HDR, top, i + 1);
  }

  lemma CutHintStaysLowest(bs: seq<Block>, top: nat, i: nat, n: nat, l: nat)
    requires Layout(bs, HDR, top) && i < |bs| && bs[i].used && n % 4 == 0 && bs[i].at + HDR + n + HDR <= bs[i].end
    requires NextFree(bs, top, 0, l) && l < top && l <= bs[i].end
    ensures NextFree(Plug(Cut(bs, HDR, i, n), i + 1), top, 0, PlugHint(Cut(bs, HDR, i, n), i + 1, l))
  {
    hide Layout, LfreeOk, Cut, Plug, PlugHint;
    var cut := Cut(bs, HDR, i, n);
    CutLayout(bs, HDR, top, i, n);
    var lo, hi, g := PlugLo(cut, i + 1), PlugHi(cut, i + 1), Plug(cut, i + 1);
    PlugLayout(cut, HDR, top, i + 1);
    CutHintOk(bs, top, i, n, l);
    PlugHintOk(cut, top, i + 1, l);
    CutPiece(bs, top, i, n, l);
    assert PlugHint(cut, i + 1, l) <= l && PlugHint(cut, i + 1, l) <= PlugBlock(cut, i + 1).at by {
      PlugHintAtMost(cut, i + 1, l);
    }
    forall k | 0 <= k < |g| && !g[k].used ensures PlugHint(cut, i + 1, l) <= g[k].at {
      PlugIndex(cut, i + 1, k);
      CutFreeAbove(bs, top, i, n, l, if k <= lo then k else k - lo + hi);
    }
  }

  lemma CutHintTooHigh(cut: seq<Block>, top: nat, p: nat, l: nat, l': nat)
    requires p < |cut| && PlugLo(cut, p) == p && l' > PlugBlock(cut, p).at
    ensures !NextFree(Plug(cut, p), top, 0, l')
  {
    assert Plug(cut, p)[p] == PlugBlock(cut, p);
  }

  // After a cut, a free block lies at or above the old hint, or is the piece cut off.
  lemma CutFreeAbove(bs: seq<Block>, top: nat, i: nat, n: nat, l: nat, k: nat)
    requires i < |bs| && bs[i].used && NextFree(bs, top, 0, l) && k < |Cut(bs, HDR, i, n)| &&
             !Cut(bs, HDR, i, n)[k].used
    ensures k == i + 1 || Cut(bs, HDR, i, n)[k].at >= l
  {
    SpliceIndex(bs, i, i + 1, [Block(bs[i].at, bs[i].at + HDR + n, true),
                               Block(bs[i].at + HDR + n, bs[i].end, false)], k);
  }

  // The case in point, on a heap of 100 bytes: malloc(96) takes it whole; shrinking that
  // block leaves the hint on the sentinel, and from then on malloc fails although a block
  // has room.
  lemma ShrinkCanStrandSpace()
    ensures Took([Block(0, 112, false)], 0, Wanted(96), 100, 0, [Block(0, 112, true)], 112)
    ensures var bs := [Block(0, 112, true)];
            var after := Plug(Cut(bs, HDR, 0, 12), 1);
            && Layout(bs, HDR, 112) && Coalesced(bs) && NextFree(bs, 112, 0, 112)
            && after == [Block(0, 24, true), Block(24, 112, false)]
            && PlugHint(Cut(bs, HDR, 0, 12), 1, 112) == 112
            && Room(after[1], HDR, 12) && NoFit(after, 112, 12, 100)
  {
    FullHeapTaken();
    FullHeapShrunk();
    hide Took, Layout, Coalesced, NextFree, NoFit, Plug, PlugHint, Cut, Wanted;
  }

  lemma FullHeapTaken()
    ensures Took([Block(0, 112, false)], 0, Wanted(96), 100, 0, [Block(0, 112, true)], 112)
  {
    hide Layout, Coalesced, NoFit, Plug, Cut;
    var bs, bs' := [Block(0, 112, false)], [Block(0, 112, true)];
    assert Wanted(96) == 96 && Take(bs, HDR, 0, 96) == bs';
    assert NextFree(bs', 112, 0, 112);
  }

  lemma FullHeapShrunk()
    ensures var bs := [Block(0, 112, true)];
            var after := Plug(Cut(bs, HDR, 0, 12), 1);
            && Layout(bs, HDR, 112) && Coalesced(bs) && NextFree(bs, 112, 0, 112)
            && after == [Block(0, 24, true), Block(24, 112, false)]
            && PlugHint(Cut(bs, HDR, 0, 12), 1, 112) == 112
            && Room(after[1], HDR, 12) && NoFit(after, 112, 12, 100)
  {
    hide Took;
    assert Cut([Block(0, 112, true)], HDR, 0, 12) == [Block(0, 24, true), Block(24, 112, false)];
  }

  // ---- undoing ----

  // Freeing the block malloc has just handed out restores the tiling and the hint, on
  // any heap and whatever the hint was.
  lemma MallocThenFreeRestores(bs: seq<Block>, l: nat, want: nat, memSize: nat, i: nat, bs1: seq<Block>, l1: nat,
                               bs2: seq<Block>, l2: nat)
    requires Layout(bs, HDR, memSize + HDR) && Coalesced(bs) && LfreeOk(bs, memSize + HDR, l) && want % 4 == 0
    requires Took(bs, l, want, memSize, i, bs1, l1)
    requires Layout(bs2, HDR, memSize + HDR) && Coalesced(bs2)
    requires Exchanged(bs1, [Block(bs[i].at, TakenEnd(bs[i], HDR, want), true)], [], bs2)
    requires Settled(bs2, bs[i].at, if bs[i].at < l1 then bs[i].at else l1, l2)
    ensures bs2 == bs && l2 == l
  {
    hide Layout, Coalesced, Exchanged, Settled, Take;
    var nb := Block(bs[i].at, TakenEnd(bs[i], HDR, want), true);
    TookFacts(bs, memSize + HDR, i, want, want);
    AddThenDrop(bs, nb, bs1, bs2);
    LayoutUnique(bs, bs2, HDR, memSize + HDR);
    SettledBack(bs, memSize + HDR, i, if bs[i].at < l1 then bs[i].at else l1, l, l2);
  }

  lemma SettledBack(bs: seq<Block>, top: nat, i: nat, m: nat, l: nat, l': nat)
    requires Layout(bs, HDR, top) && i < |bs| && !bs[i].used && l <= bs[i].at
    requires Settled(bs, bs[i].at, m, l') && m == if l == bs[i].at then bs[i].at else l
    ensures l' == l
  {
    var p :| 0 <= p < |bs| && !bs[p].used && bs[p].at <= bs[i].at < bs[p].end &&
      l' == if bs[p].at <= m < bs[p].end then bs[p].at else m;
    BlocksOrdered(bs, HDR, top, p, i);
    BlocksOrdered(bs, HDR, top, i, p);
  }

  // ---- headers after a splice ----

  // The header of the m-th block of `mid`, when `mid` follows block i - 1.
  ghost predicate MidOk(hdr: map<nat, HeapMem>, bs: seq<Block>, i: nat, mid: seq<Block>, m: nat)
    requires i <= |bs| && m < |mid|
  {
    Spells(hdr, mid[m], if m == 0 then PrevOf(bs, i) else mid[m - 1].at)
  }

  lemma HdrNear(hdr: map<nat, HeapMem>, bs: seq<Block>, top: nat, i: nat)
    requires HdrsOk(hdr, bs, top) && i < |bs|
    ensures HdrOk(hdr, bs, i) && (i + 1 < |bs| ==> HdrOk(hdr, bs, i + 1))
  {
  }

  // The headers of hdr' agree with those of hdr outside the blocks i..j, and spell out mid
  // inside; the block behind points back to the last of mid.
  ghost predicate HdrsReplaced(hdr: map<nat, HeapMem>, hdr': map<nat, HeapMem>, bs: seq<Block>, top: nat, i: nat,
      j: nat, mid: seq<Block>)
    requires i < j <= |bs| && mid != []
  {
    && (forall a :: a in hdr && !(bs[i].at <= a <= bs[j - 1].end) ==> a in hdr' && hdr'[a] == hdr[a])
    && (forall m :: 0 <= m < |mid| ==> MidOk(hdr', bs, i, mid, m))
    && var e := bs[j - 1].end;
       && e in hdr && e in hdr' && hdr'[e] == hdr[e].(prev := hdr'[e].prev)
       && (e < top ==> hdr'[e].prev == mid[|mid| - 1].at)
  }

  lemma HdrSplice(hdr: map<nat, HeapMem>, hdr': map<nat, HeapMem>, bs: seq<Block>, top: nat, i: nat, j: nat,
      mid: seq<Block>)
    requires Layout(bs, HDR, top) && HdrsOk(hdr, bs, top) && i < j <= |bs| && mid != []
    requires Tiles(mid, HDR, bs[i].at, bs[j - 1].end) && HdrsReplaced(hdr, hdr', bs, top, i, j, mid)
    ensures HdrsOk(hdr', bs[..i] + mid + bs[j..], top)
  {
    hide Layout, Tiles, HdrOk, HdrsReplaced, Spliced;
    var bs' := bs[..i] + mid + bs[j..];
    SpliceIs(bs, i, j, mid);
    forall k | 0 <= k < |bs'| ensures HdrOk(hdr', bs', k) {
      if k < i {
        HdrBefore(hdr, hdr', bs, top, i, j, mid, bs', k);
      } else if k < i + |mid| {
        HdrInside(hdr, hdr', bs, top, i, j, mid, bs', k);
      } else {
        HdrBehind(hdr, hdr', bs, top, i, j, mid, bs', k);
      }
    }
    HdrTop(hdr, hdr', bs, top, i, j, mid);
  }

  lemma HdrBefore(hdr: map<nat, HeapMem>, hdr': map<nat, HeapMem>, bs: seq<Block>, top: nat, i: nat, j: nat,
      mid: seq<Block>, bs': seq<Block>, k: nat)
    requires Layout(bs, HDR, top) && HdrsOk(hdr, bs, top) && i < j <= |bs| && mid != []
    requires HdrsReplaced(hdr, hdr', bs, top, i, j, mid) && Spliced(bs, i, j, mid, bs') && k < i
    ensures k < |bs'| && HdrOk(hdr', bs', k)
  {
    BlocksOrdered(bs, HDR, top, k, i);
    BlockBounds(bs, HDR, top, k);
    hide Layout, MidOk;
    assert HdrOk(hdr, bs, k) && bs'[k] == bs[k];
    if k > 0 { assert bs'[k - 1] == bs[k - 1]; }
  }

  lemma HdrInside(hdr: map<nat, HeapMem>, hdr': map<nat, HeapMem>, bs: seq<Block>, top: nat, i: nat, j: nat,
      mid: seq<Block>, bs': seq<Block>, k: nat)
    requires i < j <= |bs| && mid != []
    requires HdrsReplaced(hdr, hdr', bs, top, i, j, mid) && Spliced(bs, i, j, mid, bs') && i <= k < i + |mid|
    ensures k < |bs'| && HdrOk(hdr', bs', k)
  {
    hide Spells;
    assert MidOk(hdr', bs, i, mid, k - i) && bs'[k] == mid[k - i];
    if k > i { assert bs'[k - 1] == mid[k - i - 1]; } else if k > 0 { assert bs'[k - 1] == bs[k - 1]; }
  }

  lemma HdrBehind(hdr: map<nat, HeapMem>, hdr': map<nat, HeapMem>, bs: seq<Block>, top: nat, i: nat, j: nat,
      mid: seq<Block>, bs': seq<Block>, k: nat)
    requires Layout(bs, HDR, top) && HdrsOk(hdr, bs, top) && i < j <= |bs| && mid != []
    requires HdrsReplaced(hdr, hdr', bs, top, i, j, mid) && Spliced(bs, i, j, mid, bs') && i + |mid| <= k < |bs'|
    ensures HdrOk(hdr', bs', k)
  {
    var o := k - i - |mid| + j;
    assert bs[j - 1].end == bs[j].at by { BehindJoins(bs, top, j); }
    BlocksOrdered(bs, HDR, top, j, o);
    BlockBounds(bs, HDR, top, j);
    BlockBounds(bs, HDR, top, o);
    hide Layout, MidOk;
    assert HdrOk(hdr, bs, o) && bs'[k] == bs[o];
    if o > j { assert bs'[k - 1] == bs[o - 1]; } else { assert bs'[k - 1] == mid[|mid| - 1]; }
  }

  lemma BehindJoins(bs: seq<Block>, top: nat, j: nat)
    requires Layout(bs, HDR, top) && 0 < j < |bs|
    ensures bs[j - 1].end == bs[j].at
  {
    var i := j - 1;
    assert bs[i].end == bs[i + 1].at;
  }

  lemma HdrTop(hdr: map<nat, HeapMem>, hdr': map<nat, HeapMem>, bs: seq<Block>, top: nat, i: nat, j: nat,
      mid: seq<Block>)
    requires Layout(bs, HDR, top) && HdrsOk(hdr, bs, top) && i < j <= |bs| && mid != []
    requires HdrsReplaced(hdr, hdr', bs, top, i, j, mid)
    ensures top in hdr' && hdr'[top].used && hdr'[top].next == top
  {
    BlockBounds(bs, HDR, top, j - 1);
    hide Layout, HdrOk, MidOk;
  }

  // Headers after the free block j has been taken.
  lemma TakeHdrs(hdr: map<nat, HeapMem>, hdr': map<nat, HeapMem>, bs: seq<Block>, top: nat, j: nat, want: nat)
    requires Layout(bs, HDR, top) && HdrsOk(hdr, bs, top) && j < |bs| && Room(bs[j], HDR, want) && want % 4 == 0
    requires forall a :: a in hdr && a != bs[j].at && a != TakenEnd(bs[j], HDR, want) && a != bs[j].end ==>
                 a in hdr' && hdr'[a] == hdr[a]
    requires bs[j].at in hdr' && hdr'[bs[j].at] == HeapMem(true, true, TakenEnd(bs[j], HDR, want), PrevOf(bs, j))
    requires TakenEnd(bs[j], HDR, want) < bs[j].end ==>
               Spells(hdr', Block(TakenEnd(bs[j], HDR, want), bs[j].end, false), bs[j].at)
    requires bs[j].end in hdr ==> bs[j].end in hdr'
    requires bs[j].end in hdr ==>
               hdr'[bs[j].end] == if TakenEnd(bs[j], HDR, want) < bs[j].end && bs[j].end != top
                                  then hdr[bs[j].end].(prev := TakenEnd(bs[j], HDR, want)) else hdr[bs[j].end]
    ensures HdrsOk(hdr', Take(bs, HDR, j, want), top)
  {
    var mid := TakenParts(bs[j], HDR, want);
    TakenPartsTile(bs[j], HDR, want);
    assert HdrOk(hdr, bs, j) && (j + 1 < |bs| ==> HdrOk(hdr, bs, j + 1));
    forall m | 0 <= m < |mid| ensures MidOk(hdr', bs, j, mid, m) { }
    HdrSplice(hdr, hdr', bs, top, j, j + 1, mid);
  }

  // Headers after block i has absorbed its right neighbour.
  lemma MergeHdrs(hdr: map<nat, HeapMem>, hdr': map<nat, HeapMem>, bs: seq<Block>, top: nat, i: nat)
    requires Layout(bs, HDR, top) && HdrsOk(hdr, bs, top) && i + 1 < |bs| && !bs[i].used
    requires bs[i].at in hdr && bs[i + 1].end in hdr && bs[i + 1].end != bs[i].at
    requires hdr' == hdr[bs[i].at := hdr[bs[i].at].(next := bs[i + 1].end)]
                        [bs[i + 1].end := hdr[bs[i + 1].end].(prev := bs[i].at)]
    ensures HdrsOk(hdr', MergeAt(bs, i), top)
  {
    var mid := [Block(bs[i].at, bs[i + 1].end, false)];
    assert HdrOk(hdr, bs, i);
    assert MidOk(hdr', bs, i, mid, 0);
    HdrSplice(hdr, hdr', bs, top, i, i + 2, mid);
  }

  // ---- the search ----

  // Where block j starts; the sentinel after the last one.
  function StartOf(bs: seq<Block>, top: nat, j: nat): nat {
    if j < |bs| then bs[j].at else top
  }

  lemma HintIndex(bs: seq<Block>, top: nat, l: nat) returns (m: nat)
    requires Layout(bs, HDR, top) && LfreeOk(bs, top, l)
    ensures m <= |bs| && StartOf(bs, top, m) == l
    ensures forall j :: 0 <= j < m ==> bs[j].at < l
  {
    if l == top {
      m := |bs|;
      forall j | 0 <= j < m ensures bs[j].at < l { assert bs[j].end <= top; }
    } else {
      m :| 0 <= m < |bs| && bs[m].at == l && !bs[m].used;
      forall j | 0 <= j < m ensures bs[j].at < l { assert bs[j].end <= bs[m].at; }
    }
  }

  // The header found at the k-th boundary.
  lemma HeaderAt(hdr: map<nat, HeapMem>, bs: seq<Block>, top: nat, k: nat)
    requires Layout(bs, HDR, top) && HdrsOk(hdr, bs, top) && k <= |bs|
    ensures var p := StartOf(bs, top, k);
            && p in hdr && (k < |bs| ==> p < bs[k].end && hdr[p].used == bs[k].used && (bs[k].used ==> hdr[p].magic))
            && hdr[p].next == StartOf(bs, top, k + 1) && (k < |bs| ==> hdr[p].next == bs[k].end && bs[k].end <= top)
  {
    if k < |bs| { assert HdrOk(hdr, bs, k); }
  }

  // The block's end is the sentinel exactly for the last block.
  lemma NextIsTop(bs: seq<Block>, top: nat, k: nat)
    requires Layout(bs, HDR, top) && k < |bs|
    ensures bs[k].end == top <==> k + 1 == |bs|
    ensures k + 1 < |bs| ==> bs[k + 1].at == bs[k].end
  {
    BlockBounds(bs, HDR, top, k + 1);
  }

  lemma PrevHeader(hdr: map<nat, HeapMem>, bs: seq<Block>, top: nat, i: nat)
    requires Layout(bs, HDR, top) && HdrsOk(hdr, bs, top) && i < |bs|
    ensures bs[i].at in hdr && hdr[bs[i].at].prev in hdr
    ensures hdr[bs[i].at].prev == if i > 0 then bs[i - 1].at else 0
    ensures i > 0 ==> hdr[hdr[bs[i].at].prev].used == bs[i - 1].used && bs[i - 1].at < bs[i].at
    ensures i == 0 ==> bs[i].at == 0
  {
    assert HdrOk(hdr, bs, i) && (i > 0 ==> HdrOk(hdr, bs, i - 1));
    BlockBounds(bs, HDR, top, i);
    if i > 0 { BlockBounds(bs, HDR, top, i - 1); }
  }

  lemma NoneBeyond(bs: seq<Block>, top: nat, l: nat, want: nat, memSize: nat, k: nat)
    requires Layout(bs, HDR, top) && k <= |bs| && StartOf(bs, top, k) >= memSize - want
    requires forall m :: 0 <= m < k ==> !Eligible(bs[m], l, want, memSize)
    ensures NoFit(bs, l, want, memSize)
  {
    forall m | k <= m < |bs| ensures !Eligible(bs[m], l, want, memSize) {
      assert m > k ==> bs[k].end <= bs[m].at;
    }
  }

  // Whether the search loop is sure to stop.
  predicate SearchEnds(memSize: nat, size: u32) {
    size == 0 || Align4(size) > memSize || memSize >= MIN_DATA
  }

  // The n-th position the search visits.
  function Walk(hdr: map<nat, HeapMem>, ptr: nat, n: nat): nat
    decreases n
  {
    if n == 0 || ptr !in hdr then ptr else Walk(hdr, hdr[ptr].next, n - 1)
  }

  // On a heap smaller than a minimum block the bound memSize - want wraps around, and
  // the search circles on the end sentinel: at every step the loop goes on.
  lemma {:induction false} SearchNeverEnds(hdr: map<nat, HeapMem>, bs: seq<Block>, memSize: nat, ptr: nat, n: nat)
    requires memSize < MIN_DATA && Layout(bs, HDR, memSize + HDR) && HdrsOk(hdr, bs, memSize + HDR)
    requires ptr == 0 || ptr == memSize + HDR
    ensures var p := Walk(hdr, ptr, n);
            && p in hdr && p < (memSize - MIN_DATA) % WORD
            && (hdr[p].used || hdr[p].next - (p + HDR) < MIN_DATA)
    decreases n
  {
    assert HdrOk(hdr, bs, 0) && bs[0].end <= memSize + HDR;
    BlockBounds(bs, HDR, memSize + HDR, 1);
    if n > 0 { SearchNeverEnds(hdr, bs, memSize, hdr[ptr].next, n - 1); }
  }

  lemma NextFreeFound(bs: seq<Block>, top: nat, i: nat, m: nat)
    requires Layout(bs, HDR, top) && i < |bs| && i <= m <= |bs|
    requires forall j :: i <= j < m ==> bs[j].used
    requires m < |bs| ==> !bs[m].used
    ensures NextFree(bs, top, bs[i].at, StartOf(bs, top, m))
  {
    assert bs[i].end <= top;
    forall j | 0 <= j < i ensures bs[j].at < bs[i].at { assert bs[j].end <= bs[i].at; }
    forall j | i <= j < |bs| && !bs[j].used ensures StartOf(bs, top, m) <= bs[j].at {
      assert j > m ==> bs[m].end <= bs[j].at;
    }
    assert i < m < |bs| ==> bs[i].end <= bs[m].at;
  }

  lemma UnuseHdrs(hdr: map<nat, HeapMem>, hdr': map<nat, HeapMem>, bs: seq<Block>, top: nat, i: nat)
    requires Layout(bs, HDR, top) && HdrsOk(hdr, bs, top) && i < |bs| && bs[i].at in hdr
    requires hdr' == hdr[bs[i].at := hdr[bs[i].at].(used := false, magic := false)]
    ensures HdrsOk(hdr', Unuse(bs, i), top)
  {
    var mid := [Block(bs[i].at, bs[i].end, false)];
    assert HdrOk(hdr, bs, i) && (i + 1 < |bs| ==> HdrOk(hdr, bs, i + 1));
    assert MidOk(hdr', bs, i, mid, 0);
    HdrSplice(hdr, hdr', bs, top, i, i + 1, mid);
  }

  lemma CutHdrs(hdr: map<nat, HeapMem>, hdr': map<nat, HeapMem>, bs: seq<Block>, top: nat, i: nat, n: nat)
    requires Layout(bs, HDR, top) && HdrsOk(hdr, bs, top) && i < |bs| && bs[i].used &&
             bs[i].at + HDR + n + HDR <= bs[i].end
    requires bs[i].at in hdr && bs[i].end in hdr
    requires var p2 := bs[i].at + HDR + n;
             hdr' == if bs[i].end != top
                     then hdr[p2 := HeapMem(true, false, bs[i].end, bs[i].at)]
                             [bs[i].at := hdr[bs[i].at].(next := p2)]
                             [bs[i].end := hdr[bs[i].end].(prev := p2)]
                     else hdr[p2 := HeapMem(true, false, bs[i].end, bs[i].at)]
                             [bs[i].at := hdr[bs[i].at].(next := p2)]
    ensures HdrsOk(hdr', Cut(bs, HDR, i, n), top)
  {
    hide Layout, Tiles, HdrsOk;
    var mid := CutParts(bs[i], HDR, n);
    HdrNear(hdr, bs, top, i);
    BlockBounds(bs, HDR, top, i);
    CutPartsTile(bs[i], HDR, n);
    assert MidOk(hdr', bs, i, mid, 0) && MidOk(hdr', bs, i, mid, 1);
    HdrSplice(hdr, hdr', bs, top, i, i + 1, mid);
  }

  // The bytes malloc takes from the free block b, header included.
  function Extent(b: Block, want: nat): int {
    TakenEnd(b, HDR, want) - b.at
  }

  // All of it unless a header and 12 bytes more would be left over.
  lemma ExtentMeans(b: Block, want: nat)
    requires Room(b, HDR, want)
    ensures Extent(b, want) == if b.end - b.at - 12 >= want + 24 then want + 12 else b.end - b.at
  {
  }

  // What the caller of malloc may rely on: the block is inside the heap, new, large
  // enough, and clear of every block in use.
  lemma TookFacts(bs: seq<Block>, top: nat, k: nat, want: nat, len: nat)
    requires Layout(bs, HDR, top) && k < |bs| && Room(bs[k], HDR, want) && want % 4 == 0 && len <= want
    ensures var nb := Block(bs[k].at, TakenEnd(bs[k], HDR, want), true);
            && nb !in bs && Exchanged(bs, [], [nb], Take(bs, HDR, k, want)) && nb.at + HDR + len <= nb.end <= top
            && forall x: Block :: x in bs && x.used ==> x.end <= nb.at || nb.end <= x.at
  {
    var nb := Block(bs[k].at, TakenEnd(bs[k], HDR, want), true);
    BlockBounds(bs, HDR, top, k);
    TakeUsed(bs, HDR, top, k, want);
    TakenDisjoint(bs, HDR, top, k, want);
    TakenIsNew(bs, k, nb);
  }

  lemma AlignTwice(size: u32)
    ensures Align4(size) % 4 == 0 && Align4(Align4(size)) == Align4(size)
  {
  }

  // What is known of a free block about to be split at `cut`.
  lemma FreeBlockHeaders(hdr: map<nat, HeapMem>, bs: seq<Block>, top: nat, j: nat, cut: nat)
    requires Layout(bs, HDR, top) && HdrsOk(hdr, bs, top) && j < |bs| && !bs[j].used
    requires bs[j].at + HDR <= cut && cut + HDR <= bs[j].end
    ensures bs[j].at in hdr && bs[j].end in hdr && bs[j].end <= top
    ensures hdr[bs[j].at].next == bs[j].end && hdr[bs[j].at].prev == PrevOf(bs, j)
    ensures Spares(bs, bs[j].at) && Spares(bs, cut) && Spares(bs, bs[j].end)
  {
    assert HdrOk(hdr, bs, j) && (j + 1 < |bs| ==> HdrOk(hdr, bs, j + 1));
    BoundariesSpared(bs, HDR, top, bs[j].at);
    BoundariesSpared(bs, HDR, top, cut);
    BoundariesSpared(bs, HDR, top, bs[j].end);
  }

  // What is known of two neighbouring blocks when the first is about to absorb the second.
  lemma PairHeaders(hdr: map<nat, HeapMem>, bs: seq<Block>, top: nat, i: nat)
    requires Layout(bs, HDR, top) && HdrsOk(hdr, bs, top) && i + 1 < |bs|
    ensures bs[i].at in hdr && bs[i + 1].at in hdr && hdr[bs[i + 1].at].next == bs[i + 1].end
    ensures bs[i].at < bs[i + 1].end <= top && bs[i + 1].end in hdr
    ensures Spares(bs, bs[i].at) && Spares(bs, bs[i + 1].end)
  {
    assert HdrOk(hdr, bs, i) && HdrOk(hdr, bs, i + 1) && (i + 2 < |bs| ==> HdrOk(hdr, bs, i + 2));
    BoundariesSpared(bs, HDR, top, bs[i].at);
    BoundariesSpared(bs, HDR, top, bs[i + 1].end);
  }

  // The range test of rt_system_heap_init.
  predicate RangeFits(beginAddr: u32, endAddr: u32) {
    var endAlign := endAddr / 4 * 4;
    endAlign > 2 * HDR && endAlign - 2 * HDR >= Align4(beginAddr)
  }

  lemma RangeFacts(beginAddr: u32, endAddr: u32)
    requires RangeFits(beginAddr, endAddr)
    ensures Align4(beginAddr) % 4 == 0 && endAddr / 4 * 4 % 4 == 0 && endAddr / 4 * 4 <= endAddr
    ensures (endAddr / 4 * 4 - Align4(beginAddr) - 2 * HDR) % 4 == 0
    ensures beginAddr <= 0xFFFF_FFFC ==> beginAddr <= Align4(beginAddr)
    ensures Align4(beginAddr) < beginAddr + 4 && endAddr < endAddr / 4 * 4 + 4
  {
  }

  lemma FreshHeap(hdr: map<nat, HeapMem>, top: nat)
    requires top >= HDR && hdr == map[0 := HeapMem(true, false, top, 0), top := HeapMem(true, true, top, top)]
    ensures var bs := [Block(0, top, false)];
      Layout(bs, HDR, top) && HdrsOk(hdr, bs, top) && Coalesced(bs) && UsedBytes(bs) == 0 && LfreeOk(bs, top, 0)
  {
    var bs := [Block(0, top, false)];
    OneTile(bs[0], HDR);
    UsedBytesOne(bs[0]);
    hide Tiles, Aligned, Coalesced, UsedBytes;
    assert HdrOk(hdr, bs, 0) && bs[0].at == 0 && !bs[0].used;
  }

  lemma WantedAligned(size: u32)
    ensures Wanted(size) % 4 == 0
  {
  }

  lemma WantedCovers(size: u32)
    requires size % 4 == 0
    ensures size <= Wanted(size) && Align4(size) == size
  {
  }

  // A used block starts at `at`.
  ghost predicate LiveAt(bs: seq<Block>, at: int) {
    exists i :: 0 <= i < |bs| && bs[i].used && bs[i].at == at
  }

  // The pointers name exactly the used blocks, each once.
  ghost predicate NameAll(bs: seq<Block>, base: nat, ptrs: seq<nat>) {
    && (forall i, j :: 0 <= i < j < |ptrs| ==> ptrs[i] != ptrs[j])
    && (forall x: Block :: x in bs && x.used ==> base + x.at + HDR in ptrs)
    && (forall a :: a in ptrs ==> LiveAt(bs, a - base - HDR))
  }

  lemma NamedBlock(bs: seq<Block>, top: nat, base: nat, ptrs: seq<nat>) returns (i: nat)
    requires NameAll(bs, base, ptrs) && ptrs != [] && Layout(bs, HDR, top)
    ensures i < |bs| && bs[i].used && ptrs[0] == base + bs[i].at + HDR && bs[i].at < top
  {
    assert ptrs[0] in ptrs;
    i :| 0 <= i < |bs| && bs[i].used && bs[i].at == ptrs[0] - base - HDR;
    BlockBounds(bs, HDR, top, i);
  }

  // After one free, the remaining pointers still name exactly the used blocks.
  lemma OneFewer(bs: seq<Block>, top: nat, bs': seq<Block>, i: nat, base: nat, ptrs: seq<nat>)
    requires Layout(bs, HDR, top) && i < |bs| && bs[i].used && Exchanged(bs, [bs[i]], [], bs')
    requires NameAll(bs, base, ptrs) && ptrs != [] && ptrs[0] == base + bs[i].at + HDR
    ensures NameAll(bs', base, ptrs[1..])
  {
    hide Layout, LiveAt;
    forall x: Block | x in bs' && x.used ensures base + x.at + HDR in ptrs[1..] {
      StartsDiffer(bs, HDR, top, i, x);
      InRest(ptrs, base + x.at + HDR);
    }
    forall a | a in ptrs[1..] ensures LiveAt(bs', a - base - HDR) {
      InRest(ptrs, a);
      StillLive(bs, bs', i, a - base - HDR);
    }
  }

  lemma InRest(ptrs: seq<nat>, a: nat)
    requires ptrs != [] && forall i, j :: 0 <= i < j < |ptrs| ==> ptrs[i] != ptrs[j]
    ensures a in ptrs[1..] <==> a in ptrs && a != ptrs[0]
  {
    if a in ptrs && a != ptrs[0] {
      var i :| 0 <= i < |ptrs| && ptrs[i] == a;
      assert ptrs[1..][i - 1] == a;
    }
  }

  lemma StillLive(bs: seq<Block>, bs': seq<Block>, i: nat, at: int)
    requires i < |bs| && Exchanged(bs, [bs[i]], [], bs') && LiveAt(bs, at) && at != bs[i].at
    ensures LiveAt(bs', at)
  {
    var j :| 0 <= j < |bs| && bs[j].used && bs[j].at == at;
    assert bs[j] in bs';
  }

  lemma NoneNamed(bs: seq<Block>, base: nat, ptrs: seq<nat>)
    requires NameAll(bs, base, ptrs) && ptrs == []
    ensures forall x: Block :: x in bs ==> !x.used
  {
  }

  lemma SettledInOne(top: nat, at: nat, m: nat, l: nat)
    requires m < top && Settled([Block(0, top, false)], at, m, l)
    ensures l == 0
  {
  }

  // Block k taken and then block i freed, with the hint where malloc and free put it.
  ghost predicate MovedBlocks(bs: seq<Block>, l: nat, want: nat, memSize: nat, i: nat, k: nat, bs': seq<Block>, l': nat)
    requires i < |bs|
  {
    exists bs1, l1 ::
      && Took(bs, l, want, memSize, k, bs1, l1)
      && Exchanged(bs1, [bs[i]], [], bs')
      && Settled(bs', bs[i].at, if bs[i].at < l1 then bs[i].at else l1, l')
  }

  lemma MovedIs(bs: seq<Block>, l: nat, want: nat, memSize: nat, i: nat, k: nat, bs1: seq<Block>, l1: nat,
      bs': seq<Block>, l': nat)
    requires i < |bs| && Took(bs, l, want, memSize, k, bs1, l1) && Exchanged(bs1, [bs[i]], [], bs')
    requires Settled(bs', bs[i].at, if bs[i].at < l1 then bs[i].at else l1, l')
    ensures MovedBlocks(bs, l, want, memSize, i, k, bs', l')
  {
  }

  lemma MovedPiece(bs: seq<Block>, l: nat, want: nat, memSize: nat, i: nat, k: nat, bs': seq<Block>, l': nat, n: nat,
      ram0: seq<bv8>, ram: seq<bv8>)
    requires Layout(bs, HDR, memSize + HDR) && i < |bs| && bs[i].used && k < |bs| && n <= want && want % 4 == 0
    requires MovedBlocks(bs, l, want, memSize, i, k, bs', l')
    requires Copied(ram0, HDR, bs[i].at, ram, bs[k].at,
                    if bs[i].end - bs[i].at < HDR + n then bs[i].end - bs[i].at - HDR else n)
    ensures HoldsPrefix(bs', 12, bs[i].end - bs[i].at - 12, n, ram0, bs[i].at + 12, ram, bs[k].at + 12)
  {
    hide Layout, Settled, Took, Exchanged, Take, TakenEnd, Room;
    var bs1, l1 :| Took(bs, l, want, memSize, k, bs1, l1) && Exchanged(bs1, [bs[i]], [], bs')
      && Settled(bs', bs[i].at, if bs[i].at < l1 then bs[i].at else l1, l');
    TookParts(bs, l1, l, want, memSize, k, bs1);
    TookFacts(bs, memSize + HDR, k, want, n);
    var nb := Block(bs[k].at, TakenEnd(bs[k], HDR, want), true);
    AddedIn(bs, nb, bs1);
    StaysIn(bs1, bs[i], nb, bs');
  }

  class Heap {
    const heapPtr: nat            // heap_ptr
    const memSize: nat            // mem_size_aligned
    const top: nat                // heap_end, as an offset
    var hdr: map<nat, HeapMem>    // block headers, by offset
    var ram: seq<bv8>             // the bytes of the heap, headers included
    var lfree: nat
    var usedMem: nat
    var maxMem: nat
    ghost var blocks: seq<Block>

    // The headers spell out a tiling of the heap, and used_mem adds up its used blocks.
    ghost predicate Shape()
      reads this
    {
      && top == memSize + HDR && |ram| == top + HDR && heapPtr + |ram| < WORD
      && heapPtr % 4 == 0 && memSize % 4 == 0
      && Layout(blocks, HDR, top) && HdrsOk(hdr, blocks, top)
      && usedMem == UsedBytes(blocks) && usedMem <= maxMem
    }

    ghost predicate Valid()
      reads this
    {
      Shape() && Coalesced(blocks) && LfreeOk(blocks, top, lfree)
    }

    // Rewrites one header; the bytes it lies on become whatever they become.
    method SetHdr(a: nat, h: HeapMem, ghost keep: seq<Block>, ghost from: seq<bv8>)
      requires a + HDR <= |ram| && KeepsData(keep, HDR, from, ram) && Spares(keep, a)
      modifies this`hdr, this`ram
      ensures hdr == old(hdr)[a := h]
      ensures KeepsData(keep, HDR, from, ram)
    {
      hdr := hdr[a := h];
      ram := Scribble(ram, a, HDR, keep, from);
    }

    // Splits the free block at ptr: its front becomes a used block of `size` data bytes,
    // the rest a free block.
    method TakeFront(ptr: nat, size: nat, ghost j: nat)
      requires Shape() && j < |blocks| && blocks[j].at == ptr && Room(blocks[j], HDR, size) && size % 4 == 0
      requires TakenEnd(blocks[j], HDR, size) < blocks[j].end
      modifies this`hdr, this`ram
      ensures HdrsOk(hdr, Take(blocks, HDR, j, size), top)
      ensures KeepsData(blocks, HDR, old(ram), ram)
    {
      hide Layout, HdrsOk, Spares, KeepsData, Take;
      FreeBlockHeaders(hdr, blocks, top, j, ptr + HDR + size);
      var mem := hdr[ptr];
      var ptr2 := ptr + HDR + size;
      var stale := ptr2 in hdr && hdr[ptr2].magic;
      SetHdr(ptr2, HeapMem(stale, false, mem.next, ptr), blocks, old(ram));
      SetHdr(ptr, mem.(next := ptr2, used := true), blocks, old(ram));
      if mem.next != memSize + HDR {
        SetHdr(mem.next, hdr[mem.next].(prev := ptr2), blocks, old(ram));
      }
      SetHdr(ptr, hdr[ptr].(magic := true), blocks, old(ram));
      TakeHdrs(old(hdr), hdr, blocks, top, j, size);
    }

    // Hands out the whole free block at ptr.
    method TakeWhole(ptr: nat, size: nat, ghost j: nat)
      requires Shape() && j < |blocks| && blocks[j].at == ptr && Room(blocks[j], HDR, size) && size % 4 == 0
      requires TakenEnd(blocks[j], HDR, size) == blocks[j].end
      modifies this`hdr, this`ram
      ensures HdrsOk(hdr, Take(blocks, HDR, j, size), top)
      ensures KeepsData(blocks, HDR, old(ram), ram)
    {
      assert HdrOk(hdr, blocks, j);
      assert blocks[j].end <= top;
      assert Spares(blocks, ptr) by { BoundariesSpared(blocks, HDR, top, ptr); }
      SetHdr(ptr, hdr[ptr].(used := true), blocks, old(ram));
      SetHdr(ptr, hdr[ptr].(magic := true), blocks, old(ram));
      TakeHdrs(old(hdr), hdr, blocks, top, j, size);
    }

    // The part of malloc that takes the free block at ptr, splitting it when the rest is
    // large enough to stand as a block.
    method Carve(ptr: nat, size: nat, ghost j: nat)
      requires Shape() && Coalesced(blocks) && j < |blocks| && blocks[j].at == ptr
      requires Room(blocks[j], HDR, size) && size % 4 == 0
      modifies this`hdr, this`ram, this`usedMem, this`maxMem, this`blocks
      ensures Shape() && Coalesced(blocks) && blocks == Take(old(blocks), HDR, j, size)
      ensures usedMem == old(usedMem) + TakenEnd(old(blocks)[j], HDR, size) - ptr &&
              maxMem == Raised(old(maxMem), usedMem)
      ensures HandsOut(old(blocks), 12, j, size, blocks) && usedMem == old(usedMem) + (blocks[j].end - blocks[j].at)
      ensures KeepsData(old(blocks), HDR, old(ram), ram)
    {
      hide Layout, HdrsOk, Take, Coalesced, Exchanged;
      HeaderAt(hdr, blocks, top, j);
      var next := hdr[ptr].next;
      if next - (ptr + HDR) >= size + HDR + MIN_DATA {
        TakeFront(ptr, size, j);
        usedMem := usedMem + size + HDR;
      } else {
        TakeWhole(ptr, size, j);
        usedMem := usedMem + next - ptr;
      }
      if maxMem < usedMem { maxMem := usedMem; }
      TakeLayout(blocks, HDR, top, j, size);
      TakeUsed(blocks, HDR, top, j, size);
      TakeHandsOut(blocks, HDR, j, size);
      TakeIndex(blocks, HDR, j, size, j);
      blocks := Take(blocks, HDR, j, size);
    }

    // Block i swallows its right neighbour; both are free.
    method Absorb(mem: nat, nmem: nat, ghost i: nat)
      requires Shape() && i + 1 < |blocks| && blocks[i].at == mem && blocks[i + 1].at == nmem
      requires !blocks[i].used && !blocks[i + 1].used
      modifies this`hdr, this`ram, this`blocks
      ensures Shape() && blocks == MergeAt(old(blocks), i)
      ensures KeepsData(old(blocks), HDR, old(ram), ram)
    {
      hide MergeAt, Layout, KeepsData, Spares;
      ghost var bs, r := blocks, ram;
      PairHeaders(hdr, bs, top, i);
      var next := hdr[nmem].next;
      SetHdr(mem, hdr[mem].(next := next), bs, r);
      SetHdr(next, hdr[next].(prev := mem), bs, r);
      MergeHdrs(old(hdr), hdr, bs, top, i);
      MergeKeeps(bs, HDR, top, i);
      blocks := MergeAt(bs, i);
    }

    // plug_holes
    method PlugHoles(mem: nat, ghost i: nat)
      requires Shape() && i < |blocks| && blocks[i].at == mem && !blocks[i].used
      requires CoalescedBut(blocks, i) && LfreeOk(blocks, top, lfree)
      modifies this`hdr, this`ram, this`blocks, this`lfree
      ensures Valid() && blocks == Plug(old(blocks), i) && lfree == PlugHint(old(blocks), i, old(lfree))
      ensures KeepsData(old(blocks), HDR, old(ram), ram)
    {
      hide MergeAt, Plug, Layout, HdrsOk, KeepsData, PlugHint, PlugHi;
      ghost var bs, r := blocks, ram;
      PlugRightShape(bs, i);
      PlugHintSteps(bs, top, i, lfree);
      PlugHintOk(bs, top, i, lfree);
      PlugCoalesced(bs, i);
      PlugSteps(bs, i);
      PlugForward(mem, i);
      ghost var bs1, r1 := blocks, ram;
      PlugBackward(mem, i);
      KeepsDataTransitive(bs, HDR, bs1, r, r1, ram);
    }

    // plug_holes, first half: combine mem and mem->next.
    method PlugForward(mem: nat, ghost i: nat)
      requires Shape() && i < |blocks| && blocks[i].at == mem && !blocks[i].used
      modifies this`hdr, this`ram, this`blocks, this`lfree
      ensures Shape() && SameUsed(old(blocks), blocks) && KeepsData(old(blocks), HDR, old(ram), ram)
      ensures blocks == PlugRight(old(blocks), i)
      ensures lfree == if PlugHi(old(blocks), i) > i && old(lfree) == old(blocks)[i + 1].at then mem else old(lfree)
    {
      hide Layout, HdrsOk, Spares, KeepsData, MergeAt;
      ghost var bs := blocks;
      KeepsDataReflexive(bs, HDR, ram);
      HeaderAt(hdr, bs, top, i);
      HeaderAt(hdr, bs, top, i + 1);
      NextIsTop(bs, top, i);
      var nmem := hdr[mem].next;
      if mem != nmem && !hdr[nmem].used && nmem != top {
        if lfree == nmem { lfree := mem; }
        MergeUsed(bs, HDR, top, i);
        Absorb(mem, nmem, i);
      }
    }

    // plug_holes, second half: combine mem->prev and mem.
    method PlugBackward(mem: nat, ghost i: nat)
      requires Shape() && i < |blocks| && blocks[i].at == mem && !blocks[i].used
      modifies this`hdr, this`ram, this`blocks, this`lfree
      ensures Shape() && KeepsData(old(blocks), HDR, old(ram), ram)
      ensures blocks == if PlugLo(old(blocks), i) < i then MergeAt(old(blocks), i - 1) else old(blocks)
      ensures lfree == if PlugLo(old(blocks), i) < i && old(lfree) == mem then old(blocks)[i - 1].at else old(lfree)
    {
      hide Layout, HdrsOk, Spares, KeepsData, MergeAt;
      ghost var bs := blocks;
      KeepsDataReflexive(bs, HDR, ram);
      PrevHeader(hdr, bs, top, i);
      var pmem := hdr[mem].prev;
      if pmem != mem && !hdr[pmem].used {
        if lfree == mem { lfree := pmem; }
        Absorb(pmem, mem, i - 1);
      }
    }

    // rt_malloc. A heap too small for a minimum block makes the search loop run forever
    // (see SearchNeverEnds), so such a call is excluded.
    method Malloc(size: u32) returns (p: Ptr, ghost k: nat)
      requires Valid() && SearchEnds(memSize, size)
      modifies this
      ensures Valid()
      ensures p == Null <==>
                size == 0 || Align4(size) > memSize || NoFit(old(blocks), old(lfree), Wanted(size), memSize)
      ensures p == Null ==> blocks == old(blocks) && lfree == old(lfree) && maxMem == old(maxMem)
      ensures p.At? ==> k < |old(blocks)| && Took(old(blocks), old(lfree), Wanted(size), memSize, k, blocks, lfree)
      ensures p.At? ==> p.addr == heapPtr + old(blocks)[k].at + HDR
      // no earlier block at or behind the hint was free and large enough
      ensures p.At? ==> forall m :: 0 <= m < k && old(lfree) <= old(blocks)[m].at ==>
                          old(blocks)[m].used || old(blocks)[m].end - old(blocks)[m].at - 12 < Wanted(size)
      // the rest of a large block stays free, and used_mem counts what is handed out
      ensures p.At? ==>
                && HandsOut(old(blocks), 12, k, Wanted(size), blocks)
                && usedMem == old(usedMem) + (blocks[k].end - blocks[k].at)
      ensures usedMem == old(usedMem) + (if p.At? then Extent(old(blocks)[k], Wanted(size)) else 0)
      ensures maxMem == Raised(old(maxMem), usedMem)
      ensures KeepsData(old(blocks), HDR, old(ram), ram)
    {
      hide Layout, HdrsOk, Coalesced, LfreeOk, Take, NextFree, HandsOut;
      k := 0;
      p := Null;
      if size == 0 { return; }
      var want := Align4(size);
      if want > memSize { return; }
      if want < MIN_DATA { want := MIN_DATA; }
      ghost var bs, l, r := blocks, lfree, ram;
      var ptr := lfree;
      ghost var start := HintIndex(bs, top, l);
      k := start;
      while ptr < memSize - want
        invariant Valid() && blocks == bs && lfree == l && ram == r && maxMem == old(maxMem) && usedMem == old(usedMem)
        invariant k <= |bs| && l <= ptr && ptr == StartOf(bs, top, k)
        invariant forall m :: 0 <= m < k ==> !Eligible(bs[m], l, want, memSize)
        decreases |bs| - k
      {
        HeaderAt(hdr, bs, top, k);
        var mem := hdr[ptr];
        if !mem.used && mem.next - (ptr + HDR) >= want {
          FirstFitMeans(bs, l, want, memSize, k);
          Carve(ptr, want, k);
          TakeIndex(bs, HDR, k, want, k);
          if ptr == lfree { NextLfree(k); }
          TookHintOk(bs, l, want, memSize, k, blocks, lfree);
          return At(heapPtr + ptr + HDR), k;
        }
        ptr := mem.next;
        k := k + 1;
      }
      NoneBeyond(bs, top, l, want, memSize, k);
    }

    // The end of malloc: move lfree to the next block that is not used.
    method NextLfree(ghost i: nat)
      requires Shape() && i < |blocks| && blocks[i].at == lfree
      modifies this`lfree
      ensures NextFree(blocks, top, old(lfree), lfree)
    {
      hide Layout, HdrsOk, NextFree;
      ghost var m := i;
      HeaderAt(hdr, blocks, top, i);
      while hdr[lfree].used && lfree != top
        invariant i <= m <= |blocks| && lfree == StartOf(blocks, top, m) && lfree in hdr
        invariant m < |blocks| ==> hdr[lfree].used == blocks[m].used && lfree < top
        invariant forall j :: i <= j < m ==> blocks[j].used
        decreases |blocks| - m
      {
        HeaderAt(hdr, blocks, top, m);
        HeaderAt(hdr, blocks, top, m + 1);
        lfree := hdr[lfree].next;
        m := m + 1;
      }
      NextFreeFound(blocks, top, i, m);
    }

    predicate InHeap(addr: nat) {
      heapPtr <= addr < heapPtr + top
    }

    // `addr` is what malloc returned for block i.
    ghost predicate Names(addr: nat, i: nat)
      reads this
    {
      i < |blocks| && blocks[i].used && addr == heapPtr + blocks[i].at + HDR
    }

    // rt_free of block i; RT_NULL and addresses outside the heap are ignored.
    method Free(rmem: Ptr, ghost i: nat)
      requires Valid()
      requires rmem.At? && InHeap(rmem.addr) ==> Names(rmem.addr, i)
      modifies this
      ensures Valid() && maxMem == old(maxMem) && KeepsData(blocks, HDR, old(ram), ram)
      ensures rmem.At? && InHeap(rmem.addr) ==>
                var b := old(blocks)[i];
                && Exchanged(old(blocks), [b], [], blocks)
                && Settled(blocks, b.at, if b.at < old(lfree) then b.at else old(lfree), lfree)
                && usedMem == old(usedMem) - (b.end - b.at)
      ensures !(rmem.At? && InHeap(rmem.addr)) ==>
                blocks == old(blocks) && lfree == old(lfree) && usedMem == old(usedMem)
      ensures NextFree(old(blocks), top, 0, old(lfree)) ==> NextFree(blocks, top, 0, lfree)
    {
      hide Layout, Coalesced, LfreeOk, Unuse, Plug, PlugHint, HdrsOk, Exchanged, NextFree, Settled, Spares;
      if rmem == Null || !InHeap(rmem.addr) { return; }
      var mem := rmem.addr - heapPtr - HDR;
      ghost var bs, r, l := blocks, ram, lfree;
      HeaderAt(hdr, bs, top, i);
      StartSpared(bs, HDR, top, i);
      assert hdr[mem].used && hdr[mem].magic;
      SetHdr(mem, hdr[mem].(used := false, magic := false), bs, r);
      UnuseHdrs(old(hdr), hdr, bs, top, i);
      UnuseLayout(bs, HDR, top, i);
      UnuseUsed(bs, HDR, top, i);
      FreedHintLowest(bs, top, i, l, Unuse(bs, i));
      if mem < lfree { lfree := mem; }
      UsedBytesBound(Unuse(bs, i), HDR, top);
      usedMem := usedMem - (hdr[mem].next - mem);
      blocks := Unuse(bs, i);
      ghost var bs1, r1, l1 := blocks, ram, lfree;
      UnuseAt(bs, i);
      PlugHoles(mem, i);
      PlugUsed(bs1, HDR, top, i);
      PlugHintSettles(bs1, top, i, l1);
      if NextFree(bs1, top, 0, l1) { PlugHintLowest(bs1, top, i, l1); }
      FreedMeaning(bs, HDR, bs1, blocks, bs[i], r, r1, ram);
    }

    // Ends the used block i at n data bytes and makes the rest a free block.
    method CutBlock(ptr: nat, n: nat, ghost i: nat)
      requires Shape() && i < |blocks| && blocks[i].used && blocks[i].at == ptr
      requires n % 4 == 0 && ptr + HDR + n + HDR <= blocks[i].end
      modifies this`hdr, this`ram, this`blocks, this`usedMem
      ensures Shape() && blocks == Cut(old(blocks), HDR, i, n) && KeepsData(blocks, HDR, old(ram), ram)
    {
      hide Layout, Cut, HdrsOk, Spares, KeepsData, UsedBytes;
      ghost var bs, r := blocks, ram;
      ghost var cut := Cut(bs, HDR, i, n);
      HeaderAt(hdr, bs, top, i);
      HeaderAt(hdr, bs, top, i + 1);
      CutSpares(bs, HDR, top, i, n);
      CutLayout(bs, HDR, top, i, n);
      CutUsed(bs, HDR, top, i, n);
      KeepsDataReflexive(cut, HDR, r);
      UsedBytesBound(cut, HDR, top);
      var next := hdr[ptr].next;
      usedMem := usedMem - (next - ptr - HDR - n);
      var ptr2 := ptr + HDR + n;
      SetHdr(ptr2, HeapMem(true, false, next, ptr), cut, r);
      SetHdr(ptr, hdr[ptr].(next := ptr2), cut, r);
      if next != memSize + HDR {
        SetHdr(next, hdr[next].(prev := ptr2), cut, r);
      }
      CutHdrs(old(hdr), hdr, bs, top, i, n);
      blocks := cut;
    }

    // The part of rt_realloc that splits a used block in place.
    method Shrink(ptr: nat, newsize: nat, ghost i: nat)
      requires Valid() && i < |blocks| && blocks[i].used && blocks[i].at == ptr
      requires newsize % 4 == 0 && newsize + HDR + MIN_DATA < blocks[i].end - ptr - HDR
      modifies this
      ensures Valid() && maxMem == old(maxMem) && KeepsData(blocks, HDR, old(ram), ram)
      ensures Exchanged(old(blocks), [old(blocks)[i]], [Block(ptr, ptr + HDR + newsize, true)], blocks)
      ensures usedMem == old(usedMem) - (old(blocks)[i].end - ptr - 12 - newsize)
      ensures Settled(blocks, ptr + HDR + newsize, old(lfree), lfree)
      ensures NextFree(old(blocks), top, 0, old(lfree)) ==>
                (NextFree(blocks, top, 0, lfree) <==> old(lfree) < top && old(lfree) <= old(blocks)[i].end)
    {
      hide Layout, Coalesced, LfreeOk, Cut, Plug, PlugHint, HdrsOk, Exchanged, NextFree, Settled, Spares, KeepsData,
           CoalescedBut, UsedBytes;
      ghost var bs, r, l := blocks, ram, lfree;
      ghost var cut := Cut(bs, HDR, i, newsize);
      CutAt(bs, HDR, i, newsize);
      CutCoalesced(bs, HDR, i, newsize);
      CutUsed(bs, HDR, top, i, newsize);
      CutHintOk(bs, top, i, newsize, l);
      CutBlock(ptr, newsize, i);
      ghost var r1 := ram;
      var ptr2 := ptr + HDR + newsize;
      PlugHoles(ptr2, i + 1);
      PlugUsed(cut, HDR, top, i + 1);
      PlugHintSettles(cut, top, i + 1, l);
      if NextFree(bs, top, 0, l) { CutHintLowest(bs, top, i, newsize, l); }
      CutMeaning(bs, HDR, cut, blocks, bs[i], Block(ptr, ptr2, true), r, r1, ram);
    }

    // Copies n data bytes from the block at `src` into the newly taken block nb.
    method CopyUser(dst: nat, src: nat, n: nat, ghost bs: seq<Block>, ghost nb: Block)
      requires Valid() && Layout(bs, HDR, top) && nb.at == dst && dst + HDR + n <= nb.end <= top && src + HDR + n <= top
      requires forall x: Block :: x in bs && x.used ==> x.end <= nb.at || nb.end <= x.at
      requires dst + HDR + n <= src || src + HDR + n <= dst
      modifies this`ram
      ensures Valid() && KeepsData(bs, HDR, old(ram), ram) && Copied(old(ram), HDR, src, ram, dst, n)
    {
      hide Layout, Coalesced, LfreeOk, HdrsOk, KeepsData, Copied;
      ram := CopyBytes(ram, dst + HDR, src + HDR, n);
      CopySpares(bs, HDR, top, nb, old(ram), ram, n);
      CopyIsCopied(old(ram), HDR, src, ram, dst, n);
    }

    // What a successful move of block i leaves behind: the new block, taken from block k,
    // the old one gone, the hint where malloc and then free put it, the data copied.
    ghost predicate Moved(bs: seq<Block>, l: nat, r: seq<bv8>, i: nat, n: u32, k: nat, p: Ptr)
      reads this
    {
      && i < |bs| && k < |bs| && p == At(heapPtr + bs[k].at + HDR)
      && MovedBlocks(bs, l, Wanted(n), memSize, i, k, blocks, lfree)
      && Copied(r, HDR, bs[i].at, ram, bs[k].at,
                if bs[i].end - bs[i].at < HDR + n then bs[i].end - bs[i].at - HDR else n)
    }

    // The data bytes of block i, read from its header.
    method DataSize(mem: nat, ghost i: nat) returns (size: nat)
      requires Shape() && i < |blocks| && blocks[i].at == mem
      ensures mem + HDR + size == blocks[i].end <= top
    {
      HeaderAt(hdr, blocks, top, i);
      BlockBounds(blocks, HDR, top, i);
      hide Layout, HdrsOk, UsedBytes;
      size := hdr[mem].next - mem - HDR;
    }

    // The part of rt_realloc that allocates elsewhere, copies and frees.
    method Move(rmem: nat, n: u32, ghost i: nat) returns (p: Ptr, ghost k: nat)
      requires Valid() && SearchEnds(memSize, n) && InHeap(rmem) && Names(rmem, i) && n % 4 == 0 && n <= memSize
      modifies this
      ensures Valid()
      ensures p == Null <==> n == 0 || NoFit(old(blocks), old(lfree), Wanted(n), memSize)
      ensures p == Null ==> blocks == old(blocks) && lfree == old(lfree) && maxMem == old(maxMem)
      ensures KeepsBoth(old(blocks), HDR, blocks, old(ram), ram)
      ensures p.At? ==> k < |old(blocks)| && p != At(rmem) && Moved(old(blocks), old(lfree), old(ram), i, n, k, p)
      ensures p.At? ==> maxMem == Raised(old(maxMem), old(usedMem) + Extent(old(blocks)[k], Wanted(n)))
      ensures p.At? ==>
                HoldsPrefix(blocks, 12, old(blocks)[i].end - old(blocks)[i].at - 12, n, old(ram), rmem - heapPtr,
                            ram, p.addr - heapPtr)
    {
      hide Layout, Coalesced, LfreeOk, Take, HdrsOk, Exchanged, NextFree, Settled, KeepsData, Copied, KeepsBoth,
           NoFit, Took, Room, UsedBytes;
      hide MovedBlocks, Extent, Wanted, Align4, HoldsPrefix;
      WantedCovers(n);
      ghost var bs, r, b := blocks, ram, blocks[i];
      var size := DataSize(rmem - heapPtr - HDR, i);
      p, k := Malloc(n);
      if p == Null {
        KeptIsBoth(bs, HDR, r, ram);
        return;
      }
      ghost var bs1, l1, r1 := blocks, lfree, ram;
      TookParts(bs, lfree, old(lfree), Wanted(n), memSize, k, blocks);
      StartsDiffer(bs, HDR, top, i, bs[k]);
      WantedAligned(n);
      var len := if size < n then size else n;
      Transfer(p.addr - heapPtr - HDR, rmem, len, bs, k, Wanted(n), i);
      MovedIs(bs, old(lfree), Wanted(n), memSize, i, k, bs1, l1, blocks, lfree);
      AfterMalloc(bs, HDR, blocks, b, bs[k].at, len, r, r1, ram);
      MovedPiece(bs, old(lfree), Wanted(n), memSize, i, k, blocks, lfree, n, r, ram);
    }

    // The second half of a move: copy into the block taken from block k, free the old one.
    method Transfer(dst: nat, rmem: nat, len: nat, ghost bs: seq<Block>, ghost k: nat, ghost want: nat, ghost i: nat)
      requires Valid() && InHeap(rmem) && Layout(bs, HDR, top) && k < |bs| && i < |bs| && Room(bs[k], HDR, want) &&
               want % 4 == 0
      requires blocks == Take(bs, HDR, k, want) && dst == bs[k].at && len <= want
      requires bs[i].used && rmem == heapPtr + bs[i].at + HDR && bs[i].at + HDR + len <= bs[i].end
      modifies this
      ensures Valid() && maxMem == old(maxMem)
      ensures Exchanged(old(blocks), [bs[i]], [], blocks)
      ensures Settled(blocks, bs[i].at, if bs[i].at < old(lfree) then bs[i].at else old(lfree), lfree)
      ensures KeepsBoth(bs, HDR, blocks, old(ram), ram) && Copied(old(ram), HDR, bs[i].at, ram, bs[k].at, len)
    {
      hide Layout, Coalesced, LfreeOk, Take, HdrsOk, Exchanged, NextFree, Settled, KeepsData, Copied, KeepsBoth;
      ghost var bs1, r1, nb := blocks, ram, Block(bs[k].at, TakenEnd(bs[k], HDR, want), true);
      ghost var i1 := TakeShift(bs, HDR, top, k, want, i);
      TookFacts(bs, top, k, want, len);
      BlockBounds(bs, HDR, top, i);
      CopyUser(dst, rmem - heapPtr - HDR, len, bs, nb);
      ghost var r2 := ram;
      Free(At(rmem), i1);
      MoveKeeps(bs, HDR, bs1, blocks, bs[i], nb, len, r1, r2, ram);
    }

    // rt_realloc of block i.
    method Realloc(rmem: Ptr, newsize: u32, ghost i: nat) returns (p: Ptr, ghost k: nat)
      requires Valid() && SearchEnds(memSize, Align4(newsize))
      requires rmem.At? && InHeap(rmem.addr) ==> Names(rmem.addr, i)
      modifies this
      ensures Valid()
      ensures KeepsBoth(old(blocks), HDR, blocks, old(ram), ram)
      // max_mem rises only where a block is allocated, to the bytes used just then
      ensures p == Null || p == rmem ==> maxMem == old(maxMem)
      ensures p.At? && p != rmem ==>
                && k < |old(blocks)|
                && maxMem == Raised(old(maxMem), old(usedMem) + Extent(old(blocks)[k], Wanted(Align4(newsize))))
      // too large a request, a pointer from elsewhere, or the size it already has
      ensures Align4(newsize) > memSize ==> p == Null && blocks == old(blocks) && lfree == old(lfree)
      ensures Align4(newsize) <= memSize && rmem.At? && !InHeap(rmem.addr) ==>
                p == rmem && blocks == old(blocks) && lfree == old(lfree)
      // no block yet: like malloc
      ensures Align4(newsize) <= memSize && rmem == Null ==>
                && (p == Null <==>
                      Align4(newsize) == 0 || NoFit(old(blocks), old(lfree), Wanted(Align4(newsize)), memSize))
                && (p == Null ==> blocks == old(blocks) && lfree == old(lfree))
                && (p.At? ==> Took(old(blocks), old(lfree), Wanted(Align4(newsize)), memSize, k, blocks, lfree)
                              && p.addr == heapPtr + old(blocks)[k].at + HDR)
      ensures Align4(newsize) <= memSize && rmem.At? && InHeap(rmem.addr) ==>
                var n := Align4(newsize);
                var b := old(blocks)[i];
                var size := b.end - b.at - HDR;
                if size == n then
                  p == rmem && blocks == old(blocks) && lfree == old(lfree)
                else if n + 24 < size then
                  && p == rmem && KeepsData(blocks, HDR, old(ram), ram)
                  && Exchanged(old(blocks), [b], [Block(b.at, b.at + HDR + n, true)], blocks)
                  && Settled(blocks, b.at + HDR + n, old(lfree), lfree)
                else if n == 0 || NoFit(old(blocks), old(lfree), Wanted(n), memSize) then
                  p == Null && blocks == old(blocks) && lfree == old(lfree)
                else
                  Moved(old(blocks), old(lfree), old(ram), i, n, k, p)
      // whatever happened, the new piece is large enough and begins with the old data
      ensures rmem.At? && InHeap(rmem.addr) && p.At? ==>
                HoldsPrefix(blocks, 12, old(blocks)[i].end - old(blocks)[i].at - 12, Align4(newsize), old(ram),
                            rmem.addr - heapPtr, ram, p.addr - heapPtr)
    {
      hide Layout, Coalesced, LfreeOk, Take, HdrsOk, Exchanged, NextFree, Settled, KeepsData, Copied, KeepsBoth,
           NoFit, Took, Moved, HoldsPrefix;
      ghost var bs, r := blocks, ram;
      KeepsDataReflexive(bs, HDR, r);
      KeptIsBoth(bs, HDR, r, r);
      AlignTwice(newsize);
      p, k := Null, 0;
      var n := Align4(newsize);
      if n > memSize { return; }
      if rmem == Null {
        p, k := Malloc(n);
        KeptInBoth(bs, HDR, blocks, r, ram);
        return;
      }
      if !InHeap(rmem.addr) { return rmem, 0; }
      var mem := rmem.addr - heapPtr - HDR;
      var size := DataSize(mem, i);
      BlockBounds(bs, HDR, top, i);
      if size == n {
        SamePiece(bs, HDR, bs[i], size, n, r, ram);
        return rmem, 0;
      }
      if n + HDR + MIN_DATA < size {
        Shrink(mem, n, i);
        ShrunkKept(bs, HDR, blocks, r, ram);
        ComesIn(bs, bs[i], Block(mem, mem + HDR + n, true), blocks);
        SamePiece(blocks, HDR, Block(mem, mem + HDR + n, true), size, n, r, ram);
        return rmem, 0;
      }
      p, k := Move(rmem.addr, n, i);
    }

    // Undo, on the real heap: malloc and then free of what it returned.
    method MallocThenFree(size: u32) returns (p: Ptr)
      requires Valid() && SearchEnds(memSize, size)
      modifies this
      ensures Valid() && blocks == old(blocks) && lfree == old(lfree) && usedMem == old(usedMem)
    {
      hide Layout, Coalesced, LfreeOk, Take, HdrsOk, Exchanged, NextFree, Settled, KeepsData, NoFit;
      ghost var bs, l := blocks, lfree;
      ghost var k;
      p, k := Malloc(size);
      if p.At? {
        ghost var want, bs1, l1 := Wanted(size), blocks, lfree;
        WantedAligned(size);
        TakeIndex(bs, HDR, k, want, k);
        BlockBounds(bs1, HDR, top, k);
        Free(p, k);
        MallocThenFreeRestores(bs, l, want, memSize, k, bs1, l1, blocks, lfree);
      }
    }

    // Freeing every live block, in any order, leaves a single free block.
    method FreeAll(ptrs: seq<nat>)
      requires Valid() && ptrs != [] && NameAll(blocks, heapPtr, ptrs)
      requires forall a :: a in ptrs ==> InHeap(a)
      modifies this
      ensures Valid() && blocks == [Block(0, top, false)] && lfree == 0 && usedMem == 0
    {
      hide Layout, Coalesced, LfreeOk, HdrsOk, KeepsData, Exchanged, Settled, NextFree, NameAll;
      var k := 0;
      ghost var at: nat, m: nat := 0, 0;
      while k < |ptrs|
        invariant Valid() && 0 <= k <= |ptrs| && NameAll(blocks, heapPtr, ptrs[k..])
        invariant k > 0 ==> m < top && Settled(blocks, at, m, lfree)
      {
        ghost var bs, l := blocks, lfree;
        ghost var i := NamedBlock(bs, top, heapPtr, ptrs[k..]);
        assert ptrs[k..][1..] == ptrs[k + 1..];
        assert ptrs[k] in ptrs;
        Free(At(ptrs[k]), i);
        OneFewer(bs, top, blocks, i, heapPtr, ptrs[k..]);
        at := bs[i].at;
        m := if at < l then at else l;
        k := k + 1;
      }
      NoneNamed(blocks, heapPtr, ptrs[k..]);
      AllFreed(blocks, HDR, top);
      SettledInOne(top, at, m, lfree);
    }

    // rt_system_heap_init, for a range it accepts.
    constructor (beginAddr: u32, endAddr: u32)
      requires RangeFits(beginAddr, endAddr)
      ensures Valid() && blocks == [Block(0, top, false)] && lfree == 0 && usedMem == 0 && maxMem == 0
      ensures heapPtr + top + HDR <= endAddr && (beginAddr <= 0xFFFF_FFFC ==> beginAddr <= heapPtr)
      ensures endAddr < heapPtr + top + 12 + 4 && heapPtr < beginAddr + 4
    {
      hide Align4, Layout, HdrsOk, Coalesced, UsedBytes, LfreeOk;
      RangeFacts(beginAddr, endAddr);
      var beginAlign := Align4(beginAddr);
      var endAlign := endAddr / 4 * 4;
      heapPtr := beginAlign;
      memSize := endAlign - beginAlign - 2 * HDR;
      top := endAlign - beginAlign - HDR;
      hdr := map[0 := HeapMem(true, false, endAlign - beginAlign - HDR, 0),
                 endAlign - beginAlign - HDR := HeapMem(true, true, endAlign - beginAlign - HDR,
                                                        endAlign - beginAlign - HDR)];
      ram := seq(endAlign - beginAlign, _ => 0 as bv8);
      lfree, usedMem, maxMem := 0, 0, 0;
      blocks := [Block(0, endAlign - beginAlign - HDR, false)];
      new;
      FreshHeap(hdr, top);
    }
  }
}
