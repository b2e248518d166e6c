// The bytes of a heap: which of them belong to the users of its blocks, and that
// header writes and copies leave the others alone.
module HeapData {
  import opened HeapBlocks

  // A header written at `a` touches no used block's data.
  ghost predicate Spares(bs: seq<Block>, a: nat) {
    forall i :: 0 <= i < |bs| && bs[i].used ==> a <= bs[i].at || bs[i].end <= a
  }

  ghost predicate KeepsData(bs: seq<Block>, h: nat, ram: seq<bv8>, ram': seq<bv8>) {
    && |ram'| == |ram|
    && forall x: Block, k: nat :: x in bs && x.used && x.at + h <= k < x.end && k < |ram| ==> ram'[k] == ram[k]
  }

  lemma KeepsDataTransitive(a: seq<Block>, h: nat, b: seq<Block>, r0: seq<bv8>, r1: seq<bv8>, r2: seq<bv8>)
    requires KeepsData(a, h, r0, r1) && KeepsData(b, h, r1, r2)
    requires forall x: Block :: x.used && x in a ==> x in b
    ensures KeepsData(a, h, r0, r2)
  {
  }

  lemma KeepsDataReflexive(bs: seq<Block>, h: nat, r: seq<bv8>)
    ensures KeepsData(bs, h, r, r)
  {
  }

  lemma BoundariesSpared(bs: seq<Block>, h: nat, top: nat, a: nat)
    requires Layout(bs, h, top)
    requires a == top || exists i :: 0 <= i < |bs| && (bs[i].at == a || (!bs[i].used && bs[i].at <= a <= bs[i].end))
    ensures Spares(bs, a)
  {
    if a < top {
      var i :| 0 <= i < |bs| && (bs[i].at == a || (!bs[i].used && bs[i].at <= a <= bs[i].end));
      forall k | 0 <= k < |bs| && bs[k].used ensures a <= bs[k].at || bs[k].end <= a {
        assert k < i ==> bs[k].end <= bs[i].at;
        assert i < k ==> bs[i].end <= bs[k].at;
      }
    }
  }

  lemma StartSpared(bs: seq<Block>, h: nat, top: nat, i: nat)
    requires Layout(bs, h, top) && i < |bs|
    ensures Spares(bs, bs[i].at)
  {
    BoundariesSpared(bs, h, top, bs[i].at);
  }

  // Blocks used both before and after keep their contents.
  ghost predicate KeepsBoth(a: seq<Block>, h: nat, b: seq<Block>, r: seq<bv8>, r': seq<bv8>) {
    && |r'| == |r|
    && forall x: Block, k: nat :: x in a && x in b && x.used && x.at + h <= k < x.end && k < |r| ==> r'[k] == r[k]
  }

  // The first n data bytes of the block at `dst` are those the block at `src` had.
  ghost predicate Copied(r: seq<bv8>, h: nat, src: nat, r': seq<bv8>, dst: nat, n: int) {
    && 0 <= n && src + h + n <= |r| && dst + h + n <= |r'|
    && r'[dst + h..dst + h + n] == r[src + h..src + h + n]
  }

  // Copying into the new block leaves every older block alone.
  lemma CopySpares(bs: seq<Block>, h: nat, top: nat, nb: Block, r: seq<bv8>, r': seq<bv8>, n: nat)
    requires Layout(bs, h, top) && |r'| == |r|
    requires forall x: Block :: x in bs && x.used ==> x.end <= nb.at || nb.end <= x.at
    requires nb.at + h + n <= nb.end
    requires forall k :: 0 <= k < |r| && !(nb.at + h <= k < nb.at + h + n) ==> r'[k] == r[k]
    ensures KeepsData(bs, h, r, r')
  {
  }

  lemma CopyIsCopied(r: seq<bv8>, h: nat, src: nat, r': seq<bv8>, dst: nat, n: nat)
    requires src + h + n <= |r| && dst + h + n <= |r'|
    requires r'[dst + h..dst + h + n] == r[src + h..src + h + n]
    ensures Copied(r, h, src, r', dst, n)
  {
  }

  lemma KeptIsBoth(bs: seq<Block>, h: nat, r: seq<bv8>, r': seq<bv8>)
    requires KeepsData(bs, h, r, r')
    ensures KeepsBoth(bs, h, bs, r, r')
  {
  }

  lemma KeptInBoth(bs: seq<Block>, h: nat, bs': seq<Block>, r: seq<bv8>, r': seq<bv8>)
    requires KeepsData(bs, h, r, r')
    ensures KeepsBoth(bs, h, bs', r, r')
  {
  }

  lemma ShrunkKept(bs: seq<Block>, h: nat, bs': seq<Block>, r: seq<bv8>, r': seq<bv8>)
    requires KeepsData(bs', h, r, r')
    ensures KeepsBoth(bs, h, bs', r, r')
  {
  }

  // Copy and free: what both before and after are in use keeps its data.
  lemma MoveKeeps(bs: seq<Block>, h: nat, bs1: seq<Block>, bs2: seq<Block>, b: Block, nb: Block, n: nat,
                  r1: seq<bv8>, r2: seq<bv8>, r3: seq<bv8>)
    requires Exchanged(bs, [], [nb], bs1) && Exchanged(bs1, [b], [], bs2)
    requires b in bs && nb.used && nb !in bs && nb.at + h + n <= nb.end <= |r1|
    requires KeepsData(bs, h, r1, r2) && Copied(r1, h, b.at, r2, nb.at, n) && KeepsData(bs2, h, r2, r3)
    ensures KeepsBoth(bs, h, bs2, r1, r3) && Copied(r1, h, b.at, r3, nb.at, n)
  {
    assert nb in bs2;
    KeptSlice(bs2, h, nb, n, r2, r3);
  }

  lemma AfterMalloc(bs: seq<Block>, h: nat, bs2: seq<Block>, b: Block, dst: nat, n: nat, r: seq<bv8>, r1: seq<bv8>,
      r2: seq<bv8>)
    requires KeepsData(bs, h, r, r1) && KeepsBoth(bs, h, bs2, r1, r2) && Copied(r1, h, b.at, r2, dst, n)
    requires b in bs && b.used && b.at + h + n <= b.end <= |r|
    ensures KeepsBoth(bs, h, bs2, r, r2) && Copied(r, h, b.at, r2, dst, n)
  {
    KeptSlice(bs, h, b, n, r, r1);
  }

  lemma KeptSlice(bs: seq<Block>, h: nat, b: Block, n: nat, r: seq<bv8>, r': seq<bv8>)
    requires KeepsData(bs, h, r, r') && b in bs && b.used && b.at + h + n <= b.end <= |r|
    ensures r'[b.at + h..b.at + h + n] == r[b.at + h..b.at + h + n]
  {
  }

  lemma CutMeaning(bs: seq<Block>, h: nat, bs1: seq<Block>, bs2: seq<Block>, b: Block, c: Block, r: seq<bv8>,
      r1: seq<bv8>, r2: seq<bv8>)
    requires Exchanged(bs, [b], [c], bs1) && SameUsed(bs1, bs2)
    requires KeepsData(bs1, h, r, r1) && KeepsData(bs1, h, r1, r2)
    ensures Exchanged(bs, [b], [c], bs2) && KeepsData(bs2, h, r, r2)
  {
  }

  // The piece at `addr` has n data bytes; the first of them, as many as the piece at
  // `from` had, are what that piece held in ram0.
  ghost predicate HoldsPrefix(bs: seq<Block>, h: nat, size: int, n: nat, ram0: seq<bv8>, from: int, ram: seq<bv8>,
      addr: int)
  {
    && (exists x :: x in bs && x.used && addr == x.at + h && x.end - x.at - h >= n)
    && var m := if size < n then size else n;
       && m >= 0 && 0 <= from && from + m <= |ram0| && 0 <= addr && addr + m <= |ram|
       && ram[addr..addr + m] == ram0[from..from + m]
  }

  lemma ComesIn(bs: seq<Block>, b: Block, x: Block, bs': seq<Block>)
    requires Exchanged(bs, [b], [x], bs') && x.used
    ensures x in bs'
  {
  }

  lemma SamePiece(bs: seq<Block>, h: nat, x: Block, size: nat, n: nat, ram0: seq<bv8>, ram: seq<bv8>)
    requires KeepsData(bs, h, ram0, ram) && x in bs && x.used && x.at + h + n <= x.end <= |ram|
    ensures HoldsPrefix(bs, h, size, n, ram0, x.at + h, ram, x.at + h)
  {
    KeptSlice(bs, h, x, if size < n then size else n, ram0, ram);
  }

  lemma AddedIn(bs: seq<Block>, x: Block, bs': seq<Block>)
    requires Exchanged(bs, [], [x], bs') && x.used
    ensures x in bs'
  {
  }

  lemma StaysIn(bs: seq<Block>, b: Block, x: Block, bs': seq<Block>)
    requires Exchanged(bs, [b], [], bs') && x.used && x in bs && x != b
    ensures x in bs'
  {
  }

  // Clearing the flag and then plugging: one used block is gone, no data was touched.
  lemma FreedMeaning(bs: seq<Block>, h: nat, bs1: seq<Block>, bs2: seq<Block>, b: Block, r: seq<bv8>, r1: seq<bv8>,
      r2: seq<bv8>)
    requires Exchanged(bs, [b], [], bs1) && SameUsed(bs1, bs2)
    requires KeepsData(bs, h, r, r1) && KeepsData(bs1, h, r1, r2)
    ensures Exchanged(bs, [b], [], bs2) && KeepsData(bs2, h, r, r2)
  {
  }

  // Headers written where a cut needs them spare the data that stays in use.
  lemma CutSpares(bs: seq<Block>, h: nat, top: nat, i: nat, n: nat)
    requires Layout(bs, h, top) && i < |bs| && bs[i].used && n % 4 == 0 && bs[i].at + h + n + h <= bs[i].end
    ensures var cut := Cut(bs, h, i, n);
            Spares(cut, bs[i].at) && Spares(cut, bs[i].at + h + n) && Spares(cut, bs[i].end)
    ensures bs[i].end <= top
  {
    var cut := Cut(bs, h, i, n);
    CutLayout(bs, h, top, i, n);
    assert cut[i].at == bs[i].at && cut[i + 1].at == bs[i].at + h + n && cut[i + 1].end == bs[i].end;
    BoundariesSpared(cut, h, top, bs[i].at);
    BoundariesSpared(cut, h, top, bs[i].at + h + n);
    BoundariesSpared(cut, h, top, bs[i].end);
  }

  // Rewriting a header leaves arbitrary bytes where it lies.
  method Scribble(ram: seq<bv8>, a: nat, h: nat, ghost keep: seq<Block>, ghost from: seq<bv8>) returns (ram': seq<bv8>)
    requires a + h <= |ram| && KeepsData(keep, h, from, ram) && Spares(keep, a)
    ensures KeepsData(keep, h, from, ram')
  {
    assert |seq(h, _ => 0 as bv8)| == h;
    var bytes: seq<bv8> :| |bytes| == h;
    ram' := ram[..a] + bytes + ram[a + h..];
  }

  // rt_memcpy, byte by byte, between two areas that do not overlap.
  method CopyBytes(ram: seq<bv8>, dst: nat, src: nat, n: nat) returns (ram': seq<bv8>)
    requires dst + n <= |ram| && src + n <= |ram| && (dst + n <= src || src + n <= dst)
    ensures |ram'| == |ram|
    ensures ram'[dst..dst + n] == ram[src..src + n]
    ensures forall k :: 0 <= k < |ram| && !(dst <= k < dst + n) ==> ram'[k] == ram[k]
  {
    ram' := ram;
    for i := 0 to n
      invariant |ram'| == |ram|
      invariant ram'[dst..dst + i] == ram[src..src + i]
      invariant forall k :: 0 <= k < |ram| && !(dst <= k < dst + i) ==> ram'[k] == ram[k]
    {
      ghost var before := ram';
      assert before[src + i] == ram[src + i];
      assert ram[src..src + i + 1] == ram[src..src + i] + [ram[src + i]];
      ram' := ram'[dst + i := ram'[src + i]];
      assert ram'[dst..dst + i + 1] == before[dst..dst + i] + [ram[src + i]];
    }
  }
}
