// The page allocator underneath the slab allocator: an address-ordered singly
// linked list of free page runs whose heads live in the free pages themselves.
// Addresses are page numbers, as in the source's pointer arithmetic on page heads.
module PageRuns {
  import opened Words

  // A block of consecutive free pages.
  datatype Run = Run(at: nat, n: nat) {
    predicate Holds(p: nat) { at <= p < at + n }
  }

  // The head stored in the first page of a free run.
  datatype PageHead = PageHead(next: Ptr, page: nat)

  // A place that holds a run pointer: the list variable itself or some head's next.
  datatype Link = Root | NextOf(at: nat)

  predicate IsFree(rs: seq<Run>, p: nat) {
    rs != [] && (rs[0].Holds(p) || IsFree(rs[1..], p))
  }

  // Strictly address-ordered, and neighbouring runs are separated by a used page.
  ghost predicate Canonical(rs: seq<Run>) {
    && (forall i :: 0 <= i < |rs| ==> rs[i].n > 0)
    && (forall i, j :: 0 <= i < j < |rs| ==> rs[i].at + rs[i].n < rs[j].at)
  }

  ghost predicate SameFree(a: seq<Run>, b: seq<Run>) {
    forall p: nat :: IsFree(a, p) == IsFree(b, p)
  }

  // All n pages from `at` on are free.
  ghost predicate Stretch(rs: seq<Run>, at: nat, n: nat) {
    forall p: nat :: at <= p < at + n ==> IsFree(rs, p)
  }

  // rs' is the canonical list of rs's pages with a stretch added ...
  ghost predicate Freed(rs: seq<Run>, at: nat, n: nat, rs': seq<Run>) {
    Canonical(rs') && forall p: nat :: IsFree(rs', p) <==> IsFree(rs, p) || at <= p < at + n
  }

  // ... or with a stretch taken away.
  ghost predicate Taken(rs: seq<Run>, at: nat, n: nat, rs': seq<Run>) {
    Canonical(rs') && forall p: nat :: IsFree(rs', p) <==> IsFree(rs, p) && !(at <= p < at + n)
  }

  // ---- free pages and runs ----

  lemma {:induction false} FreeConcat(a: seq<Run>, b: seq<Run>, p: nat)
    ensures IsFree(a + b, p) <==> IsFree(a, p) || IsFree(b, p)
  {
    if a == [] {
      assert a + b == b;
    } else {
      assert (a + b)[1..] == a[1..] + b;
      FreeConcat(a[1..], b, p);
    }
  }

  lemma {:induction false} FreeInSomeRun(rs: seq<Run>, p: nat) returns (i: nat)
    ensures IsFree(rs, p) ==> i < |rs| && rs[i].Holds(p)
  {
    if rs == [] || rs[0].Holds(p) {
      i := 0;
    } else {
      i := FreeInSomeRun(rs[1..], p);
      i := i + 1;
    }
  }

  lemma {:induction false} RunIsFree(rs: seq<Run>, i: nat, p: nat)
    requires i < |rs|
    ensures rs[i].Holds(p) ==> IsFree(rs, p)
  {
    if i > 0 { RunIsFree(rs[1..], i - 1, p); }
  }

  lemma PageAfterRunIsUsed(rs: seq<Run>, i: nat)
    requires Canonical(rs) && i < |rs|
    ensures !IsFree(rs, rs[i].at + rs[i].n)
  {
    var j := FreeInSomeRun(rs, rs[i].at + rs[i].n);
  }

  // No page below the first run, and none right below a later one, is free.
  lemma FirstRunIsLowest(rs: seq<Run>, p: nat)
    requires Canonical(rs) && IsFree(rs, p)
    ensures rs != [] && rs[0].at <= p
  {
    var i := FreeInSomeRun(rs, p);
  }

  lemma FirstRunMatches(a: seq<Run>, b: seq<Run>)
    requires Canonical(a) && Canonical(b) && a != [] && SameFree(a, b)
    ensures b != [] && a[0] == b[0]
  {
    RunIsFree(a, 0, a[0].at);
    FirstRunIsLowest(b, a[0].at);
    RunIsFree(b, 0, b[0].at);
    FirstRunIsLowest(a, b[0].at);
    PageAfterRunIsUsed(a, 0);
    PageAfterRunIsUsed(b, 0);
    RunIsFree(b, 0, a[0].at + a[0].n);
    RunIsFree(a, 0, b[0].at + b[0].n);
  }

  lemma TailFree(rs: seq<Run>, p: nat)
    requires Canonical(rs) && rs != []
    ensures Canonical(rs[1..])
    ensures IsFree(rs[1..], p) <==> IsFree(rs, p) && !rs[0].Holds(p)
  {
    var i := FreeInSomeRun(rs[1..], p);
  }

  lemma FirstRunIsFree(rs: seq<Run>)
    requires Canonical(rs)
    ensures rs != [] ==> IsFree(rs, rs[0].at)
  {
  }

  lemma NothingFree(p: nat)
    ensures !IsFree([], p)
  {
  }

  // The free list is determined by the set of free pages alone.
  lemma {:induction false} CanonicalUnique(a: seq<Run>, b: seq<Run>)
    requires Canonical(a) && Canonical(b) && SameFree(a, b)
    ensures a == b
  {
    hide Canonical, IsFree;
    if a == [] {
      FirstRunIsFree(b);
      if b != [] { NothingFree(b[0].at); }
    } else {
      FirstRunMatches(a, b);
      TailFree(a, 0);
      TailFree(b, 0);
      forall p: nat ensures IsFree(a[1..], p) == IsFree(b[1..], p) {
        TailFree(a, p);
        TailFree(b, p);
      }
      CanonicalUnique(a[1..], b[1..]);
      assert a == [a[0]] + a[1..] && b == [b[0]] + b[1..];
    }
  }

  // A stretch of consecutive free pages lies inside a single run.
  lemma StretchInsideRun(rs: seq<Run>, at: nat, n: nat) returns (i: nat)
    requires Canonical(rs) && n > 0
    ensures Stretch(rs, at, n) ==> i < |rs| && rs[i].at <= at && at + n <= rs[i].at + rs[i].n
  {
    i := FreeInSomeRun(rs, at);
    if i < |rs| { PageAfterRunIsUsed(rs, i); }
  }

  // ---- what the two operations mean together ----

  // Freeing what was just taken restores the exact list.
  lemma TakeThenFreeRestores(rs: seq<Run>, at: nat, n: nat, taken: seq<Run>, back: seq<Run>)
    requires Canonical(rs) && Stretch(rs, at, n) && Taken(rs, at, n, taken) && Freed(taken, at, n, back)
    ensures back == rs
  {
    CanonicalUnique(back, rs);
  }

  // Two frees, in either order, leave the same list.
  lemma FreesCommute(rs: seq<Run>, a: nat, m: nat, b: nat, n: nat,
                     ra: seq<Run>, rab: seq<Run>, rb: seq<Run>, rba: seq<Run>)
    requires Freed(rs, a, m, ra) && Freed(ra, b, n, rab)
    requires Freed(rs, b, n, rb) && Freed(rb, a, m, rba)
    ensures rab == rba
  {
    CanonicalUnique(rab, rba);
  }

  ghost function Total(rs: seq<Run>): nat {
    if rs == [] then 0 else rs[0].n + Total(rs[1..])
  }

  lemma {:induction false} TotalConcat(a: seq<Run>, b: seq<Run>)
    ensures Total(a + b) == Total(a) + Total(b)
  {
    if a == [] {
      assert a + b == b;
    } else {
      assert (a + b)[1..] == a[1..] + b;
      TotalConcat(a[1..], b);
    }
  }

  // ---- rewriting part of the list ----

  lemma SpliceFree(pre: seq<Run>, mid: seq<Run>, post: seq<Run>, p: nat)
    ensures IsFree(pre + mid + post, p) <==> IsFree(pre, p) || IsFree(mid, p) || IsFree(post, p)
    ensures Total(pre + mid + post) == Total(pre) + Total(mid) + Total(post)
  {
    FreeConcat(pre + mid, post, p);
    FreeConcat(pre, mid, p);
    TotalConcat(pre + mid, post);
    TotalConcat(pre, mid);
  }

  lemma OneRun(r: Run, p: nat)
    ensures IsFree([r], p) == r.Holds(p) && Total([r]) == r.n
  {
  }

  lemma TwoRuns(r: Run, s: Run, p: nat)
    ensures IsFree([r, s], p) == (r.Holds(p) || s.Holds(p)) && Total([r, s]) == r.n + s.n
  {
    assert [r, s] == [r] + [s];
    FreeConcat([r], [s], p);
    TotalConcat([r], [s]);
  }

  // r can stand between run k - 1 and run j.
  ghost predicate FitsBetween(rs: seq<Run>, k: nat, j: nat, r: Run)
    requires k <= j <= |rs|
  {
    && r.n > 0
    && (k > 0 ==> rs[k - 1].at + rs[k - 1].n < r.at)
    && (j < |rs| ==> r.at + r.n < rs[j].at)
  }

  lemma SpliceCanonical(rs: seq<Run>, k: nat, j: nat, r: Run)
    requires Canonical(rs) && k <= j <= |rs| && FitsBetween(rs, k, j, r)
    ensures Canonical(rs[..k] + [r] + rs[j..])
  {
    var rs' := rs[..k] + [r] + rs[j..];
    forall i, m | 0 <= i < m < |rs'| ensures rs'[i].at + rs'[i].n < rs'[m].at {
      assert i < k ==> rs'[i] == rs[i] && rs[i].at + rs[i].n <= rs[k - 1].at + rs[k - 1].n;
      assert m > k ==> rs'[m] == rs[m - k - 1 + j] && rs[j].at <= rs[m - k - 1 + j].at;
    }
  }

  // Replacing the runs k..j by r adds the stretch [at, at + n).
  lemma SpliceAdds(rs: seq<Run>, k: nat, j: nat, r: Run, at: nat, n: nat)
    requires k <= j <= |rs| && Canonical(rs) && FitsBetween(rs, k, j, r)
    requires forall p: nat :: r.Holds(p) <==> IsFree(rs[k..j], p) || at <= p < at + n
    requires r.n == Total(rs[k..j]) + n
    ensures Freed(rs, at, n, rs[..k] + [r] + rs[j..])
    ensures Total(rs[..k] + [r] + rs[j..]) == Total(rs) + n
  {
    hide Canonical, IsFree, Total, FitsBetween;
    SpliceCanonical(rs, k, j, r);
    assert rs == rs[..k] + rs[k..j] + rs[j..];
    OneRun(r, 0);
    forall p: nat ensures IsFree(rs[..k] + [r] + rs[j..], p) <==> IsFree(rs, p) || at <= p < at + n {
      SpliceFree(rs[..k], [r], rs[j..], p);
      SpliceFree(rs[..k], rs[k..j], rs[j..], p);
      OneRun(r, p);
    }
    SpliceFree(rs[..k], [r], rs[j..], 0);
    SpliceFree(rs[..k], rs[k..j], rs[j..], 0);
  }

  lemma OthersUsed(rs: seq<Run>, k: nat, p: nat)
    requires Canonical(rs) && k < |rs| && rs[k].Holds(p)
    ensures !IsFree(rs[..k], p) && !IsFree(rs[k + 1..], p)
  {
    var i := FreeInSomeRun(rs[..k], p);
    i := FreeInSomeRun(rs[k + 1..], p);
  }

  // What is left of a run after its low end is taken.
  function Rest(r: Run, npages: nat): seq<Run>
    requires npages <= r.n
  {
    if npages == r.n then [] else [Run(r.at + npages, r.n - npages)]
  }

  lemma CarveTakes(rs: seq<Run>, k: nat, npages: nat)
    requires Canonical(rs) && k < |rs| && 0 < npages <= rs[k].n
    ensures Taken(rs, rs[k].at, npages, rs[..k] + Rest(rs[k], npages) + rs[k + 1..])
    ensures Total(rs[..k] + Rest(rs[k], npages) + rs[k + 1..]) == Total(rs) - npages
  {
    hide IsFree, Canonical, Total, Rest;
    CarvedStaysCanonical(rs, k, npages);
    var cut := rs[..k] + Rest(rs[k], npages) + rs[k + 1..];
    forall p: nat ensures IsFree(cut, p) <==> IsFree(rs, p) && !(rs[k].at <= p < rs[k].at + npages) {
      CarvedFree(rs, k, npages, p);
    }
    CarvedFree(rs, k, npages, 0);
  }

  lemma CarvedFree(rs: seq<Run>, k: nat, npages: nat, p: nat)
    requires Canonical(rs) && k < |rs| && 0 < npages <= rs[k].n
    ensures var cut := rs[..k] + Rest(rs[k], npages) + rs[k + 1..];
      && (IsFree(cut, p) <==> IsFree(rs, p) && !(rs[k].at <= p < rs[k].at + npages))
      && Total(cut) == Total(rs) - npages
  {
    hide IsFree, Canonical, Total, Rest;
    assert rs == rs[..k] + [rs[k]] + rs[k + 1..];
    SpliceFree(rs[..k], Rest(rs[k], npages), rs[k + 1..], p);
    SpliceFree(rs[..k], [rs[k]], rs[k + 1..], p);
    OneRun(rs[k], p);
    RestFree(rs[k], npages, p);
    if rs[k].Holds(p) { OthersUsed(rs, k, p); }
  }

  lemma RestFree(r: Run, npages: nat, p: nat)
    requires npages <= r.n
    ensures IsFree(Rest(r, npages), p) <==> r.at + npages <= p < r.at + r.n
    ensures Total(Rest(r, npages)) == r.n - npages
  {
  }

  lemma CarvedStaysCanonical(rs: seq<Run>, k: nat, npages: nat)
    requires Canonical(rs) && k < |rs| && 0 < npages <= rs[k].n
    ensures Canonical(rs[..k] + Rest(rs[k], npages) + rs[k + 1..])
  {
  }

  // First fit is lowest fit: no stretch of the wanted length starts before the chosen run.
  lemma FitIsLowest(rs: seq<Run>, k: nat, npages: nat)
    requires Canonical(rs) && k < |rs| && 0 < npages <= rs[k].n
    requires forall j :: 0 <= j < k ==> rs[j].n < npages
    ensures Stretch(rs, rs[k].at, npages)
    ensures forall at: nat :: at < rs[k].at ==> !Stretch(rs, at, npages)
  {
    forall p: nat | rs[k].at <= p < rs[k].at + npages ensures IsFree(rs, p) { RunIsFree(rs, k, p); }
    forall at: nat | at < rs[k].at ensures !Stretch(rs, at, npages) {
      var i := StretchInsideRun(rs, at, npages);
    }
  }

  lemma NoRunFits(rs: seq<Run>, npages: nat)
    requires Canonical(rs) && npages > 0 && forall j :: 0 <= j < |rs| ==> rs[j].n < npages
    ensures forall at: nat :: !Stretch(rs, at, npages)
  {
    forall at: nat ensures !Stretch(rs, at, npages) {
      var i := StretchInsideRun(rs, at, npages);
    }
  }

  // A range about to be freed overlaps no free run.
  lemma UsedStretchApart(rs: seq<Run>, addr: nat, npages: nat)
    requires Canonical(rs) && npages > 0
    requires forall p: nat :: addr <= p < addr + npages ==> !IsFree(rs, p)
    ensures Apart(rs, addr, npages)
  {
    forall i | 0 <= i < |rs| ensures addr + npages <= rs[i].at || rs[i].at + rs[i].n <= addr {
      var p := if addr <= rs[i].at then rs[i].at else addr;
      RunIsFree(rs, i, p);
    }
  }

  ghost predicate Apart(rs: seq<Run>, addr: nat, npages: nat) {
    forall i :: 0 <= i < |rs| ==> addr + npages <= rs[i].at || rs[i].at + rs[i].n <= addr
  }

  // The four ways a freed stretch joins the list.
  lemma JoinBelow(rs: seq<Run>, k: nat, npages: nat, r: Run)
    requires Canonical(rs) && k < |rs| && Apart(rs, rs[k].at + rs[k].n, npages)
    requires k + 1 < |rs| ==> rs[k].at + rs[k].n + npages != rs[k + 1].at
    requires r == Run(rs[k].at, rs[k].n + npages)
    ensures Freed(rs, rs[k].at + rs[k].n, npages, rs[..k] + [r] + rs[k + 1..])
    ensures Total(rs[..k] + [r] + rs[k + 1..]) == Total(rs) + npages
  {
    assert rs[k..k + 1] == [rs[k]];
    SpliceAdds(rs, k, k + 1, r, rs[k].at + rs[k].n, npages);
  }

  lemma JoinAbove(rs: seq<Run>, k: nat, addr: nat, npages: nat, r: Run)
    requires Canonical(rs) && k < |rs| && addr + npages == rs[k].at && npages > 0
    requires k > 0 ==> rs[k - 1].at + rs[k - 1].n < addr
    requires r == Run(addr, rs[k].n + npages)
    ensures Freed(rs, addr, npages, rs[..k] + [r] + rs[k + 1..])
    ensures Total(rs[..k] + [r] + rs[k + 1..]) == Total(rs) + npages
  {
    assert rs[k..k + 1] == [rs[k]];
    SpliceAdds(rs, k, k + 1, r, addr, npages);
  }

  // A run that covers just the runs k and k + 1 fits where they are.
  lemma PairFits(rs: seq<Run>, k: nat, r: Run)
    requires Canonical(rs) && k + 1 < |rs| && r.at == rs[k].at && r.at + r.n == rs[k + 1].at + rs[k + 1].n
    ensures FitsBetween(rs, k, k + 2, r) && rs[k].n > 0 && rs[k + 1].n > 0
  {
  }

  lemma JoinBoth(rs: seq<Run>, k: nat, npages: nat, r: Run)
    requires Canonical(rs) && k + 1 < |rs| && rs[k].at + rs[k].n + npages == rs[k + 1].at
    requires r == Run(rs[k].at, rs[k].n + npages + rs[k + 1].n)
    ensures Freed(rs, rs[k].at + rs[k].n, npages, rs[..k] + [r] + rs[k + 2..])
    ensures Total(rs[..k] + [r] + rs[k + 2..]) == Total(rs) + npages
  {
    var at := rs[k].at + rs[k].n;
    PairFits(rs, k, r);
    hide Canonical, IsFree, Freed, Total, FitsBetween;
    assert rs[k..k + 2] == [rs[k], rs[k + 1]];
    forall p: nat ensures r.Holds(p) <==> IsFree(rs[k..k + 2], p) || at <= p < at + npages {
      TwoRuns(rs[k], rs[k + 1], p);
    }
    TwoRuns(rs[k], rs[k + 1], 0);
    SpliceAdds(rs, k, k + 2, r, at, npages);
  }

  lemma JoinNone(rs: seq<Run>, k: nat, addr: nat, npages: nat)
    requires Canonical(rs) && k <= |rs| && npages > 0
    requires k > 0 ==> rs[k - 1].at + rs[k - 1].n < addr
    requires k < |rs| ==> addr + npages < rs[k].at
    ensures Freed(rs, addr, npages, rs[..k] + [Run(addr, npages)] + rs[k..])
    ensures Total(rs[..k] + [Run(addr, npages)] + rs[k..]) == Total(rs) + npages
  {
    assert rs[k..k] == [];
    SpliceAdds(rs, k, k, Run(addr, npages), addr, npages);
  }

  // ---- the pointer structure ----

  function RunPtr(rs: seq<Run>, i: nat): Ptr {
    if i < |rs| then At(rs[i].at) else Null
  }

  ghost predicate HeadOk(head: map<nat, PageHead>, rs: seq<Run>, i: nat)
    requires i < |rs|
  {
    rs[i].at in head && head[rs[i].at] == PageHead(RunPtr(rs, i + 1), rs[i].n)
  }

  // The list variable and the heads in the free pages spell out exactly rs.
  ghost predicate Chain(list: Ptr, head: map<nat, PageHead>, rs: seq<Run>) {
    list == RunPtr(rs, 0) && forall i :: 0 <= i < |rs| ==> HeadOk(head, rs, i)
  }

  // The link whose contents point at run i.
  function LinkTo(rs: seq<Run>, i: nat): Link
    requires i <= |rs|
  {
    if i == 0 then Root else NextOf(rs[i - 1].at)
  }

  // Writing p through the link l.
  ghost predicate Stored(l: Link, p: Ptr, list: Ptr, head: map<nat, PageHead>, list': Ptr, head': map<nat, PageHead>) {
    match l
    case Root => list' == p && head' == head
    case NextOf(a) => list' == list && a in head && head' == head[a := head[a].(next := p)]
  }

  // The heads of run k and of the one before it.
  lemma HeadsNear(list: Ptr, head: map<nat, PageHead>, rs: seq<Run>, k: nat)
    requires Chain(list, head, rs) && k <= |rs|
    ensures list == RunPtr(rs, 0)
    ensures (k < |rs| ==> HeadOk(head, rs, k)) && (k > 0 ==> HeadOk(head, rs, k - 1))
  {
  }

  // A head written between two runs disturbs neither.
  lemma WriteBetween(head: map<nat, PageHead>, rs: seq<Run>, i: nat, at: nat, h: PageHead)
    requires i < |rs| && HeadOk(head, rs, i) && at != rs[i].at
    ensures HeadOk(head[at := h], rs, i)
  {
  }

  // Replacing the runs k..j by `mid` (at most one run) through the link that leads to run k.
  lemma ReplaceRuns(rs: seq<Run>, k: nat, j: nat, mid: seq<Run>,
                    list: Ptr, head: map<nat, PageHead>, list': Ptr, head': map<nat, PageHead>)
    requires k <= j <= |rs| && |mid| <= 1 && Canonical(rs[..k] + mid + rs[j..])
    requires list == RunPtr(rs, 0)
    requires forall i :: 0 <= i < k || j <= i < |rs| ==> HeadOk(head, rs, i)
    requires mid != [] ==> mid[0].at in head && head[mid[0].at] == PageHead(RunPtr(rs, j), mid[0].n)
    requires Stored(LinkTo(rs, k), if mid == [] then RunPtr(rs, j) else At(mid[0].at), list, head, list', head')
    ensures Chain(list', head', rs[..k] + mid + rs[j..])
  {
    var rs' := rs[..k] + mid + rs[j..];
    forall i | 0 <= i < |rs'| ensures HeadOk(head', rs', i) {
      if k > 0 && i < k - 1 {
        assert HeadOk(head, rs, i) && rs'[i].at < rs'[k - 1].at;
      } else if i >= k {
        assert k > 0 ==> rs'[k - 1].at < rs'[i].at;
        if i >= k + |mid| {
          assert rs'[i] == rs[i - k - |mid| + j] && HeadOk(head, rs, i - k - |mid| + j);
        }
      } else {
        assert HeadOk(head, rs, i);
      }
    }
  }

  // Rewriting the head of run k in place, absorbing the runs up to j.
  lemma GrowInPlace(rs: seq<Run>, k: nat, j: nat, r: Run, list: Ptr,
      head: map<nat, PageHead>, head': map<nat, PageHead>)
    requires Canonical(rs) && Chain(list, head, rs)
    requires k < j <= |rs| && r.at == rs[k].at && head' == head[r.at := PageHead(RunPtr(rs, j), r.n)]
    ensures Chain(list, head', rs[..k] + [r] + rs[j..])
  {
    var rs' := rs[..k] + [r] + rs[j..];
    forall i | 0 <= i < |rs'| ensures HeadOk(head', rs', i) {
      if i < k {
        assert HeadOk(head, rs, i);
      } else if i > k {
        assert rs'[i] == rs[i - k - 1 + j] && HeadOk(head, rs, i - k - 1 + j);
      }
    }
  }

  // A head written for r, which goes between run k - 1 and run j, spares the other heads.
  lemma KeptHeads(list: Ptr, rs: seq<Run>, k: nat, j: nat, r: Run,
                  head: map<nat, PageHead>, head': map<nat, PageHead>)
    requires Canonical(rs) && k <= j <= |rs| && FitsBetween(rs, k, j, r)
    requires r.at in head' && head' == head[r.at := head'[r.at]]
    requires Chain(list, head, rs)
    ensures forall i :: 0 <= i < k || j <= i < |rs| ==> HeadOk(head', rs, i)
    ensures list == RunPtr(rs, 0)
  {
    forall i | 0 <= i < k || j <= i < |rs| ensures HeadOk(head', rs, i) {
      assert i < k ==> rs[i].at <= rs[k - 1].at;
      assert i >= j ==> rs[j].at <= rs[i].at;
      WriteBetween(head, rs, i, r.at, head'[r.at]);
    }
  }

  // What is left of a run fits where the run was.
  lemma PartFits(rs: seq<Run>, k: nat, npages: nat)
    requires Canonical(rs) && k < |rs| && npages < rs[k].n
    ensures FitsBetween(rs, k, k + 1, Run(rs[k].at + npages, rs[k].n - npages))
  {
  }

  lemma WholeArea(addr: nat, npages: nat, rs: seq<Run>)
    requires npages > 0 && Freed([], addr, npages, rs)
    ensures rs == [Run(addr, npages)]
  {
    forall p: nat ensures IsFree(rs, p) == IsFree([Run(addr, npages)], p) {
      NothingFree(p);
      OneRun(Run(addr, npages), p);
    }
    CanonicalUnique(rs, [Run(addr, npages)]);
  }

  class PageAllocator {
    var head: map<nat, PageHead>   // what is written in the free pages
    var list: Ptr                  // rt_page_list
    ghost var runs: seq<Run>

    ghost predicate Valid()
      reads this
    {
      Canonical(runs) && Chain(list, head, runs)
    }

    method Store(l: Link, p: Ptr)
      requires l.NextOf? ==> l.at in head
      modifies this`head, this`list
      ensures Stored(l, p, old(list), old(head), list, head)
    {
      match l
      case Root => list := p;
      case NextOf(a) => head := head[a := head[a].(next := p)];
    }

    // rt_page_alloc: first fit, carved from the low end of the run.
    method Alloc(npages: nat) returns (b: Ptr)
      requires Valid()
      modifies this
      ensures Valid()
      ensures b == Null <==> npages == 0 || forall at: nat :: !Stretch(old(runs), at, npages)
      ensures b == Null ==> runs == old(runs)
      ensures b.At? ==> Stretch(old(runs), b.addr, npages) && Taken(old(runs), b.addr, npages, runs)
      ensures b.At? ==> forall at: nat :: at < b.addr ==> !Stretch(old(runs), at, npages)
      ensures b.At? ==> Total(runs) == Total(old(runs)) - npages
    {
      hide IsFree, Stretch, Taken, Total, Canonical, Chain;
      if npages == 0 { return Null; }
      var prev := Root;
      b := list;
      ghost var k := 0;
      HeadsNear(list, head, runs, 0);
      while b != Null
        invariant Valid() && runs == old(runs)
        invariant k <= |runs| && b == RunPtr(runs, k) && prev == LinkTo(runs, k)
        invariant forall j :: 0 <= j < k ==> runs[j].n < npages
        decreases |runs| - k
      {
        HeadsNear(list, head, runs, k);
        var h := head[b.addr];
        if h.page > npages {
          FitIsLowest(runs, k, npages);
          CarveTakes(runs, k, npages);
          CarvedStaysCanonical(runs, k, npages);
          var n := b.addr + npages;
          ghost var head0 := head;
          head := head[n := PageHead(h.next, h.page - npages)];
          label split:
          PartFits(runs, k, npages);
          KeptHeads(list, runs, k, k + 1, Run(n, h.page - npages), head0, head);
          assert k > 0 ==> HeadOk(head, runs, k - 1);
          Store(prev, At(n));
          ReplaceRuns(runs, k, k + 1, Rest(runs[k], npages), old@split(list), old@split(head), list, head);
          runs := runs[..k] + Rest(runs[k], npages) + runs[k + 1..];
          return;
        }
        if h.page == npages {
          FitIsLowest(runs, k, npages);
          CarveTakes(runs, k, npages);
          CarvedStaysCanonical(runs, k, npages);
          label fit:
          PartFits(runs, k, 0);
          assert Run(runs[k].at + 0, runs[k].n - 0) == runs[k];
          KeptHeads(list, runs, k, k + 1, runs[k], head, head);
          Store(prev, h.next);
          ReplaceRuns(runs, k, k + 1, [], old@fit(list), old@fit(head), list, head);
          runs := runs[..k] + [] + runs[k + 1..];
          return;
        }
        prev := NextOf(b.addr);
        b := h.next;
        k := k + 1;
      }
      NoRunFits(runs, npages);
    }

    // rt_page_free: insert in address order, merging with either neighbour.
    method Free(addr: nat, npages: nat)
      requires Valid()
      requires npages > 0 && forall p: nat :: addr <= p < addr + npages ==> !IsFree(runs, p)
      modifies this
      ensures Valid()
      ensures Freed(old(runs), addr, npages, runs)
      ensures Total(runs) == Total(old(runs)) + npages
    {
      UsedStretchApart(runs, addr, npages);
      var prev := Root;
      var b := list;
      ghost var k := 0;
      while b != Null
        invariant Valid() && runs == old(runs) && head == old(head) && list == old(list)
        invariant k <= |runs| && b == RunPtr(runs, k) && prev == LinkTo(runs, k)
        invariant k > 0 ==> runs[k - 1].at + runs[k - 1].n < addr
        decreases |runs| - k
      {
        assert HeadOk(head, runs, k) && (k > 0 ==> HeadOk(head, runs, k - 1));
        var h := head[b.addr];
        assert b.addr > addr || b.addr + h.page <= addr;
        if b.addr + h.page == addr {
          GrowUp(b.addr, npages, k);
          return;
        }
        if b.addr == addr + npages {
          LinkIn(addr, npages, PageHead(h.next, h.page + npages), prev, k, k + 1);
          return;
        }
        if b.addr > addr + npages { break; }
        prev := NextOf(b.addr);
        b := h.next;
        k := k + 1;
      }
      LinkIn(addr, npages, PageHead(b, npages), prev, k, k);
    }

    // The run in front ends where the freed stretch begins: lengthen it, and swallow
    // the next run if the gap is now closed.
    method GrowUp(b: nat, npages: nat, ghost k: nat)
      requires Valid() && k < |runs| && b == runs[k].at && npages > 0
      requires Apart(runs, b + runs[k].n, npages)
      modifies this
      ensures Valid()
      ensures Freed(old(runs), b + old(runs)[k].n, npages, runs)
      ensures Total(runs) == Total(old(runs)) + npages
    {
      assert HeadOk(head, runs, k);
      var h := head[b];
      var grown := h.page + npages;
      head := head[b := h.(page := grown)];
      if At(b + grown) == h.next {
        assert HeadOk(old(head), runs, k + 1);
        var nx := head[h.next.addr];
        head := head[b := PageHead(nx.next, grown + nx.page)];
        ghost var r := Run(b, grown + nx.page);
        GrowInPlace(runs, k, k + 2, r, list, old(head), head);
        JoinBoth(runs, k, npages, r);
        runs := runs[..k] + [r] + runs[k + 2..];
      } else {
        ghost var r := Run(b, grown);
        GrowInPlace(runs, k, k + 1, r, list, old(head), head);
        JoinBelow(runs, k, npages, r);
        runs := runs[..k] + [r] + runs[k + 1..];
      }
    }

    // Writes a head at addr and points prev at it; the new run either stands alone in
    // front of run k or absorbs it.
    method LinkIn(addr: nat, npages: nat, h: PageHead, prev: Link, ghost k: nat, ghost j: nat)
      requires Valid() && k <= |runs| && prev == LinkTo(runs, k) && npages > 0
      requires k > 0 ==> runs[k - 1].at + runs[k - 1].n < addr
      requires (j == k && h == PageHead(RunPtr(runs, k), npages) && (k < |runs| ==> addr + npages < runs[k].at)) ||
               (j == k + 1 <= |runs| && h == PageHead(RunPtr(runs, j), runs[k].n + npages) &&
                addr + npages == runs[k].at)
      modifies this
      ensures Valid()
      ensures Freed(old(runs), addr, npages, runs)
      ensures Total(runs) == Total(old(runs)) + npages
    {
      ghost var r := Run(addr, h.page);
      if j == k { JoinNone(runs, k, addr, npages); } else { JoinAbove(runs, k, addr, npages, r); }
      assert k > 0 ==> HeadOk(head, runs, k - 1);
      head := head[addr := h];
      label written:
      KeptHeads(list, runs, k, j, r, old(head), head);
      Store(prev, At(addr));
      ReplaceRuns(runs, k, j, [r], old@written(list), old@written(head), list, head);
      runs := runs[..k] + [r] + runs[j..];
    }

    // rt_page_init: one free of the whole area into an empty list.
    constructor (addr: nat, npages: nat)
      requires npages > 0
      ensures Valid() && runs == [Run(addr, npages)]
    {
      head := map[];
      list := Null;
      runs := [];
      new;
      Free(addr, npages);
      WholeArea(addr, npages, runs);
    }
  }
}
