// Who owns the pages: every page of the heap is either free or in exactly one span that
// was taken from the page allocator.
module PageSpans {
  import opened PageRuns

  // First page and number of pages of each span.
  type Spans = map<nat, nat>

  ghost predicate InSpan(spans: Spans, p: nat) {
    exists a :: a in spans && a <= p < a + spans[a]
  }

  ghost predicate SpansApart(spans: Spans) {
    forall a, b :: a in spans && b in spans && a < b ==> a + spans[a] <= b
  }

  ghost predicate Owned(lo: nat, hi: nat, runs: seq<Run>, spans: Spans) {
    && Canonical(runs) && SpansApart(spans)
    && (forall a :: a in spans ==> lo <= a && spans[a] > 0 && a + spans[a] <= hi)
    && (forall p: nat :: IsFree(runs, p) <==> lo <= p < hi && !InSpan(spans, p))
  }

  lemma SpanAdded(spans: Spans, b: nat, n: nat, spans': Spans)
    requires b !in spans && spans' == spans[b := n]
    ensures forall p: nat :: InSpan(spans', p) <==> InSpan(spans, p) || b <= p < b + n
  {
    forall p: nat | InSpan(spans, p) ensures InSpan(spans', p) {
      var a :| a in spans && a <= p < a + spans[a];
      assert a in spans';
    }
    forall p: nat | b <= p < b + n ensures InSpan(spans', p) { assert b in spans'; }
  }

  lemma SpanDropped(spans: Spans, b: nat, spans': Spans)
    requires b in spans && SpansApart(spans) && spans' == spans - {b}
    ensures forall p: nat :: InSpan(spans', p) <==> InSpan(spans, p) && !(b <= p < b + spans[b])
  {
    forall p: nat | InSpan(spans, p) && !(b <= p < b + spans[b]) ensures InSpan(spans', p) {
      var a :| a in spans && a <= p < a + spans[a];
      assert a in spans';
    }
  }

  // A stretch of free pages overlaps no span.
  lemma FreeStretchApart(lo: nat, hi: nat, runs: seq<Run>, spans: Spans, b: nat, n: nat, a: nat)
    requires Owned(lo, hi, runs, spans) && Stretch(runs, b, n) && n > 0 && a in spans
    ensures a + spans[a] <= b || b + n <= a
  {
    var p := if a <= b then b else a;
    assert b <= p < b + n ==> IsFree(runs, p);
    SpanHolds(spans, a, p);
    hide IsFree, Canonical, InSpan;
  }

  lemma SpanHolds(spans: Spans, a: nat, p: nat)
    ensures a in spans && a <= p < a + spans[a] ==> InSpan(spans, p)
  {
  }

  lemma StretchInHeap(lo: nat, hi: nat, runs: seq<Run>, spans: Spans, b: nat, n: nat)
    requires Owned(lo, hi, runs, spans) && Stretch(runs, b, n) && n > 0
    ensures lo <= b && b + n <= hi && b !in spans
  {
    assert IsFree(runs, b) && IsFree(runs, b + n - 1);
    hide IsFree, Canonical, InSpan;
    SpanHolds(spans, b, b);
  }

  lemma SpanTaken(lo: nat, hi: nat, runs: seq<Run>, spans: Spans, b: nat, n: nat, runs': seq<Run>)
    requires Owned(lo, hi, runs, spans) && Stretch(runs, b, n) && n > 0 && Taken(runs, b, n, runs')
    ensures Owned(lo, hi, runs', spans[b := n])
  {
    hide IsFree, Canonical, Stretch;
    StretchInHeap(lo, hi, runs, spans, b, n);
    SpanAdded(spans, b, n, spans[b := n]);
    forall a | a in spans ensures a + spans[a] <= b || b + n <= a { FreeStretchApart(lo, hi, runs, spans, b, n, a); }
    hide InSpan;
  }

  lemma SpanUsed(lo: nat, hi: nat, runs: seq<Run>, spans: Spans, b: nat)
    requires Owned(lo, hi, runs, spans) && b in spans
    ensures spans[b] > 0 && forall p: nat :: b <= p < b + spans[b] ==> !IsFree(runs, p)
  {
    forall p: nat | b <= p < b + spans[b] ensures InSpan(spans, p) {}
    hide IsFree, Canonical;
  }

  lemma SpanFreed(lo: nat, hi: nat, runs: seq<Run>, spans: Spans, b: nat, runs': seq<Run>)
    requires Owned(lo, hi, runs, spans) && b in spans && Freed(runs, b, spans[b], runs')
    ensures Owned(lo, hi, runs', spans - {b})
  {
    hide IsFree, Canonical, InSpan;
    SpanDropped(spans, b, spans - {b});
  }

  // Taking pages and giving them back leaves the very same free list and spans.
  lemma SpanRoundTrip(lo: nat, hi: nat, runs: seq<Run>, spans: Spans, b: nat, n: nat, runs1: seq<Run>, runs2: seq<Run>)
    requires Owned(lo, hi, runs, spans) && Stretch(runs, b, n) && n > 0
    requires Taken(runs, b, n, runs1) && Freed(runs1, b, n, runs2)
    ensures runs2 == runs && spans[b := n] - {b} == spans
  {
    StretchInHeap(lo, hi, runs, spans, b, n);
    TakeThenFreeRestores(runs, b, n, runs1, runs2);
  }
}
