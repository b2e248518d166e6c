// The event object: a word of event bits and a queue of threads, each waiting for all or
// for any of a set of bits.
module Event {
  import opened Lists
  import opened WaitQueue

  const AND: bv8 := 1
  const OR: bv8 := 2
  const CLEAR: bv8 := 4

  predicate Has(option: bv8, flag: bv8) { option & flag != 0 }

  function Common(a: bv32, b: bv32): bv32 { a & b }

  function Cleared(a: bv32, b: bv32): bv32 { a & !b }

  function Union(a: bv32, b: bv32): bv32 { a | b }

  predicate Within(a: bv32, b: bv32) { a & b == a }

  // What a waiting thread asked for; once it has been resumed, `bits` is what it received.
  datatype Want = Want(bits: bv32, option: bv8)

  type Wants = map<Tid, Want>

  predicate Satisfied(ev: bv32, w: Want) {
    if Has(w.option, AND) then Within(w.bits, ev)
    else Has(w.option, OR) && Common(ev, w.bits) != 0
  }

  // What rt_event_recv does to the event word when it need not wait.
  function Left(ev: bv32, w: Want): bv32 {
    if Has(w.option, CLEAR) then Cleared(ev, w.bits) else ev
  }

  datatype Served = Served(ev: bv32, waiting: seq<Tid>, wants: Wants, resumed: seq<Tid>)

  // Answering each thread of the queue that way, from its head, where it can be answered.
  function Serve(ev: bv32, q: seq<Tid>, wants: Wants): (r: Served)
    requires Known(q, wants)
  {
    if q == [] then Served(ev, [], wants, [])
    else if Satisfied(ev, wants[q[0]]) then
      var w := wants[q[0]];
      var r := Serve(Left(ev, w), q[1..], wants[q[0] := Want(Common(ev, w.bits), w.option)]);
      r.(resumed := [q[0]] + r.resumed)
    else
      var r := Serve(ev, q[1..], wants);
      r.(waiting := [q[0]] + r.waiting)
  }

  // ---- bits ----

  lemma WithinTrans(a: bv32, b: bv32, c: bv32)
    requires Within(a, b) && Within(b, c)
    ensures Within(a, c)
  {
  }

  lemma CommonGrows(a: bv32, b: bv32, w: bv32)
    requires Within(a, b) && Common(a, w) != 0
    ensures Common(b, w) != 0
  {
  }

  lemma CommonWithin(a: bv32, b: bv32)
    ensures Within(Common(a, b), a) && Within(Common(a, b), b)
    ensures Within(b, a) ==> Common(a, b) == b
  {
  }

  lemma ClearedWithin(a: bv32, b: bv32)
    ensures Within(Cleared(a, b), a) && Within(a, a)
    ensures Common(Cleared(a, b), b) == 0 && Common(Cleared(a, b), Common(a, b)) == 0
    ensures Cleared(a, Common(a, b)) == Cleared(a, b)
  {
  }

  lemma Disjoint(a: bv32, b: bv32, c: bv32)
    requires Within(a, b) && Common(b, c) == 0
    ensures Common(c, a) == 0
  {
  }

  // Fewer bits never satisfy more.
  lemma FewerBits(ev: bv32, ev': bv32, w: Want)
    requires Within(ev', ev) && Satisfied(ev', w)
    ensures Satisfied(ev, w)
  {
    hide Within, Common, Has;
    if Has(w.option, AND) { WithinTrans(w.bits, ev', ev); } else { CommonGrows(ev', ev, w.bits); }
  }

  lemma LeftIsFewer(ev: bv32, w: Want)
    ensures Within(Left(ev, w), ev)
  {
    hide Within, Cleared, Has;
    ClearedWithin(ev, w.bits);
  }

  // What a satisfied request receives: wanted bits that were set, all of them for an
  // AND, at least one for an OR; and with CLEAR none of them is left.
  ghost predicate Answered(ev: bv32, w: Want, received: bv32) {
    && Within(received, w.bits) && Within(received, ev)
    && (w.bits != 0 ==> received != 0)
    && (Has(w.option, AND) ==> received == w.bits)
  }

  lemma ReceivedMeans(ev: bv32, w: Want)
    requires Satisfied(ev, w)
    ensures Answered(ev, w, Common(ev, w.bits))
    ensures Has(w.option, CLEAR) ==> Common(Left(ev, w), w.bits) == 0 && Common(Left(ev, w), Common(ev, w.bits)) == 0
  {
    hide Within, Common, Cleared, Has;
    CommonWithin(ev, w.bits);
    ClearedWithin(ev, w.bits);
  }

  // ---- the fold ----

  lemma RestKnown<V>(q: seq<Tid>, m: map<Tid, V>, v: V)
    requires q != [] && Known(q, m)
    ensures Known(q[1..], m) && Known(q[1..], m[q[0] := v])
  {
    forall i | 0 <= i < |q[1..]| ensures q[1..][i] in m { assert q[1..][i] == q[i + 1]; }
  }

  // The threads are split into those that still wait and those resumed, both in their old
  // order; only the latter's records change.
  ghost predicate Split(q: seq<Tid>, wants: Wants, r: Served) {
    && Sublist(r.waiting, q) && Sublist(r.resumed, q)
    && NoRepeats(r.waiting) && NoRepeats(r.resumed)
    && (forall t :: t in q <==> t in r.waiting || t in r.resumed)
    && (forall t :: t in r.waiting ==> t !in r.resumed)
    && (forall t :: t in wants ==> t in r.wants)
    && (forall t :: t in r.wants ==> t in wants && (t !in r.resumed ==> r.wants[t] == wants[t]))
  }

  lemma NothingSplits(ev: bv32, wants: Wants)
    ensures Split([], wants, Served(ev, [], wants, []))
  {
  }

  lemma SplitMore(q: seq<Tid>, wants: Wants, w: Want, r: Served)
    requires q != [] && NoRepeats(q) && q[0] in wants && Split(q[1..], wants[q[0] := w], r)
    ensures Split(q, wants, r.(resumed := [q[0]] + r.resumed)) && q[0] in r.wants && r.wants[q[0]] == w
  {
    FirstAndRest(q);
    Prepended(q[0], r.resumed);
    hide Sublist, NoRepeats;
    SublistMore(r.waiting, q);
    SublistMore(r.resumed, q);
  }

  lemma SplitLess(q: seq<Tid>, wants: Wants, r: Served)
    requires q != [] && NoRepeats(q) && q[0] in wants && Split(q[1..], wants, r)
    ensures Split(q, wants, r.(waiting := [q[0]] + r.waiting)) && q[0] in r.wants && r.wants[q[0]] == wants[q[0]]
  {
    FirstAndRest(q);
    Prepended(q[0], r.waiting);
    hide Sublist, NoRepeats;
    SublistMore(r.waiting, q);
    SublistMore(r.resumed, q);
  }

  lemma {:induction false} ServeSplits(ev: bv32, q: seq<Tid>, wants: Wants)
    requires Known(q, wants) && NoRepeats(q)
    ensures Split(q, wants, Serve(ev, q, wants)) && Within(Serve(ev, q, wants).ev, ev)
    decreases |q|
  {
    hide Within, Common, Cleared, Has, Satisfied, Left, Split;
    if q == [] {
      assert Split(q, wants, Served(ev, [], wants, [])) by { NothingSplits(ev, wants); }
      assert Within(ev, ev) by { ClearedWithin(ev, ev); }
    } else {
      var w := wants[q[0]];
      var w' := Want(Common(ev, w.bits), w.option);
      RestKnown(q, wants, w');
      FirstAndRest(q);
      if Satisfied(ev, w) {
        ServeSplits(Left(ev, w), q[1..], wants[q[0] := w']);
        SplitMore(q, wants, w', Serve(Left(ev, w), q[1..], wants[q[0] := w']));
        LeftIsFewer(ev, w);
        WithinTrans(Serve(ev, q, wants).ev, Left(ev, w), ev);
      } else {
        ServeSplits(ev, q[1..], wants);
        SplitLess(q, wants, Serve(ev, q[1..], wants));
      }
    }
  }

  // Nobody left waiting is satisfied by the bits that are left.
  lemma {:induction false} NoneLeftSatisfied(ev: bv32, q: seq<Tid>, wants: Wants, t: Tid)
    requires Known(q, wants) && NoRepeats(q) && t in Serve(ev, q, wants).waiting
    ensures t in wants && !Satisfied(Serve(ev, q, wants).ev, wants[t])
    decreases |q|
  {
    hide Within, Common, Cleared, Has, Satisfied, Left;
    var w := wants[q[0]];
    var w' := Want(Common(ev, w.bits), w.option);
    RestKnown(q, wants, w');
    FirstAndRest(q);
    if Satisfied(ev, w) {
      ServeSplits(Left(ev, w), q[1..], wants[q[0] := w']);
      NoneLeftSatisfied(Left(ev, w), q[1..], wants[q[0] := w'], t);
    } else {
      ServeSplits(ev, q[1..], wants);
      if t == q[0] {
        if Satisfied(Serve(ev, q, wants).ev, w) { FewerBits(ev, Serve(ev, q, wants).ev, w); }
      } else {
        NoneLeftSatisfied(ev, q[1..], wants, t);
      }
    }
  }

  // Every resumed thread's request is answered out of the bits that were set.
  lemma {:induction false} AllAnswered(ev: bv32, q: seq<Tid>, wants: Wants, t: Tid)
    requires Known(q, wants) && NoRepeats(q) && t in Serve(ev, q, wants).resumed
    ensures t in wants && t in Serve(ev, q, wants).wants
    ensures Answered(ev, wants[t], Serve(ev, q, wants).wants[t].bits)
    decreases |q|
  {
    hide Within, Common, Cleared, Has, Satisfied, Left;
    var r := Serve(ev, q, wants);
    var w := wants[q[0]];
    var w' := Want(Common(ev, w.bits), w.option);
    RestKnown(q, wants, w');
    FirstAndRest(q);
    ServeSplits(ev, q, wants);
    if Satisfied(ev, w) {
      ServeSplits(Left(ev, w), q[1..], wants[q[0] := w']);
      if t == q[0] {
        ReceivedMeans(ev, w);
      } else {
        AllAnswered(Left(ev, w), q[1..], wants[q[0] := w'], t);
        LeftIsFewer(ev, w);
        WithinTrans(r.wants[t].bits, Left(ev, w), ev);
      }
    } else {
      AllAnswered(ev, q[1..], wants, t);
    }
  }

  // A bit received by a thread that clears what it receives goes to no thread behind it,
  // and is not in the event word afterwards.
  ghost predicate Gone(bits: bv32, r: Served, j: nat) {
    && Common(bits, r.ev) == 0
    && (j < |r.resumed| ==> r.resumed[j] in r.wants && Common(bits, r.wants[r.resumed[j]].bits) == 0)
  }

  lemma FirstClears(ev: bv32, q: seq<Tid>, wants: Wants, j: nat)
    requires q != [] && Known(q, wants) && NoRepeats(q) && Satisfied(ev, wants[q[0]]) && Has(wants[q[0]].option, CLEAR)
    requires 0 < j <= |Serve(ev, q, wants).resumed|
    ensures Gone(Common(ev, wants[q[0]].bits), Serve(ev, q, wants), j)
  {
    hide Within, Common, Cleared, Has, Satisfied, Left, Answered, Split;
    var w := wants[q[0]];
    var w' := Want(Common(ev, w.bits), w.option);
    RestKnown(q, wants, w');
    FirstAndRest(q);
    var left := Left(ev, w);
    var r' := Serve(left, q[1..], wants[q[0] := w']);
    ServeSplits(left, q[1..], wants[q[0] := w']);
    ReceivedMeans(ev, w);
    Disjoint(r'.ev, left, w'.bits);
    if j - 1 < |r'.resumed| {
      AllAnswered(left, q[1..], wants[q[0] := w'], r'.resumed[j - 1]);
      AnswerWithin(left, w, w'.bits, wants[q[0] := w'][r'.resumed[j - 1]], r'.wants[r'.resumed[j - 1]].bits);
    }
  }

  lemma {:induction false} ClearedBitsGoOnce(ev: bv32, q: seq<Tid>, wants: Wants, i: nat, j: nat)
    requires Known(q, wants) && NoRepeats(q) && i < j <= |Serve(ev, q, wants).resumed|
    ensures var r := Serve(ev, q, wants);
      && r.resumed[i] in wants && r.resumed[i] in r.wants
      && (Has(wants[r.resumed[i]].option, CLEAR) ==> Gone(r.wants[r.resumed[i]].bits, r, j))
    decreases |q|
  {
    hide Within, Common, Cleared, Has, Satisfied, Left, Answered, Split;
    var w := wants[q[0]];
    var w' := Want(Common(ev, w.bits), w.option);
    RestKnown(q, wants, w');
    FirstAndRest(q);
    ResumedKnown(ev, q, wants, i);
    if !Satisfied(ev, w) {
      ClearedBitsGoOnce(ev, q[1..], wants, i, j);
    } else if i > 0 {
      ResumedKnown(Left(ev, w), q[1..], wants[q[0] := w'], i - 1);
      ClearedBitsGoOnce(Left(ev, w), q[1..], wants[q[0] := w'], i - 1, j - 1);
    } else {
      HeadReceives(ev, q, wants);
      if Has(w.option, CLEAR) { FirstClears(ev, q, wants, j); }
    }
  }

  lemma ResumedKnown(ev: bv32, q: seq<Tid>, wants: Wants, i: nat)
    requires Known(q, wants) && NoRepeats(q) && i < |Serve(ev, q, wants).resumed|
    ensures var r := Serve(ev, q, wants); r.resumed[i] in q && r.resumed[i] in wants && r.resumed[i] in r.wants
  {
    hide Within, Common, Cleared, Has, Satisfied, Left, Serve;
    ServeSplits(ev, q, wants);
    assert Serve(ev, q, wants).resumed[i] in Serve(ev, q, wants).resumed;
  }

  lemma HeadReceives(ev: bv32, q: seq<Tid>, wants: Wants)
    requires q != [] && Known(q, wants) && NoRepeats(q) && Satisfied(ev, wants[q[0]])
    ensures var r := Serve(ev, q, wants);
      r.resumed != [] && r.resumed[0] == q[0] && q[0] in r.wants && r.wants[q[0]].bits == Common(ev, wants[q[0]].bits)
  {
    hide Within, Common, Cleared, Has, Satisfied, Left;
    var w := wants[q[0]];
    var w' := Want(Common(ev, w.bits), w.option);
    RestKnown(q, wants, w');
    FirstAndRest(q);
    ServeSplits(Left(ev, w), q[1..], wants[q[0] := w']);
  }

  lemma AnswerWithin(left: bv32, w: Want, received: bv32, v: Want, other: bv32)
    requires Answered(left, v, other) && Common(left, received) == 0
    ensures Common(received, other) == 0
  {
    hide Within, Common;
    Disjoint(other, left, received);
  }

  lemma {:induction false} ServeKeepsOrder(ev: bv32, q: seq<Tid>, wants: Wants, prio: Priorities, flag: Flag)
    requires Known(q, wants) && NoRepeats(q) && Ordered(q, prio, flag)
    ensures Ordered(Serve(ev, q, wants).waiting, prio, flag)
    decreases |q|
  {
    hide Within, Common, Cleared, Has, Satisfied, Left;
    if q != [] {
      var w := wants[q[0]];
      var w' := Want(Common(ev, w.bits), w.option);
      RestKnown(q, wants, w');
      FirstAndRest(q);
      RestOrdered(q, prio, flag);
      if Satisfied(ev, w) {
        ServeKeepsOrder(Left(ev, w), q[1..], wants[q[0] := w'], prio, flag);
      } else {
        ServeKeepsOrder(ev, q[1..], wants, prio, flag);
        ServeSplits(ev, q[1..], wants);
        HeadOrdered(q, Serve(ev, q[1..], wants).waiting, prio, flag);
      }
    }
  }

  lemma RestOrdered(q: seq<Tid>, prio: Priorities, flag: Flag)
    requires q != [] && Ordered(q, prio, flag)
    ensures Ordered(q[1..], prio, flag)
  {
  }

  lemma HeadOrdered(q: seq<Tid>, rest: seq<Tid>, prio: Priorities, flag: Flag)
    requires q != [] && Ordered(q, prio, flag) && Ordered(rest, prio, flag)
    requires forall t :: t in rest ==> t in q[1..]
    ensures Ordered([q[0]] + rest, prio, flag)
  {
    forall i | 0 <= i < |rest| ensures flag == Prio ==> prio[q[0]] <= prio[rest[i]] {
      assert rest[i] in rest;
      var k :| 0 <= k < |q[1..]| && q[1..][k] == rest[i];
      assert q[k + 1] == rest[i];
    }
  }

  // ---- the same in bits ----

  lemma HasMeans(option: bv8)
    ensures Has(option, AND) <==> option & 1 != 0
    ensures Has(option, OR) <==> option & 2 != 0
    ensures Has(option, CLEAR) <==> option & 4 != 0
  {
  }

  lemma WithinMeans(bits: bv32, ev: bv32)
    ensures Within(bits, ev) <==> ev & bits == bits
  {
  }

  lemma CommonMeans(a: bv32, b: bv32)
    ensures Common(a, b) == a & b
  {
  }

  lemma ClearedMeans(a: bv32, b: bv32)
    ensures Cleared(a, b) == a & !b
  {
  }

  lemma UnionMeans(a: bv32, b: bv32)
    ensures Union(a, b) == a | b
  {
  }

  // A request is satisfied by all of its bits for AND, else by any of them for OR.
  lemma SatisfiedMeans(ev: bv32, w: Want)
    ensures w.option & 1 != 0 ==> (Satisfied(ev, w) <==> ev & w.bits == w.bits)
    ensures w.option & 1 == 0 && w.option & 2 != 0 ==> (Satisfied(ev, w) <==> ev & w.bits != 0)
    ensures w.option & 1 == 0 && w.option & 2 == 0 ==> !Satisfied(ev, w)
  {
    hide Has, Within, Common;
    HasMeans(w.option);
    WithinMeans(w.bits, ev);
    CommonMeans(ev, w.bits);
  }

  // Answering it clears its bits for CLEAR and nothing otherwise.
  lemma LeftMeans(ev: bv32, w: Want)
    ensures Left(ev, w) == if w.option & 4 != 0 then ev & !w.bits else ev
  {
    hide Has;
    HasMeans(w.option);
  }

  // The bits that resumed threads with CLEAR have received: those of q that no longer wait.
  function Gathered(q: seq<Tid>, waiting: seq<Tid>, wants: Wants): bv32 {
    if q == [] then 0 else Union(Part(q[0], waiting, wants), Gathered(q[1..], waiting, wants))
  }

  function Part(t: Tid, waiting: seq<Tid>, wants: Wants): bv32 {
    if t !in waiting && t in wants && Has(wants[t].option, CLEAR) then wants[t].bits else 0
  }

  // They share a bit with a mask exactly when one of these threads received such a bit.
  lemma {:induction false} GatheredMeans(q: seq<Tid>, waiting: seq<Tid>, wants: Wants, mask: bv32)
    ensures Common(Gathered(q, waiting, wants), mask) != 0 <==> exists t :: t in q && Received(t, waiting, wants, mask)
  {
    hide Received, Common;
    if q == [] {
      NoBits(mask);
    } else {
      var part, rest := Part(q[0], waiting, wants), Gathered(q[1..], waiting, wants);
      GatheredMeans(q[1..], waiting, wants, mask);
      OrMeets(part, rest, mask);
      PartMeets(q[0], waiting, wants, mask);
      hide Part, Union;
      assert forall t :: t in q <==> t == q[0] || t in q[1..];
    }
  }

  ghost predicate Received(t: Tid, waiting: seq<Tid>, wants: Wants, mask: bv32) {
    t !in waiting && t in wants && Has(wants[t].option, CLEAR) && Common(wants[t].bits, mask) != 0
  }

  lemma PartMeets(t: Tid, waiting: seq<Tid>, wants: Wants, mask: bv32)
    ensures Common(Part(t, waiting, wants), mask) != 0 <==> Received(t, waiting, wants, mask)
  {
    hide Has, Common;
    NoBits(mask);
  }

  lemma NoBits(mask: bv32)
    ensures Common(0, mask) == 0
  {
  }

  lemma OrMeets(a: bv32, b: bv32, mask: bv32)
    ensures Common(Union(a, b), mask) != 0 <==> Common(a, mask) != 0 || Common(b, mask) != 0
  {
    OrSpreads(a, b, mask);
    OrNonZero(Common(a, mask), Common(b, mask));
    hide Union, Common;
  }

  lemma OrSpreads(a: bv32, b: bv32, mask: bv32)
    ensures Common(Union(a, b), mask) == Union(Common(a, mask), Common(b, mask))
  {
  }

  lemma OrNonZero(a: bv32, b: bv32)
    ensures Union(a, b) != 0 <==> a != 0 || b != 0
  {
  }

  lemma ClearedAll(ev: bv32, bits: bv32, rest: bv32)
    ensures Cleared(Cleared(ev, bits), rest) == Cleared(ev, Union(Common(ev, bits), rest))
    ensures Union(0, rest) == rest
  {
  }

  lemma ClearedNone(ev: bv32)
    ensures Cleared(ev, 0) == ev
  {
  }

  // The first thread's part, and the word the others find.
  lemma FirstPart(ev: bv32, q: seq<Tid>, wants: Wants, rest: bv32)
    requires q != [] && Known(q, wants) && NoRepeats(q)
    ensures var r := Serve(ev, q, wants); var w := wants[q[0]];
      Cleared(if Satisfied(ev, w) then Left(ev, w) else ev, rest) ==
      Cleared(ev, Union(Part(q[0], r.waiting, r.wants), rest))
  {
    hide Within, Common, Cleared, Has, Satisfied, Union, Split;
    var w := wants[q[0]];
    var w' := Want(Common(ev, w.bits), w.option);
    RestKnown(q, wants, w');
    FirstAndRest(q);
    ClearedAll(ev, w.bits, rest);
    if Satisfied(ev, w) {
      ServeSplits(Left(ev, w), q[1..], wants[q[0] := w']);
      SplitMore(q, wants, w', Serve(Left(ev, w), q[1..], wants[q[0] := w']));
      assert q[0] !in Serve(ev, q, wants).waiting by {
        SplitApart(q, wants, Serve(ev, q, wants), q[0]);
      }
    } else {
      assert q[0] in Serve(ev, q, wants).waiting;
    }
  }

  lemma SplitApart(q: seq<Tid>, wants: Wants, r: Served, t: Tid)
    requires Split(q, wants, r)
    ensures t in r.resumed ==> t !in r.waiting
    ensures t in q <==> t in r.waiting || t in r.resumed
  {
  }

  // What a send does to the event word: it clears what threads with CLEAR have received.
  lemma {:induction false} WordLeft(ev: bv32, q: seq<Tid>, wants: Wants)
    requires Known(q, wants) && NoRepeats(q)
    ensures var r := Serve(ev, q, wants); r.ev == Cleared(ev, Gathered(q, r.waiting, r.wants))
    decreases |q|
  {
    hide Within, Common, Cleared, Has, Satisfied, Left, Union, Part;
    if q == [] {
      ClearedNone(ev);
    } else {
      var w := wants[q[0]];
      var w' := Want(Common(ev, w.bits), w.option);
      RestKnown(q, wants, w');
      FirstAndRest(q);
      var r := Serve(ev, q, wants);
      FirstPart(ev, q, wants, Gathered(q[1..], r.waiting, r.wants));
      if Satisfied(ev, w) {
        WordLeft(Left(ev, w), q[1..], wants[q[0] := w']);
      } else {
        WordLeft(ev, q[1..], wants);
        ServeSplits(ev, q[1..], wants);
        GatheredSame(q[1..], r.waiting, Serve(ev, q[1..], wants).waiting, r.wants, q[0]);
      }
    }
  }

  // A thread that is not in q does not matter.
  lemma {:induction false} GatheredSame(q: seq<Tid>, waiting: seq<Tid>, waiting': seq<Tid>, wants: Wants, t: Tid)
    requires waiting == [t] + waiting' && t !in q
    ensures Gathered(q, waiting, wants) == Gathered(q, waiting', wants)
  {
    hide Has, Union;
    if q != [] {
      assert forall u :: u in waiting <==> u == t || u in waiting';
      GatheredSame(q[1..], waiting, waiting', wants, t);
    }
  }

  // The i-th waiter is answered exactly if the word satisfies it from which the bits have
  // been cleared that those in front of it have received with CLEAR; its answer is then
  // the bits of its request in that word.
  ghost predicate InTurn(ev: bv32, q: seq<Tid>, wants: Wants, i: nat, r: Served) {
    && i < |q| && q[i] in wants && q[i] in r.wants
    && var word := Cleared(ev, Gathered(q[..i], r.waiting, r.wants)); var w := wants[q[i]];
       && (q[i] in r.resumed <==> Satisfied(word, w)) && (q[i] in r.waiting <==> !Satisfied(word, w))
       && r.wants[q[i]] == if Satisfied(word, w) then Want(Common(word, w.bits), w.option) else w
  }

  lemma {:induction false} ServedInTurn(ev: bv32, q: seq<Tid>, wants: Wants, i: nat)
    requires Known(q, wants) && NoRepeats(q) && i < |q|
    ensures InTurn(ev, q, wants, i, Serve(ev, q, wants))
    decreases |q|
  {
    hide Within, Common, Cleared, Has, Satisfied, Left, InTurn, Gathered, Part;
    var w := wants[q[0]];
    var w' := Want(Common(ev, w.bits), w.option);
    RestKnown(q, wants, w');
    FirstAndRest(q);
    if i == 0 {
      FirstInTurn(ev, q, wants);
    } else {
      if Satisfied(ev, w) {
        ServedInTurn(Left(ev, w), q[1..], wants[q[0] := w'], i - 1);
      } else {
        ServedInTurn(ev, q[1..], wants, i - 1);
      }
      LaterInTurn(ev, q, wants, i);
    }
  }

  lemma FirstInTurn(ev: bv32, q: seq<Tid>, wants: Wants)
    requires q != [] && Known(q, wants) && NoRepeats(q)
    ensures InTurn(ev, q, wants, 0, Serve(ev, q, wants))
  {
    hide Within, Common, Cleared, Has, Satisfied, Left, Serve, Split;
    ClearedNone(ev);
    FirstServed(ev, q, wants);
  }

  lemma LaterInTurn(ev: bv32, q: seq<Tid>, wants: Wants, i: nat)
    requires Known(q, wants) && NoRepeats(q) && 0 < i < |q| && Known(q[1..], wants)
    requires var w := wants[q[0]]; var wants' := wants[q[0] := Want(Common(ev, w.bits), w.option)];
      && Known(q[1..], wants')
      && if Satisfied(ev, w) then InTurn(Left(ev, w), q[1..], wants', i - 1, Serve(Left(ev, w), q[1..], wants'))
         else InTurn(ev, q[1..], wants, i - 1, Serve(ev, q[1..], wants))
    ensures InTurn(ev, q, wants, i, Serve(ev, q, wants))
  {
    hide Within, Common, Cleared, Has, Satisfied, Left, Union, Part;
    var r := Serve(ev, q, wants);
    FirstAndRest(q);
    assert q[..i][0] == q[0] && q[..i][1..] == q[1..][..i - 1] && q[i] == q[1..][i - 1] && q[i] in q[1..];
    FirstPart(ev, q, wants, Gathered(q[1..][..i - 1], r.waiting, r.wants));
    if !Satisfied(ev, wants[q[0]]) {
      assert q[0] !in q[1..][..i - 1];
      GatheredSame(q[1..][..i - 1], r.waiting, Serve(ev, q[1..], wants).waiting, r.wants, q[0]);
    }
  }

  lemma FirstServed(ev: bv32, q: seq<Tid>, wants: Wants)
    requires q != [] && Known(q, wants) && NoRepeats(q)
    ensures var r := Serve(ev, q, wants); var w := wants[q[0]];
      && (q[0] in r.resumed <==> Satisfied(ev, w)) && (q[0] in r.waiting <==> !Satisfied(ev, w))
      && q[0] in r.wants && r.wants[q[0]] == if Satisfied(ev, w) then Want(Common(ev, w.bits), w.option) else w
  {
    hide Within, Common, Cleared, Has, Satisfied, Left, Union, Split;
    var w := wants[q[0]];
    var w' := Want(Common(ev, w.bits), w.option);
    RestKnown(q, wants, w');
    FirstAndRest(q);
    ServeSplits(ev, q, wants);
    SplitApart(q, wants, Serve(ev, q, wants), q[0]);
    if Satisfied(ev, w) {
      ServeSplits(Left(ev, w), q[1..], wants[q[0] := w']);
      SplitMore(q, wants, w', Serve(Left(ev, w), q[1..], wants[q[0] := w']));
    } else {
      ServeSplits(ev, q[1..], wants);
      SplitLess(q, wants, Serve(ev, q[1..], wants));
    }
  }

  // ---- the event object as a machine ----

  datatype State = State(
    flag: Flag,
    prio: Priorities,
    ev: bv32,
    wants: Wants,             // the requests of the threads that wait or were resumed
    queue: seq<Tid>,
    resumed: set<Tid>,        // resumed with their bits, not run yet
    failed: set<Tid>)         // ended by a timeout or a reset, not run yet

  datatype Outcome = Done | Invalid | TimedOut | Blocked

  ghost predicate Idle(s: State, t: Tid) {
    t !in s.queue && t !in s.resumed && t !in s.failed
  }

  function AfterSend(s: State, bits: bv32): State
    requires Known(s.queue, s.wants)
  {
    var r := Serve(Union(s.ev, bits), s.queue, s.wants);
    s.(ev := r.ev, queue := r.waiting, wants := r.wants, resumed := s.resumed + Members(r.resumed))
  }

  ghost predicate Sends(s: State, bits: bv32, r: Outcome, s': State) {
    if bits == 0 then r == Invalid && s' == s
    else r == Done && Known(s.queue, s.wants) && s' == AfterSend(s, bits)
  }

  ghost predicate Recvs(s: State, t: Tid, w: Want, wait: bool, r: Outcome, received: bv32, s': State) {
    if w.bits == 0 then r == Invalid && s' == s
    else if Satisfied(s.ev, w) then r == Done && received == Common(s.ev, w.bits) && s' == s.(ev := Left(s.ev, w))
    else if !wait then r == TimedOut && s' == s
    else
      && r == Blocked && Joined(s.queue, t, s.prio, s.flag, s'.queue)
      && s' == s.(queue := s'.queue, wants := s.wants[t := w])
  }

  // The end of a receive that waited.
  ghost predicate Reports(s: State, t: Tid, received: bv32, s': State) {
    t in s.resumed && t in s.wants && received == s.wants[t].bits && s' == s.(resumed := s.resumed - {t})
  }

  ghost predicate TimesOut(s: State, t: Tid, s': State) {
    exists i: nat :: i < |s.queue| && s.queue[i] == t &&
      s' == s.(queue := Dropped(s.queue, i), failed := s.failed + {t})
  }

  function AfterReset(s: State): State {
    s.(ev := 0, queue := [], failed := s.failed + Members(s.queue))
  }

  ghost predicate Step(s: State, s': State) {
    || (exists bits, r :: Sends(s, bits, r, s'))
    || (exists t, w, wait, r, got :: Idle(s, t) && Recvs(s, t, w, wait, r, got, s'))
    || (exists t, got :: Reports(s, t, got, s'))
    || (exists t :: TimesOut(s, t, s'))
    || (exists t :: t in s.failed && s' == s.(failed := s.failed - {t}))
    || s' == AfterReset(s)
  }

  ghost predicate Start(s: State) {
    s == State(s.flag, s.prio, 0, map[], [], {}, {})
  }

  ghost predicate IsRun(run: seq<State>) {
    run != [] && Start(run[0]) && forall i :: 0 <= i < |run| - 1 ==> Step(run[i], run[i + 1])
  }

  // No suspended thread is satisfied by the bits that are set.
  ghost predicate NoneSatisfied(ev: bv32, q: seq<Tid>, wants: Wants) {
    forall t :: t in q ==> t in wants && !Satisfied(ev, wants[t])
  }

  ghost predicate Separate(s: State) {
    && NoRepeats(s.queue)
    && (forall t :: t in s.queue ==> t !in s.resumed && t !in s.failed)
    && (forall t :: t in s.resumed ==> t !in s.failed)
  }

  // Every thread on its way back has something to report, every thread waiting asked for
  // something.
  ghost predicate NonEmpty(s: State) {
    && (forall t :: t in s.queue ==> t in s.wants && s.wants[t].bits != 0)
    && (forall t :: t in s.resumed ==> t in s.wants && s.wants[t].bits != 0)
  }

  ghost predicate Inv(s: State) {
    && Known(s.queue, s.wants) && Ordered(s.queue, s.prio, s.flag)
    && NoneSatisfied(s.ev, s.queue, s.wants) && Separate(s) && NonEmpty(s)
  }

  lemma SendKeeps(s: State, bits: bv32, r: Outcome, s': State)
    requires Inv(s) && Sends(s, bits, r, s')
    ensures Inv(s')
  {
    hide Within, Common, Cleared, Has, Satisfied, Left, Serve, Split, Union, Ordered;
    if bits != 0 {
      var ev := Union(s.ev, bits);
      var v := Serve(ev, s.queue, s.wants);
      ServeSplits(ev, s.queue, s.wants);
      ServeKeepsOrder(ev, s.queue, s.wants, s.prio, s.flag);
      forall t | t in v.waiting ensures t in s.wants && !Satisfied(v.ev, s.wants[t]) {
        NoneLeftSatisfied(ev, s.queue, s.wants, t);
      }
      forall t | t in v.resumed && t in s.wants && s.wants[t].bits != 0 ensures t in v.wants && v.wants[t].bits != 0 {
        AllAnswered(ev, s.queue, s.wants, t);
      }
      SendSplit(s, v, s');
    }
  }

  lemma SendSplit(s: State, v: Served, s': State)
    requires Separate(s) && NonEmpty(s) && Split(s.queue, s.wants, v)
    requires s' == s.(ev := v.ev, queue := v.waiting, wants := v.wants, resumed := s.resumed + Members(v.resumed))
    requires forall t :: t in v.waiting ==> t in s.wants && !Satisfied(v.ev, s.wants[t])
    requires forall t :: t in v.resumed && t in s.wants && s.wants[t].bits != 0 ==> t in v.wants && v.wants[t].bits != 0
    ensures Known(s'.queue, s'.wants) && Separate(s') && NonEmpty(s') && NoneSatisfied(s'.ev, s'.queue, s'.wants)
  {
    hide Satisfied;
    forall i | 0 <= i < |v.waiting| ensures v.waiting[i] in v.wants { assert v.waiting[i] in v.waiting; }
  }

  lemma RecvKeeps(s: State, t: Tid, w: Want, wait: bool, r: Outcome, received: bv32, s': State)
    requires Inv(s) && Idle(s, t) && Recvs(s, t, w, wait, r, received, s')
    ensures Inv(s')
  {
    hide Within, Common, Cleared, Has, Satisfied, Left, Joined, Ordered;
    if w.bits != 0 {
      if Satisfied(s.ev, w) {
        LeftIsFewer(s.ev, w);
        forall u | u in s.queue ensures u in s.wants && !Satisfied(Left(s.ev, w), s.wants[u]) {
          if Satisfied(Left(s.ev, w), s.wants[u]) { FewerBits(s.ev, Left(s.ev, w), s.wants[u]); }
        }
      } else if wait {
        JoinKeepsOrder(s.queue, t, s.prio, s.flag, s'.queue);
        JoinMembers(s.queue, t, s.prio, s.flag, s'.queue);
      }
    }
  }

  lemma TimeoutKeeps(s: State, t: Tid, s': State)
    requires Inv(s) && TimesOut(s, t, s')
    ensures Inv(s')
  {
    var i: nat :| i < |s.queue| && s.queue[i] == t && s' == s.(queue := Dropped(s.queue, i), failed := s.failed + {t});
    DropMembers(s.queue, i, s.prio, s.flag);
    assert t in s.queue;
    hide Satisfied, Dropped;
    forall k | 0 <= k < |s'.queue| ensures s'.queue[k] in s.wants { assert s'.queue[k] in s'.queue; }
  }

  lemma StepKeeps(s: State, s': State)
    requires Inv(s) && Step(s, s')
    ensures Inv(s')
  {
    hide Satisfied, Sends, Recvs, TimesOut, Inv, Idle;
    if bits, r :| Sends(s, bits, r, s') {
      SendKeeps(s, bits, r, s');
    } else if t, w, wait, r, got :| Idle(s, t) && Recvs(s, t, w, wait, r, got, s') {
      RecvKeeps(s, t, w, wait, r, got, s');
    } else if t :| TimesOut(s, t, s') {
      TimeoutKeeps(s, t, s');
    } else {
      ReturnKeeps(s, s');
    }
  }

  lemma ReturnKeeps(s: State, s': State)
    requires Inv(s)
    requires (exists t :: s' == s.(resumed := s.resumed - {t})) || (exists t :: s' == s.(failed := s.failed - {t})) ||
             s' == AfterReset(s)
    ensures Inv(s')
  {
    hide Satisfied, Ordered;
    if s' == AfterReset(s) {
      assert Ordered([], s.prio, s.flag) by { EmptyOrdered(s.prio, s.flag); }
    }
  }

  lemma EmptyOrdered(prio: Priorities, flag: Flag)
    ensures Ordered([], prio, flag)
  {
  }

  lemma {:induction false} EveryRunKeeps(run: seq<State>, n: nat)
    requires IsRun(run) && n < |run|
    ensures Inv(run[n])
  {
    hide Satisfied, Step, Inv;
    if n == 0 {
      StartHolds(run[0]);
    } else {
      EveryRunKeeps(run, n - 1);
      assert Step(run[n - 1], run[n - 1 + 1]);
      StepKeeps(run[n - 1], run[n]);
    }
  }

  lemma StartHolds(s: State)
    requires Start(s)
    ensures Inv(s)
  {
  }

  // ---- from the send that resumes a thread to its report ----

  // No step touches the record of a thread that was resumed and has not run yet.
  lemma ResumedKept(s: State, s': State, t: Tid)
    requires Inv(s) && Step(s, s') && t in s.resumed
    ensures t in s.wants && t in s'.wants && s'.wants[t] == s.wants[t]
  {
    hide Within, Common, Cleared, Has, Satisfied, Left, Union, Serve, Joined, Dropped, Ordered, NoneSatisfied,
         Sublist, Known;
    assert t !in s.queue && t in s.wants;
    if bits, r :| Sends(s, bits, r, s') {
      if bits != 0 {
        QueueFacts(s);
        ServeSplits(Union(s.ev, bits), s.queue, s.wants);
      }
    }
  }

  lemma {:induction false} KeptOverRun(run: seq<State>, i: nat, j: nat, t: Tid)
    requires IsRun(run) && i <= j < |run|
    requires forall k :: i <= k <= j ==> t in run[k].resumed
    ensures t in run[i].wants && t in run[j].wants && run[j].wants[t] == run[i].wants[t]
    decreases j - i
  {
    hide Inv, Step;
    EveryRunKeeps(run, i);
    if i == j {
      ResumedHasRecord(run[i], t);
    } else {
      assert Step(run[i], run[i + 1]);
      ResumedKept(run[i], run[i + 1], t);
      KeptOverRun(run, i + 1, j, t);
    }
  }

  lemma ResumedHasRecord(s: State, t: Tid)
    requires Inv(s) && t in s.resumed
    ensures t in s.wants
  {
    hide Known, Ordered, NoneSatisfied, Separate;
  }

  // A thread leaves the queue resumed only by a send, which answers its request.
  lemma ResumedAnswered(s: State, s': State, t: Tid)
    requires Inv(s) && Step(s, s') && t in s.queue && t in s'.resumed
    ensures t in s.wants && t in s'.wants
    ensures exists bits :: Sends(s, bits, Done, s') && Answered(Union(s.ev, bits), s.wants[t], s'.wants[t].bits)
  {
    hide Within, Common, Cleared, Has, Satisfied, Left, Union, Serve, Joined, Dropped, Ordered, NoneSatisfied,
         Sublist, Known, Answered;
    assert t !in s.resumed;
    var bits, r :| Sends(s, bits, r, s');
    QueueFacts(s);
    AllAnswered(Union(s.ev, bits), s.queue, s.wants, t);
  }

  // So what a thread reports, whatever happened since it was resumed, answers its request
  // out of the bits that were set by the send that resumed it.
  lemma ReportAnswers(run: seq<State>, i: nat, j: nat, t: Tid, received: bv32, s': State)
    requires IsRun(run) && i < j < |run| && t in run[i].queue
    requires forall k :: i < k <= j ==> t in run[k].resumed
    requires Reports(run[j], t, received, s')
    ensures t in run[i].wants
    ensures exists bits :: Sends(run[i], bits, Done, run[i + 1]) &&
              Answered(Union(run[i].ev, bits), run[i].wants[t], received)
  {
    hide Inv, Step, Sends, Answered, Union;
    EveryRunKeeps(run, i);
    assert Step(run[i], run[i + 1]);
    ResumedAnswered(run[i], run[i + 1], t);
    KeptOverRun(run, i + 1, j, t);
  }

  // ---- what one call does, in bits ----

  // A receive is answered at once exactly if all its bits are set for AND, any for OR.
  lemma RecvAnswersAnd(s: State, t: Tid, w: Want, wait: bool, r: Outcome, received: bv32, s': State)
    requires Recvs(s, t, w, wait, r, received, s') && w.option & 1 != 0
    ensures r == Done <==> w.bits != 0 && s.ev & w.bits == w.bits
  {
    hide Satisfied, Left, Common, Joined;
    SatisfiedMeans(s.ev, w);
  }

  lemma RecvAnswersOr(s: State, t: Tid, w: Want, wait: bool, r: Outcome, received: bv32, s': State)
    requires Recvs(s, t, w, wait, r, received, s') && w.option & 1 == 0 && w.option & 2 != 0
    ensures r == Done <==> w.bits != 0 && s.ev & w.bits != 0
  {
    hide Satisfied, Left, Common, Joined;
    SatisfiedMeans(s.ev, w);
  }

  // It gets its bits of the event word, which clears them for CLEAR and is otherwise kept.
  lemma RecvWord(s: State, t: Tid, w: Want, wait: bool, r: Outcome, received: bv32, s': State)
    requires Recvs(s, t, w, wait, r, received, s')
    ensures r == Done ==> received == s.ev & w.bits
    ensures w.option & 4 == 0 || r != Done ==> s'.ev == s.ev
    ensures w.option & 4 != 0 && r == Done ==> s'.ev == s.ev & !w.bits
  {
    hide Satisfied, Left, Common, Joined;
    LeftMeans(s.ev, w);
    CommonMeans(s.ev, w.bits);
  }

  // A send sets its bits and clears what the threads it resumes have received with CLEAR.
  lemma SendMeans(s: State, bits: bv32, r: Outcome, s': State)
    requires Inv(s) && Sends(s, bits, r, s')
    ensures r == (if bits == 0 then Invalid else Done) && (r == Invalid ==> s' == s)
    ensures r == Done ==> s'.ev == Cleared(Union(s.ev, bits), Gathered(s.queue, s'.queue, s'.wants))
    ensures s'.failed == s.failed && s'.prio == s.prio && s'.flag == s.flag
  {
    hide Within, Common, Cleared, Has, Satisfied, Left, Union, Serve, Gathered;
    if bits != 0 {
      QueueFacts(s);
      WordLeft(Union(s.ev, bits), s.queue, s.wants);
    }
  }

  // Each waiter in turn is resumed, with the bits it asked for of the word it finds, or
  // waits on; the word it finds is that of the send without what those in front of it
  // have received with CLEAR.
  lemma SendInTurn(s: State, bits: bv32, s': State, i: nat)
    requires Inv(s) && Sends(s, bits, Done, s') && i < |s.queue|
    ensures var t := s.queue[i]; var word := Cleared(Union(s.ev, bits), Gathered(s.queue[..i], s'.queue, s'.wants));
      && t in s.wants && t in s'.wants && (t in s'.resumed <==> t !in s'.queue)
      && (t in s'.resumed <==> Satisfied(word, s.wants[t]))
      && s'.wants[t].option == s.wants[t].option
      && s'.wants[t].bits == if t in s'.resumed then Common(word, s.wants[t].bits) else s.wants[t].bits
  {
    hide Within, Common, Cleared, Has, Satisfied, Left, Union, Serve, Gathered;
    QueueFacts(s);
    var t := s.queue[i];
    assert t in s.queue && t !in s.resumed;
    ServedInTurn(Union(s.ev, bits), s.queue, s.wants, i);
  }

  // Serving the list from position n, after `done` were resumed, comes to r0.
  ghost predicate Waited(r0: Served, ev: bv32, q: seq<Tid>, n: nat, wants: Wants, done: seq<Tid>) {
    && n <= |q| && Known(q[n..], wants)
    && var r := Serve(ev, q[n..], wants);
       r0 == Served(r.ev, q[..n] + r.waiting, r.wants, done + r.resumed)
  }

  lemma AllWaited(r0: Served, ev: bv32, q: seq<Tid>, wants: Wants, done: seq<Tid>)
    requires Waited(r0, ev, q, |q|, wants, done)
    ensures r0 == Served(ev, q, wants, done)
  {
  }

  // One turn of the loop: the served thread at position n of the list, the ones before it
  // waiting on.
  lemma ServeTurn(ev: bv32, q: seq<Tid>, n: nat, wants: Wants, done: seq<Tid>)
    requires n < |q| && Known(q[n..], wants) && NoRepeats(q[n..])
    ensures q[n] in wants
    ensures var t, w := q[n], wants[q[n]]; var w' := Want(Common(ev, w.bits), w.option);
      var q' := Dropped(q, n); var r := Serve(ev, q[n..], wants);
      && Satisfied(ev, w) ==>
        && Known(q'[n..], wants[t := w']) && NoRepeats(q'[n..])
        && var r' := Serve(Left(ev, w), q'[n..], wants[t := w']);
           Served(r.ev, q[..n] + r.waiting, r.wants, done + r.resumed) ==
             Served(r'.ev, q'[..n] + r'.waiting, r'.wants, done + [t] + r'.resumed)
    ensures var r := Serve(ev, q[n..], wants);
      !Satisfied(ev, wants[q[n]]) ==>
        && Known(q[n + 1..], wants) && NoRepeats(q[n + 1..])
        && var r' := Serve(ev, q[n + 1..], wants);
           Served(r.ev, q[..n] + r.waiting, r.wants, done + r.resumed) ==
             Served(r'.ev, q[..n + 1] + r'.waiting, r'.wants, done + r'.resumed)
  {
    hide Within, Common, Cleared, Has, Satisfied, Left, Known, NoRepeats, Dropped;
    assert q[n..][0] == q[n] && q[n] in wants by { FirstKnown(q[n..], wants); }
    var w := wants[q[n]];
    RestKnown(q[n..], wants, Want(Common(ev, w.bits), w.option));
    FirstAndRest(q[n..]);
    assert q[n..][1..] == q[n + 1..];
    assert Dropped(q, n)[n..] == q[n + 1..];
    assert Dropped(q, n)[..n] == q[..n];
    assert q[..n + 1] == q[..n] + [q[n]];
  }

  lemma FirstKnown(q: seq<Tid>, wants: Wants)
    requires q != [] && Known(q, wants)
    ensures q[0] in wants
  {
  }

  // ---- the event object ----

  class EventObject {
    const flag: Flag
    const prio: Priorities
    var ev: bv32                 // set
    var wants: Wants             // event_set and event_info of the threads
    var queue: seq<Tid>          // parent.suspend_thread
    ghost var resumed: set<Tid>
    ghost var failed: set<Tid>

    ghost function Abs(): State
      reads this
    {
      State(flag, prio, ev, wants, queue, resumed, failed)
    }

    ghost predicate Valid()
      reads this
    {
      Inv(Abs())
    }

    // rt_event_init
    constructor (flag: Flag, prio: Priorities)
      ensures Valid() && Start(Abs()) && Abs().flag == flag && Abs().prio == prio
    {
      this.flag, this.prio := flag, prio;
      ev, wants, queue, resumed, failed := 0, map[], [], {}, {};
      new;
      StartHolds(Abs());
    }

    // One waiting thread in the loop of rt_event_send: whether it is satisfied, and then
    // its record narrowed to the bits received and, for CLEAR, those bits cleared.
    method Offer(t: Tid) returns (satisfied: bool)
      requires t in wants
      modifies this`ev, this`wants
      ensures satisfied == Satisfied(old(ev), old(wants)[t])
      ensures satisfied ==>
        && ev == Left(old(ev), old(wants)[t])
        && wants == old(wants)[t := Want(Common(old(ev), old(wants)[t].bits), old(wants)[t].option)]
      ensures !satisfied ==> ev == old(ev) && wants == old(wants)
      // without CLEAR nothing is cleared
      ensures satisfied && !Has(old(wants)[t].option, CLEAR) ==> ev == old(ev)
      ensures satisfied && Has(old(wants)[t].option, CLEAR) ==> ev == Cleared(old(ev), old(wants)[t].bits)
    {
      hide Within, Common, Cleared, Has;
      var w := wants[t];
      CommonWithin(ev, w.bits);
      ClearedWithin(ev, w.bits);
      satisfied := false;
      if Has(w.option, AND) {
        if Within(w.bits, ev) { satisfied := true; }
      } else if Has(w.option, OR) {
        if Common(ev, w.bits) != 0 {
          wants := wants[t := Want(Common(ev, w.bits), w.option)];
          satisfied := true;
        }
      }
      if satisfied && Has(w.option, CLEAR) {
        ev := Cleared(ev, wants[t].bits);
      }
      assert wants[t := wants[t]] == wants;
    }

    // rt_event_send
    method Send(bits: bv32) returns (r: Outcome)
      requires Valid()
      modifies this
      ensures Valid() && Sends(old(Abs()), bits, r, Abs())
      ensures r == if bits == 0 then Invalid else Done
      ensures r == Invalid ==> ev == old(ev) && queue == old(queue) && wants == old(wants) && resumed == old(resumed)
      // the bits are set, and only what was received with CLEAR is cleared again
      ensures r == Done ==> ev == Cleared(Union(old(ev), bits), Gathered(old(queue), queue, wants))
      ensures failed == old(failed)
    {
      hide Within, Common, Cleared, Has, Satisfied, Left, Union, Inv, Serve, Dropped, Known, NoRepeats;
      if bits == 0 { return Invalid; }
      ghost var s := Abs();
      QueueFacts(s);
      ev := Union(ev, bits);
      ghost var r0 := Serve(ev, queue, wants);
      ghost var done: seq<Tid> := [];
      assert queue[0..] == queue;
      var n := 0;
      while n < |queue|
        invariant n <= |queue| && Known(queue[n..], wants) && NoRepeats(queue[n..])
        invariant Waited(r0, ev, queue, n, wants, done)
        invariant resumed == s.resumed + Members(done) && failed == s.failed
        decreases |queue| - n
      {
        ServeTurn(ev, queue, n, wants, done);
        var t := queue[n];
        var satisfied := Offer(t);
        if satisfied {
          queue := Dropped(queue, n);
          resumed := resumed + {t};
          done := done + [t];
        } else {
          n := n + 1;
        }
      }
      AllWaited(r0, ev, queue, wants, done);
      r := Done;
      SendKeeps(s, bits, r, Abs());
      SendMeans(s, bits, r, Abs());
    }

    // rt_event_recv, up to the point where the thread waits or returns.
    method Recv(t: Tid, bits: bv32, option: bv8, timeout: int) returns (r: Outcome, received: bv32)
      requires Valid() && t in prio && Idle(Abs(), t)
      requires bits != 0 ==> Has(option, AND) || Has(option, OR)
      modifies this
      ensures Valid() && Recvs(old(Abs()), t, Want(bits, option), timeout != 0, r, received, Abs())
      ensures r == Invalid <==> bits == 0
      ensures r == Done <==> bits != 0 && Satisfied(old(ev), Want(bits, option))
      ensures r == TimedOut ==> timeout == 0
      ensures r == Blocked ==> timeout != 0
      // the bits received are cleared for CLEAR, and otherwise stay
      ensures r == Done ==> received == Common(old(ev), bits)
      ensures ev == if r == Done && Has(option, CLEAR) then Cleared(old(ev), bits) else old(ev)
      ensures if r == Blocked then
                Joined(old(queue), t, prio, flag, queue) && wants == old(wants)[t := Want(bits, option)]
              else queue == old(queue) && wants == old(wants)
      ensures resumed == old(resumed) && failed == old(failed)
    {
      hide Within, Common, Cleared, Has, Inv, Joined, Known, Idle;
      received := 0;
      if bits == 0 { return Invalid, 0; }
      ghost var s := Abs();
      QueueFacts(s);
      var status := false;
      if Has(option, AND) {
        status := Within(bits, ev);
      } else if Has(option, OR) {
        status := Common(ev, bits) != 0;
      }
      if status {
        received := Common(ev, bits);
        if Has(option, CLEAR) { ev := Cleared(ev, bits); }
        r := Done;
      } else if timeout == 0 {
        r := TimedOut;
      } else {
        wants := wants[t := Want(bits, option)];
        queue := Suspend(queue, t, prio, flag);
        r := Blocked;
      }
      RecvKeeps(s, t, Want(bits, option), timeout != 0, r, received, Abs());
    }

    // rt_event_recv, when the resumed thread runs again.
    method Report(t: Tid) returns (received: bv32)
      requires Valid() && t in resumed
      modifies this
      ensures Valid() && Reports(old(Abs()), t, received, Abs())
      ensures t in wants && received == wants[t].bits && resumed == old(resumed) - {t}
      ensures ev == old(ev) && wants == old(wants) && queue == old(queue) && failed == old(failed)
      ensures received != 0
    {
      received := wants[t].bits;
      resumed := resumed - {t};
    }

    // The timeout of the i-th waiting thread.
    method Timeout(i: nat)
      requires Valid() && i < |queue|
      modifies this
      ensures Valid() && TimesOut(old(Abs()), old(queue)[i], Abs())
      ensures queue == old(queue)[..i] + old(queue)[i + 1..] && failed == old(failed) + {old(queue)[i]}
      ensures ev == old(ev) && wants == old(wants) && resumed == old(resumed)
    {
      hide Inv, Dropped;
      ghost var s := Abs();
      failed := failed + {queue[i]};
      queue := Dropped(queue, i);
      TimeoutKeeps(s, s.queue[i], Abs());
    }

    // rt_event_control with RT_IPC_CMD_RESET
    method Reset()
      requires Valid()
      modifies this
      ensures Valid() && Abs() == AfterReset(old(Abs()))
      ensures ev == 0 && queue == [] && wants == old(wants) && resumed == old(resumed)
      ensures forall t :: t in failed <==> t in old(failed) || t in old(queue)
    {
      ghost var ended;
      queue, ended := ResumeAll(queue);
      failed := failed + ended;
      ev := 0;
    }
  }

  lemma QueueFacts(s: State)
    requires Inv(s)
    ensures Known(s.queue, s.wants) && NoRepeats(s.queue) && Known(s.queue, s.prio)
  {
  }
}
