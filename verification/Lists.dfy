// Lists of distinct things, each named by a number.
module Lists {

  ghost predicate NoRepeats(q: seq<nat>) {
    forall i, j :: 0 <= i < j < |q| ==> q[i] != q[j]
  }

  // q with t put at place i.
  function Inserted(q: seq<nat>, i: nat, t: nat): (r: seq<nat>)
    requires i <= |q|
    ensures |r| == |q| + 1 && r[i] == t
    ensures forall k :: 0 <= k < i ==> r[k] == q[k]
    ensures forall k :: i < k < |r| ==> r[k] == q[k - 1]
  {
    q[..i] + [t] + q[i..]
  }

  // q without its i-th element.
  function Dropped(q: seq<nat>, i: nat): (r: seq<nat>)
    requires i < |q|
    ensures |r| == |q| - 1
    ensures forall k :: 0 <= k < i ==> r[k] == q[k]
    ensures forall k :: i <= k < |r| ==> r[k] == q[k + 1]
  {
    q[..i] + q[i + 1..]
  }

  lemma InsertMembers(q: seq<nat>, i: nat, t: nat, x: nat)
    requires i <= |q|
    ensures x in Inserted(q, i, t) <==> x in q || x == t
  {
    assert q == q[..i] + q[i..];
  }

  lemma InsertNoRepeats(q: seq<nat>, i: nat, t: nat)
    requires i <= |q| && NoRepeats(q) && t !in q
    ensures NoRepeats(Inserted(q, i, t))
  {
    hide Inserted;
  }

  function Members(q: seq<nat>): set<nat> {
    set t | t in q
  }

  lemma MembersAre(q: seq<nat>, t: nat)
    ensures t in Members(q) <==> t in q
  {
  }

  // q without t.
  function Without(q: seq<nat>, t: nat): seq<nat> {
    if q == [] then [] else if q[0] == t then q[1..] else [q[0]] + Without(q[1..], t)
  }

  lemma {:induction false} WithoutMembers(q: seq<nat>, t: nat)
    requires NoRepeats(q)
    ensures NoRepeats(Without(q, t))
    ensures forall u :: u in Without(q, t) <==> u in q && u != t
    ensures t !in q ==> Without(q, t) == q
  {
    if q != [] {
      var rest := q[1..];
      assert q == [q[0]] + rest && q[0] !in rest;
      WithoutMembers(rest, t);
      var w := Without(q, t);
      if q[0] != t {
        assert forall i, j :: 0 <= i < j < |w| ==> w[i] != w[j];
      }
    }
  }

  lemma {:induction false} WithoutSplits(q: seq<nat>, i: nat)
    requires NoRepeats(q) && i < |q|
    ensures Without(q, q[i]) == Dropped(q, i)
  {
    if i > 0 {
      var rest := q[1..];
      assert NoRepeats(rest) && q[0] != q[i];
      WithoutSplits(rest, i - 1);
      assert q[i] == rest[i - 1];
      assert [q[0]] + Dropped(rest, i - 1) == Dropped(q, i);
    } else {
      assert q[1..] == Dropped(q, 0);
    }
  }

  // Distinct numbers below count are at most count many ...
  lemma {:induction false} DistinctFit(q: seq<nat>, count: nat)
    requires forall i, j :: 0 <= i < j < |q| ==> q[i] != q[j]
    requires forall i :: 0 <= i < |q| ==> q[i] < count
    ensures |q| <= count
  {
    assert |q| > 0 ==> q[0] < count;
    if count > 0 {
      if i: nat :| i < |q| && q[i] == count - 1 {
        DistinctFit(q[..i] + q[i + 1..], count - 1);
      } else {
        DistinctFit(q, count - 1);
      }
    }
  }

  // ... and if they are that many, none is missing.
  lemma {:induction false} DistinctCover(q: seq<nat>, count: nat, x: nat)
    requires NoRepeats(q) && |q| == count && x < count
    requires forall i :: 0 <= i < |q| ==> q[i] < count
    ensures x in q
  {
    if x !in q {
      DistinctFit([x] + q, count);
    }
  }

  lemma FirstAndRest(q: seq<nat>)
    requires q != [] && NoRepeats(q)
    ensures NoRepeats(q[1..]) && q[0] !in q[1..]
    ensures forall x :: x in q <==> x == q[0] || x in q[1..]
  {
    assert q == [q[0]] + q[1..];
  }

  // q with some of its elements left out, the others in their old order.
  predicate Sublist(a: seq<nat>, q: seq<nat>)
    decreases |q|
  {
    if a == [] then true
    else q != [] && if a[0] == q[0] then Sublist(a[1..], q[1..]) else Sublist(a, q[1..])
  }

  lemma SublistMore(a: seq<nat>, q: seq<nat>)
    requires q != [] && Sublist(a, q[1..])
    ensures q[0] !in a ==> Sublist(a, q)
    ensures Sublist([q[0]] + a, q)
  {
    assert ([q[0]] + a)[1..] == a;
  }

  lemma Prepended(x: nat, q: seq<nat>)
    requires x !in q && NoRepeats(q)
    ensures NoRepeats([x] + q) && forall y :: y in [x] + q <==> y == x || y in q
  {
  }
}
