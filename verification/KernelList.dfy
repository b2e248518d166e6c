// The intrusive circular doubly linked list every kernel queue is built on.
// Nodes are identities; their next and prev words live in a link memory.
module KernelList {

  datatype Links<T> = Links(next: T, prev: T)

  function Succ<T>(r: seq<T>, i: nat): T
    requires i < |r|
  {
    if i + 1 < |r| then r[i + 1] else r[0]
  }

  function Pred<T>(r: seq<T>, i: nat): T
    requires i < |r|
  {
    if i > 0 then r[i - 1] else r[|r| - 1]
  }

  ghost predicate Distinct<T>(r: seq<T>) {
    forall i, j :: 0 <= i < j < |r| ==> r[i] != r[j]
  }

  ghost predicate LinkedAt<T>(m: map<T, Links<T>>, r: seq<T>, i: nat)
    requires i < |r|
  {
    r[i] in m && m[r[i]] == Links(Succ(r, i), Pred(r, i))
  }

  // Following next from r[0] visits r in order and comes back; prev walks it backwards.
  ghost predicate Ring<T>(m: map<T, Links<T>>, r: seq<T>) {
    && r != [] && Distinct(r)
    && forall i :: 0 <= i < |r| ==> LinkedAt(m, r, i)
  }

  function InsertAt<T>(r: seq<T>, i: nat, n: T): seq<T>
    requires i <= |r|
  {
    r[..i] + [n] + r[i..]
  }

  function RemoveAt<T>(r: seq<T>, i: nat): seq<T>
    requires i < |r|
  {
    r[..i] + r[i + 1..]
  }

  // Nodes of r are the only ones whose links may have changed.
  ghost predicate OnlyTouched<T>(m: map<T, Links<T>>, m': map<T, Links<T>>, r: seq<T>) {
    forall x :: x in m && x !in r ==> x in m' && m'[x] == m[x]
  }

  // A ring none of whose nodes was touched is still that ring.
  lemma OtherRingKept<T>(m: map<T, Links<T>>, m': map<T, Links<T>>, r: seq<T>, s: seq<T>)
    requires Ring(m, s) && OnlyTouched(m, m', r) && forall x :: x in s ==> x !in r
    ensures Ring(m', s)
  {
    forall i | 0 <= i < |s| ensures LinkedAt(m', s, i) {
      assert LinkedAt(m, s, i) && s[i] in s;
    }
  }

  lemma LinkFact<T>(m: map<T, Links<T>>, r: seq<T>, i: nat)
    requires Ring(m, r)
    ensures i < |r| ==> LinkedAt(m, r, i)
  {
  }

  // In a ring next leads from each node to the one behind it and prev back, and from the
  // last node next leads to the first.
  lemma RingMeans<T>(m: map<T, Links<T>>, r: seq<T>)
    requires Ring(m, r)
    ensures forall i :: 0 <= i < |r| ==> r[i] in m
    ensures forall i :: 0 <= i < |r| - 1 ==> m[r[i]].next == r[i + 1] && m[r[i + 1]].prev == r[i]
    ensures m[r[|r| - 1]].next == r[0] && m[r[0]].prev == r[|r| - 1]
  {
    forall i | 0 <= i < |r| ensures r[i] in m && m[r[i]] == Links(Succ(r, i), Pred(r, i)) { LinkFact(m, r, i); }
    forall i | 0 <= i < |r| - 1 ensures m[r[i]].next == r[i + 1] && m[r[i + 1]].prev == r[i] {
      LinkFact(m, r, i);
      LinkFact(m, r, i + 1);
    }
  }

  // The links of node i and of its two neighbours.
  lemma Neighbours<T>(m: map<T, Links<T>>, r: seq<T>, i: nat)
    requires Ring(m, r) && i < |r|
    ensures r[i] in m && m[r[i]] == Links(Succ(r, i), Pred(r, i))
    ensures Succ(r, i) in m && m[Succ(r, i)].prev == r[i]
    ensures Pred(r, i) in m && m[Pred(r, i)].next == r[i]
    ensures |r| > 1 ==> Succ(r, i) != r[i] && Pred(r, i) != r[i]
  {
    LinkFact(m, r, i);
    LinkFact(m, r, if i + 1 < |r| then i + 1 else 0);
    LinkFact(m, r, if i > 0 then i - 1 else |r| - 1);
  }

  // A single memory holds one ring through a node: next determines it.
  lemma {:induction false} RingUnique<T>(m: map<T, Links<T>>, r: seq<T>, s: seq<T>, i: nat)
    requires Ring(m, r) && Ring(m, s) && r[0] == s[0] && i < |r| && i < |s|
    ensures r[i] == s[i]
  {
    if i > 0 {
      RingUnique(m, r, s, i - 1);
      assert LinkedAt(m, r, i - 1) && LinkedAt(m, s, i - 1);
    }
  }

  lemma RingsEqual<T>(m: map<T, Links<T>>, r: seq<T>, s: seq<T>)
    requires Ring(m, r) && Ring(m, s) && r[0] == s[0]
    ensures r == s
  {
    forall i | 0 <= i < |r| && i < |s| ensures r[i] == s[i] { RingUnique(m, r, s, i); }
    ShorterRing(m, r, s);
    ShorterRing(m, s, r);
  }

  lemma ShorterRing<T>(m: map<T, Links<T>>, r: seq<T>, s: seq<T>)
    requires Ring(m, r) && Ring(m, s) && forall i :: 0 <= i < |r| && i < |s| ==> r[i] == s[i]
    ensures |s| <= |r|
  {
    LinkFact(m, r, |r| - 1);
    LinkFact(m, s, |r| - 1);
  }

  // In a ring, k follows i exactly when i precedes k.
  lemma MutualNeighbours<T>(r: seq<T>, i: nat, k: nat)
    requires Distinct(r) && i < |r| && k < |r|
    ensures Succ(r, k) == r[i] <==> r[k] == Pred(r, i)
    ensures Pred(r, k) == r[i] <==> r[k] == Succ(r, i)
  {
  }

  lemma InsertedRing<T>(m: map<T, Links<T>>, m': map<T, Links<T>>, r: seq<T>, i: nat, n: T)
    requires Ring(m, r) && i < |r| && n !in r
    requires n in m' && m'[n] == Links(Succ(r, i), r[i])
    requires forall k :: 0 <= k < |r| ==>
               r[k] in m' &&
               m'[r[k]] == Links(if k == i then n else Succ(r, k), if r[k] == Succ(r, i) then n else Pred(r, k))
    ensures Ring(m', InsertAt(r, i + 1, n))
  {
    var r' := InsertAt(r, i + 1, n);
    forall k | 0 <= k < |r'| ensures LinkedAt(m', r', k) {
      if k <= i {
        assert r'[k] == r[k];
      } else if k > i + 1 {
        assert r'[k] == r[k - 1];
      }
    }
  }

  lemma RemovedRing<T>(m: map<T, Links<T>>, m': map<T, Links<T>>, r: seq<T>, i: nat)
    requires Ring(m, r) && i < |r| && |r| > 1
    requires forall k :: 0 <= k < |r| && k != i ==>
               r[k] in m' && m'[r[k]] == Links(if Succ(r, k) == r[i] then Succ(r, i) else Succ(r, k),
                                                if Pred(r, k) == r[i] then Pred(r, i) else Pred(r, k))
    ensures Ring(m', RemoveAt(r, i))
  {
    var r' := RemoveAt(r, i);
    forall k | 0 <= k < |r'| ensures LinkedAt(m', r', k) {
      if k < i {
        assert r'[k] == r[k];
      } else {
        assert r'[k] == r[k + 1];
      }
    }
  }

  class LinkMemory<T(==)> {
    var links: map<T, Links<T>>

    method SetNext(n: T, x: T)
      requires n in links
      modifies this
      ensures links == old(links)[n := Links(x, old(links)[n].prev)]
    {
      links := links[n := links[n].(next := x)];
    }

    method SetPrev(n: T, x: T)
      requires n in links
      modifies this
      ensures links == old(links)[n := Links(old(links)[n].next, x)]
    {
      links := links[n := links[n].(prev := x)];
    }

    // rt_list_init
    method Init(l: T)
      modifies this
      ensures Ring(links, [l]) && OnlyTouched(old(links), links, [l])
    {
      links := links[l := Links(l, l)];
    }

    // rt_list_insert_after; the node must be in the memory and outside the ring.
    method InsertAfter(l: T, n: T, ghost r: seq<T>, ghost i: nat)
      requires Ring(links, r) && i < |r| && r[i] == l && n !in r && n in links
      modifies this
      ensures Ring(links, r[..i + 1] + [n] + r[i + 1..]) && OnlyTouched(old(links), links, r + [n])
    {
      assert LinkedAt(links, r, i);
      ghost var j := if i + 1 < |r| then i + 1 else 0;
      assert LinkedAt(links, r, j) && r[j] == Succ(r, i);
      SetPrev(links[l].next, n);
      SetNext(n, links[l].next);
      SetNext(l, n);
      SetPrev(n, l);
      forall k | 0 <= k < |r|
        ensures r[k] in links &&
                links[r[k]] == Links(if k == i then n else Succ(r, k), if r[k] == Succ(r, i) then n else Pred(r, k))
      {
        assert LinkedAt(old(links), r, k);
      }
      InsertedRing(old(links), links, r, i, n);
    }

    // rt_list_insert_before: in front of a member, or at the end when l is the head r[0].
    method InsertBefore(l: T, n: T, ghost r: seq<T>, ghost i: nat)
      requires Ring(links, r) && i < |r| && r[i] == l && n !in r && n in links
      modifies this
      ensures i == 0 ==> Ring(links, r + [n])
      ensures i > 0 ==> Ring(links, r[..i] + [n] + r[i..])
      ensures OnlyTouched(old(links), links, r + [n])
    {
      assert r[..|r|] + [n] + r[|r|..] == r + [n];
      Neighbours(links, r, i);
      ghost var j := if i > 0 then i - 1 else |r| - 1;
      assert r[j] == Pred(r, i);
      SetNext(links[l].prev, n);
      SetPrev(n, links[l].prev);
      SetPrev(l, n);
      SetNext(n, l);
      forall k | 0 <= k < |r|
        ensures r[k] in links &&
                links[r[k]] == Links(if k == j then n else Succ(r, k), if r[k] == Succ(r, j) then n else Pred(r, k))
      {
        LinkFact(old(links), r, k);
      }
      InsertedRing(old(links), links, r, j, n);
    }

    // rt_list_isempty
    method IsEmpty(l: T, ghost r: seq<T>) returns (empty: bool)
      requires Ring(links, r) && r[0] == l
      ensures empty <==> r == [l]
    {
      Neighbours(links, r, 0);
      empty := links[l].next == l;
    }

    // rt_list_remove; the node removed becomes a ring of its own, or stays one.
    method Remove(n: T, ghost r: seq<T>, ghost i: nat)
      requires Ring(links, r) && i < |r| && r[i] == n
      modifies this
      ensures |r| > 1 ==> Ring(links, r[..i] + r[i + 1..])
      ensures Ring(links, [n]) && OnlyTouched(old(links), links, r)
      ensures |r| == 1 ==> links == old(links)
    {
      Neighbours(links, r, i);
      SetPrev(links[n].next, links[n].prev);
      SetNext(links[n].prev, links[n].next);
      SetNext(n, n);
      SetPrev(n, n);
      forall k | 0 <= k < |r| && k != i
        ensures r[k] in links && links[r[k]] == Links(if Succ(r, k) == n then Succ(r, i) else Succ(r, k),
                                                       if Pred(r, k) == n then Pred(r, i) else Pred(r, k))
      {
        LinkFact(old(links), r, k);
        MutualNeighbours(r, i, k);
      }
      if |r| > 1 { RemovedRing(old(links), links, r, i); }
    }
  }
}
