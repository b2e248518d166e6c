// The queue of threads waiting on an IPC object, in arrival order or by priority.
module WaitQueue {
  import opened Lists

  // Threads are named by numbers; a smaller priority value is more urgent.
  type Tid = nat
  type Priorities = map<Tid, nat>

  datatype Flag = Fifo | Prio

  ghost predicate Known<V>(q: seq<Tid>, prio: map<Tid, V>) {
    forall i :: 0 <= i < |q| ==> q[i] in prio
  }

  ghost predicate SortedByPrio(q: seq<Tid>, prio: Priorities)
    requires Known(q, prio)
  {
    forall i, j :: 0 <= i < j < |q| ==> prio[q[i]] <= prio[q[j]]
  }

  // i is where a thread of priority p joins: behind everyone at least as urgent in front,
  // right before the first who is less urgent.
  ghost predicate JoinsAt(q: seq<Tid>, prio: Priorities, p: nat, i: nat)
    requires Known(q, prio)
  {
    && i <= |q|
    && (forall k :: 0 <= k < i ==> prio[q[k]] <= p)
    && (i < |q| ==> p < prio[q[i]])
  }

  // q' is q after t has joined it: at the tail, or where its priority puts it.
  ghost predicate Joined(q: seq<Tid>, t: Tid, prio: Priorities, flag: Flag, q': seq<Tid>) {
    && Known(q, prio) && t in prio
    && exists i: nat ::
         && i <= |q| && q' == Inserted(q, i, t)
         && (flag == Fifo ==> i == |q|)
         && (flag == Prio ==> JoinsAt(q, prio, prio[t], i))
  }

  // rt_ipc_list_suspend
  method Suspend(q: seq<Tid>, t: Tid, prio: Priorities, flag: Flag) returns (q': seq<Tid>)
    requires Known(q, prio) && t in prio
    ensures Joined(q, t, prio, flag, q')
  {
    match flag
    case Fifo =>
      q' := q + [t];
      assert q' == Inserted(q, |q|, t);
    case Prio =>
      var n := 0;
      while n < |q|
        invariant n <= |q| && forall k :: 0 <= k < n ==> prio[q[k]] <= prio[t]
      {
        if prio[t] < prio[q[n]] {
          return Inserted(q, n, t);
        }
        n := n + 1;
      }
      q' := q + [t];
      assert q' == Inserted(q, |q|, t);
  }

  // A queue in the order its flag asks for.
  ghost predicate Ordered(q: seq<Tid>, prio: Priorities, flag: Flag) {
    Known(q, prio) && (flag == Prio ==> SortedByPrio(q, prio))
  }

  // Joining by priority keeps a queue sorted.
  lemma JoinKeepsOrder(q: seq<Tid>, t: Tid, prio: Priorities, flag: Flag, q': seq<Tid>)
    requires Ordered(q, prio, flag) && Joined(q, t, prio, flag, q')
    ensures Ordered(q', prio, flag)
  {
    var i: nat :| i <= |q| && q' == Inserted(q, i, t) && (flag == Prio ==> JoinsAt(q, prio, prio[t], i));
    hide Inserted, SortedByPrio, JoinsAt;
    InsertKnown(q, i, t, prio);
    if flag == Prio { InsertSorted(q, i, t, prio); }
  }

  lemma InsertKnown(q: seq<Tid>, i: nat, t: Tid, prio: Priorities)
    requires Known(q, prio) && t in prio && i <= |q|
    ensures Known(Inserted(q, i, t), prio)
  {
    hide Inserted;
  }

  lemma InsertSorted(q: seq<Tid>, i: nat, t: Tid, prio: Priorities)
    requires Known(q, prio) && t in prio && SortedByPrio(q, prio) && JoinsAt(q, prio, prio[t], i)
    ensures Known(Inserted(q, i, t), prio) && SortedByPrio(Inserted(q, i, t), prio)
  {
    InsertKnown(q, i, t, prio);
    var q' := Inserted(q, i, t);
    hide Inserted, Known;
    forall j, k | 0 <= j < k < |q'| ensures prio[q'[j]] <= prio[q'[k]] {
      InsertedInOrder(q, i, t, prio, j, k);
    }
  }

  lemma InsertedInOrder(q: seq<Tid>, i: nat, t: Tid, prio: Priorities, j: nat, k: nat)
    requires Known(q, prio) && t in prio && SortedByPrio(q, prio) && JoinsAt(q, prio, prio[t], i)
    requires j < k <= |q|
    ensures var q' := Inserted(q, i, t); q'[j] in prio && q'[k] in prio && prio[q'[j]] <= prio[q'[k]]
  {
    var q' := Inserted(q, i, t);
    hide Inserted;
    var a, b := if j < i then j else j - 1, if k < i then k else k - 1;
    if j != i { assert q'[j] == q[a]; }
    if k != i { assert q'[k] == q[b]; }
    if j == i { assert prio[t] < prio[q[i]] && prio[q[i]] <= prio[q[b]]; }
    if k == i { assert prio[q[a]] <= prio[t]; }
  }

  // Equals stay in arrival order: whoever is at least as urgent and already there is
  // still in front of the newcomer.
  lemma JoinIsStable(q: seq<Tid>, t: Tid, prio: Priorities, flag: Flag, q': seq<Tid>, x: Tid)
    requires Joined(q, t, prio, flag, q') && Ordered(q, prio, flag) && x in q && t !in q
    requires flag == Fifo || prio[x] <= prio[t]
    ensures exists i, j :: 0 <= i < j < |q'| && q'[i] == x && q'[j] == t
  {
    var j: nat :| j <= |q| && q' == Inserted(q, j, t) && (flag == Fifo ==> j == |q|) &&
      (flag == Prio ==> JoinsAt(q, prio, prio[t], j));
    var i :| 0 <= i < |q| && q[i] == x;
    assert i < j;
    assert q'[i] == x && q'[j] == t;
  }

  lemma JoinMembers(q: seq<Tid>, t: Tid, prio: Priorities, flag: Flag, q': seq<Tid>)
    requires Joined(q, t, prio, flag, q')
    ensures Known(q', prio)
    ensures forall x :: x in q' <==> x in q || x == t
    ensures NoRepeats(q) && t !in q ==> NoRepeats(q')
  {
    var i: nat :| i <= |q| && q' == Inserted(q, i, t);
    hide Inserted, NoRepeats;
    forall x ensures x in q' <==> x in q || x == t { InsertMembers(q, i, t, x); }
    if NoRepeats(q) && t !in q { InsertNoRepeats(q, i, t); }
  }

  lemma DropMembers(q: seq<Tid>, i: nat, prio: Priorities, flag: Flag)
    requires NoRepeats(q) && i < |q|
    ensures NoRepeats(Dropped(q, i))
    ensures forall x :: x in Dropped(q, i) <==> x in q && x != q[i]
    ensures Ordered(q, prio, flag) ==> Ordered(Dropped(q, i), prio, flag)
  {
    assert q == q[..i] + [q[i]] + q[i + 1..];
    forall x | x in q && x != q[i] ensures x in Dropped(q, i) {}
  }

  // Where a thread joins: in arrival order at the very end; by priority behind all that
  // are at least as urgent, before all that are less, nobody else moving.
  lemma JoinPlace(q: seq<Tid>, t: Tid, prio: Priorities, flag: Flag, q': seq<Tid>)
    requires Joined(q, t, prio, flag, q') && Ordered(q, prio, flag)
    ensures t in prio && forall k :: 0 <= k < |q| ==> q[k] in prio
    ensures flag == Fifo ==> q' == q + [t]
    ensures flag == Prio ==>
              exists i: nat :: i <= |q| && q' == q[..i] + [t] + q[i..]
                && (forall k :: 0 <= k < i ==> prio[q[k]] <= prio[t])
                && (forall k :: i <= k < |q| ==> prio[t] < prio[q[k]])
  {
    var i: nat :| i <= |q| && q' == Inserted(q, i, t) && (flag == Fifo ==> i == |q|) &&
      (flag == Prio ==> JoinsAt(q, prio, prio[t], i));
    assert q' == q[..i] + [t] + q[i..];
  }

  // x stands somewhere in front of y.
  ghost predicate Ahead(q: seq<Tid>, x: Tid, y: Tid) {
    exists i, j :: 0 <= i < j < |q| && q[i] == x && q[j] == y
  }

  lemma NotFirst(q: seq<Tid>, x: Tid, y: Tid)
    requires NoRepeats(q) && x in q && x != y && (y in q ==> Ahead(q, x, y))
    ensures q != [] && q[0] != y
  {
  }

  // What one step does to a queue: nothing, or a thread joins, one leaves, or all leave.
  ghost predicate Moves(q: seq<Tid>, prio: Priorities, flag: Flag, q': seq<Tid>) {
    || q' == q || q' == []
    || (exists i: nat :: i < |q| && q' == Dropped(q, i))
    || (exists t :: t !in q && Joined(q, t, prio, flag, q'))
  }

  lemma AheadDropped(q: seq<Tid>, i: nat, x: Tid, y: Tid)
    requires NoRepeats(q) && i < |q| && Ahead(q, x, y) && x in Dropped(q, i) && y in Dropped(q, i)
    ensures Ahead(Dropped(q, i), x, y)
  {
    var q' := Dropped(q, i);
    var j, k :| 0 <= j < k < |q| && q[j] == x && q[k] == y;
    var m :| 0 <= m < |q'| && q'[m] == x;
    var n :| 0 <= n < |q'| && q'[n] == y;
    assert q[if m < i then m else m + 1] == x && q[if n < i then n else n + 1] == y;
  }

  lemma AheadInserted(q: seq<Tid>, i: nat, t: Tid, x: Tid, y: Tid)
    requires i <= |q| && Ahead(q, x, y)
    ensures Ahead(Inserted(q, i, t), x, y)
  {
    hide Inserted;
    var q' := Inserted(q, i, t);
    var j, k :| 0 <= j < k < |q| && q[j] == x && q[k] == y;
    var a, b := if j < i then j else j + 1, if k < i then k else k + 1;
    assert q'[a] == x && q'[b] == y;
  }

  lemma AheadJoined(q: seq<Tid>, t: Tid, prio: Priorities, flag: Flag, q': seq<Tid>, x: Tid, y: Tid)
    requires Joined(q, t, prio, flag, q') && Ahead(q, x, y)
    ensures Ahead(q', x, y)
  {
    hide Inserted, Ahead, JoinsAt;
    var i: nat :| i <= |q| && q' == Inserted(q, i, t);
    AheadInserted(q, i, t, x, y);
  }

  lemma FirstDropped(q: seq<Tid>)
    ensures q != [] ==> q[1..] == Dropped(q, 0)
  {
  }

  // No such step lets anyone who is not more urgent pass a thread that waits.
  lemma AheadKept(q: seq<Tid>, prio: Priorities, flag: Flag, q': seq<Tid>, x: Tid, y: Tid)
    requires NoRepeats(q) && Ordered(q, prio, flag) && Moves(q, prio, flag, q')
    requires x in q && x in q' && y in q' && x != y
    requires y in q ==> Ahead(q, x, y)
    requires y in prio && (flag == Fifo || prio[x] <= prio[y])
    ensures Ahead(q', x, y)
  {
    hide Ordered, Joined;
    if q' == q {
    } else if i: nat :| i < |q| && q' == Dropped(q, i) {
      assert y in q by { var k :| 0 <= k < |q'| && q'[k] == y; assert q[if k < i then k else k + 1] == y; }
      AheadDropped(q, i, x, y);
    } else {
      var t :| t !in q && Joined(q, t, prio, flag, q');
      if y == t {
        JoinIsStable(q, t, prio, flag, q', x);
      } else {
        JoinMembers(q, t, prio, flag, q');
        AheadJoined(q, t, prio, flag, q', x, y);
      }
    }
  }

  // rt_ipc_list_resume_all: takes the waiters off one by one from the head.
  method ResumeAll(q: seq<Tid>) returns (q': seq<Tid>, ghost resumed: set<Tid>)
    ensures q' == [] && resumed == Members(q)
  {
    q', resumed := q, {};
    while q' != []
      invariant resumed + Members(q') == Members(q)
      decreases |q'|
    {
      assert q' == [q'[0]] + q'[1..];
      resumed := resumed + {q'[0]};
      q' := q'[1..];
    }
  }
}
