// The timers as they are kept: 32-bit ticks that wrap, and a skip list of several rows.
module Timers {
  import opened Words
  import opened Lists
  import opened WaitQueue
  import opened TimerList

  const HALF: nat := 0x7FFF_FFFF          // RT_TICK_MAX / 2

  // Unsigned 32-bit subtraction.
  function Minus(a: u32, b: u32): u32 { (a - b) % 0x1_0000_0000 }

  // For deadlines of one window the wrapping comparison is the true one.
  lemma LaterInWindow(now: nat, d: nat, e: nat)
    requires now <= d <= now + LONGEST && now <= e <= now + LONGEST
    ensures Minus(d % WORD, e % WORD) == 0 <==> d == e
    ensures Minus(d % WORD, e % WORD) != 0 && Minus(d % WORD, e % WORD) < HALF <==> d > e
  {
    MinusMod(d, e);
  }

  lemma DueInWindow(now: nat, d: nat)
    requires now <= d <= now + LONGEST
    ensures Minus(now % WORD, d % WORD) < HALF <==> d == now
  {
    MinusMod(now, d);
  }

  lemma MinusMod(a: nat, b: nat)
    requires a - b < WORD && b - a < WORD
    ensures Minus(a % WORD, b % WORD) == if a >= b then a - b else a - b + WORD
  {
  }

  // ---- which times work ----

  // Whether the check k ticks after the start finds a timer of time n due.
  predicate FoundDue(start: nat, n: u32, k: nat) {
    Minus((start + k) % WORD, (start + n) % WORD) < HALF
  }

  // Of the checks that follow the start, the one n ticks later is the first to find it due.
  ghost predicate OnTime(start: nat, n: u32) {
    n >= 1 && FoundDue(start, n, n) && forall k :: 1 <= k < n ==> !FoundDue(start, n, k)
  }

  // Whether the search takes the deadline d for later than e.
  predicate TakenForLater(d: nat, e: nat) {
    Minus(d % WORD, e % WORD) != 0 && Minus(d % WORD, e % WORD) < HALF
  }

  // A timer of time m, started j ticks after one of time n, is put on its right side.
  predicate RightSide(start: nat, n: u32, j: nat, m: nat) {
    TakenForLater(start + n, start + j + m) <==> n > j + m
  }

  // While a timer of time n waits, that is so of every timer started with an allowed time.
  ghost predicate InOrder(start: nat, n: u32) {
    forall j: nat, m: nat :: j < n && 1 <= m <= LONGEST ==> RightSide(start, n, j, m)
  }

  lemma DueAfter(start: nat, n: u32, k: nat)
    requires k <= n
    ensures FoundDue(start, n, k) <==> k == n || WORD + k - n < HALF
  {
    MinusMod(start + k, start + n);
  }

  // Alone, a timer is on time for every time from 1 to half the counter and two; any other
  // is called at the very next check.
  lemma OnTimeIff(start: nat, n: u32)
    ensures OnTime(start, n) <==> 1 <= n <= 0x8000_0002
    ensures !(1 <= n <= 0x8000_0002) ==> FoundDue(start, n, 1)
  {
    if n == 0 {
      MinusMod(start + 1, start);
    } else {
      DueAfter(start, n, n);
      DueAfter(start, n, 1);
      hide FoundDue;
      forall k | 1 <= k < n ensures FoundDue(start, n, k) <==> WORD + k - n < HALF { DueAfter(start, n, k); }
      if n > 0x8000_0002 { assert FoundDue(start, n, 1); }
    }
  }

  lemma LaterIff(start: nat, n: u32, j: nat, m: nat)
    requires j < n && 1 <= m <= LONGEST
    ensures TakenForLater(start + n, start + j + m) <==>
            if n >= j + m then 0 < n - j - m < HALF else WORD + n - j - m < HALF
  {
    MinusMod(start + n, start + j + m);
  }

  // Among others, only times up to RT_TICK_MAX / 2 keep the list in order.
  lemma InOrderIff(start: nat, n: u32)
    requires n >= 1
    ensures InOrder(start, n) <==> n <= HALF
  {
    hide TakenForLater;
    if n <= HALF {
      forall j: nat, m: nat | j < n && 1 <= m <= LONGEST ensures RightSide(start, n, j, m) {
        LaterIff(start, n, j, m);
      }
    } else {
      LaterIff(start, n, n - (HALF + 1), 1);
      assert !RightSide(start, n, n - (HALF + 1), 1);
    }
  }

  // A time works, alone and among others, exactly from 1 to RT_TICK_MAX / 2.
  lemma TimeWorks(start: nat, n: u32)
    ensures OnTime(start, n) && InOrder(start, n) <==> 1 <= n <= HALF
  {
    hide OnTime, InOrder;
    OnTimeIff(start, n);
    if n >= 1 { InOrderIff(start, n); }
  }

  // ---- rows ----

  type Heights = map<Id, nat>

  // The timers of height h or more, in list order.
  function Row(q: seq<Id>, height: Heights, h: nat): seq<Id> {
    if q == [] then []
    else if q[0] in height && height[q[0]] >= h then [q[0]] + Row(q[1..], height, h)
    else Row(q[1..], height, h)
  }

  lemma {:induction false} RowSplits(a: seq<Id>, b: seq<Id>, height: Heights, h: nat)
    ensures Row(a + b, height, h) == Row(a, height, h) + Row(b, height, h)
  {
    if a == [] {
      assert a + b == b;
    } else {
      assert (a + b)[1..] == a[1..] + b;
      RowSplits(a[1..], b, height, h);
    }
  }

  lemma {:induction false} RowSame(q: seq<Id>, height: Heights, height': Heights, h: nat)
    requires forall t :: t in q ==> t in height && t in height' && height[t] == height'[t]
    ensures Row(q, height, h) == Row(q, height', h)
  {
    if q != [] {
      assert q[0] in q;
      RowSame(q[1..], height, height', h);
    }
  }

  lemma {:induction false} RowMembers(q: seq<Id>, height: Heights, h: nat)
    ensures forall t :: t in Row(q, height, h) <==> t in q && t in height && height[t] >= h
    ensures NoRepeats(q) ==> NoRepeats(Row(q, height, h))
  {
    if q != [] {
      var rest := q[1..];
      assert q == [q[0]] + rest;
      RowMembers(rest, height, h);
      if NoRepeats(q) {
        assert NoRepeats(rest) && q[0] !in rest;
        var r := Row(q, height, h);
        assert forall i, j :: 0 <= i < j < |r| ==> r[i] != r[j];
      }
    }
  }

  lemma {:induction false} RowSorted(q: seq<Id>, height: Heights, h: nat, deadline: Ticks)
    requires SortedBy(q, deadline)
    ensures SortedBy(Row(q, height, h), deadline)
  {
    if q != [] {
      var rest := q[1..];
      SortedRest(q, deadline);
      RowSorted(rest, height, h, deadline);
      hide SortedBy, NoRepeats, NotLater;
      RowMembers(rest, height, h);
      var r := Row(rest, height, h);
      forall u | u in r ensures NotLater(deadline, q[0], u) { HeadNotLater(q, deadline, u); }
      SortedCons(q[0], r, deadline);
    }
  }

  // The bottom row holds every timer, and each row is a sublist of the row below it.
  lemma {:induction false} RowOfRow(q: seq<Id>, height: Heights, h: nat, k: nat)
    requires k <= h
    ensures Row(Row(q, height, k), height, h) == Row(q, height, h)
  {
    if q != [] {
      RowOfRow(q[1..], height, h, k);
      var r := Row(q[1..], height, k);
      if q[0] in height && height[q[0]] >= k {
        assert ([q[0]] + r)[1..] == r;
      }
    }
  }

  lemma {:induction false} RowAll(q: seq<Id>, height: Heights)
    requires forall t :: t in q ==> t in height && height[t] >= 1
    ensures Row(q, height, 1) == q
  {
    if q != [] {
      assert q[0] in q && q == [q[0]] + q[1..];
      RowAll(q[1..], height);
    }
  }

  // The insertion point of a row is the insertion point of the flat list, counted in it.
  lemma {:induction false} RowPoint(q: seq<Id>, height: Heights, h: nat, deadline: Ticks, d: nat)
    requires SortedBy(q, deadline) && forall t :: t in q ==> t in deadline
    ensures var k := Point(q, deadline, d); var r := Row(q, height, h);
      && Point(r, deadline, d) == |Row(q[..k], height, h)|
      && r == Row(q[..k], height, h) + Row(q[k..], height, h)
  {
    hide Row, Point, SortedBy, NoRepeats;
    var k := Point(q, deadline, d);
    var low, high := Row(q[..k], height, h), Row(q[k..], height, h);
    assert q == q[..k] + q[k..];
    RowSplits(q[..k], q[k..], height, h);
    PointSplits(q, deadline, d);
    RowMembers(q[..k], height, h);
    RowMembers(q[k..], height, h);
    forall i | 0 <= i < |low| ensures low[i] in deadline && deadline[low[i]] <= d { assert low[i] in low; }
    forall i | 0 <= i < |high| ensures high[i] in deadline && deadline[high[i]] > d { assert high[i] in high; }
    PointIs(low + high, deadline, d, |low|);
  }

  // A point between what is not later and what is later is the search's point.
  lemma {:induction false} PointIs(q: seq<Id>, deadline: Ticks, d: nat, n: nat)
    requires n <= |q|
    requires forall i :: 0 <= i < n ==> q[i] in deadline && deadline[q[i]] <= d
    requires n < |q| ==> q[n] in deadline && deadline[q[n]] > d
    ensures Point(q, deadline, d) == n
  {
    if n > 0 { PointIs(q[1..], deadline, d, n - 1); }
  }

  lemma RowOne(t: Id, height: Heights, h: nat)
    requires t in height
    ensures Row([t], height, h) == if height[t] >= h then [t] else []
  {
    assert [t][1..] == [];
  }

  lemma RowInsertAt(q: seq<Id>, k: nat, height: Heights, h: nat, t: Id, g: nat)
    requires k <= |q| && t !in q && forall u :: u in q ==> u in height
    ensures Row(Inserted(q, k, t), height[t := g], h) ==
      if g >= h then Row(q[..k], height, h) + [t] + Row(q[k..], height, h)
      else Row(q[..k], height, h) + Row(q[k..], height, h)
  {
    var height' := height[t := g];
    RowSame(q[..k], height, height', h);
    RowSame(q[k..], height, height', h);
    RowSplits(q[..k], [t] + q[k..], height', h);
    RowSplits([t], q[k..], height', h);
    RowOne(t, height', h);
    assert Inserted(q, k, t) == q[..k] + ([t] + q[k..]);
  }

  // Inserting a timer of height g: in the rows it reaches, at the row's own point.
  lemma RowInsert(q: seq<Id>, height: Heights, h: nat, deadline: Ticks, d: nat, t: Id, g: nat)
    requires SortedBy(q, deadline) && t !in q && forall u :: u in q ==> u in deadline && u in height
    ensures var k := Point(q, deadline, d); var r := Row(q, height, h);
      Row(Inserted(q, k, t), height[t := g], h) == if g >= h then Inserted(r, Point(r, deadline, d), t) else r
  {
    var k := Point(q, deadline, d);
    RowPoint(q, height, h, deadline, d);
    RowInsertAt(q, k, height, h, t, g);
    hide Row, Point, SortedBy;
    var low, high := Row(q[..k], height, h), Row(q[k..], height, h);
    assert (low + high)[..|low|] == low && (low + high)[|low|..] == high;
  }

  // Removing a timer: from every row it is in.
  lemma {:induction false} RowRemove(q: seq<Id>, height: Heights, h: nat, t: Id)
    requires NoRepeats(q)
    ensures Row(Without(q, t), height, h) == Without(Row(q, height, h), t)
  {
    if q != [] {
      var rest := q[1..];
      assert NoRepeats(rest) && q[0] !in rest;
      RowRemove(rest, height, h, t);
      RowMembers(rest, height, h);
      if q[0] == t {
        WithoutMembers(Row(rest, height, h), t);
        if !(t in height && height[t] >= h) {
        } else {
          assert ([t] + Row(rest, height, h))[1..] == Row(rest, height, h);
        }
      } else {
        assert ([q[0]] + Without(rest, t))[1..] == Without(rest, t);
        assert ([q[0]] + Row(rest, height, h))[1..] == Row(rest, height, h);
      }
    }
  }

  // ---- what the rows and ticks have to do with the flat list ----

  ghost predicate RowsMatch(rows: seq<seq<Id>>, q: seq<Id>, height: Heights) {
    && |rows| > 0
    && (forall l :: 0 <= l < |rows| ==> rows[l] == Row(q, height, |rows| - l))
    && (forall t :: t in q ==> t in height && 1 <= height[t] <= |rows|)
  }

  ghost predicate TicksMatch(tick: u32, timeoutTick: map<Id, u32>, s: Flat) {
    && tick == s.now % WORD
    && forall t :: t in s.list ==> t in timeoutTick && t in s.deadline && timeoutTick[t] == s.deadline[t] % WORD
  }

  ghost predicate Good(rows: seq<seq<Id>>, tick: u32, timeoutTick: map<Id, u32>, height: Heights, s: Flat, x: Ptr) {
    RowsMatch(rows, s.list, height) && TicksMatch(tick, timeoutTick, s) && InvBut(s, x)
  }

  lemma BottomRow(rows: seq<seq<Id>>, q: seq<Id>, height: Heights)
    requires RowsMatch(rows, q, height)
    ensures rows[|rows| - 1] == q
  {
    RowAll(q, height);
  }

  // Every row is sorted, and a sublist of the row below.
  lemma RowsNest(rows: seq<seq<Id>>, s: Flat, height: Heights, l: nat)
    requires RowsMatch(rows, s.list, height) && SortedBy(s.list, s.deadline) && NoRepeats(s.list) && l < |rows|
    ensures SortedBy(rows[l], s.deadline) && NoRepeats(rows[l]) && forall t :: t in rows[l] ==> t in s.list
    ensures l + 1 < |rows| ==>
              rows[l] == Row(rows[l + 1], height, |rows| - l) && forall t :: t in rows[l] ==> t in rows[l + 1]
  {
    hide Row, SortedBy, NoRepeats;
    RowSorted(s.list, height, |rows| - l, s.deadline);
    RowMembers(s.list, height, |rows| - l);
    if l + 1 < |rows| {
      RowOfRow(s.list, height, |rows| - l, |rows| - (l + 1));
      RowMembers(s.list, height, |rows| - (l + 1));
    }
  }

  function IndexOf(q: seq<Id>, t: Id): (i: nat)
    requires t in q
    ensures i < |q| && q[i] == t
  {
    if q[0] == t then 0 else 1 + IndexOf(q[1..], t)
  }

  // The row pointers of the search, once they have stopped.
  ghost predicate TimerHeads(rows: seq<seq<Id>>, heads: seq<nat>, deadline: Ticks, d: nat) {
    |heads| <= |rows| && forall l :: 0 <= l < |heads| ==> heads[l] == Point(rows[l], deadline, d)
  }

  // Inserting in the g lowest rows.
  function InsertedRows(rows: seq<seq<Id>>, heads: seq<nat>, t: Id, g: nat): (r: seq<seq<Id>>)
    requires |heads| == |rows| && forall l :: 0 <= l < |rows| ==> heads[l] <= |rows[l]|
    ensures |r| == |rows|
  {
    seq(|rows|, l requires 0 <= l < |rows| => if l >= |rows| - g then Inserted(rows[l], heads[l], t) else rows[l])
  }

  lemma OneRowInserted(rows: seq<seq<Id>>, heads: seq<nat>, t: Id)
    requires |heads| == |rows| > 0 && forall l :: 0 <= l < |rows| ==> heads[l] <= |rows[l]|
    ensures var n := |rows|; InsertedRows(rows, heads, t, 1) == rows[n - 1 := Inserted(rows[n - 1], heads[n - 1], t)]
  {
    hide Inserted;
  }

  lemma OneMoreInserted(rows: seq<seq<Id>>, heads: seq<nat>, t: Id, g: nat)
    requires |heads| == |rows| && g < |rows| && forall l :: 0 <= l < |rows| ==> heads[l] <= |rows[l]|
    ensures var l := |rows| - (g + 1); var r := InsertedRows(rows, heads, t, g);
      r[l] == rows[l] && InsertedRows(rows, heads, t, g + 1) == r[l := Inserted(rows[l], heads[l], t)]
  {
    hide Inserted;
  }

  lemma InsertMatches(rows: seq<seq<Id>>, q: seq<Id>, height: Heights, heads: seq<nat>, deadline: Ticks, d: nat,
      t: Id, g: nat)
    requires RowsMatch(rows, q, height) && SortedBy(q, deadline) && t !in q && forall u :: u in q ==> u in deadline
    requires |heads| == |rows| && TimerHeads(rows, heads, deadline, d) && 1 <= g <= |rows|
    ensures RowsMatch(InsertedRows(rows, heads, t, g), Inserted(q, Point(q, deadline, d), t), height[t := g])
  {
    hide Row, Point, SortedBy, Inserted;
    var k := Point(q, deadline, d);
    var rows', q', height' := InsertedRows(rows, heads, t, g), Inserted(q, k, t), height[t := g];
    forall l | 0 <= l < |rows| ensures rows'[l] == Row(q', height', |rows| - l) {
      RowInsert(q, height, |rows| - l, deadline, d, t, g);
    }
    forall u | u in q' ensures u in height' && 1 <= height'[u] <= |rows| { InsertMembers(q, k, t, u); }
  }

  lemma RemoveMatches(rows: seq<seq<Id>>, q: seq<Id>, height: Heights, t: Id)
    requires RowsMatch(rows, q, height) && NoRepeats(q)
    ensures RowsMatch(seq(|rows|, l requires 0 <= l < |rows| => Without(rows[l], t)), Without(q, t), height)
  {
    var rows' := seq(|rows|, l requires 0 <= l < |rows| => Without(rows[l], t));
    forall l | 0 <= l < |rows| ensures rows'[l] == Row(Without(q, t), height, |rows| - l) {
      RowRemove(q, height, |rows| - l, t);
    }
    WithoutMembers(q, t);
  }

  function RemovedRows(rows: seq<seq<Id>>, t: Id): (r: seq<seq<Id>>)
    ensures |r| == |rows|
  {
    seq(|rows|, l requires 0 <= l < |rows| => Without(rows[l], t))
  }

  lemma StartFacts(s: Flat, t: Id, x: Ptr)
    requires InvBut(s, x) && t !in s.active
    ensures t !in s.list && SortedBy(s.list, s.deadline) && NoRepeats(s.list) && TimesShort(s.init)
    ensures forall u :: u in s.list ==> u in s.deadline && s.now <= s.deadline[u] <= s.now + LONGEST
  {
    hide SortedBy, NoRepeats;
  }

  lemma StartTicks(tick: u32, ticks: map<Id, u32>, s: Flat, t: Id, due: u32)
    requires TicksMatch(tick, ticks, s) && t !in s.active && t in s.init && due == (s.now + s.init[t]) % WORD
    ensures TicksMatch(tick, ticks[t := due], Started(s, t))
  {
    hide Point, Inserted;
    var k := Point(s.list, s.deadline, s.now + s.init[t]);
    forall u | u in Inserted(s.list, k, t) ensures u in s.list || u == t { InsertMembers(s.list, k, t, u); }
  }

  lemma StartGood(rows: seq<seq<Id>>, tick: u32, ticks: map<Id, u32>, height: Heights, s: Flat, x: Ptr, t: Id,
      due: u32, heads: seq<nat>, g: nat)
    requires Good(rows, tick, ticks, height, s, x) && t !in s.active && t in s.init
    requires due == (s.now + s.init[t]) % WORD
    requires |heads| == |rows| && TimerHeads(rows, heads, s.deadline, s.now + s.init[t]) && 1 <= g <= |rows|
    ensures Good(InsertedRows(rows, heads, t, g), tick, ticks[t := due], height[t := g], Started(s, t), x)
  {
    hide RowsMatch, TicksMatch, InvBut, Point, Inserted, InsertedRows, SortedBy, NoRepeats, TimerHeads;
    StartFacts(s, t, x);
    HeadsFit(rows, heads, s.deadline, s.now + s.init[t]);
    InsertMatches(rows, s.list, height, heads, s.deadline, s.now + s.init[t], t, g);
    StartedKeeps(s, t, x);
    StartTicks(tick, ticks, s, t, due);
  }

  lemma HeadsFit(rows: seq<seq<Id>>, heads: seq<nat>, deadline: Ticks, d: nat)
    requires TimerHeads(rows, heads, deadline, d) && |heads| == |rows|
    ensures forall l :: 0 <= l < |rows| ==> heads[l] <= |rows[l]|
  {
  }

  lemma StopGood(rows: seq<seq<Id>>, tick: u32, ticks: map<Id, u32>, height: Heights, s: Flat, x: Ptr, t: Id)
    requires Good(rows, tick, ticks, height, s, x) && t in s.active
    ensures Good(RemovedRows(rows, t), tick, ticks, height, TimerList.Stopped(s, t), x)
  {
    RemoveMatches(rows, s.list, height, t);
    StoppedKeeps(s, t, x);
    WithoutMembers(s.list, t);
    hide RowsMatch, InvBut, Without;
  }

  lemma PopGood(rows: seq<seq<Id>>, tick: u32, ticks: map<Id, u32>, height: Heights, s: Flat)
    requires Good(rows, tick, ticks, height, s, Null) && s.list != [] && s.list[0] in s.deadline &&
             s.deadline[s.list[0]] <= s.now
    ensures Good(RemovedRows(rows, s.list[0]), tick, ticks, height, Popped(s), At(s.list[0]))
  {
    RemoveMatches(rows, s.list, height, s.list[0]);
    PoppedKeeps(s);
    hide RowsMatch, InvBut;
    assert Without(s.list, s.list[0]) == s.list[1..];
    assert forall u :: u in s.list[1..] ==> u in s.list;
  }

  lemma DisarmGood(rows: seq<seq<Id>>, tick: u32, ticks: map<Id, u32>, height: Heights, s: Flat, t: Id)
    requires Good(rows, tick, ticks, height, s, At(t)) && t !in s.list
    ensures Good(rows, tick, ticks, height, s.(active := s.active - {t}), Null)
  {
    hide RowsMatch, SortedBy, NoRepeats;
  }

  lemma SetTimeGood(rows: seq<seq<Id>>, tick: u32, ticks: map<Id, u32>, height: Heights, s: Flat, x: Ptr, t: Id, n: nat)
    requires Good(rows, tick, ticks, height, s, x) && n <= LONGEST
    ensures Good(rows, tick, ticks, height, s.(init := s.init[t := n]), x)
  {
    hide RowsMatch, SortedBy, NoRepeats;
  }

  lemma TickLater(tick: u32, now: nat, n: nat)
    requires tick == now % WORD
    ensures (tick + n) % WORD == (now + n) % WORD
  {
  }

  lemma AdvanceGood(rows: seq<seq<Id>>, tick: u32, ticks: map<Id, u32>, height: Heights, s: Flat)
    requires Good(rows, tick, ticks, height, s, Null) && Settled(s)
    ensures Good(rows, (tick + 1) % WORD, ticks, height, s.(now := s.now + 1), Null)
  {
    AdvanceKeeps(s);
    hide RowsMatch, InvBut, NothingDue;
    TickLater(tick, s.now, 1);
  }

  // A timer that is off the list is off every row, and removing one takes no other off.
  lemma RowsWithout(rows: seq<seq<Id>>, tick: u32, ticks: map<Id, u32>, height: Heights, s: Flat, x: Ptr, t: Id)
    requires Good(rows, tick, ticks, height, s, x)
    ensures forall l, u :: 0 <= l < |rows| ==> (u in RemovedRows(rows, t)[l] <==> u in rows[l] && u != t)
    ensures t !in s.list ==> forall l :: 0 <= l < |rows| ==> t !in rows[l]
  {
    forall l | 0 <= l < |rows|
      ensures forall u :: u in RemovedRows(rows, t)[l] <==> u in rows[l] && u != t
      ensures t !in s.list ==> t !in rows[l]
    {
      RowsNest(rows, s, height, l);
      WithoutMembers(rows[l], t);
    }
    hide RowsMatch, TicksMatch, InvBut, RemovedRows;
  }

  lemma InactiveOffList(rows: seq<seq<Id>>, tick: u32, ticks: map<Id, u32>, height: Heights, s: Flat, x: Ptr, t: Id)
    requires Good(rows, tick, ticks, height, s, x) && t !in s.active
    ensures t !in s.list
  {
  }

  // What the check tests at the head of the bottom row.
  lemma HeadGood(rows: seq<seq<Id>>, tick: u32, ticks: map<Id, u32>, height: Heights, s: Flat)
    requires Good(rows, tick, ticks, height, s, Null)
    ensures |rows| > 0 && rows[|rows| - 1] == s.list && InvBut(s, Null)
    ensures s.list != [] ==>
      && s.list[0] in ticks && s.list[0] in s.deadline
      && (Minus(tick, ticks[s.list[0]]) < HALF <==> s.deadline[s.list[0]] <= s.now)
  {
    BottomRow(rows, s.list, height);
    if s.list != [] {
      assert s.list[0] in s.list;
      DueInWindow(s.now, s.deadline[s.list[0]]);
    }
  }

  lemma BottomIsList(rows: seq<seq<Id>>, tick: u32, ticks: map<Id, u32>, height: Heights, s: Flat, x: Ptr)
    requires Good(rows, tick, ticks, height, s, x)
    ensures |rows| > 0 && rows[|rows| - 1] == s.list && InvBut(s, x) && tick == s.now % WORD
  {
    BottomRow(rows, s.list, height);
  }

  // One row of the search: from behind the node cur, which is not later, to the first
  // node that is.
  method SearchRow(row: seq<Id>, from: nat, ticks: map<Id, u32>, x: u32, ghost deadline: Ticks, ghost d: nat,
      ghost now: nat)
    returns (i: nat)
    requires from <= |row| && SortedBy(row, deadline) && x == d % WORD && now <= d <= now + LONGEST
    requires forall t :: t in row ==>
               t in ticks && t in deadline && ticks[t] == deadline[t] % WORD && now <= deadline[t] <= now + LONGEST
    requires from > 0 ==> row[from - 1] in deadline && deadline[row[from - 1]] <= d
    ensures i == Point(row, deadline, d)
  {
    i := from;
    forall k | 0 <= k < from ensures row[k] in deadline && deadline[row[k]] <= d {
      assert row[k] in row;
    }
    while i < |row|
      invariant from <= i <= |row|
      invariant forall k :: 0 <= k < i ==> row[k] in deadline && deadline[row[k]] <= d
    {
      assert row[i] in row;
      LaterInWindow(now, deadline[row[i]], d);
      var diff := Minus(ticks[row[i]], x);
      if diff != 0 && diff < HALF { break; }
      i := i + 1;
    }
    PointIs(row, deadline, d, i);
  }

  datatype Outcome = Ok | Error

  class TimerSystem {
    const levels: nat            // RT_TIMER_SKIP_LIST_LEVEL
    const base: nat              // RT_TIMER_SKIP_LIST_MASK + 1, the mask being 1 or 3
    var tick: u32                // rt_tick
    var rows: seq<seq<Id>>       // rt_timer_list, the row of all timers last
    var ticks: map<Id, u32>      // timeout_tick
    var init: Ticks              // init_tick
    var active: set<Id>          // RT_TIMER_FLAG_ACTIVATED
    var periodic: set<Id>        // RT_TIMER_FLAG_PERIODIC
    var randomNr: u32
    ghost var now: nat
    ghost var deadline: Ticks
    ghost var height: Heights
    ghost var log: seq<Shot>

    ghost function Abs(): Flat
      reads this
    {
      Flat(now, if |rows| > 0 then rows[|rows| - 1] else [], deadline, init, active, periodic, log)
    }

    // x is the timer whose function is running, if one is.
    ghost predicate Running(x: Ptr)
      reads this
    {
      |rows| == levels && Good(rows, tick, ticks, height, Abs(), x) && (base == 2 || base == 4)
    }

    ghost predicate Valid()
      reads this
    {
      Running(Null)
    }

    constructor (levels: nat, base: nat, init: Ticks, periodic: set<Id>)
      requires levels > 0 && (base == 2 || base == 4) && TimesShort(init)
      ensures Valid() && NothingDue(Abs()) && (Positive(init) ==> Settled(Abs()))
      ensures Abs() == Flat(0, [], map[], init, {}, periodic, [])
    {
      this.levels, this.base := levels, base;
      tick, rows, ticks, this.init, active, this.periodic, randomNr :=
        0, seq(levels, i => []), map[], init, {}, periodic, 0;
      now, deadline, height, log := 0, map[], map[], [];
    }

    // The nested search loops of rt_timer_start.
    method Search(x: u32, ghost d: nat, ghost s: Flat) returns (heads: seq<nat>)
      requires RowsMatch(rows, s.list, height) && TicksMatch(tick, ticks, s)
      requires SortedBy(s.list, s.deadline) && NoRepeats(s.list) && InWindow(s.list, s.deadline, s.now)
      requires x == d % WORD && s.now <= d <= s.now + LONGEST
      ensures |heads| == |rows| && TimerHeads(rows, heads, s.deadline, d)
    {
      hide Row, SortedBy, NoRepeats, RowsMatch, Point;
      heads := [];
      var cur := Null;
      while |heads| < |rows|
        invariant |heads| <= |rows| && TimerHeads(rows, heads, s.deadline, d)
        invariant cur.At? ==>
                    |heads| > 0 && cur.addr in rows[|heads| - 1] && cur.addr in s.deadline && s.deadline[cur.addr] <= d
      {
        var l := |heads|;
        RowsNest(rows, s, height, l);
        if l > 0 { RowsNest(rows, s, height, l - 1); }
        var from := if cur == Null then 0 else IndexOf(rows[l], cur.addr) + 1;
        var i := SearchRow(rows[l], from, ticks, x, s.deadline, d, s.now);
        PointBefore(rows[l], s.deadline, d);
        cur := if i == 0 then Null else At(rows[l][i - 1]);
        heads := heads + [i];
      }
    }

    // The insertion in the rows the counter selects, from the bottom up.
    method Promote(t: Id, heads: seq<nat>) returns (ghost g: nat)
      requires |heads| == |rows| > 0 && forall l :: 0 <= l < |rows| ==> heads[l] <= |rows[l]|
      requires base == 2 || base == 4
      modifies this`rows, this`randomNr
      ensures 1 <= g <= |rows| && rows == InsertedRows(old(rows), heads, t, g)
    {
      hide Inserted, InsertedRows;
      OneRowInserted(rows, heads, t);
      randomNr := (randomNr + 1) % WORD;
      var tst: nat := randomNr;
      var n := |rows|;
      rows := rows[n - 1 := Inserted(rows[n - 1], heads[n - 1], t)];
      g := 1;
      var level := 2;
      while level <= n
        invariant level == g + 1 && g <= n == |rows| && rows == InsertedRows(old(rows), heads, t, g)
      {
        if tst % base != 0 { break; }
        OneMoreInserted(old(rows), heads, t, g);
        rows := rows[n - level := Inserted(rows[n - level], heads[n - level], t)];
        g := g + 1;
        tst := tst / base;
        level := level + 1;
      }
    }

    // rt_timer_start
    method Start(t: Id, ghost x: Ptr) returns (r: Outcome)
      requires Running(x) && t in init
      modifies this
      ensures Running(x) && Abs() == Started(old(Abs()), t)
      ensures r == Ok <==> t !in old(active)
      // the due tick is counted from now, with wrap; nothing else about any timer changes
      ensures r == Ok ==> ticks == old(ticks)[t := (tick + init[t]) % 0x1_0000_0000] && active == old(active) + {t}
      ensures r == Error ==> ticks == old(ticks) && active == old(active) && rows == old(rows)
      ensures tick == old(tick) && init == old(init) && periodic == old(periodic) && log == old(log)
    {
      hide Good, RowsMatch, TicksMatch, InvBut, TimerHeads, Point, SortedBy, NoRepeats, Inserted;
      if t in active { return Error; }
      ghost var s := Abs();
      StartParts(rows, tick, ticks, height, s, x, t);
      var heads := Search((tick + init[t]) % WORD, now + init[t], s);
      LinkIn(t, heads, x);
      r := Ok;
    }

    // The end of rt_timer_start, when the places are found.
    method LinkIn(t: Id, heads: seq<nat>, ghost x: Ptr)
      requires Running(x) && t in init && t !in active
      requires |heads| == |rows| && TimerHeads(rows, heads, deadline, now + init[t])
      modifies this
      ensures Running(x) && Abs() == Started(old(Abs()), t)
      ensures ticks == old(ticks)[t := (tick + init[t]) % WORD] && active == old(active) + {t}
      ensures tick == old(tick) && init == old(init) && periodic == old(periodic) && log == old(log)
    {
      hide Good, TimerHeads, Point, Inserted, InsertedRows, Started;
      ghost var s := Abs();
      ghost var d := now + init[t];
      BottomIsList(rows, tick, ticks, height, s, x);
      HeadsFit(rows, heads, deadline, d);
      StartTick(rows, tick, ticks, height, s, x, t);
      var due: u32 := (tick + init[t]) % WORD;
      ghost var rows0 := rows;
      ghost var g := Promote(t, heads);
      StartGood(rows0, tick, ticks, height, s, x, t, due, heads, g);
      BottomIsList(rows, tick, ticks[t := due], height[t := g], Started(s, t), x);
      StartedParts(s, t);
      Mark(t, due, d, g);
    }

    // The deadline and the flag of a timer that was started.
    method Mark(t: Id, due: u32, ghost d: nat, ghost g: nat)
      modifies this`ticks, this`active, this`deadline, this`height
      ensures ticks == old(ticks)[t := due] && active == old(active) + {t}
      ensures deadline == old(deadline)[t := d] && height == old(height)[t := g]
    {
      ticks := ticks[t := due];
      active := active + {t};
      deadline, height := deadline[t := d], height[t := g];
    }

    // _rt_timer_remove
    method Remove(t: Id)
      modifies this`rows
      ensures rows == RemovedRows(old(rows), t)
    {
      var l := 0;
      while l < |rows|
        invariant l <= |rows| == |old(rows)|
        invariant forall k :: 0 <= k < l ==> rows[k] == Without(old(rows)[k], t)
        invariant forall k :: l <= k < |rows| ==> rows[k] == old(rows)[k]
      {
        rows := rows[l := Without(rows[l], t)];
        l := l + 1;
      }
      assert rows == RemovedRows(old(rows), t);
    }

    // rt_timer_stop
    method Stop(t: Id, ghost x: Ptr) returns (r: Outcome)
      requires Running(x)
      modifies this
      ensures Running(x) && Abs() == TimerList.Stopped(old(Abs()), t)
      ensures r == Ok <==> t in old(active)
      // off every row and inactive; its flags and times, and all other timers, stay
      ensures active == old(active) - {t}
      ensures |rows| == old(|rows|) && forall l :: 0 <= l < |rows| ==> t !in rows[l]
      ensures forall l, u :: 0 <= l < |rows| && u != t ==> (u in rows[l] <==> u in old(rows)[l])
      ensures tick == old(tick) && ticks == old(ticks) && init == old(init) && periodic == old(periodic)
      ensures log == old(log)
    {
      hide Good, Without, RemovedRows;
      ghost var s := Abs();
      RowsWithout(rows, tick, ticks, height, s, x, t);
      if t !in active {
        InactiveOffList(rows, tick, ticks, height, s, x, t);
        return Error;
      }
      BottomIsList(rows, tick, ticks, height, s, x);
      StopGood(rows, tick, ticks, height, s, x, t);
      Remove(t);
      BottomIsList(rows, tick, ticks, height, TimerList.Stopped(s, t), x);
      active := active - {t};
      r := Ok;
    }

    // rt_timer_control with RT_TIMER_CTRL_SET_TIME, which takes any time.
    method SetTime(t: Id, n: u32, ghost x: Ptr)
      requires Running(x)
      modifies this`init
      ensures Abs() == old(Abs()).(init := old(init)[t := n]) && init == old(init)[t := n]
      ensures n <= LONGEST ==> Running(x)
    {
      hide Good;
      if n <= LONGEST { SetTimeGood(rows, tick, ticks, height, Abs(), x, t, n); }
      init := init[t := n];
    }

    // rt_timer_control with RT_TIMER_CTRL_SET_ONESHOT or RT_TIMER_CTRL_SET_PERIODIC
    method SetPeriodic(t: Id, on: bool, ghost x: Ptr)
      requires Running(x)
      modifies this`periodic
      ensures Running(x) && Abs() == Acted(old(Abs()), TimerList.SetPeriodic(t, on))
      ensures (t in periodic <==> on) && forall u :: u != t ==> (u in periodic <==> u in old(periodic))
    {
      periodic := if on then periodic + {t} else periodic - {t};
    }

    // A timeout function: what it does to the timers.
    method Call(actions: seq<Action>, ghost x: Ptr)
      requires Running(x) && ScriptAllowed(actions)
      modifies this
      ensures Running(x) && Abs() == Script(old(Abs()), actions)
      decreases |actions|
    {
      hide Running, ScriptAllowed;
      if actions == [] { return; }
      RestAllowed(actions);
      match actions[0] {
        case Start(t) =>
          if t in init { var r := Start(t, x); }
        case Stop(t) =>
          var r := Stop(t, x);
        case SetTime(t, n) =>
          SetTime(t, n, x);
        case SetPeriodic(t, on) =>
          SetPeriodic(t, on, x);
      }
      Call(actions[1..], x);
    }

    // One turn of the loop of rt_timer_check.
    method Fire(calls: Callbacks)
      requires Valid() && Allowed(calls) && HeadDue(Abs())
      modifies this
      ensures Valid() && Abs() == Fired(old(Abs()), calls)
    {
      hide Good, Script, RemovedRows, Inserted, Point, Rearmed, Allowed, OwnAfter, ScriptAllowed;
      ghost var s := Abs();
      BottomIsList(rows, tick, ticks, height, s, Null);
      var t := rows[|rows| - 1][0];
      CallAllowed(calls, t);
      AfterCall(s, calls);
      PopGood(rows, tick, ticks, height, s);
      Remove(t);
      BottomIsList(rows, tick, ticks, height, Popped(s), At(t));
      log := log + [Shot(t, now)];
      Call(if t in calls then calls[t] else [], At(t));
      Rearm(t);
    }

    // The end of a turn: a periodic timer that is still active is started again, any other
    // is marked stopped.
    method Rearm(t: Id)
      requires Running(At(t)) && t !in Abs().list
      modifies this
      ensures Valid() && Abs() == Rearmed(old(Abs()), t)
    {
      hide Good, Started;
      ghost var s := Abs();
      DisarmGood(rows, tick, ticks, height, s, t);
      if t in periodic && t in active {
        active := active - {t};
        ActiveKnown(s, rows, tick, ticks, height, t);
        var r := Start(t, Null);
      } else {
        active := active - {t};
      }
    }

    // rt_timer_check
    method Check(calls: Callbacks)
      requires Valid() && Allowed(calls) && Inv(Abs())
      modifies this
      ensures Valid() && Abs() == Checked(old(Abs()), calls)
    {
      hide Good, Fired, InvBut, Positive;
      HeadGood(rows, tick, ticks, height, Abs());
      while rows[|rows| - 1] != []
        invariant Valid() && |rows| > 0 && Inv(Abs()) && Checked(Abs(), calls) == Checked(old(Abs()), calls)
        decreases DueIn(Abs())
      {
        HeadGood(rows, tick, ticks, height, Abs());
        var t := rows[|rows| - 1][0];
        if Minus(tick, ticks[t]) >= HALF { break; }
        FiredKeeps(Abs(), calls);
        Fire(calls);
      }
      HeadGood(rows, tick, ticks, height, Abs());
    }

    // rt_tick_increase, the part that concerns timers.
    method TickIncrease(calls: Callbacks)
      requires Valid() && Allowed(calls) && Settled(Abs())
      modifies this
      ensures Valid() && Abs() == Ticked(old(Abs()), calls) && Settled(Abs())
      ensures tick == (old(tick) + 1) % 0x1_0000_0000 && now == old(now) + 1
    {
      hide Good, Checked, InvBut, Positive, NothingDue;
      ghost var s := Abs();
      AdvanceGood(rows, tick, ticks, height, s);
      AdvanceKeeps(s);
      CheckedKeeps(s.(now := s.now + 1), calls);
      tick := (tick + 1) % WORD;
      now := now + 1;
      Check(calls);
      BottomIsList(rows, tick, ticks, height, Abs(), Null);
      TickIs(old(rows), old(tick), old(ticks), old(height), s, 1);
    }

    // One operation of a run: an action between the ticks, or a tick.
    method Perform(op: Op)
      requires Valid() && Settled(Abs()) && OpAllowed(op)
      modifies this
      ensures Valid() && Abs() == Done(old(Abs()), op) && Settled(Abs())
    {
      hide Good, InvBut, NothingDue, Acted, Ticked, Positive;
      ghost var s := Abs();
      DoneKeeps(s, op);
      match op
      case Do(a) =>
        OneAction(s, a);
        Call([a], Null);
      case Tick(calls) =>
        TickIncrease(calls);
    }

    // Any run: the skip list on wrapping ticks does what the flat list does.
    method Run(ops: seq<Op>)
      requires Valid() && Settled(Abs()) && OpsAllowed(ops)
      modifies this
      ensures Valid() && Settled(Abs()) && Abs() == Exec(old(Abs()), ops)
      decreases |ops|
    {
      hide Valid, Settled, OpsAllowed, Done, OpAllowed;
      if ops != [] {
        OpsRest(ops);
        DoneKeeps(Abs(), ops[0]);
        Perform(ops[0]);
        Run(ops[1..]);
      }
    }

    // Exact firing on the counter itself. A timer is started, and a run ends with the tick
    // that completes its time: the counter then stands at start + init_tick mod 2^32, the
    // timer's function has been called once in that tick, and not before.
    method FirstCall(t: Id, ops: seq<Op>, calls: Callbacks) returns (r: Outcome)
      requires Valid() && Settled(Abs()) && t in init && t !in active
      requires OpsAllowed(ops) && OpsIgnore(ops, t) && Allowed(calls) && AllIgnore(calls, t)
      requires TickCount(ops) + 1 == init[t]
      modifies this
      ensures Valid() && Settled(Abs()) && r == Ok
      ensures tick == (old(tick) + old(init)[t]) % WORD
      ensures Settled(Started(old(Abs()), t)) && Settled(Exec(Started(old(Abs()), t), ops))
      ensures ShotsOf(Exec(Started(old(Abs()), t), ops).log, t) == ShotsOf(old(log), t)
      ensures Abs() == Ticked(Exec(Started(old(Abs()), t), ops), calls)
      ensures ShotsOf(log, t) == ShotsOf(old(log), t) + [now]
    {
      hide Good, Settled, OpsAllowed, OpsIgnore, ShotsOf, Ticked, Exec, Started, Stands, Allowed, AllIgnore, FiresNow;
      ghost var s := Abs();
      StartStands(s, t);
      TickIs(rows, tick, ticks, height, s, init[t]);
      r := Start(t, Null);
      ghost var s1 := Abs();
      RunExact(s1, ops, t, s.now + s.init[t], s.init[t], t in s.periodic, ShotsOf(s.log, t));
      ExecKeeps(s1, ops);
      Run(ops);
      ghost var s2 := Abs();
      StandsAt(s2, t, s.now + s.init[t], s.init[t], t in s.periodic, ShotsOf(s.log, t));
      TickedFires(s2, calls, t);
      TickIncrease(calls);
      TickIs(rows, tick, ticks, height, Abs(), 0);
    }

    // A timer is stopped, and a run that does not mention it follows: it is not called.
    method Quiet(t: Id, ops: seq<Op>)
      requires Valid() && Settled(Abs()) && OpsAllowed(ops) && OpsIgnore(ops, t)
      modifies this
      ensures Valid() && Settled(Abs()) && ShotsOf(log, t) == ShotsOf(old(log), t)
      ensures now == old(now) + TickCount(ops)
    {
      hide Good, Settled, OpsAllowed, OpsIgnore, ShotsOf, Exec;
      ghost var s := Abs();
      StoppedSettled(s, t);
      StoppedNeverFires(s, t, ops);
      var r := Stop(t, Null);
      ExecKeeps(Abs(), ops);
      Run(ops);
    }

    // A timer is stopped and started again, and a run that does not mention it follows:
    // it is called at every period from then on, or once if it is not periodic.
    method Restart(t: Id, ops: seq<Op>)
      requires Valid() && Settled(Abs()) && t in init && OpsAllowed(ops) && OpsIgnore(ops, t)
      modifies this
      ensures Valid() && Settled(Abs()) && old(init)[t] > 0 && now == old(now) + TickCount(ops)
      ensures ShotsOf(log, t) ==
        ShotsOf(old(log), t) + Expected(old(now) + old(init)[t], old(init)[t], t in old(periodic), now)
    {
      hide Good, Settled, OpsAllowed, OpsIgnore, ShotsOf, Exec, Expected, Started;
      ghost var s := Abs();
      StoppedSettled(s, t);
      RestartedFires(s, t, ops);
      StartStands(TimerList.Stopped(s, t), t);
      var r := Stop(t, Null);
      r := Start(t, Null);
      ExecKeeps(Abs(), ops);
      Run(ops);
    }
  }

  lemma OneAction(s: Flat, a: Action)
    requires ActionAllowed(a)
    ensures ScriptAllowed([a]) && Script(s, [a]) == Acted(s, a)
  {
    hide Acted;
    assert [a][1..] == [];
  }

  lemma TickIs(rows: seq<seq<Id>>, tick: u32, ticks: map<Id, u32>, height: Heights, s: Flat, n: nat)
    requires Good(rows, tick, ticks, height, s, Null)
    ensures tick == s.now % WORD && (tick + n) % WORD == (s.now + n) % WORD
  {
    hide RowsMatch, InvBut;
    TickLater(tick, s.now, n);
  }

  lemma StandsAt(s: Flat, t: Id, d: nat, p: nat, periodic: bool, shots: seq<nat>)
    requires Stands(s, t, d, p, periodic, shots)
    ensures t in s.list && t in s.deadline && s.deadline[t] == d && ShotsOf(s.log, t) == shots
  {
  }

  lemma TickedFires(s: Flat, calls: Callbacks, t: Id)
    requires Settled(s) && Allowed(calls) && AllIgnore(calls, t)
    requires t in s.list && t in s.deadline && s.deadline[t] == s.now + 1
    ensures ShotsOf(Ticked(s, calls).log, t) == ShotsOf(s.log, t) + [s.now + 1]
    ensures Ticked(s, calls).now == s.now + 1
  {
    hide Checked, InvBut, NothingDue, ShotsOf, Allowed, AllIgnore, Positive;
    AdvanceKeeps(s);
    CheckedKeeps(s.(now := s.now + 1), calls);
    CheckedFires(s.(now := s.now + 1), calls, t);
  }

  lemma PointBefore(row: seq<Id>, deadline: Ticks, d: nat)
    requires SortedBy(row, deadline) && forall t :: t in row ==> t in deadline
    ensures var i := Point(row, deadline, d); i > 0 ==> row[i - 1] in deadline && deadline[row[i - 1]] <= d
  {
    PointSplits(row, deadline, d);
  }

  lemma StartedParts(s: Flat, t: Id)
    requires t !in s.active && t in s.init
    ensures Started(s, t) == s.(list := Started(s, t).list, deadline := s.deadline[t := s.now + s.init[t]],
                                active := s.active + {t})
  {
    hide Point, Inserted;
  }

  lemma StartTick(rows: seq<seq<Id>>, tick: u32, ticks: map<Id, u32>, height: Heights, s: Flat, x: Ptr, t: Id)
    requires Good(rows, tick, ticks, height, s, x) && t in s.init
    ensures s.init[t] <= LONGEST && (tick + s.init[t]) % WORD == (s.now + s.init[t]) % WORD
  {
    hide RowsMatch, SortedBy, NoRepeats, InWindow, FlagsMatch;
    TickLater(tick, s.now, s.init[t]);
  }

  lemma StartParts(rows: seq<seq<Id>>, tick: u32, ticks: map<Id, u32>, height: Heights, s: Flat, x: Ptr, t: Id)
    requires Good(rows, tick, ticks, height, s, x) && t in s.init
    ensures RowsMatch(rows, s.list, height) && TicksMatch(tick, ticks, s) && InWindow(s.list, s.deadline, s.now)
    ensures SortedBy(s.list, s.deadline) && NoRepeats(s.list)
    ensures s.init[t] <= LONGEST && (tick + s.init[t]) % WORD == (s.now + s.init[t]) % WORD
  {
    hide RowsMatch, SortedBy, NoRepeats, InWindow, FlagsMatch;
    StartTick(rows, tick, ticks, height, s, x, t);
  }

  lemma ActiveKnown(s: Flat, rows: seq<seq<Id>>, tick: u32, ticks: map<Id, u32>, height: Heights, t: Id)
    requires Good(rows, tick, ticks, height, s, At(t)) && t in s.active
    ensures t in s.init
  {
  }
}
