// The ready lists, one per priority, the two-level bitmap that says which of them are not
// empty, and the operations that move threads between ready and suspended.
module Scheduler {
  import opened Words
  import opened BitScan
  import opened Lists
  import opened WaitQueue

  const LEVELS: nat := 256       // RT_THREAD_PRIORITY_MAX

  datatype Stat = Init | Ready | Suspended | Closed

  datatype Thread = Thread(
    stat: Stat,
    initPriority: nat,
    priority: nat,               // current_priority
    number: nat,                 // priority >> 3
    numberMask: bv32,
    highMask: bv8,
    initTick: u32,
    remainingTick: u32)

  type Threads = map<Tid, Thread>

  // ---- the index ----

  // A table bit is set exactly for a list that is not empty, a group bit exactly for a
  // table byte that is not zero.
  ghost predicate Indexed(ready: seq<seq<Tid>>, table: seq<bv8>, group: bv32) {
    && |ready| == LEVELS && |table| == 32
    && (forall p :: 0 <= p < LEVELS ==> (TableBit(table, p) <==> ready[p] != []))
    && (forall n :: 0 <= n < 32 ==> (Set32(group, n) <==> table[n] != 0))
  }

  predicate TableBit(table: seq<bv8>, p: nat)
    requires |table| == 32 && p < LEVELS
  {
    Set8(table[p / 8], p % 8)
  }

  lemma BitsOfTable(table: seq<bv8>, n: nat, b: bv8, p: nat)
    requires |table| == 32 && n < 32 && p < LEVELS
    ensures TableBit(table[n := b], p) <==> if p / 8 == n then Set8(b, p % 8) else TableBit(table, p)
  {
  }

  lemma InsertIndexed(ready: seq<seq<Tid>>, table: seq<bv8>, group: bv32, p: nat, l: seq<Tid>)
    requires Indexed(ready, table, group) && p < LEVELS && l != []
    ensures Indexed(ready[p := l], table[p / 8 := With8(table[p / 8], Mask8(p % 8))], With32(group, Mask32(p / 8)))
  {
    hide Set8, Set32, Mask8, Mask32, With8, With32, TableBit;
    var n := p / 8;
    var b := With8(table[n], Mask8(p % 8));
    var table', group' := table[n := b], With32(group, Mask32(n));
    forall q | 0 <= q < LEVELS ensures TableBit(table', q) <==> ready[p := l][q] != [] {
      BitsOfTable(table, n, b, q);
      BitOf(table, q);
      Update8(table[n], p % 8, q % 8);
    }
    forall m | 0 <= m < 32 ensures Set32(group', m) <==> table'[m] != 0 {
      Update32(group, n, m);
      Update8(table[n], p % 8, p % 8);
      Empty8(b);
    }
  }

  lemma BitOf(table: seq<bv8>, p: nat)
    requires |table| == 32 && p < LEVELS
    ensures TableBit(table, p) <==> Set8(table[p / 8], p % 8)
  {
  }

  lemma RemoveIndexed(ready: seq<seq<Tid>>, table: seq<bv8>, group: bv32, p: nat)
    requires Indexed(ready, table, group) && p < LEVELS
    ensures var b := Without8(table[p / 8], Mask8(p % 8));
      Indexed(ready[p := []], table[p / 8 := b], if b == 0 then Without32(group, Mask32(p / 8)) else group)
  {
    hide Set8, Set32, Mask8, Mask32, Without8, Without32, TableBit;
    var n := p / 8;
    var b := Without8(table[n], Mask8(p % 8));
    var table' := table[n := b];
    var group' := if b == 0 then Without32(group, Mask32(n)) else group;
    forall q | 0 <= q < LEVELS ensures TableBit(table', q) <==> ready[p := []][q] != [] {
      BitsOfTable(table, n, b, q);
      BitOf(table, q);
      Update8(table[n], p % 8, q % 8);
    }
    forall m | 0 <= m < 32 ensures Set32(group', m) <==> table'[m] != 0 {
      Update32(group, n, m);
      if b != 0 { StillSet(table[n], p % 8); }
    }
  }

  // What rt_schedule_remove_thread leaves of the index for a thread on no list.
  function MasksCleared(ready: seq<seq<Tid>>, table: seq<bv8>, group: bv32, th: Thread): (seq<bv8>, bv32)
    requires |table| == 32 && th.number < 32 && th.priority < |ready|
  {
    if ready[th.priority] != [] then (table, group)
    else
      var b := Without8(table[th.number], th.highMask);
      (table[th.number := b], if b == 0 then Without32(group, th.numberMask) else group)
  }

  // The masks of the thread clear no bit that is set, or are not looked at.
  predicate MasksSpare(ready: seq<seq<Tid>>, table: seq<bv8>, group: bv32, th: Thread) {
    && |table| == 32 && th.number < 32 && th.priority < |ready|
    && (ready[th.priority] == [] ==>
          && Misses8(table[th.number], th.highMask)
          && (table[th.number] == 0 ==> Misses32(group, th.numberMask)))
  }

  predicate Misses8(w: bv8, m: bv8) { w & m == 0 }

  predicate Misses32(w: bv32, m: bv32) { w & m == 0 }

  lemma ClearsNothing8(w: bv8, m: bv8)
    ensures Without8(w, m) == w <==> Misses8(w, m)
  {
  }

  lemma ClearsNothing32(w: bv32, m: bv32)
    ensures Without32(w, m) == w <==> Misses32(w, m)
  {
  }

  // Removing a thread whose masks were never set keeps the index exactly when they clear
  // no bit that is set.
  lemma SpareIndexed(ready: seq<seq<Tid>>, table: seq<bv8>, group: bv32, th: Thread)
    requires Indexed(ready, table, group) && th.number < 32 && th.priority < LEVELS
    ensures |table| == 32 && |ready| == LEVELS
    ensures var c := MasksCleared(ready, table, group, th);
      Indexed(ready, c.0, c.1) <==> MasksSpare(ready, table, group, th)
  {
    hide Without8, Without32, Misses8, Misses32, Indexed;
    Sizes(ready, table, group);
    var c := MasksCleared(ready, table, group, th);
    ClearsNothing8(table[th.number], th.highMask);
    ClearsNothing32(group, th.numberMask);
    assert table[th.number := table[th.number]] == table;
    if Indexed(ready, c.0, c.1) { IndexUnique(ready, table, group, c.0, c.1); }
  }

  // A case in point: thread 7 is ready at priority 0. Deleting an unstarted thread of
  // priority 1 whose masks happen to be those of priority 0 hides thread 7.
  lemma UnstartedDeletionHides()
    ensures exists ready: seq<seq<Tid>>, table, group, th: Thread ::
      && Indexed(ready, table, group) && ready[0] == [7]
      && th.stat == Init && th.number < 32 && th.priority < |ready| && |table| == 32
      && var c := MasksCleared(ready, table, group, th); !Indexed(ready, c.0, c.1)
  {
    var none, zero := seq(LEVELS, i => []), seq(32, i => 0);
    EmptyIndexed(none, zero);
    InsertIndexed(none, zero, 0, 0, [7]);
    var ready, table, group := none[0 := [7]], zero[0 := With8(zero[0], Mask8(0))], With32(0, Mask32(0));
    var th := Thread(Init, 1, 1, 0, 1, 1, 0, 0);
    SpareIndexed(ready, table, group, th);
    assert table[0] == 1;
  }

  lemma EmptyIndexed(ready: seq<seq<Tid>>, table: seq<bv8>)
    requires ready == seq(LEVELS, i => []) && table == seq(32, i => 0)
    ensures Indexed(ready, table, 0)
  {
    hide Set8, Set32;
    Empty8(0);
    Empty32(0);
  }

  lemma StillSet(w: bv8, k: nat)
    requires k < 8 && Without8(w, Mask8(k)) != 0
    ensures w != 0
  {
    hide Mask8;
  }

  lemma SameIndexed(ready: seq<seq<Tid>>, table: seq<bv8>, group: bv32, p: nat, l: seq<Tid>)
    requires Indexed(ready, table, group) && p < LEVELS && (ready[p] == [] <==> l == [])
    ensures Indexed(ready[p := l], table, group)
  {
    hide TableBit, Set32;
  }

  // The lists alone determine the index.
  lemma IndexUnique(ready: seq<seq<Tid>>, table: seq<bv8>, group: bv32, table': seq<bv8>, group': bv32)
    requires Indexed(ready, table, group) && Indexed(ready, table', group')
    ensures table == table' && group == group'
  {
    hide Set8, Set32, TableBit;
    forall n | 0 <= n < 32 ensures table[n] == table'[n] {
      forall k | 0 <= k < 8 ensures Set8(table[n], k) <==> Set8(table'[n], k) {
        BitOf(table, 8 * n + k);
        BitOf(table', 8 * n + k);
      }
      SameBits8(table[n], table'[n]);
    }
    SameBits32(group, group');
  }

  // ---- the most urgent list ----

  ghost predicate MostUrgent(ready: seq<seq<Tid>>, p: nat) {
    p < |ready| && ready[p] != [] && forall q :: 0 <= q < p ==> ready[q] == []
  }

  lemma WideByte(b: bv8, k: nat)
    requires b != 0 && IsLowest32(b as bv32, k)
    ensures k < 8 && IsLowest8(b, k)
  {
    hide Set8, Set32;
    Widened(b);
    hide Byte;
    BitOfByte(b as bv32, k / 8, k % 8);
    if k >= 8 { Empty8(0); }
    forall j | 0 <= j < k ensures k < 8 ==> !Set8(b, j) { if k < 8 { BitOfByte(b as bv32, 0, j); } }
  }

  lemma Widened(b: bv8)
    ensures Byte(b as bv32, 0) == b && Byte(b as bv32, 1) == 0 && Byte(b as bv32, 2) == 0 && Byte(b as bv32, 3) == 0
    ensures b != 0 ==> b as bv32 != 0
  {
  }

  // The two scans lead to the most urgent list that is not empty.
  lemma ScanIsMostUrgent(ready: seq<seq<Tid>>, table: seq<bv8>, group: bv32)
    requires Indexed(ready, table, group) && exists p :: 0 <= p < LEVELS && ready[p] != []
    ensures 0 < Ffs(group) <= 32 && Ffs(table[Ffs(group) - 1] as bv32) > 0
    ensures MostUrgent(ready, 8 * (Ffs(group) - 1) + Ffs(table[Ffs(group) - 1] as bv32) - 1)
  {
    hide Set8, Set32, Ffs, TableBit;
    var p :| 0 <= p < LEVELS && ready[p] != [];
    BitOf(table, p);
    Empty8(table[p / 8]);
    assert Set32(group, p / 8);
    Empty32(group);
    FfsIsLowest(group);
    var n := Ffs(group) - 1;
    var b := table[n];
    assert Set32(group, n);
    Widened(b);
    FfsIsLowest(b as bv32);
    var k := Ffs(b as bv32) - 1;
    WideByte(b, k);
    var h := 8 * n + k;
    BitOf(table, h);
    forall q | 0 <= q < h ensures ready[q] == [] {
      BitOf(table, q);
      if q / 8 < n { assert !Set32(group, q / 8); Empty8(table[q / 8]); }
    }
  }

  // ---- where the threads are ----

  ghost predicate MaskRight(th: Thread) {
    && th.priority < LEVELS && th.initPriority < LEVELS
    && (th.stat == Ready || th.stat == Suspended ==>
          && th.number == th.priority / 8
          && th.numberMask == Mask32(th.number) && th.highMask == Mask8(th.priority % 8))
  }

  ghost predicate MasksRight(threads: Threads) {
    forall t :: t in threads ==> MaskRight(threads[t])
  }

  // A thread other than x is on the list of its priority if it is ready, and on no list
  // otherwise; x is on none.
  ghost predicate PlacedBut(threads: Threads, ready: seq<seq<Tid>>, x: Tid) {
    && (forall p :: 0 <= p < |ready| ==> NoRepeats(ready[p]) && x !in ready[p])
    && (forall p, t :: 0 <= p < |ready| && t in ready[p] ==>
            t in threads && threads[t].stat == Ready && threads[t].priority == p)
    && (forall t :: t in threads && t != x && threads[t].stat == Ready ==>
            threads[t].priority < |ready| && t in ready[threads[t].priority])
  }

  ghost predicate Placed(threads: Threads, ready: seq<seq<Tid>>) {
    && (forall p :: 0 <= p < |ready| ==> NoRepeats(ready[p]))
    && (forall p, t :: 0 <= p < |ready| && t in ready[p] ==>
            t in threads && threads[t].stat == Ready && threads[t].priority == p)
    && (forall t :: t in threads && threads[t].stat == Ready ==>
            threads[t].priority < |ready| && t in ready[threads[t].priority])
  }

  lemma NotReady(threads: Threads, ready: seq<seq<Tid>>, x: Tid)
    requires Placed(threads, ready) && (x !in threads || threads[x].stat != Ready)
    ensures PlacedBut(threads, ready, x)
  {
  }

  lemma StillOff(threads: Threads, ready: seq<seq<Tid>>, x: Tid, th: Thread)
    requires PlacedBut(threads, ready, x)
    ensures PlacedBut(threads[x := th], ready, x)
    ensures th.stat != Ready ==> Placed(threads[x := th], ready)
  {
  }

  lemma TakenOff(threads: Threads, ready: seq<seq<Tid>>, x: Tid)
    requires Placed(threads, ready) && x in threads && threads[x].priority < |ready|
    ensures var p := threads[x].priority;
      PlacedBut(threads, ready[p := Without(ready[p], x)], x)
  {
    WithoutMembers(ready[threads[x].priority], x);
  }

  lemma PutOn(threads: Threads, ready: seq<seq<Tid>>, x: Tid, th: Thread)
    requires PlacedBut(threads, ready, x) && th.stat == Ready && th.priority < |ready|
    ensures Placed(threads[x := th], ready[th.priority := ready[th.priority] + [x]])
  {
    var l := ready[th.priority];
    assert forall u :: u in l + [x] <==> u in l || u == x;
  }

  lemma WithoutNothing(threads: Threads, ready: seq<seq<Tid>>, x: Tid)
    requires Placed(threads, ready) && x in threads && threads[x].stat != Ready && threads[x].priority < |ready|
    ensures Without(ready[threads[x].priority], x) == ready[threads[x].priority]
  {
    WithoutMembers(ready[threads[x].priority], x);
  }

  // ---- the scheduler ----

  datatype Outcome = Ok | Error

  class SchedulerObject {
    var threads: Threads
    var ready: seq<seq<Tid>>     // rt_thread_priority_table
    var table: seq<bv8>          // rt_thread_ready_table
    var group: bv32              // rt_thread_ready_priority_group
    var current: Ptr             // rt_current_thread
    var currentPriority: nat
    var lockNest: nat            // rt_scheduler_lock_nest

    ghost predicate Valid()
      reads this
    {
      && Indexed(ready, table, group) && Placed(threads, ready) && MasksRight(threads)
      && (current.At? ==> current.addr in threads)
    }

    // Nothing that is ready is more urgent than the running thread, which is first among
    // its equals.
    ghost predicate Selected()
      reads this
    {
      exists p: nat :: MostUrgent(ready, p) && current == At(ready[p][0])
    }

    // rt_system_scheduler_init
    constructor (threads: Threads)
      requires forall t :: t in threads ==>
                 threads[t].stat == Init && threads[t].priority < LEVELS && threads[t].initPriority < LEVELS
      ensures Valid() && this.threads == threads && ready == seq(LEVELS, i => []) && current == Null && lockNest == 0
    {
      hide Set8, Set32;
      this.threads := threads;
      ready, table, group := seq(LEVELS, i => []), seq(32, i => 0), 0;
      current, currentPriority, lockNest := Null, LEVELS - 1, 0;
      new;
      Empty8(0);
      Empty32(0);
    }

    // rt_schedule_insert_thread
    method InsertThread(t: Tid)
      requires t in threads && (threads[t].stat == Ready || threads[t].stat == Suspended)
      requires Indexed(ready, table, group) && MasksRight(threads) && PlacedBut(threads, ready, t)
      modifies this`threads, this`ready, this`table, this`group
      ensures Indexed(ready, table, group) && MasksRight(threads) && Placed(threads, ready)
      ensures threads == old(threads)[t := old(threads)[t].(stat := Ready)]
      ensures var p := old(threads)[t].priority; p < |old(ready)| && ready == old(ready)[p := old(ready)[p] + [t]]
    {
      hide Placed, PlacedBut, Mask8, Mask32, Indexed;
      Sizes(ready, table, group);
      var th := threads[t].(stat := Ready);
      PutOn(threads, ready, t, th);
      InsertIndexed(ready, table, group, th.priority, ready[th.priority] + [t]);
      threads := threads[t := th];
      ready := ready[th.priority := ready[th.priority] + [t]];
      table := table[th.number := With8(table[th.number], th.highMask)];
      group := With32(group, th.numberMask);
    }

    // rt_schedule_remove_thread
    method RemoveThread(t: Tid)
      requires t in threads && threads[t].stat != Closed && threads[t].number < 32
      requires Valid()
      modifies this`ready, this`table, this`group
      ensures PlacedBut(threads, ready, t)
      ensures Indexed(ready, table, group) <==>
        (threads[t].stat == Init ==> MasksSpare(old(ready), old(table), old(group), threads[t]))
      ensures var p := threads[t].priority; p < |old(ready)| && ready == old(ready)[p := Without(old(ready)[p], t)]
    {
      hide Placed, PlacedBut, Mask8, Mask32, Indexed;
      Sizes(ready, table, group);
      var th := threads[t];
      TakenOff(threads, ready, t);
      ghost var l := Without(ready[th.priority], t);
      if th.stat == Init {
        WithoutNothing(threads, ready, t);
        SpareIndexed(ready, table, group, th);
        assert ready[th.priority := ready[th.priority]] == ready;
      } else {
        RemoveIndexed(ready, table, group, th.priority);
        if l != [] { SameIndexed(ready, table, group, th.priority, l); }
      }
      ready := ready[th.priority := Without(ready[th.priority], t)];
      if ready[th.priority] == [] {
        table := table[th.number := Without8(table[th.number], th.highMask)];
        if table[th.number] == 0 {
          group := Without32(group, th.numberMask);
        }
      }
    }

    // rt_schedule
    method Schedule()
      requires Indexed(ready, table, group) && Placed(threads, ready)
      requires exists p :: 0 <= p < LEVELS && ready[p] != []
      modifies this`current, this`currentPriority
      ensures lockNest == 0 ==>
                Selected() && current.At? && current.addr in threads && threads[current.addr].stat == Ready
      ensures lockNest == 0 && current != old(current) ==> currentPriority == threads[current.addr].priority
      ensures lockNest != 0 ==> current == old(current) && currentPriority == old(currentPriority)
    {
      hide Set8, Set32, Ffs, TableBit;
      if lockNest == 0 {
        ScanIsMostUrgent(ready, table, group);
        var number := Ffs(group) - 1;
        var highest := 8 * number + Ffs(table[number] as bv32) - 1;
        var to := ready[highest][0];
        assert to in ready[highest] && to in threads && threads[to].priority == highest && threads[to].stat == Ready;
        if At(to) != current {
          currentPriority := highest;
          current := At(to);
        }
        assert MostUrgent(ready, highest) && current == At(ready[highest][0]);
      }
    }

    // rt_thread_startup
    method Startup(t: Tid)
      requires Valid() && t in threads && threads[t].stat == Init
      modifies this
      ensures Valid() && lockNest == old(lockNest)
      ensures var p := old(threads)[t].initPriority; p < |old(ready)| && ready == old(ready)[p := old(ready)[p] + [t]]
      ensures t in threads && threads == old(threads)[t := threads[t]]
      ensures threads[t].stat == Ready && threads[t].priority == threads[t].initPriority == old(threads)[t].initPriority
      ensures threads[t].initTick == old(threads)[t].initTick
      ensures threads[t].remainingTick == old(threads)[t].remainingTick
      ensures old(current) == Null ==> current == Null
      ensures old(current).At? && lockNest == 0 ==> Selected()
      ensures lockNest != 0 ==> current == old(current)
    {
      hide Placed, PlacedBut, Mask8, Mask32, Indexed;
      Sizes(ready, table, group);
      NotReady(threads, ready, t);
      var p := threads[t].initPriority;
      var th := threads[t].(priority := p, number := p / 8, numberMask := Mask32(p / 8), highMask := Mask8(p % 8),
                            stat := Suspended);
      StillOff(threads, ready, t, th);
      threads := threads[t := th];
      var r := Resume(t);
      if current != Null {
        SomeReady(ready, p);
        Schedule();
      }
    }

    // rt_thread_suspend
    method Suspend(t: Tid) returns (r: Outcome)
      requires Valid() && t in threads
      modifies this`threads, this`ready, this`table, this`group
      ensures Valid()
      ensures r == Ok <==> old(threads)[t].stat == Ready
      ensures r == Ok ==>
        && threads == old(threads)[t := old(threads)[t].(stat := Suspended)]
        && var p := old(threads)[t].priority; p < |old(ready)| && ready == old(ready)[p := Without(old(ready)[p], t)]
      ensures r == Error ==> threads == old(threads) && ready == old(ready)
    {
      if threads[t].stat != Ready { return Error; }
      hide Placed, PlacedBut, Mask8, Mask32, Indexed;
      RemoveThread(t);
      var th := threads[t].(stat := Suspended);
      StillOff(threads, ready, t, th);
      threads := threads[t := th];
      r := Ok;
    }

    // rt_thread_resume
    method Resume(t: Tid) returns (r: Outcome)
      requires Valid() && t in threads
      modifies this`threads, this`ready, this`table, this`group
      ensures Valid()
      ensures r == Ok <==> old(threads)[t].stat == Suspended
      ensures r == Ok ==>
        && threads == old(threads)[t := old(threads)[t].(stat := Ready)]
        && var p := old(threads)[t].priority; p < |old(ready)| && ready == old(ready)[p := old(ready)[p] + [t]]
      ensures r == Error ==> threads == old(threads) && ready == old(ready)
    {
      if threads[t].stat != Suspended { return Error; }
      hide Placed, PlacedBut, Mask8, Mask32, Indexed;
      NotReady(threads, ready, t);
      InsertThread(t);
      r := Ok;
    }

    // rt_thread_timeout
    method Timeout(t: Tid)
      requires Valid() && t in threads && threads[t].stat == Suspended
      modifies this
      ensures Valid() && lockNest == old(lockNest)
      ensures threads == old(threads)[t := old(threads)[t].(stat := Ready)]
      ensures var p := old(threads)[t].priority; p < |old(ready)| && ready == old(ready)[p := old(ready)[p] + [t]]
      ensures lockNest == 0 ==> Selected()
      ensures lockNest != 0 ==> current == old(current)
    {
      hide Placed, PlacedBut, Mask8, Mask32, Indexed;
      Sizes(ready, table, group);
      NotReady(threads, ready, t);
      InsertThread(t);
      SomeReady(ready, threads[t].priority);
      Schedule();
    }

    // rt_thread_yield
    method Yield()
      requires Valid() && current.At? && exists p :: 0 <= p < LEVELS && ready[p] != []
      modifies this
      ensures Valid() && lockNest == old(lockNest) && threads == old(threads)
      ensures var t := old(current).addr; var p := threads[t].priority;
        if threads[t].stat == Ready && p < |old(ready)| && |old(ready)[p]| > 1
        then ready == old(ready)[p := Without(old(ready)[p], t) + [t]] && (lockNest == 0 ==> Selected())
        else ready == old(ready) && current == old(current)
    {
      hide Placed, Indexed, MaskRight;
      Sizes(ready, table, group);
      var t := current.addr;
      var p := threads[t].priority;
      PriorityFits(threads, t);
      if threads[t].stat == Ready && |ready[p]| > 1 {
        var l := Without(ready[p], t) + [t];
        Rotated(threads, ready, t);
        SameIndexed(ready, table, group, p, l);
        ready := ready[p := l];
        SomeReady(ready, p);
        Schedule();
      }
    }

    // Equals take turns: of the threads ready at the top priority p, the (k+1)-th yield
    // hands over to the one that stood at place k + 1, counted round and round, and after
    // one yield each the list is back as it was.
    method YieldInTurn(n: nat, ghost p: nat) returns (ran: seq<Tid>)
      requires Valid() && lockNest == 0 && MostUrgent(ready, p) && current == At(ready[p][0])
      modifies this
      ensures Valid() && lockNest == 0 && threads == old(threads) && |old(ready)[p]| > 0
      ensures |ran| == n && forall k :: 0 <= k < n ==> ran[k] == old(ready)[p][(k + 1) % |old(ready)[p]|]
      ensures ready == old(ready)[p := Turned(old(ready)[p], n)]
      ensures current == At(ready[p][0])
    {
      hide Placed, Indexed, MasksRight, Turned;
      ghost var l := ready[p];
      TopFacts(threads, ready, table, group, p);
      TurnedOnce(l, 0);
      ran := [];
      assert ready == ready[p := Turned(l, 0)];
      while |ran| < n
        invariant Valid() && lockNest == 0 && threads == old(threads) && |ran| <= n
        invariant ready == old(ready)[p := Turned(l, |ran|)] && MostUrgent(ready, p) && current == At(ready[p][0])
        invariant forall k :: 0 <= k < |ran| ==> ran[k] == l[(k + 1) % |l|]
      {
        ghost var k := |ran|;
        TopFacts(threads, ready, table, group, p);
        YieldTurns(l, k);
        TurnedOnce(l, k + 1);
        Yield();
        SameTop(old(ready), p, l, Turned(l, k + 1));
        assert ready == old(ready)[p := Turned(l, k + 1)];
        if q: nat :| MostUrgent(ready, q) && current == At(ready[q][0]) { MostUrgentOne(ready, p, q); }
        ran := ran + [current.addr];
      }
    }

    // rt_thread_control with RT_THREAD_CTRL_CHANGE_PRIORITY
    method ChangePriority(t: Tid, p: nat)
      requires Valid() && t in threads && p < LEVELS
      modifies this`threads, this`ready, this`table, this`group
      ensures Valid()
      ensures t in threads && threads == old(threads)[t := threads[t]]
      ensures threads[t].priority == p && threads[t].stat == old(threads)[t].stat
      ensures threads[t].initPriority == old(threads)[t].initPriority
      ensures threads[t].initTick == old(threads)[t].initTick
      ensures threads[t].remainingTick == old(threads)[t].remainingTick
      ensures old(threads)[t].stat != Ready ==> ready == old(ready)
      ensures old(threads)[t].stat == Ready ==>
        && old(threads)[t].priority < |old(ready)|
        && var off := old(ready)[old(threads)[t].priority := Without(old(ready)[old(threads)[t].priority], t)];
           p < |off| && ready == off[p := off[p] + [t]]
    {
      hide Placed, PlacedBut, Mask8, Mask32, Indexed;
      Sizes(ready, table, group);
      var th := threads[t].(priority := p, number := p / 8, numberMask := Mask32(p / 8), highMask := Mask8(p % 8));
      if threads[t].stat == Ready {
        RemoveThread(t);
        StillOff(threads, ready, t, th);
        threads := threads[t := th];
        InsertThread(t);
      } else {
        NotReady(threads, ready, t);
        StillOff(threads, ready, t, th);
        threads := threads[t := th];
      }
    }

    // rt_thread_delete and rt_thread_detach. Nothing has set the masks of a thread that was
    // never started; clearing them can damage the index.
    method Close(t: Tid)
      requires Valid() && t in threads && threads[t].stat != Closed && threads[t].number < 32
      modifies this`threads, this`ready, this`table, this`group
      ensures threads == old(threads)[t := old(threads)[t].(stat := Closed)]
      ensures Valid() <==> (old(threads)[t].stat == Init ==>
                              MasksSpare(old(ready), old(table), old(group), old(threads)[t]))
      ensures old(threads)[t].stat != Ready ==> ready == old(ready)
      ensures old(threads)[t].stat == Ready ==>
        var p := old(threads)[t].priority; p < |old(ready)| && ready == old(ready)[p := Without(old(ready)[p], t)]
    {
      hide Placed, PlacedBut, Mask8, Mask32, Indexed;
      Sizes(ready, table, group);
      hide MasksSpare;
      if threads[t].stat != Ready { WithoutNothing(threads, ready, t); }
      RemoveThread(t);
      var th := threads[t].(stat := Closed);
      StillOff(threads, ready, t, th);
      threads := threads[t := th];
    }

    // The time slice part of rt_tick_increase.
    method Slice()
      requires Valid() && current.At? && exists p :: 0 <= p < LEVELS && ready[p] != []
      modifies this
      ensures Valid() && lockNest == old(lockNest)
      ensures var t := old(current).addr; var left := (old(threads)[t].remainingTick + WORD - 1) % WORD;
        if left != 0
        then threads == old(threads)[t := old(threads)[t].(remainingTick := left)] && ready == old(ready) &&
          current == old(current)
        else
          && threads == old(threads)[t := old(threads)[t].(remainingTick := old(threads)[t].initTick)]
          && var p := threads[t].priority;
             if threads[t].stat == Ready && p < |old(ready)| && |old(ready)[p]| > 1
             then ready == old(ready)[p := Without(old(ready)[p], t) + [t]] && (lockNest == 0 ==> Selected())
             else ready == old(ready) && current == old(current)
    {
      hide Placed, Mask8, Mask32, Indexed;
      var t := current.addr;
      var left := (threads[t].remainingTick + WORD - 1) % WORD;
      var th := threads[t].(remainingTick := if left == 0 then threads[t].initTick else left);
      SamePlace(threads, ready, t, th);
      threads := threads[t := th];
      if left == 0 { Yield(); }
    }
  }

  lemma SamePlace(threads: Threads, ready: seq<seq<Tid>>, t: Tid, th: Thread)
    requires Placed(threads, ready) && t in threads && th.stat == threads[t].stat && th.priority == threads[t].priority
    ensures Placed(threads[t := th], ready)
  {
  }

  lemma SomeReady(ready: seq<seq<Tid>>, p: nat)
    requires p < |ready| == LEVELS && ready[p] != []
    ensures exists q :: 0 <= q < LEVELS && ready[q] != []
  {
  }

  lemma Rotated(threads: Threads, ready: seq<seq<Tid>>, t: Tid)
    requires Placed(threads, ready) && t in threads && threads[t].stat == Ready
    ensures var p := threads[t].priority;
      && p < |ready| && ready[p] != []
      && Placed(threads, ready[p := Without(ready[p], t) + [t]])
  {
    var p := threads[t].priority;
    TakenOff(threads, ready, t);
    PutOn(threads, ready[p := Without(ready[p], t)], t, threads[t]);
    hide Placed, PlacedBut;
    assert threads[t := threads[t]] == threads;
    assert ready[p := Without(ready[p], t)][p := Without(ready[p], t) + [t]] == ready[p := Without(ready[p], t) + [t]];
  }

  // ---- round robin ----

  // The list l when its first n members, round and round, have gone to its end.
  function Turned(l: seq<Tid>, n: nat): seq<Tid>
    requires l != []
  {
    l[n % |l|..] + l[..n % |l|]
  }

  lemma TurnedOnce(l: seq<Tid>, n: nat)
    requires l != []
    ensures |Turned(l, n)| == |l| && Turned(l, n)[0] == l[n % |l|]
    ensures Turned(l, n)[1..] + [Turned(l, n)[0]] == Turned(l, n + 1)
    ensures Turned(l, 0) == l
  {
    NextTurn(n, |l|);
    var k, q := n % |l|, Turned(l, n);
    assert q[0] == l[k];
    if k + 1 < |l| {
      assert q[1..] == l[k + 1..] + l[..k];
      assert l[..k + 1] == l[..k] + [l[k]];
    } else {
      assert q[1..] == l[..k];
    }
  }

  lemma NextTurn(n: nat, m: nat)
    requires m > 0
    ensures (n + 1) % m == if n % m + 1 < m then n % m + 1 else 0
  {
    var q, r := n / m, n % m;
    assert n + 1 == q * m + (r + 1);
    if r + 1 < m { QuotientIs(q, m, r + 1); } else { assert n + 1 == (q + 1) * m + 0; QuotientIs(q + 1, m, 0); }
  }

  lemma QuotientIs(q: nat, m: nat, r: nat)
    requires r < m
    ensures (q * m + r) % m == r
  {
    var n := q * m + r;
    var d := n / m - q;
    assert n == n / m * m + n % m;
    assert d * m == r - n % m;
    assert d >= 1 ==> d * m >= m;
    assert d <= -1 ==> d * m + m <= 0;
  }

  // What yielding does to the list of the running thread, which is its first.
  lemma YieldTurns(l: seq<Tid>, n: nat)
    requires l != []
    ensures |Turned(l, n)| == |l| && Without(Turned(l, n), Turned(l, n)[0]) + [Turned(l, n)[0]] == Turned(l, n + 1)
    ensures |l| == 1 ==> Turned(l, n) == Turned(l, n + 1)
  {
    TurnedOnce(l, n);
    hide Turned;
    if |l| == 1 {
      var q := Turned(l, n);
      assert q == [q[0]] && q[1..] + [q[0]] == q;
    }
  }

  lemma TopFacts(threads: Threads, ready: seq<seq<Tid>>, table: seq<bv8>, group: bv32, p: nat)
    requires Indexed(ready, table, group) && Placed(threads, ready) && MostUrgent(ready, p)
    ensures |ready| == LEVELS && p < LEVELS && ready[p] != [] && (exists q :: 0 <= q < LEVELS && ready[q] != [])
    ensures ready[p][0] in threads && threads[ready[p][0]].stat == Ready && threads[ready[p][0]].priority == p
  {
    FirstIsReady(threads, ready, p);
  }

  // Putting another list in place of the most urgent one leaves it the most urgent.
  lemma SameTop(ready: seq<seq<Tid>>, p: nat, l: seq<Tid>, l': seq<Tid>)
    requires MostUrgent(ready, p) && l' != []
    ensures MostUrgent(ready[p := l'], p)
  {
  }

  lemma MostUrgentOne(ready: seq<seq<Tid>>, p: nat, q: nat)
    requires MostUrgent(ready, p) && MostUrgent(ready, q)
    ensures p == q
  {
  }

  lemma FirstIsReady(threads: Threads, ready: seq<seq<Tid>>, p: nat)
    requires Placed(threads, ready) && MostUrgent(ready, p)
    ensures ready[p][0] in threads && threads[ready[p][0]].stat == Ready && threads[ready[p][0]].priority == p
  {
    assert ready[p][0] in ready[p];
  }

  lemma PriorityFits(threads: Threads, t: Tid)
    requires MasksRight(threads) && t in threads
    ensures threads[t].priority < LEVELS && threads[t].initPriority < LEVELS
  {
  }

  lemma Sizes(ready: seq<seq<Tid>>, table: seq<bv8>, group: bv32)
    requires Indexed(ready, table, group)
    ensures |ready| == LEVELS && |table| == 32
  {
  }
}
