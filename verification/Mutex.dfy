// The mutex with priority inheritance, for threads that use no other mutex and whose
// priorities nobody else changes.
module Mutex {
  import opened Lists
  import opened WaitQueue

  datatype Holder = Nobody | By(t: Tid)

  datatype State = State(
    flag: Flag,
    home: Priorities,         // the priority each thread was given
    prio: Priorities,         // its current priority
    value: nat,
    owner: Holder,
    original: nat,            // original_priority
    hold: nat,                // 8 bits
    queue: seq<Tid>,
    pressed: set<Tid>,        // threads that had to wait since the owner got the mutex
    depth: map<Tid, nat>)     // for each thread, takes that succeeded minus releases

  datatype Outcome = Done | NotOwner | TimedOut | Blocked

  // ---- the steps ----

  function Nested(s: State, t: Tid): State
    requires t in s.depth
  {
    s.(hold := (s.hold + 1) % 256, depth := s.depth[t := s.depth[t] + 1])
  }

  function Acquired(s: State, t: Tid): State
    requires t in s.prio && t in s.depth && s.value > 0
  {
    s.(value := s.value - 1, owner := By(t), original := s.prio[t], hold := (s.hold + 1) % 256,
       pressed := {}, depth := s.depth[t := s.depth[t] + 1])
  }

  // The owner inherits the priority of a more urgent thread that has to wait.
  function Pressed(s: State, t: Tid): State
    requires t in s.prio && s.owner.By? && s.owner.t in s.prio
  {
    s.(prio := if s.prio[t] < s.prio[s.owner.t] then s.prio[s.owner.t := s.prio[t]] else s.prio,
       pressed := s.pressed + {t})
  }

  ghost predicate Takes(s: State, t: Tid, wait: bool, r: Outcome, s': State) {
    && t in s.prio && t in s.depth
    && if s.owner == By(t) then r == Done && s' == Nested(s, t)
       else if s.value > 0 then r == Done && s' == Acquired(s, t)
       else if !wait then r == TimedOut && s' == s
       else
         && r == Blocked && s.owner.By? && s.owner.t in s.prio
         && Joined(s.queue, t, Pressed(s, t).prio, s.flag, s'.queue) && s' == Pressed(s, t).(queue := s'.queue)
  }

  // The owner gives the mutex up for good: its priority goes back, and the first waiter,
  // if there is one, becomes the owner there and then.
  function GivenUp(s: State): State
    requires s.owner.By? && s.owner.t in s.prio && s.owner.t in s.depth && s.depth[s.owner.t] > 0
    requires s.queue != [] ==> s.queue[0] in s.prio && s.queue[0] in s.depth
  {
    var t := s.owner.t;
    var prio := s.prio[t := s.original];
    var depth := s.depth[t := s.depth[t] - 1];
    if s.queue == [] then
      s.(prio := prio, depth := depth, value := s.value + 1, owner := Nobody, original := 0xFF,
         hold := 0, pressed := {})
    else
      var h := s.queue[0];
      s.(prio := prio, depth := depth[h := depth[h] + 1], owner := By(h), original := prio[h], hold := 1,
         queue := s.queue[1..], pressed := {})
  }

  // `hold` is an 8-bit counter, also on the way down.
  function Lowered(hold: nat): nat { (hold + 255) % 256 }

  ghost predicate Releases(s: State, t: Tid, r: Outcome, s': State) {
    if s.owner != By(t) then r == NotOwner && s' == s
    else
      && r == Done && t in s.prio && t in s.depth && s.depth[t] > 0
      && (s.queue != [] ==> s.queue[0] in s.prio && s.queue[0] in s.depth)
      && s' == if Lowered(s.hold) != 0 then s.(hold := Lowered(s.hold), depth := s.depth[t := s.depth[t] - 1])
               else GivenUp(s)
  }

  ghost predicate TimesOut(s: State, t: Tid, s': State) {
    exists i: nat :: i < |s.queue| && s.queue[i] == t && s' == s.(queue := Dropped(s.queue, i))
  }

  // A thread nests its takes at most 255 deep.
  ghost predicate Step(s: State, s': State) {
    || (exists t, w, r :: t !in s.queue && (s.owner == By(t) ==> s.hold < 255) && Takes(s, t, w, r, s'))
    || (exists t, r :: t !in s.queue && Releases(s, t, r, s'))
    || (exists t :: TimesOut(s, t, s'))
  }

  ghost predicate Start(s: State) {
    && s.prio == s.home && s.value == 1 && s.owner == Nobody && s.original == 0xFF && s.hold == 0
    && s.queue == [] && s.pressed == {} && s.depth.Keys == s.home.Keys
    && forall t :: t in s.depth ==> s.depth[t] == 0
  }

  ghost predicate IsRun(run: seq<State>) {
    run != [] && Start(run[0]) && forall i :: 0 <= i < |run| - 1 ==> Step(run[i], run[i + 1])
  }

  // ---- what every step keeps ----

  // Free, unowned and unheld are the same; nobody waits for a free mutex.
  ghost predicate Counters(s: State) {
    && s.value <= 1 && s.hold < 256
    && (s.value == 1 <==> s.owner == Nobody)
    && (s.value == 1 <==> s.hold == 0)
    && (s.queue != [] ==> s.owner.By?)
  }

  // Mutual exclusion: only the owner has takes outstanding, as many as `hold` says.
  ghost predicate Exclusive(s: State) {
    && s.depth.Keys == s.prio.Keys == s.home.Keys
    && (s.owner.By? ==> s.owner.t in s.prio)
    && forall t :: t in s.depth ==> s.depth[t] == if s.owner == By(t) then s.hold else 0
  }

  ghost predicate Waiting(s: State) {
    && NoRepeats(s.queue) && Ordered(s.queue, s.prio, s.flag)
    && (s.owner.By? ==> s.owner.t !in s.queue)
  }

  // Every thread but the owner runs at the priority it was given; the owner runs at the
  // most urgent of its own and those of the threads it has kept waiting.
  ghost predicate Inherited(s: State) {
    && s.prio.Keys == s.home.Keys
    && (forall t :: t in s.prio && s.owner != By(t) ==> s.prio[t] == s.home[t])
    && (s.owner.By? ==>
          && s.owner.t in s.prio && s.original == s.home[s.owner.t]
          && MostUrgent(s.prio[s.owner.t], s.owner.t, s.pressed, s.home))
  }

  ghost predicate MostUrgent(p: nat, t: Tid, pressed: set<Tid>, home: Priorities) {
    && t in home && p <= home[t]
    && (forall u :: u in pressed ==> u in home && p <= home[u])
    && (p == home[t] || exists u :: u in pressed && u in home && p == home[u])
  }

  // With priority queueing, no thread that waits is more urgent than the owner.
  ghost predicate OwnerUrgent(s: State) {
    s.owner.By? && s.owner.t in s.prio ==> forall t :: t in s.queue && t in s.prio ==> s.prio[s.owner.t] <= s.prio[t]
  }

  ghost predicate Inv(s: State) {
    Counters(s) && Exclusive(s) && Waiting(s) && Inherited(s) && (s.flag == Prio ==> OwnerUrgent(s))
  }

  lemma NestedKeeps(s: State, t: Tid)
    requires Inv(s) && s.owner == By(t)
    ensures t in s.depth
    ensures Inv(Nested(s, t)) <==> s.hold < 255
  {
  }

  lemma AcquiredKeeps(s: State, t: Tid)
    requires Inv(s) && s.value > 0 && t in s.prio && t in s.depth
    ensures Inv(Acquired(s, t))
  {
  }

  lemma PressedKeeps(s: State, t: Tid, q: seq<Tid>)
    requires Inv(s) && t in s.prio && s.owner.By? && s.owner != By(t) && t !in s.queue
    requires s.owner.t in s.prio && Joined(s.queue, t, Pressed(s, t).prio, s.flag, q)
    ensures Inv(Pressed(s, t).(queue := q))
  {
    hide Joined, Ordered, MostUrgent, Known, NoRepeats;
    var s1 := Pressed(s, t);
    HeadKnown(s);
    JoinMembers(s.queue, t, s1.prio, s.flag, q);
    OrderedElsewhere(s.queue, s.prio, s1.prio, s.flag);
    JoinKeepsOrder(s.queue, t, s1.prio, s.flag, q);
    PressedUrgent(s, t);
    var s2 := s1.(queue := q);
    assert Counters(s2) && Exclusive(s2) && Inherited(s2);
    assert s.flag == Prio ==> OwnerUrgent(s2);
  }

  lemma OrderedElsewhere(q: seq<Tid>, prio: Priorities, prio': Priorities, flag: Flag)
    requires Ordered(q, prio, flag) && forall t :: t in q ==> t in prio' && (t in prio ==> prio'[t] == prio[t])
    ensures Ordered(q, prio', flag)
  {
    forall i | 0 <= i < |q| ensures q[i] in prio' && prio'[q[i]] == prio[q[i]] { assert q[i] in q; }
  }

  lemma PressedUrgent(s: State, t: Tid)
    requires Inv(s) && t in s.prio && s.owner.By? && s.owner != By(t)
    ensures var o := s.owner.t; var s1 := Pressed(s, t);
      MostUrgent(s1.prio[o], o, s1.pressed, s.home) && s1.prio[o] <= s.prio[o] && s1.prio[o] <= s.home[t]
  {
    var o := s.owner.t;
    var s1 := Pressed(s, t);
    assert t in s1.pressed;
    if s1.prio[o] == s.prio[o] && s.prio[o] != s.home[o] {
      var u :| u in s.pressed && u in s.home && s.prio[o] == s.home[u];
      assert u in s1.pressed;
    }
  }

  lemma HeadKnown(s: State)
    requires Inv(s) && s.owner.By?
    ensures s.owner.t in s.prio && s.owner.t in s.depth && s.depth[s.owner.t] == s.hold > 0
    ensures s.queue != [] ==>
              s.queue[0] in s.queue && s.queue[0] in s.prio && s.queue[0] in s.depth && s.queue[0] != s.owner.t
    ensures forall t :: t in s.queue ==> t in s.prio && t != s.owner.t
  {
  }

  lemma GivenUpFree(s: State)
    requires Inv(s) && s.owner.By? && s.hold == 1 && s.queue == []
    ensures s.owner.t in s.prio && s.owner.t in s.depth && s.depth[s.owner.t] > 0 && Inv(GivenUp(s))
    ensures GivenUp(s).prio == s.home
  {
    HeadKnown(s);
  }

  lemma GivenUpCounts(s: State)
    requires Inv(s) && s.owner.By? && s.hold == 1 && s.queue != []
    ensures s.owner.t in s.prio && s.owner.t in s.depth && s.depth[s.owner.t] > 0 &&
            s.queue[0] in s.prio && s.queue[0] in s.depth
    ensures Counters(GivenUp(s)) && Exclusive(GivenUp(s))
  {
    HeadKnown(s);
    hide Waiting, Inherited, OwnerUrgent;
  }

  lemma GivenUpWaiting(s: State)
    requires Inv(s) && s.owner.By? && s.hold == 1 && s.queue != []
    ensures s.owner.t in s.prio && s.owner.t in s.depth && s.depth[s.owner.t] > 0 &&
            s.queue[0] in s.prio && s.queue[0] in s.depth
    ensures Waiting(GivenUp(s))
  {
    HeadKnown(s);
    QueueTail(s.queue, s.prio, s.flag);
    OrderedElsewhere(s.queue[1..], s.prio, GivenUp(s).prio, s.flag);
    hide Ordered, NoRepeats, Counters, Exclusive, Inherited, OwnerUrgent;
  }

  lemma GivenUpInherited(s: State)
    requires Inv(s) && s.owner.By? && s.hold == 1 && s.queue != []
    ensures s.owner.t in s.prio && s.owner.t in s.depth && s.depth[s.owner.t] > 0 &&
            s.queue[0] in s.prio && s.queue[0] in s.depth
    ensures Inherited(GivenUp(s)) && GivenUp(s).prio == s.home
  {
    HeadKnown(s);
    hide Waiting, Counters, OwnerUrgent;
  }

  lemma GivenUpToNext(s: State)
    requires Inv(s) && s.owner.By? && s.hold == 1 && s.queue != []
    ensures s.owner.t in s.prio && s.owner.t in s.depth && s.depth[s.owner.t] > 0 &&
            s.queue[0] in s.prio && s.queue[0] in s.depth
    ensures Inv(GivenUp(s))
    ensures GivenUp(s).prio == s.home
  {
    GivenUpCounts(s);
    GivenUpWaiting(s);
    GivenUpInherited(s);
    HandOverUrgent(s);
    QueueTail(s.queue, s.prio, s.flag);
    hide Counters, Exclusive, Waiting, Inherited, OwnerUrgent, NoRepeats, Ordered;
  }

  lemma QueueTail(q: seq<Tid>, prio: Priorities, flag: Flag)
    requires q != [] && NoRepeats(q) && Ordered(q, prio, flag)
    ensures NoRepeats(q[1..]) && Ordered(q[1..], prio, flag) && q[0] !in q[1..]
    ensures forall t :: t in q[1..] ==> t in q && t in prio && (flag == Prio ==> prio[q[0]] <= prio[t])
  {
    forall t | t in q[1..] ensures t in q && t in prio && t != q[0] && (flag == Prio ==> prio[q[0]] <= prio[t]) {
      var i :| 0 <= i < |q[1..]| && q[1..][i] == t;
      assert q[i + 1] == t;
    }
  }

  lemma TakeKeeps(s: State, t: Tid, w: bool, r: Outcome, s': State)
    requires Inv(s) && t !in s.queue && Takes(s, t, w, r, s')
    requires s.owner == By(t) ==> s.hold < 255
    ensures Inv(s')
  {
    hide Inv, Joined;
    if s.owner == By(t) {
      NestedKeeps(s, t);
    } else if s.value > 0 {
      AcquiredKeeps(s, t);
    } else if w {
      PressedKeeps(s, t, s'.queue);
    }
  }

  // The last release hands over or frees the mutex, and every thread that is not left
  // holding it is back at the priority it was given.
  lemma ReleaseKeeps(s: State, t: Tid, r: Outcome, s': State)
    requires Inv(s) && Releases(s, t, r, s')
    ensures Inv(s')
    ensures r == Done && s.hold == 1 ==> s'.prio == s.home
  {
    hide Inv, GivenUp;
    if s.owner == By(t) {
      HeadKnown(s);
      HoldCounts(s);
      if s.hold > 1 {
        LoweredKeeps(s);
      } else if s.queue == [] {
        GivenUpFree(s);
      } else {
        GivenUpToNext(s);
      }
    }
  }

  lemma HoldCounts(s: State)
    requires Inv(s) && s.owner.By?
    ensures 0 < s.hold < 256 && Lowered(s.hold) == s.hold - 1
  {
  }

  lemma LoweredKeeps(s: State)
    requires Inv(s) && s.owner.By? && s.hold > 1
    ensures s.owner.t in s.depth && s.depth[s.owner.t] > 0
    ensures Inv(s.(hold := s.hold - 1, depth := s.depth[s.owner.t := s.depth[s.owner.t] - 1]))
  {
    hide Ordered, NoRepeats, MostUrgent;
    HeadKnown(s);
  }

  // An owner can always release: no count is ever taken below zero.
  lemma OwnerCanRelease(s: State)
    requires Inv(s) && s.owner.By?
    ensures exists s' :: Releases(s, s.owner.t, Done, s')
  {
    HeadKnown(s);
    var t := s.owner.t;
    var depth' := s.depth[t := s.depth[t] - 1];
    var s' := if Lowered(s.hold) != 0 then s.(hold := Lowered(s.hold), depth := depth') else GivenUp(s);
    assert Releases(s, t, Done, s');
  }

  lemma TimeoutKeeps(s: State, t: Tid, s': State)
    requires Inv(s) && TimesOut(s, t, s')
    ensures Inv(s')
  {
    var i: nat :| i < |s.queue| && s.queue[i] == t && s' == s.(queue := Dropped(s.queue, i));
    DropMembers(s.queue, i, s.prio, s.flag);
    hide Dropped, Ordered, NoRepeats;
  }

  lemma StepKeeps(s: State, s': State)
    requires Inv(s) && Step(s, s')
    ensures Inv(s')
  {
    hide Inv, Takes, Releases, TimesOut;
    if t, w, r :| t !in s.queue && (s.owner == By(t) ==> s.hold < 255) && Takes(s, t, w, r, s') {
      TakeKeeps(s, t, w, r, s');
    } else if t, r :| t !in s.queue && Releases(s, t, r, s') {
      ReleaseKeeps(s, t, r, s');
    } else {
      var t :| TimesOut(s, t, s');
      TimeoutKeeps(s, t, s');
    }
  }

  lemma StartHolds(s: State)
    requires Start(s)
    ensures Inv(s)
  {
  }

  lemma {:induction false} EveryRunKeeps(run: seq<State>, n: nat)
    requires IsRun(run) && n < |run|
    ensures Inv(run[n])
  {
    hide Inv, Step;
    if n == 0 {
      StartHolds(run[0]);
    } else {
      EveryRunKeeps(run, n - 1);
      assert Step(run[n - 1], run[n - 1 + 1]);
      StepKeeps(run[n - 1], run[n]);
    }
  }

  // ---- how long no waiter is more urgent than the owner, whatever the flag ----

  // The release that makes the first waiter the owner.
  ghost predicate HandsOver(s: State, s': State) {
    && s.owner.By? && s.owner.t in s.prio && s.owner.t in s.depth && s.hold == 1 && s.depth[s.owner.t] > 0
    && s.queue != [] && s.queue[0] in s.prio && s.queue[0] in s.depth
    && s' == GivenUp(s)
  }

  // The first waiter is at least as urgent as every other.
  ghost predicate HeadUrgent(s: State) {
    s.queue != [] && s.queue[0] in s.prio ==>
      forall t :: t in s.queue[1..] && t in s.prio ==> s.prio[s.queue[0]] <= s.prio[t]
  }

  lemma HandOverUrgent(s: State)
    requires Inv(s) && s.owner.By? && s.queue != []
    ensures s.owner.t in s.prio && s.owner.t in s.depth && s.depth[s.owner.t] > 0
    ensures s.queue[0] in s.prio && s.queue[0] in s.depth
    ensures OwnerUrgent(GivenUp(s)) <==> HeadUrgent(s)
  {
    HeadKnown(s);
    QueueTail(s.queue, s.prio, s.flag);
    GivenUpPrio(s);
    hide Inv, Ordered, NoRepeats;
  }

  // Handing over changes the priority of no thread that waits.
  lemma GivenUpPrio(s: State)
    requires Inv(s) && s.owner.By? && s.queue != []
    ensures s.owner.t in s.prio && s.owner.t in s.depth && s.depth[s.owner.t] > 0
    ensures s.queue[0] in s.prio && s.queue[0] in s.depth
    ensures var s' := GivenUp(s);
      s'.prio.Keys == s.prio.Keys && forall t :: t in s.queue ==> t in s.prio && s'.prio[t] == s.prio[t]
  {
    HeadKnown(s);
    hide Inv;
  }

  // A thread that has to wait lends the owner its priority: that suffices if nobody more
  // urgent was there before.
  lemma TakeUrgent(s: State, t: Tid, w: bool, r: Outcome, s': State)
    requires Inv(s) && t !in s.queue && Takes(s, t, w, r, s')
    ensures OwnerUrgent(s') <==>
              OwnerUrgent(s) || (r == Blocked && forall u :: u in s.queue && u in s.prio ==> s.prio[t] <= s.prio[u])
  {
    if r == Blocked {
      HeadKnown(s);
      JoinMembers(s.queue, t, Pressed(s, t).prio, s.flag, s'.queue);
    }
    hide Joined, Ordered, NoRepeats, Inherited, Exclusive;
  }

  lemma ReleaseUrgent(s: State, t: Tid, r: Outcome, s': State)
    requires Inv(s) && Releases(s, t, r, s')
    ensures OwnerUrgent(s') <==> if r == Done && s.hold == 1 then HeadUrgent(s) else OwnerUrgent(s)
  {
    if s.owner == By(t) && s.queue != [] { HandOverUrgent(s); }
    hide Inv, HeadUrgent;
  }

  lemma TimeoutUrgent(s: State, t: Tid, s': State)
    requires Inv(s) && TimesOut(s, t, s')
    ensures OwnerUrgent(s') <==> OwnerUrgent(s.(queue := Without(s.queue, t)))
  {
    var i: nat :| i < |s.queue| && s.queue[i] == t && s' == s.(queue := Dropped(s.queue, i));
    WithoutSplits(s.queue, i);
  }

  lemma TimeoutKeepsUrgent(s: State, t: Tid, s': State)
    requires Inv(s) && TimesOut(s, t, s') && OwnerUrgent(s)
    ensures OwnerUrgent(s')
  {
    var i: nat :| i < |s.queue| && s.queue[i] == t && s' == s.(queue := Dropped(s.queue, i));
    DropMembers(s.queue, i, s.prio, s.flag);
    hide Dropped, Ordered, NoRepeats;
  }

  // Only a handover can put a waiter before the owner, and it does exactly when the first
  // waiter is not the most urgent.
  lemma StepUrgent(s: State, s': State)
    requires Inv(s) && Step(s, s') && OwnerUrgent(s)
    ensures OwnerUrgent(s') <==> (HandsOver(s, s') ==> HeadUrgent(s))
  {
    hide Inv, Takes, Releases, TimesOut, OwnerUrgent, HeadUrgent, GivenUp;
    if HandsOver(s, s') {
      HandOverUrgent(s);
    } else if t, w, r :| t !in s.queue && (s.owner == By(t) ==> s.hold < 255) && Takes(s, t, w, r, s') {
      TakeUrgent(s, t, w, r, s');
    } else if t, r :| t !in s.queue && Releases(s, t, r, s') {
      ReleaseUrgent(s, t, r, s');
      NotHandedOver(s, t, r, s');
    } else {
      var t :| TimesOut(s, t, s');
      TimeoutKeepsUrgent(s, t, s');
    }
  }

  // A last release that hands over to nobody finds nobody waiting.
  lemma NotHandedOver(s: State, t: Tid, r: Outcome, s': State)
    requires Inv(s) && Releases(s, t, r, s') && !HandsOver(s, s')
    ensures r == Done && s.hold == 1 ==> HeadUrgent(s)
  {
    if s.owner.By? { HeadKnown(s); }
  }

  // Over every run, with either flag: no waiter is ever more urgent than the owner if and
  // only if each handover goes to a thread that is the most urgent of those waiting.
  lemma UrgentOverRuns(run: seq<State>)
    requires IsRun(run)
    ensures (forall n :: 0 <= n < |run| ==> OwnerUrgent(run[n])) <==>
            (forall n :: 0 <= n < |run| - 1 ==> HandsOver(run[n], run[n + 1]) ==> HeadUrgent(run[n]))
  {
    hide Inv, Step, OwnerUrgent, HandsOver, HeadUrgent;
    if forall n :: 0 <= n < |run| ==> OwnerUrgent(run[n]) {
      forall n | 0 <= n < |run| - 1 ensures HandsOver(run[n], run[n + 1]) ==> HeadUrgent(run[n]) {
        EveryRunKeeps(run, n);
        StepUrgent(run[n], run[n + 1]);
      }
    }
    if forall n :: 0 <= n < |run| - 1 ==> HandsOver(run[n], run[n + 1]) ==> HeadUrgent(run[n]) {
      forall n | 0 <= n < |run| ensures OwnerUrgent(run[n]) { UrgentUpTo(run, n); }
    }
  }

  lemma {:induction false} UrgentUpTo(run: seq<State>, n: nat)
    requires IsRun(run) && n < |run|
    requires forall k :: 0 <= k < |run| - 1 ==> HandsOver(run[k], run[k + 1]) ==> HeadUrgent(run[k])
    ensures OwnerUrgent(run[n])
  {
    hide Inv, Step, HandsOver, HeadUrgent;
    if n > 0 {
      hide OwnerUrgent;
      UrgentUpTo(run, n - 1);
      EveryRunKeeps(run, n - 1);
      var m := n - 1;
      assert Step(run[m], run[m + 1]);
      StepUrgent(run[m], run[m + 1]);
    }
  }

  // First-in-first-out handoff does not keep the owner the most urgent: thread 1 holds,
  // 2 waits, then the more urgent 3; 2 gets the mutex while 3 still waits.
  function Fifo0(): State {
    State(Fifo, map[1 := 10, 2 := 20, 3 := 5], map[1 := 10, 2 := 20, 3 := 5], 1, Nobody, 0xFF, 0, [], {},
          map[1 := 0, 2 := 0, 3 := 0])
  }

  function Fifo1(): State {
    State(Fifo, Fifo0().home, map[1 := 10, 2 := 20, 3 := 5], 0, By(1), 10, 1, [], {}, map[1 := 1, 2 := 0, 3 := 0])
  }

  function Fifo2(): State {
    State(Fifo, Fifo0().home, map[1 := 10, 2 := 20, 3 := 5], 0, By(1), 10, 1, [2], {2}, map[1 := 1, 2 := 0, 3 := 0])
  }

  function Fifo3(): State {
    State(Fifo, Fifo0().home, map[1 := 5, 2 := 20, 3 := 5], 0, By(1), 10, 1, [2, 3], {2, 3},
          map[1 := 1, 2 := 0, 3 := 0])
  }

  function Fifo4(): State {
    State(Fifo, Fifo0().home, map[1 := 10, 2 := 20, 3 := 5], 0, By(2), 20, 1, [3], {}, map[1 := 0, 2 := 1, 3 := 0])
  }

  lemma FifoTakes1()
    ensures Takes(Fifo0(), 1, true, Done, Fifo1())
  {
  }

  lemma FifoTakes2()
    ensures Takes(Fifo1(), 2, true, Blocked, Fifo2())
  {
    assert [2] == Inserted([], 0, 2);
    assert Joined([], 2, Fifo1().prio, Fifo, [2]);
  }

  lemma FifoTakes3()
    ensures Takes(Fifo2(), 3, true, Blocked, Fifo3())
  {
    assert [2, 3] == Inserted([2], 1, 3);
    assert Joined([2], 3, Fifo3().prio, Fifo, [2, 3]);
  }

  lemma FifoReleases1()
    ensures Releases(Fifo3(), 1, Done, Fifo4())
  {
  }

  lemma FifoInverts()
    ensures exists run: seq<State> :: IsRun(run) && run[0].flag == Fifo && !OwnerUrgent(run[|run| - 1])
  {
    FifoTakes1();
    FifoTakes2();
    FifoTakes3();
    FifoReleases1();
    hide Takes, Releases, Joined;
    var run := [Fifo0(), Fifo1(), Fifo2(), Fifo3(), Fifo4()];
    assert Step(run[0], run[1]) && Step(run[1], run[2]) && Step(run[2], run[3]) && Step(run[3], run[4]);
    assert Start(run[0]);
    hide Step, Start;
    assert IsRun(run);
    assert 3 in run[4].queue;
  }

  // ---- takes nested beyond the 8 bits of `hold` ----

  // Thread 1 alone, after n takes and no release.
  function Nest(n: nat): State {
    State(Prio, map[1 := 10], map[1 := 10], if n == 0 then 1 else 0, if n == 0 then Nobody else By(1),
          if n == 0 then 0xFF else 10, n % 256, [], {}, map[1 := n])
  }

  function NestRun(n: nat): (run: seq<State>)
    ensures |run| == n + 1 && forall i :: 0 <= i <= n ==> run[i] == Nest(i)
  {
    seq(n + 1, i requires 0 <= i => Nest(i))
  }

  lemma NestTakes(n: nat)
    ensures Takes(Nest(n), 1, true, Done, Nest(n + 1))
  {
    RaisedOnce(n);
    assert map[1 := n][1 := n + 1] == map[1 := n + 1];
  }

  lemma RaisedOnce(n: nat)
    ensures (n % 256 + 1) % 256 == (n + 1) % 256
  {
  }

  lemma NestStarts()
    ensures Start(Nest(0))
  {
  }

  lemma NestIsRun(n: nat)
    requires n <= 255
    ensures IsRun(NestRun(n))
  {
    var run := NestRun(n);
    NestStarts();
    forall i | 0 <= i < |run| - 1 ensures Step(run[i], run[i + 1]) {
      assert run[i] == Nest(i) && run[i + 1] == Nest(i + 1);
      NestTakes(i);
      assert 1 !in Nest(i).queue;
    }
    hide Step, Start;
  }

  // However many takes its owner has outstanding, a release leaves it the mutex if and
  // only if their number does not leave the remainder 1 modulo 256.
  lemma ReleaseLeavesIff(s: State, t: Tid, s': State)
    requires s.owner == By(t) && t !in s.queue && t in s.depth && s.hold == s.depth[t] % 256
    requires Releases(s, t, Done, s')
    ensures t in s'.depth && s'.depth[t] == s.depth[t] - 1
    ensures s'.owner == By(t) <==> s.depth[t] % 256 != 1
    ensures s'.owner == By(t) ==> s'.hold == s'.depth[t] % 256
  {
    hide Lowered;
    LoweredOnce(s.depth[t]);
    assert s.queue != [] ==> s.queue[0] in s.queue;
  }

  lemma LoweredOnce(n: nat)
    requires n >= 1
    ensures Lowered(n % 256) == (n - 1) % 256
    ensures Lowered(n % 256) == 0 <==> n % 256 == 1
  {
    var q, r := n / 256, n % 256;
    assert n - 1 == if r == 0 then (q - 1) * 256 + 255 else q * 256 + (r - 1);
  }

  // A run reaches the deepest nesting `hold` can count. One take more wraps it to 0, and
  // another one later a single release frees the mutex that is still taken 256 times.
  lemma NestingWraps()
    ensures exists run :: IsRun(run) && run[|run| - 1] == Nest(255)
    ensures Nest(255).hold == 255 && Takes(Nest(255), 1, true, Done, Nest(256))
    ensures Nest(256).hold == 0 && Nest(256).owner == By(1) && !Inv(Nest(256))
    ensures Takes(Nest(256), 1, true, Done, Nest(257))
    ensures exists s' :: Releases(Nest(257), 1, Done, s') && s'.owner == Nobody && s'.value == 1 &&
              s'.depth == map[1 := 256]
  {
    NestIsRun(255);
    assert NestRun(255)[|NestRun(255)| - 1] == Nest(255);
    NestTakes(255);
    NestTakes(256);
    var s' := GivenUp(Nest(257));
    assert Releases(Nest(257), 1, Done, s');
    ReleaseLeavesIff(Nest(257), 1, s');
    assert map[1 := 257][1 := 256] == map[1 := 256];
  }

  // ---- a thread that holds two mutexes ----

  // Two mutexes used by the same threads, whose current priorities they share.
  datatype Pair = Pair(a: State, b: State)

  // What a call on one mutex does to the other: only the priorities.
  function Seen(other: State, s: State): State { other.(prio := s.prio) }

  ghost predicate PairStep(p: Pair, p': Pair) {
    || (Step(p.a, p'.a) && p'.b == Seen(p.b, p'.a))
    || (Step(p.b, p'.b) && p'.a == Seen(p.a, p'.b))
  }

  ghost predicate IsPairRun(run: seq<Pair>) {
    && run != [] && Start(run[0].a) && Start(run[0].b) && run[0].a.prio == run[0].b.prio
    && forall i :: 0 <= i < |run| - 1 ==> PairStep(run[i], run[i + 1])
  }

  // Threads 1 and 2 of priorities 10 and 5, and a mutex in the hands of thread 1 or of 2.
  function Shared(p: nat, owner: Holder, original: nat, queue: seq<Tid>): (s: State)
    ensures s.prio == map[1 := p, 2 := 5]
  {
    State(Prio, map[1 := 10, 2 := 5], map[1 := p, 2 := 5], if owner == Nobody then 1 else 0, owner, original,
          if owner == Nobody then 0 else 1, queue, Members(queue),
          map[1 := if owner == By(1) then 1 else 0, 2 := if owner == By(2) then 1 else 0])
  }

  function Free(p: nat): (s: State)
    ensures s.prio == map[1 := p, 2 := 5]
  {
    Shared(p, Nobody, 0xFF, [])
  }

  // A call on the one mutex, seen from the other.
  lemma FirstMoves(a: State, a': State, p: nat, p': nat, owner: Holder, original: nat)
    requires Step(a, a') && a'.prio == map[1 := p', 2 := 5]
    ensures PairStep(Pair(a, Shared(p, owner, original, [])), Pair(a', Shared(p', owner, original, [])))
  {
    hide Step;
  }

  lemma SecondMoves(b: State, b': State, p: nat, p': nat, original: nat)
    requires Step(b, b') && b'.prio == map[1 := p', 2 := 5]
    ensures PairStep(Pair(Shared(p, By(1), original, [2]), b), Pair(Shared(p', By(1), original, [2]), b'))
    ensures PairStep(Pair(Shared(p, By(2), original, []), b), Pair(Shared(p', By(2), original, []), b'))
    ensures PairStep(Pair(Shared(p, By(1), original, []), b), Pair(Shared(p', By(1), original, []), b'))
  {
    hide Step;
  }

  lemma FreeStarts()
    ensures Start(Free(10))
  {
  }

  lemma SharedTaken(p: nat)
    ensures Step(Free(p), Shared(p, By(1), p, []))
  {
    assert Takes(Free(p), 1, true, Done, Shared(p, By(1), p, []));
    hide Takes;
    assert 1 !in Free(p).queue;
  }

  // Thread 2 has to wait and lends its priority to thread 1.
  lemma SharedPressed(original: nat)
    ensures Step(Shared(10, By(1), original, []), Shared(5, By(1), original, [2]))
  {
    assert [2] == Inserted([], 0, 2);
    assert Joined([], 2, map[1 := 5, 2 := 5], Prio, [2]);
    hide Joined;
    assert map[1 := 10, 2 := 5][1 := 5] == map[1 := 5, 2 := 5];
    assert Takes(Shared(10, By(1), original, []), 2, true, Blocked, Shared(5, By(1), original, [2]));
    hide Takes;
    assert 2 !in Shared(10, By(1), original, []).queue;
  }

  lemma SharedFreed(p: nat, original: nat)
    ensures Step(Shared(p, By(1), original, []), Free(original))
  {
    assert map[1 := p, 2 := 5][1 := original] == map[1 := original, 2 := 5];
    assert Releases(Shared(p, By(1), original, []), 1, Done, Free(original));
    hide Releases;
    assert 1 !in Shared(p, By(1), original, []).queue;
  }

  lemma SharedHandedOver(p: nat, original: nat)
    ensures Step(Shared(p, By(1), original, [2]), Shared(original, By(2), 5, []))
  {
    assert map[1 := p, 2 := 5][1 := original] == map[1 := original, 2 := 5];
    assert Releases(Shared(p, By(1), original, [2]), 1, Done, Shared(original, By(2), 5, []));
    hide Releases;
    assert 1 !in [2];
  }

  // Nobody waits and t holds neither mutex, but it does not run at its own priority.
  ghost predicate StillLent(p: Pair, t: Tid) {
    && p.a.queue == p.b.queue == [] && p.a.owner != By(t) && p.b.owner != By(t)
    && t in p.a.prio && t in p.a.home && p.a.prio[t] != p.a.home[t]
  }

  // Taken while thread 2 waits for the first mutex, the second one remembers the lent
  // priority: thread 1 gets it back with the last release, and keeps it holding nothing.
  lemma PriorityStaysLent()
    ensures exists run :: IsPairRun(run) && StillLent(run[|run| - 1], 1)
  {
    hide Step, PairStep, Start, Shared;
    var free, held, lent := Free(10), Shared(10, By(1), 10, []), Shared(5, By(1), 10, [2]);
    var second, passed := Shared(5, By(1), 5, []), Shared(10, By(2), 5, []);
    var run := [Pair(free, free), Pair(held, free), Pair(lent, Free(5)), Pair(lent, second),
                Pair(passed, Shared(10, By(1), 5, [])), Pair(Shared(5, By(2), 5, []), Free(5))];
    FreeStarts();
    SharedTaken(10);
    FirstMoves(free, held, 10, 10, Nobody, 0xFF);
    SharedPressed(10);
    FirstMoves(held, lent, 10, 5, Nobody, 0xFF);
    SharedTaken(5);
    SecondMoves(Free(5), second, 5, 5, 10);
    SharedHandedOver(5, 10);
    FirstMoves(lent, passed, 5, 10, By(1), 5);
    SharedFreed(10, 5);
    SecondMoves(Shared(10, By(1), 5, []), Free(5), 10, 5, 5);
    assert IsPairRun(run);
    LentAtTheEnd();
  }

  lemma LentAtTheEnd()
    ensures StillLent(Pair(Shared(5, By(2), 5, []), Free(5)), 1)
  {
  }

  // Taken before thread 2 waits for the first one, the second gives thread 1 its own
  // priority back at its release, and 2 is then more urgent than the owner it waits for.
  lemma LoanEndsEarly()
    ensures exists run: seq<Pair> :: IsPairRun(run) && run[|run| - 1].a.flag == Prio && !OwnerUrgent(run[|run| - 1].a)
  {
    hide Step, PairStep, Start, Shared, OwnerUrgent;
    var free, held, lent := Free(10), Shared(10, By(1), 10, []), Shared(5, By(1), 10, [2]);
    var run := [Pair(free, free), Pair(held, free), Pair(held, held), Pair(lent, Shared(5, By(1), 10, [])),
                Pair(Shared(10, By(1), 10, [2]), free)];
    FreeStarts();
    SharedTaken(10);
    FirstMoves(free, held, 10, 10, Nobody, 0xFF);
    SecondMoves(free, held, 10, 10, 10);
    SharedPressed(10);
    FirstMoves(held, lent, 10, 5, By(1), 10);
    SharedFreed(5, 10);
    SecondMoves(Shared(5, By(1), 10, []), free, 5, 10, 10);
    assert IsPairRun(run);
    OvertakenAtTheEnd();
  }

  lemma OvertakenAtTheEnd()
    ensures Shared(10, By(1), 10, [2]).flag == Prio && !OwnerUrgent(Shared(10, By(1), 10, [2]))
  {
    assert 2 in Shared(10, By(1), 10, [2]).queue;
  }

  // ---- the mutex object ----

  class MutexObject {
    const flag: Flag
    ghost const home: Priorities
    var prio: Priorities         // current_priority of the threads
    var value: nat
    var owner: Holder
    var original: nat
    var hold: nat
    var queue: seq<Tid>          // parent.suspend_thread
    ghost var pressed: set<Tid>
    ghost var depth: map<Tid, nat>

    ghost function Abs(): State
      reads this
    {
      State(flag, home, prio, value, owner, original, hold, queue, pressed, depth)
    }

    ghost predicate Valid()
      reads this
    {
      Inv(Abs())
    }

    // rt_mutex_init
    constructor (flag: Flag, prio: Priorities)
      ensures Valid() && Start(Abs()) && Abs().flag == flag && Abs().prio == prio
      ensures value == 1 && owner == Nobody && hold == 0 && queue == []
    {
      this.flag, home, this.prio := flag, prio, prio;
      value, owner, original, hold, queue := 1, Nobody, 0xFF, 0, [];
      pressed, depth := {}, map t | t in prio :: 0;
      new;
      StartHolds(Abs());
    }

    // rt_mutex_take, up to the point where the thread waits or returns.
    method Take(t: Tid, time: int) returns (r: Outcome)
      requires Valid() && t in prio && t !in queue
      modifies this
      ensures Takes(old(Abs()), t, time != 0, r, Abs())
      ensures Valid() <==> (old(owner) == By(t) ==> old(hold) < 255)
      // nested or free: taken; in other hands: refused without a timeout, waited for with one
      ensures r == Done <==> old(owner) == By(t) || old(owner) == Nobody
      ensures r == TimedOut ==> time == 0
      ensures r == Blocked ==> time != 0
      ensures r == TimedOut || r == Blocked || r == Done
      ensures r == Done ==> owner == By(t) && hold == (old(hold) + 1) % 256 && value == 0
      ensures r == Done ==> original == if old(owner) == Nobody then old(prio)[t] else old(original)
      ensures r != Done ==> owner == old(owner) && hold == old(hold) && value == old(value) && original == old(original)
      // the owner inherits the priority of a more urgent thread that has to wait
      ensures r != Blocked ==> prio == old(prio) && queue == old(queue)
      ensures r == Blocked ==>
                && old(owner).By? && old(owner).t in old(prio)
                && prio == (if old(prio)[t] < old(prio)[owner.t] then old(prio)[owner.t := old(prio)[t]] else old(prio))
                && Joined(old(queue), t, prio, flag, queue)
    {
      hide Inv, Joined, Known;
      ghost var s := Abs();
      TakeFacts(s, t);
      if owner == By(t) {
        hold := (hold + 1) % 256;
        depth := depth[t := depth[t] + 1];
        r := Done;
      } else if value > 0 {
        value := value - 1;
        owner := By(t);
        original := prio[t];
        hold := (hold + 1) % 256;
        pressed, depth := {}, depth[t := depth[t] + 1];
        r := Done;
      } else if time == 0 {
        r := TimedOut;
      } else {
        if prio[t] < prio[owner.t] {
          prio := prio[owner.t := prio[t]];
        }
        pressed := pressed + {t};
        PressedKnown(s, t);
        queue := Suspend(queue, t, prio, flag);
        r := Blocked;
      }
      if s.owner == By(t) { NestedKeeps(s, t); } else { TakeKeeps(s, t, time != 0, r, Abs()); }
    }

    // The part of rt_mutex_release for an owner that holds the mutex no longer.
    method HandOver()
      requires owner.By? && owner.t in prio && owner.t in depth && hold == 0 && depth[owner.t] > 0
      requires queue != [] ==> queue[0] in prio && queue[0] in depth && queue[0] != owner.t
      modifies this
      ensures Abs() == GivenUp(old(Abs()))
      ensures prio == old(prio)[old(owner).t := old(original)]
      ensures old(queue) == [] ==>
                owner == Nobody && value == old(value) + 1 && hold == 0 && original == 0xFF && queue == []
      ensures old(queue) != [] ==>
                && owner == By(old(queue)[0]) && queue == old(queue)[1..] && hold == 1 && value == old(value)
                && owner.t in prio && original == prio[owner.t]
    {
      hide GivenUp;
      ghost var s := Abs();
      SameEntry(s.prio, s.owner.t);
      if original != prio[owner.t] {
        prio := prio[owner.t := original];
      }
      depth := depth[owner.t := depth[owner.t] - 1];
      pressed := {};
      if queue != [] {
        var next := queue[0];
        owner := By(next);
        original := prio[next];
        hold := (hold + 1) % 256;
        depth := depth[next := depth[next] + 1];
        queue := queue[1..];
      } else {
        value := value + 1;
        owner := Nobody;
        original := 0xFF;
      }
      GivenUpIs(s, prio, depth);
    }

    // rt_mutex_release
    method Release(t: Tid) returns (r: Outcome)
      requires Valid() && t !in queue
      modifies this
      ensures Valid() && Releases(old(Abs()), t, r, Abs())
      ensures r == Done && old(hold) == 1 ==> prio == home
      ensures r == if old(owner) == By(t) then Done else NotOwner
      ensures r == Done && old(hold) > 1 ==> owner == By(t) && hold == old(hold) - 1
      ensures r == NotOwner || old(hold) > 1 ==>
                prio == old(prio) && owner == old(owner) && queue == old(queue) && value == old(value)
      // the last release frees the mutex, or hands it to the first waiter
      ensures r == Done && old(hold) == 1 && old(queue) == [] ==>
                owner == Nobody && value == 1 && hold == 0 && queue == []
      ensures r == Done && old(hold) == 1 && old(queue) != [] ==>
                owner == By(old(queue)[0]) && hold == 1 && value == 0 && queue == old(queue)[1..]
    {
      hide Inv, GivenUp;
      if owner != By(t) { return NotOwner; }
      ghost var s := Abs();
      ReleaseFacts(s);
      GivenUpAlike(s);
      hold := Lowered(hold);
      if hold == 0 {
        HandOver();
      } else {
        depth := depth[t := depth[t] - 1];
      }
      r := Done;
      ReleaseKeeps(s, t, r, Abs());
    }

    // The timeout of the i-th waiting thread.
    method Timeout(i: nat)
      requires Valid() && i < |queue|
      modifies this
      ensures Valid() && TimesOut(old(Abs()), old(queue)[i], Abs())
      ensures queue == old(queue)[..i] + old(queue)[i + 1..]
      ensures prio == old(prio) && value == old(value) && owner == old(owner) && hold == old(hold)
      ensures original == old(original)
    {
      hide Inv, Dropped;
      ghost var s := Abs();
      queue := Dropped(queue, i);
      TimeoutKeeps(s, s.queue[i], Abs());
    }
  }

  // The two outcomes of giving up, field by field.
  lemma GivenUpIs(s: State, prio: Priorities, depth: map<Tid, nat>)
    requires s.owner.By? && s.owner.t in s.prio && s.owner.t in s.depth && s.depth[s.owner.t] > 0 && s.hold == 0
    requires s.queue != [] ==> s.queue[0] in s.prio && s.queue[0] in s.depth && s.queue[0] != s.owner.t
    requires prio == s.prio[s.owner.t := s.original]
    requires var less := s.depth[s.owner.t := s.depth[s.owner.t] - 1];
      depth == if s.queue == [] then less else less[s.queue[0] := s.depth[s.queue[0]] + 1]
    ensures s.queue == [] ==>
              GivenUp(s) == s.(prio := prio, depth := depth, value := s.value + 1, owner := Nobody, original := 0xFF,
                               pressed := {})
    ensures s.queue != [] ==>
              GivenUp(s) == s.(prio := prio, depth := depth, owner := By(s.queue[0]), original := prio[s.queue[0]],
                               hold := 1, queue := s.queue[1..], pressed := {})
  {
  }

  lemma SameEntry(prio: Priorities, t: Tid)
    ensures t in prio ==> prio[t := prio[t]] == prio
  {
  }

  lemma GivenUpAlike(s: State)
    requires Inv(s) && s.owner.By?
    ensures s.owner.t in s.prio && s.owner.t in s.depth && s.depth[s.owner.t] > 0
    ensures s.queue != [] ==> s.queue[0] in s.prio && s.queue[0] in s.depth
    ensures GivenUp(s.(hold := 0)) == GivenUp(s)
  {
    HeadKnown(s);
  }

  lemma TakeFacts(s: State, t: Tid)
    requires Inv(s) && t in s.prio
    ensures t in s.depth && s.hold < 256
    ensures s.value == 0 ==> s.owner.By? && s.owner.t in s.prio
    ensures s.value == if s.owner == Nobody then 1 else 0
  {
  }

  lemma PressedKnown(s: State, t: Tid)
    requires Inv(s) && t in s.prio && s.owner.By? && s.owner.t in s.prio
    ensures Known(s.queue, Pressed(s, t).prio)
  {
  }

  lemma ReleaseFacts(s: State)
    requires Inv(s) && s.owner.By?
    ensures s.owner.t in s.prio && s.owner.t in s.depth && 0 < s.hold < 256 && s.depth[s.owner.t] == s.hold
    ensures s.value == 0
    ensures s.queue != [] ==> s.queue[0] in s.prio && s.queue[0] in s.depth && s.queue[0] != s.owner.t
  {
    HeadKnown(s);
  }
}
