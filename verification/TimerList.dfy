// What the timers do, told with one flat list sorted by deadline and a clock that never
// wraps.
module TimerList {
  import opened Words
  import opened Lists
  import opened WaitQueue

  type Id = nat

  type Ticks = map<Id, nat>

  const LONGEST: nat := 0x7FFF_FFFE      // the largest init_tick below RT_TICK_MAX / 2

  // What a timeout function, or any other code, does to a timer.
  datatype Action = Start(t: Id) | Stop(t: Id) | SetTime(t: Id, ticks: nat) | SetPeriodic(t: Id, on: bool)

  type Callbacks = map<Id, seq<Action>>

  datatype Shot = Shot(t: Id, tick: nat)

  datatype Flat = Flat(
    now: nat,                 // ticks since the start
    list: seq<Id>,
    deadline: Ticks,
    init: Ticks,              // init_tick
    active: set<Id>,          // RT_TIMER_FLAG_ACTIVATED
    periodic: set<Id>,        // RT_TIMER_FLAG_PERIODIC
    log: seq<Shot>)           // timeout functions called, oldest first

  // Where a linear search puts a new deadline: behind all that are not later.
  function Point(q: seq<Id>, deadline: Ticks, d: nat): (i: nat)
    ensures i <= |q|
  {
    if q == [] || q[0] !in deadline || deadline[q[0]] > d then 0 else 1 + Point(q[1..], deadline, d)
  }

  function Started(s: Flat, t: Id): Flat {
    if t in s.active || t !in s.init then s
    else
      var d := s.now + s.init[t];
      s.(list := Inserted(s.list, Point(s.list, s.deadline, d), t), deadline := s.deadline[t := d],
         active := s.active + {t})
  }

  function Stopped(s: Flat, t: Id): Flat {
    if t !in s.active then s
    else s.(list := Without(s.list, t), active := s.active - {t})
  }

  function Acted(s: Flat, a: Action): Flat {
    match a
    case Start(t) => Started(s, t)
    case Stop(t) => Stopped(s, t)
    case SetTime(t, ticks) => s.(init := s.init[t := ticks])
    case SetPeriodic(t, on) => s.(periodic := if on then s.periodic + {t} else s.periodic - {t})
  }

  function Script(s: Flat, actions: seq<Action>): Flat
    decreases |actions|
  {
    if actions == [] then s else Script(Acted(s, actions[0]), actions[1..])
  }

  // The actions of a function take effect one after the other, the first one first.
  lemma {:induction false} ScriptInOrder(s: Flat, actions: seq<Action>, a: Action)
    ensures Script(s, actions + [a]) == Acted(Script(s, actions), a)
    decreases |actions|
  {
    if actions == [] {
      assert [a][1..] == [];
      assert actions + [a] == [a];
    } else {
      assert (actions + [a])[1..] == actions[1..] + [a] && (actions + [a])[0] == actions[0];
      ScriptInOrder(Acted(s, actions[0]), actions[1..], a);
    }
  }

  function ActionsOf(calls: Callbacks, t: Id): seq<Action> {
    if t in calls then calls[t] else []
  }

  function Popped(s: Flat): Flat
    requires s.list != []
  {
    s.(list := s.list[1..], log := s.log + [Shot(s.list[0], s.now)])
  }

  // Back on the list if periodic and not stopped by its own function.
  function Rearmed(s: Flat, t: Id): Flat {
    var s0 := s.(active := s.active - {t});
    if t in s.periodic && t in s.active then Started(s0, t) else s0
  }

  function Fired(s: Flat, calls: Callbacks): Flat
    requires s.list != []
  {
    Rearmed(Script(Popped(s), ActionsOf(calls, s.list[0])), s.list[0])
  }

  // ---- invariant ----

  ghost predicate NotLater(deadline: Ticks, t: Id, u: Id) {
    t in deadline && u in deadline && deadline[t] <= deadline[u]
  }

  ghost predicate SortedBy(q: seq<Id>, deadline: Ticks) {
    forall i, j :: 0 <= i < j < |q| ==> NotLater(deadline, q[i], q[j])
  }

  // Deadlines lie at most half the tick range ahead.
  ghost predicate InWindow(q: seq<Id>, deadline: Ticks, now: nat) {
    forall t :: t in q ==> t in deadline && now <= deadline[t] <= now + LONGEST
  }

  // What rt_timer_start asserts.
  ghost predicate TimesShort(init: Ticks) {
    forall t :: t in init ==> init[t] <= LONGEST
  }

  ghost predicate Positive(init: Ticks) {
    forall t :: t in init ==> 1 <= init[t]
  }

  // x is a timer whose function is running: it may be off the list although marked active.
  ghost predicate FlagsMatch(s: Flat, x: Ptr) {
    && (forall t :: t in s.list ==> t in s.active && t in s.init)
    && (forall t :: t in s.active ==> t in s.init && (t in s.list || x == At(t)))
  }

  ghost predicate InvBut(s: Flat, x: Ptr) {
    && NoRepeats(s.list) && SortedBy(s.list, s.deadline) && InWindow(s.list, s.deadline, s.now)
    && TimesShort(s.init) && FlagsMatch(s, x)
  }

  ghost predicate Inv(s: Flat) { InvBut(s, Null) && Positive(s.init) }

  predicate ActionAllowed(a: Action) {
    a.SetTime? ==> 1 <= a.ticks <= LONGEST
  }

  ghost predicate ScriptAllowed(actions: seq<Action>) {
    forall i :: 0 <= i < |actions| ==> ActionAllowed(actions[i])
  }

  // What a timeout function has done to its own timer, which is off the list but still
  // marked active when the function is called: nothing, stopped it, or started it again.
  datatype Own = Marked | Off | Back

  function OwnStep(o: Own, a: Action, t: Id): Own {
    if a == Start(t) then (if o == Off then Back else o)
    else if a == Stop(t) then Off
    else o
  }

  function OwnAfter(o: Own, actions: seq<Action>, t: Id): Own
    decreases |actions|
  {
    if actions == [] then o else OwnAfter(OwnStep(o, actions[0], t), actions[1..], t)
  }

  // A function does not leave its own timer started again.
  ghost predicate Allowed(calls: Callbacks) {
    forall t :: t in calls ==> ScriptAllowed(calls[t]) && OwnAfter(Marked, calls[t], t) != Back
  }

  // ---- insertion and removal ----

  lemma {:induction false} PointSplits(q: seq<Id>, deadline: Ticks, d: nat)
    requires SortedBy(q, deadline) && forall t :: t in q ==> t in deadline
    ensures var i := Point(q, deadline, d);
      && (forall k :: 0 <= k < i ==> q[k] in deadline && deadline[q[k]] <= d)
      && (forall k :: i <= k < |q| ==> q[k] in deadline && d < deadline[q[k]])
  {
    if q != [] {
      assert q[0] in q;
      var rest := q[1..];
      forall t | t in rest ensures t in deadline { assert t in q; }
      if deadline[q[0]] <= d {
        PointSplits(rest, deadline, d);
        var i := Point(rest, deadline, d);
        forall k | 0 <= k < |q|
          ensures q[k] in deadline && (k < i + 1 ==> deadline[q[k]] <= d) && (k >= i + 1 ==> d < deadline[q[k]]) {
          if k > 0 { assert q[k] == rest[k - 1]; }
        }
      } else {
        forall k | 0 <= k < |q| ensures q[k] in deadline && d < deadline[q[k]] { assert q[k] in q; }
      }
    }
  }

  lemma HeadNotLater(q: seq<Id>, deadline: Ticks, u: Id)
    requires q != [] && SortedBy(q, deadline) && u in q[1..]
    ensures NotLater(deadline, q[0], u)
  {
    var k :| 0 <= k < |q[1..]| && q[1..][k] == u;
    assert q[k + 1] == u;
  }

  lemma SortedRest(q: seq<Id>, deadline: Ticks)
    requires q != [] && SortedBy(q, deadline)
    ensures SortedBy(q[1..], deadline)
  {
    var rest := q[1..];
    forall i, j | 0 <= i < j < |rest| ensures NotLater(deadline, rest[i], rest[j]) {
      assert rest[i] == q[i + 1] && rest[j] == q[j + 1];
    }
  }

  lemma SortedCons(t: Id, r: seq<Id>, deadline: Ticks)
    requires SortedBy(r, deadline) && forall u :: u in r ==> NotLater(deadline, t, u)
    ensures SortedBy([t] + r, deadline)
  {
    var all := [t] + r;
    forall i, j | 0 <= i < j < |all| ensures NotLater(deadline, all[i], all[j]) {
      assert all[j] == r[j - 1] && r[j - 1] in r;
      if i > 0 { assert all[i] == r[i - 1]; }
    }
  }

  lemma {:induction false} WithoutSorted(q: seq<Id>, deadline: Ticks, t: Id)
    requires SortedBy(q, deadline) && NoRepeats(q)
    ensures SortedBy(Without(q, t), deadline)
  {
    if q != [] {
      var rest := q[1..];
      SortedRest(q, deadline);
      assert NoRepeats(rest);
      if q[0] != t {
        WithoutSorted(rest, deadline, t);
        hide SortedBy, NoRepeats, NotLater;
        WithoutMembers(rest, t);
        forall u | u in Without(rest, t) ensures NotLater(deadline, q[0], u) { HeadNotLater(q, deadline, u); }
        SortedCons(q[0], Without(rest, t), deadline);
      }
    }
  }

  // ---- how many deadlines are due ----

  function Due(q: seq<Id>, deadline: Ticks, now: nat): nat {
    if q == [] then 0 else (if q[0] in deadline && deadline[q[0]] <= now then 1 else 0) + Due(q[1..], deadline, now)
  }

  lemma {:induction false} DueSplits(a: seq<Id>, b: seq<Id>, deadline: Ticks, now: nat)
    ensures Due(a + b, deadline, now) == Due(a, deadline, now) + Due(b, deadline, now)
  {
    if a == [] {
      assert a + b == b;
    } else {
      assert (a + b)[1..] == a[1..] + b;
      DueSplits(a[1..], b, deadline, now);
    }
  }

  lemma {:induction false} DueSame(q: seq<Id>, deadline: Ticks, deadline': Ticks, now: nat)
    requires forall t :: t in q ==> t in deadline && t in deadline' && deadline[t] == deadline'[t]
    ensures Due(q, deadline, now) == Due(q, deadline', now)
  {
    if q != [] {
      assert q[0] in q;
      DueSame(q[1..], deadline, deadline', now);
    }
  }

  lemma DueInserted(q: seq<Id>, i: nat, t: Id, deadline: Ticks, d: nat, now: nat)
    requires i <= |q| && t !in q && d > now && forall u :: u in q ==> u in deadline
    ensures Due(Inserted(q, i, t), deadline[t := d], now) == Due(q, deadline, now)
  {
    var deadline' := deadline[t := d];
    DueSame(q, deadline, deadline', now);
    DueSplits(q[..i], q[i..], deadline', now);
    assert q == q[..i] + q[i..];
    DueSplits(q[..i], [t] + q[i..], deadline', now);
    DueSplits([t], q[i..], deadline', now);
    assert Due([t], deadline', now) == 0;
    assert Inserted(q, i, t) == q[..i] + ([t] + q[i..]);
  }

  lemma {:induction false} DueWithout(q: seq<Id>, t: Id, deadline: Ticks, now: nat)
    ensures Due(Without(q, t), deadline, now) <= Due(q, deadline, now)
  {
    if q != [] && q[0] != t {
      DueWithout(q[1..], t, deadline, now);
      var w := Without(q[1..], t);
      assert ([q[0]] + w)[1..] == w;
    }
  }

  // ---- every operation keeps the invariant ----

  function DueIn(s: Flat): nat { Due(s.list, s.deadline, s.now) }

  lemma InsertSorted(q: seq<Id>, deadline: Ticks, t: Id, d: nat)
    requires SortedBy(q, deadline) && t !in q && forall u :: u in q ==> u in deadline
    ensures SortedBy(Inserted(q, Point(q, deadline, d), t), deadline[t := d])
  {
    PointSplits(q, deadline, d);
    hide Point, Inserted;
  }

  lemma StartedKeeps(s: Flat, t: Id, x: Ptr)
    requires InvBut(s, x)
    ensures InvBut(Started(s, t), x)
    ensures Positive(s.init) ==> DueIn(Started(s, t)) == DueIn(s)
  {
    hide Inserted, SortedBy, NoRepeats, Due, Point;
    if t !in s.active && t in s.init {
      var d := s.now + s.init[t];
      var i := Point(s.list, s.deadline, d);
      assert t !in s.list;
      InsertSorted(s.list, s.deadline, t, d);
      InsertNoRepeats(s.list, i, t);
      forall u ensures u in Inserted(s.list, i, t) <==> u in s.list || u == t { InsertMembers(s.list, i, t, u); }
      if Positive(s.init) { DueInserted(s.list, i, t, s.deadline, d, s.now); }
      assert FlagsMatch(Started(s, t), x);
    }
  }

  lemma StoppedKeeps(s: Flat, t: Id, x: Ptr)
    requires InvBut(s, x)
    ensures InvBut(Stopped(s, t), x) && DueIn(Stopped(s, t)) <= DueIn(s)
  {
    WithoutMembers(s.list, t);
    WithoutSorted(s.list, s.deadline, t);
    DueWithout(s.list, t, s.deadline, s.now);
    hide Without, SortedBy, NoRepeats, Due;
  }

  lemma ActedKeeps(s: Flat, a: Action, x: Ptr)
    requires InvBut(s, x) && ActionAllowed(a)
    ensures InvBut(Acted(s, a), x) && Acted(s, a).now == s.now
    ensures Positive(s.init) ==> Positive(Acted(s, a).init) && DueIn(Acted(s, a)) <= DueIn(s)
  {
    match a
    case Start(t) => StartedKeeps(s, t, x);
    case Stop(t) => StoppedKeeps(s, t, x);
    case SetTime(t, ticks) =>
    case SetPeriodic(t, on) =>
  }

  lemma {:induction false} ScriptKeeps(s: Flat, actions: seq<Action>, x: Ptr)
    requires InvBut(s, x) && ScriptAllowed(actions)
    ensures InvBut(Script(s, actions), x) && Script(s, actions).now == s.now
    ensures Positive(s.init) ==> Positive(Script(s, actions).init) && DueIn(Script(s, actions)) <= DueIn(s)
    decreases |actions|
  {
    hide InvBut, Acted, Due, Positive;
    if actions != [] {
      RestAllowed(actions);
      ActedKeeps(s, actions[0], x);
      ScriptKeeps(Acted(s, actions[0]), actions[1..], x);
    }
  }

  lemma RestAllowed(actions: seq<Action>)
    requires actions != [] && ScriptAllowed(actions)
    ensures ScriptAllowed(actions[1..]) && ActionAllowed(actions[0])
  {
  }

  // How the flat list shows what a function has done to its own timer.
  ghost predicate OwnShows(s: Flat, o: Own, t: Id) {
    && t in s.init
    && (t in s.active <==> o != Off)
    && (t in s.list <==> o == Back)
  }

  lemma OwnActed(s: Flat, a: Action, t: Id, o: Own)
    requires InvBut(s, At(t)) && OwnShows(s, o, t)
    ensures OwnShows(Acted(s, a), OwnStep(o, a, t), t)
  {
    hide SortedBy, NoRepeats, Point, Inserted, Without;
    match a
    case Start(u) =>
      if u !in s.active && u in s.init {
        InsertMembers(s.list, Point(s.list, s.deadline, s.now + s.init[u]), u, t);
      }
    case Stop(u) => WithoutMembers(s.list, u);
    case SetTime(u, ticks) =>
    case SetPeriodic(u, on) =>
  }

  lemma {:induction false} OwnScript(s: Flat, actions: seq<Action>, t: Id, o: Own)
    requires InvBut(s, At(t)) && ScriptAllowed(actions) && OwnShows(s, o, t)
    ensures OwnShows(Script(s, actions), OwnAfter(o, actions, t), t)
    decreases |actions|
  {
    hide InvBut, Acted, Due, Positive, OwnShows, OwnStep;
    if actions != [] {
      RestAllowed(actions);
      ActedKeeps(s, actions[0], At(t));
      OwnActed(s, actions[0], t, o);
      OwnScript(Acted(s, actions[0]), actions[1..], t, OwnStep(o, actions[0], t));
    }
  }

  lemma PoppedKeeps(s: Flat)
    requires InvBut(s, Null) && s.list != [] && s.list[0] in s.deadline && s.deadline[s.list[0]] <= s.now
    ensures InvBut(Popped(s), At(s.list[0])) && DueIn(Popped(s)) < DueIn(s) && OwnShows(Popped(s), Marked, s.list[0])
  {
    var rest := s.list[1..];
    assert s.list == [s.list[0]] + rest;
    assert forall t :: t in s.list <==> t in rest || t == s.list[0];
    assert s.list[0] !in rest;
    SortedRest(s.list, s.deadline);
    assert NoRepeats(rest);
    hide SortedBy, NoRepeats;
  }

  lemma RearmedKeeps(s: Flat, t: Id)
    requires InvBut(s, At(t)) && t !in s.list
    ensures InvBut(Rearmed(s, t), Null) && Rearmed(s, t).now == s.now && Rearmed(s, t).init == s.init
    ensures Positive(s.init) ==> DueIn(Rearmed(s, t)) == DueIn(s)
  {
    var s0 := s.(active := s.active - {t});
    assert InvBut(s0, Null);
    hide InvBut;
    StartedKeeps(s0, t, Null);
  }

  // A timer that its function has started again would be inserted a second time, or stay
  // on the list without its mark.
  lemma RearmedBreaks(s: Flat, t: Id)
    requires InvBut(s, At(t)) && t in s.list
    ensures !InvBut(Rearmed(s, t), Null)
  {
    hide SortedBy, Point, Inserted;
    if t in s.periodic && t in s.active {
      var d := s.now + s.init[t];
      var i := Point(s.list, s.deadline, d);
      var k :| 0 <= k < |s.list| && s.list[k] == t;
      var q := Inserted(s.list, i, t);
      assert q[i] == t && q[if k < i then k else k + 1] == t;
      assert !NoRepeats(q);
    }
  }

  ghost predicate HeadDue(s: Flat) {
    s.list != [] && s.list[0] in s.deadline && s.deadline[s.list[0]] <= s.now
  }

  lemma FiredKeeps(s: Flat, calls: Callbacks)
    requires InvBut(s, Null) && Allowed(calls) && HeadDue(s)
    ensures InvBut(Fired(s, calls), Null) && Fired(s, calls).now == s.now
    ensures Positive(s.init) ==> Positive(Fired(s, calls).init) && DueIn(Fired(s, calls)) < DueIn(s)
  {
    hide InvBut, Due, Script, Rearmed, Positive, OwnAfter;
    var t := s.list[0];
    CallAllowed(calls, t);
    AfterCall(s, calls);
    RearmedKeeps(Script(Popped(s), ActionsOf(calls, t)), t);
  }

  // The state after the timeout function of the first timer, whatever it did to the timer.
  lemma AfterCall(s: Flat, calls: Callbacks)
    requires InvBut(s, Null) && HeadDue(s) && ScriptAllowed(ActionsOf(calls, s.list[0]))
    ensures var t := s.list[0]; var s1 := Script(Popped(s), ActionsOf(calls, t));
      && InvBut(s1, At(t)) && s1.now == s.now
      && (t in s1.list <==> OwnAfter(Marked, ActionsOf(calls, t), t) == Back)
      && (Positive(s.init) ==> Positive(s1.init) && DueIn(s1) < DueIn(s))
  {
    hide InvBut, Due, Script, Positive, OwnAfter;
    var t := s.list[0];
    PoppedKeeps(s);
    ScriptKeeps(Popped(s), ActionsOf(calls, t), At(t));
    OwnScript(Popped(s), ActionsOf(calls, t), t, Marked);
  }

  lemma CallAllowed(calls: Callbacks, t: Id)
    requires Allowed(calls)
    ensures ScriptAllowed(ActionsOf(calls, t)) && OwnAfter(Marked, ActionsOf(calls, t), t) != Back
  {
  }

  // A turn of the check keeps the invariant exactly when the function called does not
  // leave its own timer started again.
  lemma FiredKeepsIff(s: Flat, calls: Callbacks)
    requires InvBut(s, Null) && HeadDue(s) && ScriptAllowed(ActionsOf(calls, s.list[0]))
    ensures InvBut(Fired(s, calls), Null) <==> OwnAfter(Marked, ActionsOf(calls, s.list[0]), s.list[0]) != Back
  {
    hide InvBut, Due, Script, Rearmed, Positive, OwnAfter;
    var t := s.list[0];
    var s1 := Script(Popped(s), ActionsOf(calls, t));
    AfterCall(s, calls);
    if t in s1.list { RearmedBreaks(s1, t); } else { RearmedKeeps(s1, t); }
  }

  lemma HeadKnown(s: Flat)
    requires InvBut(s, Null) && s.list != []
    ensures s.list[0] in s.deadline && s.list[0] in s.init
  {
    assert s.list[0] in s.list;
  }

  // ---- the check ----

  // Calling the timeout functions of all that is due, earliest first.
  function Checked(s: Flat, calls: Callbacks): Flat
    requires Inv(s) && Allowed(calls)
    decreases DueIn(s)
  {
    if s.list == [] then s
    else
      HeadKnown(s);
      if s.deadline[s.list[0]] <= s.now then
        FiredKeeps(s, calls);
        Checked(Fired(s, calls), calls)
      else s
  }

  ghost predicate NothingDue(s: Flat) {
    forall t :: t in s.list ==> t in s.deadline && s.now < s.deadline[t]
  }

  lemma {:induction false} CheckedKeeps(s: Flat, calls: Callbacks)
    requires Inv(s) && Allowed(calls)
    ensures Inv(Checked(s, calls)) && NothingDue(Checked(s, calls)) && Checked(s, calls).now == s.now
    decreases DueIn(s)
  {
    if s.list != [] {
      HeadKnown(s);
      if s.deadline[s.list[0]] <= s.now {
        FiredKeeps(s, calls);
        CheckedKeeps(Fired(s, calls), calls);
      } else {
        HeadEarliest(s);
      }
    }
  }

  lemma HeadEarliest(s: Flat)
    requires InvBut(s, Null) && s.list != [] && s.list[0] in s.deadline && s.now < s.deadline[s.list[0]]
    ensures NothingDue(s)
  {
    forall t | t in s.list ensures t in s.deadline && s.now < s.deadline[t] {
      var i :| 0 <= i < |s.list| && s.list[i] == t;
      assert i > 0 ==> NotLater(s.deadline, s.list[0], s.list[i]);
    }
  }

  // ---- operations and ticks ----

  datatype Op = Do(a: Action) | Tick(calls: Callbacks)

  ghost predicate OpAllowed(op: Op) {
    match op
    case Do(a) => ActionAllowed(a)
    case Tick(calls) => Allowed(calls)
  }

  ghost predicate Settled(s: Flat) { Inv(s) && NothingDue(s) }

  // rt_tick_increase: the clock goes on by one, and the timers are checked.
  function Ticked(s: Flat, calls: Callbacks): Flat
    requires Settled(s) && Allowed(calls)
  {
    AdvanceKeeps(s);
    Checked(s.(now := s.now + 1), calls)
  }

  lemma AdvanceKeeps(s: Flat)
    requires Settled(s)
    ensures Inv(s.(now := s.now + 1))
  {
  }

  function Done(s: Flat, op: Op): Flat
    requires Settled(s) && OpAllowed(op)
  {
    match op
    case Do(a) => Acted(s, a)
    case Tick(calls) => Ticked(s, calls)
  }

  lemma StartedNothingDue(s: Flat, t: Id)
    requires Settled(s)
    ensures NothingDue(Started(s, t))
  {
    if t !in s.active && t in s.init {
      var i := Point(s.list, s.deadline, s.now + s.init[t]);
      forall u | u in Inserted(s.list, i, t) ensures u in s.list || u == t { InsertMembers(s.list, i, t, u); }
      hide Inserted, Point;
    }
  }

  lemma StoppedNothingDue(s: Flat, t: Id)
    requires Settled(s)
    ensures NothingDue(Stopped(s, t))
  {
    hide Without;
    WithoutMembers(s.list, t);
  }

  lemma SetNothingDue(s: Flat, s': Flat)
    requires NothingDue(s) && s'.list == s.list && s'.deadline == s.deadline && s'.now == s.now
    ensures NothingDue(s')
  {
  }

  lemma DoneKeeps(s: Flat, op: Op)
    requires Settled(s) && OpAllowed(op)
    ensures Settled(Done(s, op)) && Done(s, op).now == s.now + if op.Tick? then 1 else 0
  {
    hide InvBut, NothingDue, Checked, Started, Stopped, Due, Allowed, Positive;
    match op
    case Do(a) =>
      ActedKeeps(s, a, Null);
      match a {
        case Start(t) => StartedNothingDue(s, t);
        case Stop(t) => StoppedNothingDue(s, t);
        case SetTime(t, ticks) => SetNothingDue(s, s.(init := s.init[t := ticks]));
        case SetPeriodic(t, on) => SetNothingDue(s, Acted(s, a));
      }
    case Tick(calls) =>
      AdvanceKeeps(s);
      CheckedKeeps(s.(now := s.now + 1), calls);
  }

  ghost predicate OpsAllowed(ops: seq<Op>) {
    forall i :: 0 <= i < |ops| ==> OpAllowed(ops[i])
  }

  lemma OpsRest(ops: seq<Op>)
    requires OpsAllowed(ops) && ops != []
    ensures OpsAllowed(ops[1..]) && OpAllowed(ops[0])
  {
  }

  function Exec(s: Flat, ops: seq<Op>): Flat
    requires Settled(s) && OpsAllowed(ops)
    decreases |ops|
  {
    if ops == [] then s
    else
      OpsRest(ops);
      DoneKeeps(s, ops[0]);
      Exec(Done(s, ops[0]), ops[1..])
  }

  lemma {:induction false} ExecInOrder(s: Flat, ops: seq<Op>, op: Op)
    requires Settled(s) && OpsAllowed(ops) && OpAllowed(op)
    ensures OpsAllowed(ops + [op]) && Settled(Exec(s, ops)) && Exec(s, ops + [op]) == Done(Exec(s, ops), op)
    decreases |ops|
  {
    hide Settled, Done, OpAllowed;
    ExecKeeps(s, ops);
    assert OpsAllowed(ops + [op]);
    if ops == [] {
      assert [op][1..] == [] && ops + [op] == [op];
      DoneKeeps(s, op);
    } else {
      assert (ops + [op])[1..] == ops[1..] + [op] && (ops + [op])[0] == ops[0];
      OpsRest(ops);
      DoneKeeps(s, ops[0]);
      ExecInOrder(Done(s, ops[0]), ops[1..], op);
    }
  }

  function TickCount(ops: seq<Op>): nat {
    if ops == [] then 0 else (if ops[0].Tick? then 1 else 0) + TickCount(ops[1..])
  }

  // Every run keeps the invariant, and leaves no deadline behind.
  lemma {:induction false} ExecKeeps(s: Flat, ops: seq<Op>)
    requires Settled(s) && OpsAllowed(ops)
    ensures Settled(Exec(s, ops)) && Exec(s, ops).now == s.now + TickCount(ops)
    decreases |ops|
  {
    if ops != [] {
      OpsRest(ops);
      DoneKeeps(s, ops[0]);
      hide Settled, Done, OpAllowed;
      ExecKeeps(Done(s, ops[0]), ops[1..]);
    }
  }

  // ---- one timer among the others ----

  function ShotsOf(log: seq<Shot>, t: Id): seq<nat> {
    if log == [] then []
    else if log[0].t == t then [log[0].tick] + ShotsOf(log[1..], t)
    else ShotsOf(log[1..], t)
  }

  lemma {:induction false} ShotsAppend(log: seq<Shot>, shot: Shot, t: Id)
    ensures ShotsOf(log + [shot], t) == ShotsOf(log, t) + if shot.t == t then [shot.tick] else []
  {
    if log == [] {
      assert log + [shot] == [shot] && [shot][1..] == [];
    } else {
      assert (log + [shot])[1..] == log[1..] + [shot];
      ShotsAppend(log[1..], shot, t);
    }
  }

  predicate Mentions(a: Action, t: Id) { a.t == t }

  ghost predicate Ignores(actions: seq<Action>, t: Id) {
    forall i :: 0 <= i < |actions| ==> !Mentions(actions[i], t)
  }

  ghost predicate AllIgnore(calls: Callbacks, t: Id) {
    forall u :: u in calls ==> Ignores(calls[u], t)
  }

  // Nothing about the timer t differs.
  ghost predicate SameView(s: Flat, s': Flat, t: Id) {
    && s'.now == s.now
    && (t in s.list <==> t in s'.list)
    && (t in s.active <==> t in s'.active)
    && (t in s.list ==> t in s.deadline && t in s'.deadline && s.deadline[t] == s'.deadline[t])
    && (t in s.init ==> t in s'.init && s.init[t] == s'.init[t])
    && (t in s.periodic <==> t in s'.periodic)
    && ShotsOf(s'.log, t) == ShotsOf(s.log, t)
  }

  lemma ViewTrans(a: Flat, b: Flat, c: Flat, t: Id)
    requires SameView(a, b, t) && SameView(b, c, t)
    ensures SameView(a, c, t)
  {
  }

  lemma ActedView(s: Flat, a: Action, x: Ptr, t: Id)
    requires InvBut(s, x) && !Mentions(a, t)
    ensures SameView(s, Acted(s, a), t)
  {
    hide SortedBy, NoRepeats, ShotsOf;
    match a
    case Start(u) =>
      if u !in s.active && u in s.init {
        InsertMembers(s.list, Point(s.list, s.deadline, s.now + s.init[u]), u, t);
      }
    case Stop(u) => WithoutMembers(s.list, u);
    case SetTime(u, ticks) =>
    case SetPeriodic(u, on) =>
  }

  lemma {:induction false} ScriptView(s: Flat, actions: seq<Action>, x: Ptr, t: Id)
    requires InvBut(s, x) && ScriptAllowed(actions) && Ignores(actions, t)
    ensures SameView(s, Script(s, actions), t)
    decreases |actions|
  {
    if actions == [] {
      assert t in s.list ==> t in s.deadline;
    } else {
      RestAllowed(actions);
      RestIgnores(actions, t);
      ActedKeeps(s, actions[0], x);
      ActedView(s, actions[0], x, t);
      hide SameView, InvBut, Acted, Due, Positive;
      ScriptView(Acted(s, actions[0]), actions[1..], x, t);
      ViewTrans(s, Acted(s, actions[0]), Script(s, actions), t);
    }
  }

  lemma RestIgnores(actions: seq<Action>, t: Id)
    requires actions != [] && Ignores(actions, t)
    ensures Ignores(actions[1..], t) && !Mentions(actions[0], t)
  {
  }

  lemma PoppedView(s: Flat, t: Id)
    requires InvBut(s, Null) && s.list != [] && s.list[0] != t
    ensures SameView(s, Popped(s), t)
  {
    assert s.list == [s.list[0]] + s.list[1..];
    ShotsAppend(s.log, Shot(s.list[0], s.now), t);
  }

  lemma RearmedView(s: Flat, u: Id, t: Id)
    requires InvBut(s, At(u)) && u !in s.list && u != t
    ensures SameView(s, Rearmed(s, u), t)
  {
    var s0 := s.(active := s.active - {u});
    assert InvBut(s0, Null) && SameView(s, s0, t);
    hide InvBut, SameView;
    if u in s.periodic && u in s.active {
      ActedView(s0, Start(u), Null, t);
      ViewTrans(s, s0, Started(s0, u), t);
    }
  }

  lemma FiredView(s: Flat, calls: Callbacks, t: Id)
    requires InvBut(s, Null) && Allowed(calls) && AllIgnore(calls, t) && HeadDue(s) && s.list[0] != t
    ensures SameView(s, Fired(s, calls), t)
  {
    hide InvBut, SameView, Due, Script, Rearmed, OwnAfter, Positive;
    var u := s.list[0];
    var s1 := Popped(s);
    var actions := ActionsOf(calls, u);
    PoppedKeeps(s);
    PoppedView(s, t);
    CallAllowed(calls, u);
    AfterCall(s, calls);
    ScriptView(s1, actions, At(u), t);
    RearmedView(Script(s1, actions), u, t);
    ViewTrans(s, s1, Script(s1, actions), t);
    ViewTrans(s, Script(s1, actions), Fired(s, calls), t);
  }

  // A timer that is not due is left alone by the check.
  lemma {:induction false} CheckedView(s: Flat, calls: Callbacks, t: Id)
    requires Inv(s) && Allowed(calls) && AllIgnore(calls, t)
    requires t in s.list ==> t in s.deadline && s.now < s.deadline[t]
    ensures SameView(s, Checked(s, calls), t)
    decreases DueIn(s)
  {
    if s.list != [] {
      HeadKnown(s);
      if s.deadline[s.list[0]] <= s.now {
        FiredKeeps(s, calls);
        FiredView(s, calls, t);
        var s1 := Fired(s, calls);
        assert t in s1.list ==> t in s1.deadline && s1.now < s1.deadline[t];
        hide InvBut, SameView, Due, Fired, Positive;
        CheckedView(s1, calls, t);
        ViewTrans(s, s1, Checked(s, calls), t);
      } else {
        assert t in s.list ==> t in s.deadline;
      }
    }
  }

  // A timer whose deadline is now is called once, at this tick; a periodic one is then
  // due one period later, any other is no longer active.
  ghost predicate FiresNow(s: Flat, s': Flat, t: Id) {
    && s'.now == s.now && t in s.init && t in s'.init && s'.init[t] == s.init[t]
    && (t in s.periodic <==> t in s'.periodic)
    && ShotsOf(s'.log, t) == ShotsOf(s.log, t) + [s.now]
    && if t in s.periodic
       then t in s'.list && t in s'.deadline && s'.deadline[t] == s.now + s.init[t]
       else t !in s'.list && t !in s'.active
  }

  lemma PoppedSelf(s: Flat, t: Id)
    requires s.list != [] && s.list[0] == t
    ensures ShotsOf(Popped(s).log, t) == ShotsOf(s.log, t) + [s.now]
  {
    hide ShotsOf;
    ShotsAppend(s.log, Shot(t, s.now), t);
  }

  lemma RearmedSelf(s: Flat, t: Id)
    requires InvBut(s, At(t)) && t in s.active && t !in s.list
    ensures t in s.init
    ensures var s' := Rearmed(s, t);
      && s'.now == s.now && s'.init == s.init && s'.periodic == s.periodic && s'.log == s.log
      && if t in s.periodic
         then t in s'.list && t in s'.deadline && s'.deadline[t] == s.now + s.init[t]
         else t !in s'.list && t !in s'.active
  {
    hide SortedBy, NoRepeats, InWindow, TimesShort, Point, Inserted;
    if t in s.init {
      InsertMembers(s.list, Point(s.list, s.deadline, s.now + s.init[t]), t, t);
    }
  }

  lemma ThisFires(s: Flat, calls: Callbacks, t: Id)
    requires InvBut(s, Null) && Allowed(calls) && AllIgnore(calls, t) && s.list != [] && s.list[0] == t
    requires t in s.deadline && s.deadline[t] == s.now
    ensures FiresNow(s, Fired(s, calls), t)
  {
    hide InvBut, Due, Script, Rearmed, ShotsOf, OwnAfter, Positive;
    var s1 := Popped(s);
    var actions := ActionsOf(calls, t);
    PoppedKeeps(s);
    PoppedSelf(s, t);
    CallAllowed(calls, t);
    AfterCall(s, calls);
    ScriptView(s1, actions, At(t), t);
    RearmedSelf(Script(s1, actions), t);
  }

  lemma InitKnown(s: Flat, t: Id)
    requires Inv(s) && t in s.list
    ensures t in s.init && 1 <= s.init[t]
  {
  }

  // If some timer is due, the first is.
  lemma HeadIsDue(s: Flat, t: Id)
    requires InvBut(s, Null) && t in s.list && t in s.deadline && s.deadline[t] <= s.now
    ensures s.list != [] && s.list[0] in s.deadline && s.deadline[s.list[0]] <= s.now
  {
    HeadKnown(s);
    if s.deadline[s.list[0]] > s.now { HeadEarliest(s); }
  }

  lemma {:induction false} CheckedFires(s: Flat, calls: Callbacks, t: Id)
    requires Inv(s) && Allowed(calls) && AllIgnore(calls, t)
    requires t in s.list && t in s.deadline && s.deadline[t] == s.now
    ensures FiresNow(s, Checked(s, calls), t)
    decreases DueIn(s)
  {
    hide InvBut, Due, Fired, ShotsOf, Allowed, AllIgnore, Positive;
    HeadKnown(s);
    HeadIsDue(s, t);
    FiredKeeps(s, calls);
    InitKnown(s, t);
    var s1 := Fired(s, calls);
    if s.list[0] == t {
      ThisFires(s, calls, t);
      CheckedView(s1, calls, t);
    } else {
      FiredView(s, calls, t);
      CheckedFires(s1, calls, t);
    }
  }

  // ---- exact firing over runs ----

  ghost predicate OpIgnores(op: Op, t: Id) {
    match op
    case Do(a) => !Mentions(a, t)
    case Tick(calls) => AllIgnore(calls, t)
  }

  ghost predicate OpsIgnore(ops: seq<Op>, t: Id) {
    forall i :: 0 <= i < |ops| ==> OpIgnores(ops[i], t)
  }

  lemma OpsIgnoreRest(ops: seq<Op>, t: Id)
    requires ops != [] && OpsIgnore(ops, t)
    ensures OpIgnores(ops[0], t) && OpsIgnore(ops[1..], t)
  {
  }

  // d, d + p, d + 2p, ... up to last
  function Every(d: nat, p: nat, last: nat): seq<nat>
    requires p > 0
    decreases if d > last then 0 else last - d + 1
  {
    if d > last then [] else [d] + Every(d + p, p, last)
  }

  // One operation, seen from one timer with deadline d.
  lemma NotYet(s: Flat, t: Id)
    requires Settled(s) && t in s.list
    ensures t in s.deadline && s.now < s.deadline[t]
  {
  }

  lemma DoneExact(s: Flat, op: Op, t: Id)
    requires Settled(s) && OpAllowed(op) && OpIgnores(op, t) && t in s.list && t in s.deadline
    ensures var s' := Done(s, op); var due := op.Tick? && s.deadline[t] == s.now + 1;
      && (!due ==> SameView(s.(now := s'.now), s', t))
      && (due ==> FiresNow(s.(now := s'.now), s', t))
  {
    hide NothingDue, InvBut, SameView, FiresNow, Checked, Acted, ShotsOf, AllIgnore, Allowed, Due, Positive;
    NotYet(s, t);
    match op
    case Do(a) =>
      ActedKeeps(s, a, Null);
      ActedView(s, a, Null, t);
    case Tick(calls) =>
      AdvanceKeeps(s);
      var s1 := s.(now := s.now + 1);
      CheckedKeeps(s1, calls);
      if s.deadline[t] == s.now + 1 { CheckedFires(s1, calls, t); } else { CheckedView(s1, calls, t); }
  }

  // An inactive timer that nothing mentions stays inactive and is not called.
  lemma DoneIdle(s: Flat, op: Op, t: Id)
    requires Settled(s) && OpAllowed(op) && OpIgnores(op, t) && t !in s.list
    ensures SameView(s.(now := Done(s, op).now), Done(s, op), t)
  {
    hide NothingDue, InvBut, SameView, Checked, Acted, ShotsOf, AllIgnore, Allowed, Due, Positive;
    match op
    case Do(a) =>
      ActedKeeps(s, a, Null);
      ActedView(s, a, Null, t);
    case Tick(calls) =>
      AdvanceKeeps(s);
      CheckedKeeps(s.(now := s.now + 1), calls);
      CheckedView(s.(now := s.now + 1), calls, t);
  }

  lemma {:induction false} StaysIdle(s: Flat, ops: seq<Op>, t: Id)
    requires Settled(s) && OpsAllowed(ops) && OpsIgnore(ops, t) && t !in s.list && t !in s.active
    ensures t !in Exec(s, ops).active && ShotsOf(Exec(s, ops).log, t) == ShotsOf(s.log, t)
    decreases |ops|
  {
    if ops != [] {
      OpsRest(ops);
      OpsIgnoreRest(ops, t);
      DoneKeeps(s, ops[0]);
      DoneIdle(s, ops[0], t);
      hide Settled, Done, OpAllowed, ShotsOf;
      StaysIdle(Done(s, ops[0]), ops[1..], t);
    }
  }

  // Where t stands: on the list with this deadline, and called at these ticks so far.
  ghost predicate Stands(s: Flat, t: Id, d: nat, p: nat, periodic: bool, shots: seq<nat>) {
    && t in s.list && t in s.deadline && s.deadline[t] == d && t in s.init && s.init[t] == p
    && (t in s.periodic <==> periodic) && ShotsOf(s.log, t) == shots
  }

  lemma DoneStands(s: Flat, op: Op, t: Id, d: nat, p: nat, periodic: bool, shots: seq<nat>)
    requires Settled(s) && OpAllowed(op) && OpIgnores(op, t) && Stands(s, t, d, p, periodic, shots)
    ensures var s' := Done(s, op);
      && s.now < d && s'.now == s.now + (if op.Tick? then 1 else 0)
      && (s'.now < d ==> Stands(s', t, d, p, periodic, shots))
      && (s'.now == d && periodic ==> Stands(s', t, d + p, p, periodic, shots + [d]))
      && (s'.now == d && !periodic ==> t !in s'.list && t !in s'.active && ShotsOf(s'.log, t) == shots + [d])
  {
    assert s.now < s.deadline[t];
    hide Settled, Done, ShotsOf;
    DoneKeeps(s, op);
    DoneExact(s, op, t);
  }

  function Expected(d: nat, p: nat, periodic: bool, end: nat): seq<nat>
    requires p > 0
  {
    if periodic then Every(d, p, end) else if d <= end then [d] else []
  }

  lemma ExpectedNone(s: Flat, t: Id, d: nat, p: nat, periodic: bool, shots: seq<nat>)
    requires Settled(s) && Stands(s, t, d, p, periodic, shots) && p > 0
    ensures shots + Expected(d, p, periodic, s.now) == shots && ShotsOf(s.log, t) == shots
  {
    assert s.now < s.deadline[t];
  }

  lemma ExpectedStep(d: nat, p: nat, periodic: bool, end: nat, shots: seq<nat>)
    requires p > 0
    ensures d <= end && periodic ==>
              (shots + [d]) + Expected(d + p, p, periodic, end) == shots + Expected(d, p, periodic, end)
    ensures d <= end && !periodic ==> Expected(d, p, periodic, end) == [d]
  {
  }

  // With one check per tick, a timer that nobody stops or starts again is called exactly
  // at its deadline, however long that is after the start and however the counter wraps;
  // and a periodic one at every period after that, a one-shot one never again.
  lemma {:induction false} RunExact(s: Flat, ops: seq<Op>, t: Id, d: nat, p: nat, periodic: bool, shots: seq<nat>)
    requires Settled(s) && OpsAllowed(ops) && OpsIgnore(ops, t) && Stands(s, t, d, p, periodic, shots) && p > 0
    ensures ShotsOf(Exec(s, ops).log, t) == shots + Expected(d, p, periodic, s.now + TickCount(ops))
    ensures s.now + TickCount(ops) < d ==> Stands(Exec(s, ops), t, d, p, periodic, shots)
    decreases |ops|
  {
    hide Settled, Done, OpAllowed, ShotsOf, Stands, OpsAllowed, OpsIgnore, OpIgnores, Expected;
    if ops == [] {
      ExpectedNone(s, t, d, p, periodic, shots);
    } else {
      var op, rest := ops[0], ops[1..];
      OpsRest(ops);
      OpsIgnoreRest(ops, t);
      DoneKeeps(s, op);
      var s1 := Done(s, op);
      ExpectedStep(d, p, periodic, s.now + TickCount(ops), shots);
      DoneStands(s, op, t, d, p, periodic, shots);
      if s1.now < d {
        RunExact(s1, rest, t, d, p, periodic, shots);
      } else if periodic {
        RunExact(s1, rest, t, d + p, p, periodic, shots + [d]);
      } else {
        StaysIdle(s1, rest, t);
      }
    }
  }

  lemma StartStands(s: Flat, t: Id)
    requires Settled(s) && t !in s.active && t in s.init
    ensures Settled(Started(s, t)) && Started(s, t).now == s.now && s.init[t] > 0
    ensures Stands(Started(s, t), t, s.now + s.init[t], s.init[t], t in s.periodic, ShotsOf(s.log, t))
  {
    hide ShotsOf, Inserted, Point;
    StartedKeeps(s, t, Null);
    StartedNothingDue(s, t);
    InsertMembers(s.list, Point(s.list, s.deadline, s.now + s.init[t]), t, t);
    assert 1 <= s.init[t];
  }

  // From the start: called first init_tick ticks later.
  lemma StartedFires(s: Flat, t: Id, ops: seq<Op>)
    requires Settled(s) && t !in s.active && t in s.init && OpsAllowed(ops) && OpsIgnore(ops, t)
    ensures Settled(Started(s, t)) && s.init[t] > 0
    ensures ShotsOf(Exec(Started(s, t), ops).log, t) ==
      ShotsOf(s.log, t) + Expected(s.now + s.init[t], s.init[t], t in s.periodic, s.now + TickCount(ops))
  {
    hide Settled, ShotsOf, Exec, OpsAllowed, OpsIgnore, InvBut, Stands, Expected, Started;
    StartStands(s, t);
    RunExact(Started(s, t), ops, t, s.now + s.init[t], s.init[t], t in s.periodic, ShotsOf(s.log, t));
  }

  // d, d + p, d + 2p and so on: as many periods as end by then.
  lemma {:induction false} EveryMeans(d: nat, p: nat, last: nat)
    requires p > 0
    ensures forall k :: 0 <= k < |Every(d, p, last)| ==> Every(d, p, last)[k] == d + k * p
    ensures |Every(d, p, last)| * p + d > last
    ensures Every(d, p, last) != [] ==> (|Every(d, p, last)| - 1) * p + d <= last
    decreases if d > last then 0 else last - d + 1
  {
    if d <= last {
      var rest := Every(d + p, p, last);
      EveryMeans(d + p, p, last);
      forall k | 0 <= k < |Every(d, p, last)| ensures Every(d, p, last)[k] == d + k * p {
        if k > 0 { OneMore(k, p); }
      }
      OneMore(|rest| + 1, p);
      if rest != [] { OneMore(|rest|, p); }
    }
  }

  lemma OneMore(k: nat, p: nat)
    requires k > 0
    ensures k * p == (k - 1) * p + p
  {
  }

  // ---- what a stop leaves alone ----

  // A stop takes the timer off the list and clears its mark; its time, its period flag,
  // the other timers in their order, the clock and the log stay.
  lemma StoppedMeans(s: Flat, t: Id, x: Ptr)
    requires InvBut(s, x)
    ensures var s' := Stopped(s, t);
      && s'.now == s.now && s'.init == s.init && s'.periodic == s.periodic && s'.log == s.log
      && s'.deadline == s.deadline && s'.active == s.active - {t} && t !in s'.list
      && (t !in s.list ==> s'.list == s.list)
      && (forall i :: 0 <= i < |s.list| && s.list[i] == t ==> s'.list == s.list[..i] + s.list[i + 1..])
  {
    WithoutMembers(s.list, t);
    forall i | 0 <= i < |s.list| && s.list[i] == t ensures Without(s.list, t) == s.list[..i] + s.list[i + 1..] {
      WithoutSplits(s.list, i);
    }
    hide SortedBy, NoRepeats, Without;
  }

  lemma StoppedSettled(s: Flat, t: Id)
    requires Settled(s)
    ensures var s' := Stopped(s, t);
      && Settled(s') && t !in s'.list && t !in s'.active
      && s'.now == s.now && s'.init == s.init && s'.periodic == s.periodic && s'.log == s.log
  {
    StoppedKeeps(s, t, Null);
    StoppedNothingDue(s, t);
    StoppedMeans(s, t, Null);
    hide InvBut, NothingDue, Stopped, Due;
  }

  // Left alone after that, it is never called.
  lemma StoppedNeverFires(s: Flat, t: Id, ops: seq<Op>)
    requires Settled(s) && OpsAllowed(ops) && OpsIgnore(ops, t)
    ensures Settled(Stopped(s, t))
    ensures ShotsOf(Exec(Stopped(s, t), ops).log, t) == ShotsOf(s.log, t)
  {
    hide Settled, Stopped, OpsAllowed, OpsIgnore, ShotsOf, Exec;
    StoppedSettled(s, t);
    StaysIdle(Stopped(s, t), ops, t);
  }

  // Started again instead, it is called as a timer that was never stopped: a periodic one
  // at every period, any other once.
  lemma RestartedFires(s: Flat, t: Id, ops: seq<Op>)
    requires Settled(s) && t in s.init && OpsAllowed(ops) && OpsIgnore(ops, t)
    ensures s.init[t] > 0 && Settled(Started(Stopped(s, t), t))
    ensures ShotsOf(Exec(Started(Stopped(s, t), t), ops).log, t) ==
      ShotsOf(s.log, t) + Expected(s.now + s.init[t], s.init[t], t in s.periodic, s.now + TickCount(ops))
  {
    hide Settled, Stopped, Started, OpsAllowed, OpsIgnore, ShotsOf, Exec, Expected;
    StoppedSettled(s, t);
    StartedFires(Stopped(s, t), t, ops);
  }

  // A timer stopped by its own function is off the list and not marked, periodic or not.
  lemma StoppedByItself(s: Flat, calls: Callbacks)
    requires InvBut(s, Null) && HeadDue(s) && ScriptAllowed(ActionsOf(calls, s.list[0]))
    requires OwnAfter(Marked, ActionsOf(calls, s.list[0]), s.list[0]) == Off
    ensures s.list[0] !in Fired(s, calls).list && s.list[0] !in Fired(s, calls).active
  {
    hide InvBut, Due, Script, Positive, OwnAfter;
    var t := s.list[0];
    PoppedKeeps(s);
    ScriptKeeps(Popped(s), ActionsOf(calls, t), At(t));
    OwnScript(Popped(s), ActionsOf(calls, t), t, Marked);
  }

  // A start marks the timer, gives it its deadline and puts it on the list; nothing else
  // changes, and nothing at all for a timer that is marked already.
  lemma StartedMeans(s: Flat, t: Id, x: Ptr)
    requires InvBut(s, x)
    ensures var s' := Started(s, t);
      && s'.now == s.now && s'.init == s.init && s'.periodic == s.periodic && s'.log == s.log
      && (t in s.active ==> s' == s)
      && (t !in s.active && t in s.init ==>
            && s'.active == s.active + {t} && s'.deadline == s.deadline[t := s.now + s.init[t]]
            && exists i: nat :: i <= |s.list| && s'.list == s.list[..i] + [t] + s.list[i..])
  {
    if t !in s.active && t in s.init {
      var i := Point(s.list, s.deadline, s.now + s.init[t]);
      assert Inserted(s.list, i, t) == s.list[..i] + [t] + s.list[i..];
    }
  }

  // A timer started joins behind every timer due no later, and before every other.
  lemma StartOrder(s: Flat, t: Id, k: nat)
    requires Inv(s) && t !in s.active && t in s.init && k < |s.list|
    ensures s.list[k] in s.deadline
    ensures var s' := Started(s, t); var d := s.now + s.init[t]; var n := Point(s.list, s.deadline, d);
      && |s'.list| == |s.list| + 1 && s'.list[n] == t
      && (s.deadline[s.list[k]] <= d ==> k < n && s'.list[k] == s.list[k])
      && (s.deadline[s.list[k]] > d ==> n <= k && s'.list[k + 1] == s.list[k])
  {
    hide Inserted, Point, SortedBy, NoRepeats, TimesShort, FlagsMatch, Positive;
    assert s.list[k] in s.list;
    PointSplits(s.list, s.deadline, s.now + s.init[t]);
  }

  // ---- ties ----

  ghost predicate Before(q: seq<Id>, t: Id, u: Id) {
    exists i, j :: 0 <= i < j < |q| && q[i] == t && q[j] == u
  }

  // Since the log was `log`, t was called at tick d and later in the same tick u.
  ghost predicate CalledInOrder(log: seq<Shot>, log': seq<Shot>, t: Id, u: Id, d: nat) {
    exists i, j :: |log| <= i < j < |log'| && log'[i] == Shot(t, d) && log'[j] == Shot(u, d)
  }

  lemma InsertedBefore(q: seq<Id>, k: nat, x: Id, t: Id, u: Id)
    requires k <= |q| && Before(q, t, u)
    ensures Before(Inserted(q, k, x), t, u)
  {
    var i, j :| 0 <= i < j < |q| && q[i] == t && q[j] == u;
    hide Inserted;
    var q', i', j' := Inserted(q, k, x), if i < k then i else i + 1, if j < k then j else j + 1;
    assert q'[i'] == t && q'[j'] == u;
  }

  lemma WithoutBefore(q: seq<Id>, x: Id, t: Id, u: Id)
    requires NoRepeats(q) && Before(q, t, u) && x != t && x != u
    ensures Before(Without(q, x), t, u)
  {
    WithoutMembers(q, x);
    if x in q {
      var k :| 0 <= k < |q| && q[k] == x;
      WithoutSplits(q, k);
      var i, j :| 0 <= i < j < |q| && q[i] == t && q[j] == u;
      hide Without, NoRepeats, Before;
      DroppedBefore(q, k, t, u, i, j);
    }
  }

  lemma DroppedBefore(q: seq<Id>, k: nat, t: Id, u: Id, i: nat, j: nat)
    requires k < |q| && i < j < |q| && q[i] == t && q[j] == u && i != k && j != k
    ensures Before(Dropped(q, k), t, u)
  {
    hide Dropped;
    var q', i', j' := Dropped(q, k), if i < k then i else i - 1, if j < k then j else j - 1;
    assert q'[i'] == t && q'[j'] == u;
  }

  lemma ActedBefore(s: Flat, a: Action, x: Ptr, t: Id, u: Id)
    requires InvBut(s, x) && !Mentions(a, t) && !Mentions(a, u) && Before(s.list, t, u)
    ensures Before(Acted(s, a).list, t, u) && Acted(s, a).log == s.log
  {
    hide Before, SortedBy, NoRepeats, Point, Inserted, Without;
    match a
    case Start(v) =>
      if v !in s.active && v in s.init {
        InsertedBefore(s.list, Point(s.list, s.deadline, s.now + s.init[v]), v, t, u);
      }
    case Stop(v) => WithoutBefore(s.list, v, t, u);
    case SetTime(v, ticks) =>
    case SetPeriodic(v, on) =>
  }

  lemma {:induction false} ScriptBefore(s: Flat, actions: seq<Action>, x: Ptr, t: Id, u: Id)
    requires InvBut(s, x) && ScriptAllowed(actions) && Ignores(actions, t) && Ignores(actions, u) &&
             Before(s.list, t, u)
    ensures Before(Script(s, actions).list, t, u)
    decreases |actions|
  {
    if actions != [] {
      RestAllowed(actions);
      RestIgnores(actions, t);
      RestIgnores(actions, u);
      ActedKeeps(s, actions[0], x);
      ActedBefore(s, actions[0], x, t, u);
      hide InvBut, Acted, Due, Positive, Before, Ignores;
      ScriptBefore(Acted(s, actions[0]), actions[1..], x, t, u);
    }
  }

  lemma {:induction false} ScriptLog(s: Flat, actions: seq<Action>)
    ensures Script(s, actions).log == s.log
    decreases |actions|
  {
    if actions != [] { ScriptLog(Acted(s, actions[0]), actions[1..]); }
  }

  lemma FiredLog(s: Flat, calls: Callbacks)
    requires s.list != []
    ensures Fired(s, calls).log == s.log + [Shot(s.list[0], s.now)]
  {
    ScriptLog(Popped(s), ActionsOf(calls, s.list[0]));
    hide Script;
  }

  lemma PoppedBefore(q: seq<Id>, t: Id, u: Id)
    requires q != [] && Before(q, t, u) && q[0] != t
    ensures Before(q[1..], t, u)
  {
    var i, j :| 0 <= i < j < |q| && q[i] == t && q[j] == u;
    assert q[1..][i - 1] == t && q[1..][j - 1] == u;
  }

  lemma FirstIsNotLast(q: seq<Id>, t: Id, u: Id)
    requires q != [] && NoRepeats(q) && Before(q, t, u)
    ensures q[0] != u && t in q && u in q
  {
  }

  lemma FiredBefore(s: Flat, calls: Callbacks, t: Id, u: Id)
    requires InvBut(s, Null) && Allowed(calls) && AllIgnore(calls, t) && AllIgnore(calls, u) && HeadDue(s)
    requires Before(s.list, t, u) && s.list[0] != t
    ensures Before(Fired(s, calls).list, t, u)
  {
    var v := s.list[0];
    var s1 := Popped(s);
    var actions := ActionsOf(calls, v);
    FirstIsNotLast(s.list, t, u);
    PoppedBefore(s.list, t, u);
    hide InvBut, Before, Script, Due, Rearmed, OwnAfter, Positive;
    PoppedKeeps(s);
    CallAllowed(calls, v);
    AfterCall(s, calls);
    ScriptBefore(s1, actions, At(v), t, u);
    RearmedBefore(Script(s1, actions), v, t, u);
  }

  lemma RearmedBefore(s: Flat, v: Id, t: Id, u: Id)
    requires InvBut(s, At(v)) && v !in s.list && v != t && v != u && Before(s.list, t, u)
    ensures Before(Rearmed(s, v).list, t, u)
  {
    var s0 := s.(active := s.active - {v});
    assert InvBut(s0, Null);
    hide InvBut, Before;
    if v in s.periodic && v in s.active { ActedBefore(s0, Start(v), Null, t, u); }
  }

  // A check only adds to the log.
  lemma {:induction false} CheckedLog(s: Flat, calls: Callbacks)
    requires Inv(s) && Allowed(calls)
    ensures s.log <= Checked(s, calls).log
    decreases DueIn(s)
  {
    if s.list != [] {
      HeadKnown(s);
      if s.deadline[s.list[0]] <= s.now {
        FiredKeeps(s, calls);
        FiredLog(s, calls);
        hide InvBut, Due, Fired, Positive;
        CheckedLog(Fired(s, calls), calls);
      }
    }
  }

  // A check keeps the order of two timers that are not due.
  lemma {:induction false} CheckedBefore(s: Flat, calls: Callbacks, t: Id, u: Id)
    requires Inv(s) && Allowed(calls) && AllIgnore(calls, t) && AllIgnore(calls, u) && Before(s.list, t, u)
    requires t in s.deadline && s.now < s.deadline[t]
    ensures Before(Checked(s, calls).list, t, u)
    decreases DueIn(s)
  {
    HeadKnown(s);
    if s.deadline[s.list[0]] <= s.now {
      FirstIsNotLast(s.list, t, u);
      FiredKeeps(s, calls);
      FiredView(s, calls, t);
      FiredBefore(s, calls, t, u);
      hide InvBut, Due, Fired, Before, ShotsOf, Positive;
      CheckedBefore(Fired(s, calls), calls, t, u);
    }
  }

  lemma {:induction false} ShotsConcat(a: seq<Shot>, b: seq<Shot>, t: Id)
    ensures ShotsOf(a + b, t) == ShotsOf(a, t) + ShotsOf(b, t)
  {
    if a == [] {
      assert a + b == b;
    } else {
      assert (a + b)[1..] == a[1..] + b;
      ShotsConcat(a[1..], b, t);
    }
  }

  lemma {:induction false} ShotFound(log: seq<Shot>, t: Id, d: nat)
    requires d in ShotsOf(log, t)
    ensures Shot(t, d) in log
  {
    if log[0] != Shot(t, d) { ShotFound(log[1..], t, d); }
  }

  // A timer with one more shot than before has it behind the old log.
  lemma NewShot(log: seq<Shot>, log': seq<Shot>, t: Id, d: nat) returns (j: nat)
    requires log <= log' && ShotsOf(log', t) == ShotsOf(log, t) + [d]
    ensures |log| <= j < |log'| && log'[j] == Shot(t, d)
  {
    var tail := log'[|log|..];
    assert log' == log + tail;
    ShotsConcat(log, tail, t);
    var shots := ShotsOf(tail, t);
    assert shots == [d] by { assert (ShotsOf(log, t) + shots)[|ShotsOf(log, t)|..] == shots; }
    assert shots[0] == d;
    ShotFound(tail, t, d);
    var k :| 0 <= k < |tail| && tail[k] == Shot(t, d);
    j := |log| + k;
  }

  // When the first of the two is called, the other follows.
  lemma SecondFollows(s: Flat, calls: Callbacks, u: Id)
    requires Inv(s) && Allowed(calls) && AllIgnore(calls, u) && u in s.list && s.list[0] != u
    requires s.list[0] in s.deadline && s.deadline[s.list[0]] == s.now
    requires u in s.deadline && s.deadline[u] == s.now
    ensures CalledInOrder(s.log, Checked(s, calls).log, s.list[0], u, s.now)
  {
    FiredKeeps(s, calls);
    FiredView(s, calls, u);
    FiredLog(s, calls);
    var s1 := Fired(s, calls);
    hide InvBut, Due, Fired, ShotsOf, Positive;
    CheckedFires(s1, calls, u);
    CheckedLog(s1, calls);
    var log' := Checked(s1, calls).log;
    var j := NewShot(s1.log, log', u, s.now);
    assert log'[|s.log|] == s1.log[|s.log|] == Shot(s.list[0], s.now);
  }

  // Two timers due now are called in the order they stand in.
  lemma {:induction false} CheckedInOrder(s: Flat, calls: Callbacks, t: Id, u: Id)
    requires Inv(s) && Allowed(calls) && AllIgnore(calls, t) && AllIgnore(calls, u) && Before(s.list, t, u)
    requires t in s.deadline && u in s.deadline && s.deadline[t] == s.deadline[u] == s.now
    ensures CalledInOrder(s.log, Checked(s, calls).log, t, u, s.now)
    decreases DueIn(s)
  {
    FirstIsNotLast(s.list, t, u);
    hide InvBut, Due, Fired, Before, ShotsOf, Allowed, AllIgnore, Positive;
    HeadKnown(s);
    HeadIsDue(s, t);
    if s.list[0] == t {
      SecondFollows(s, calls, u);
    } else {
      FiredKeeps(s, calls);
      FiredView(s, calls, t);
      FiredView(s, calls, u);
      FiredBefore(s, calls, t, u);
      FiredLog(s, calls);
      CheckedInOrder(Fired(s, calls), calls, t, u);
    }
  }

  lemma DoneLog(s: Flat, op: Op)
    requires Settled(s) && OpAllowed(op)
    ensures s.log <= Done(s, op).log
  {
    match op
    case Do(a) =>
    case Tick(calls) =>
      AdvanceKeeps(s);
      CheckedLog(s.(now := s.now + 1), calls);
  }

  lemma {:induction false} ExecLog(s: Flat, ops: seq<Op>)
    requires Settled(s) && OpsAllowed(ops)
    ensures s.log <= Exec(s, ops).log
    decreases |ops|
  {
    if ops != [] {
      OpsRest(ops);
      DoneKeeps(s, ops[0]);
      DoneLog(s, ops[0]);
      hide Settled, Done, OpAllowed;
      ExecLog(Done(s, ops[0]), ops[1..]);
    }
  }

  // Two timers with the deadline d, t standing before u.
  ghost predicate Tied(s: Flat, t: Id, u: Id, d: nat) {
    && Before(s.list, t, u)
    && t in s.list && t in s.deadline && s.deadline[t] == d
    && u in s.list && u in s.deadline && s.deadline[u] == d
  }

  lemma DoneTied(s: Flat, op: Op, t: Id, u: Id, d: nat)
    requires Settled(s) && OpAllowed(op) && OpIgnores(op, t) && OpIgnores(op, u) && Tied(s, t, u, d)
    ensures var s' := Done(s, op);
      && s.now < d
      && (s'.now < d ==> Tied(s', t, u, d))
      && (s'.now >= d ==> CalledInOrder(s.log, s'.log, t, u, d))
  {
    NotYet(s, t);
    hide Settled, ShotsOf, FiresNow, Before, Done, CalledInOrder;
    DoneKeeps(s, op);
    DoneExact(s, op, t);
    DoneExact(s, op, u);
    DoneBefore(s, op, t, u, d);
  }

  lemma DoneBefore(s: Flat, op: Op, t: Id, u: Id, d: nat)
    requires Settled(s) && OpAllowed(op) && OpIgnores(op, t) && OpIgnores(op, u) && Tied(s, t, u, d)
    ensures s.now < d
    ensures !(op.Tick? && d == s.now + 1) ==> Before(Done(s, op).list, t, u)
    ensures op.Tick? && d == s.now + 1 ==> CalledInOrder(s.log, Done(s, op).log, t, u, d)
  {
    hide NothingDue, InvBut, Before, CalledInOrder, Checked, Acted, AllIgnore, Allowed, Due, Positive;
    NotYet(s, t);
    match op
    case Do(a) =>
      ActedBefore(s, a, Null, t, u);
    case Tick(calls) =>
      AdvanceKeeps(s);
      var s1 := s.(now := s.now + 1);
      if d == s.now + 1 { CheckedInOrder(s1, calls, t, u); } else { CheckedBefore(s1, calls, t, u); }
  }

  lemma LaterLog(log: seq<Shot>, log1: seq<Shot>, log2: seq<Shot>, t: Id, u: Id, d: nat)
    requires log <= log1 <= log2
    ensures CalledInOrder(log, log1, t, u, d) ==> CalledInOrder(log, log2, t, u, d)
    ensures CalledInOrder(log1, log2, t, u, d) ==> CalledInOrder(log, log2, t, u, d)
  {
    if i, j :| |log| <= i < j < |log1| && log1[i] == Shot(t, d) && log1[j] == Shot(u, d) {
      assert log2[i] == Shot(t, d) && log2[j] == Shot(u, d);
    }
  }

  // Whatever else goes on until their deadline, timers that are due together are called
  // in the order they stand in.
  lemma {:induction false} TiesOverRuns(s: Flat, ops: seq<Op>, t: Id, u: Id, d: nat)
    requires Settled(s) && OpsAllowed(ops) && OpsIgnore(ops, t) && OpsIgnore(ops, u)
    requires Tied(s, t, u, d) && d <= s.now + TickCount(ops)
    ensures CalledInOrder(s.log, Exec(s, ops).log, t, u, d)
    decreases |ops|
  {
    hide Done, OpAllowed, OpsAllowed, OpsIgnore, OpIgnores, CalledInOrder, InvBut, Before;
    assert s.now < s.deadline[t];
    hide Settled, Tied;
    OpsRest(ops);
    OpsIgnoreRest(ops, t);
    OpsIgnoreRest(ops, u);
    var s1, rest := Done(s, ops[0]), ops[1..];
    DoneKeeps(s, ops[0]);
    DoneLog(s, ops[0]);
    DoneTied(s, ops[0], t, u, d);
    ExecLog(s1, rest);
    LaterLog(s.log, s1.log, Exec(s1, rest).log, t, u, d);
    if s1.now < d { TiesOverRuns(s1, rest, t, u, d); }
  }

  lemma StartedTied(s: Flat, t: Id, u: Id)
    requires Settled(s) && t in s.list && t in s.deadline && u !in s.active && u in s.init
    requires s.deadline[t] == s.now + s.init[u]
    ensures Settled(Started(s, u)) && Tied(Started(s, u), t, u, s.deadline[t])
  {
    hide Inserted, Point;
    StartedKeeps(s, u, Null);
    StartedNothingDue(s, u);
    var k :| 0 <= k < |s.list| && s.list[k] == t;
    StartOrder(s, u, k);
    InsertMembers(s.list, Point(s.list, s.deadline, s.now + s.init[u]), u, t);
    InsertMembers(s.list, Point(s.list, s.deadline, s.now + s.init[u]), u, u);
  }

  // Ties are called in the order of their starts: t is running when u is started with the
  // same deadline.
  lemma TiesInStartOrder(s: Flat, t: Id, u: Id, ops: seq<Op>)
    requires Settled(s) && t in s.list && t in s.deadline && u !in s.active && u in s.init
    requires s.deadline[t] == s.now + s.init[u]
    requires OpsAllowed(ops) && OpsIgnore(ops, t) && OpsIgnore(ops, u) && s.init[u] <= TickCount(ops)
    ensures Settled(Started(s, u))
    ensures CalledInOrder(s.log, Exec(Started(s, u), ops).log, t, u, s.deadline[t])
  {
    hide Settled, OpsAllowed, OpsIgnore, Tied, CalledInOrder, Exec;
    StartedTied(s, t, u);
    TiesOverRuns(Started(s, u), ops, t, u, s.deadline[t]);
  }

  // ---- when the check ends ----

  // n turns of the loop of rt_timer_check, or fewer if nothing is due before.
  function Turns(s: Flat, calls: Callbacks, n: nat): Flat
    decreases n
  {
    if n == 0 || s.list == [] || s.list[0] !in s.deadline || s.deadline[s.list[0]] > s.now then s
    else Turns(Fired(s, calls), calls, n - 1)
  }

  // A periodic timer of time 0 that is due and that no function touches.
  ghost predicate ZeroPeriod(s: Flat, calls: Callbacks, t: Id) {
    && InvBut(s, Null) && Allowed(calls) && AllIgnore(calls, t)
    && t in s.list && t in s.deadline && s.deadline[t] == s.now
    && t in s.periodic && t in s.init && s.init[t] == 0
  }

  lemma ZeroPeriodTurn(s: Flat, calls: Callbacks, t: Id)
    requires ZeroPeriod(s, calls, t)
    ensures HeadDue(s) && ZeroPeriod(Fired(s, calls), calls, t)
  {
    hide InvBut, Due, Fired, ShotsOf, Allowed, AllIgnore, Positive;
    HeadIsDue(s, t);
    FiredKeeps(s, calls);
    if s.list[0] == t { ThisFires(s, calls, t); } else { FiredView(s, calls, t); }
  }

  // It keeps the check in its loop for ever: after any number of turns the loop goes on.
  lemma {:induction false} ZeroPeriodNeverEnds(s: Flat, calls: Callbacks, t: Id, n: nat)
    requires ZeroPeriod(s, calls, t)
    ensures HeadDue(Turns(s, calls, n))
    decreases n
  {
    ZeroPeriodTurn(s, calls, t);
    hide ZeroPeriod, Fired;
    if n > 0 { ZeroPeriodNeverEnds(Fired(s, calls), calls, t, n - 1); }
  }

  // With times of at least 1 the loop ends after as many turns as timers were due.
  lemma {:induction false} TurnsEnd(s: Flat, calls: Callbacks, n: nat)
    requires Inv(s) && Allowed(calls) && n >= DueIn(s)
    ensures Turns(s, calls, n) == Checked(s, calls)
    decreases n
  {
    hide InvBut, Due, Fired, Allowed, Positive;
    if s.list != [] {
      HeadKnown(s);
      if s.deadline[s.list[0]] <= s.now {
        FiredKeeps(s, calls);
        TurnsEnd(Fired(s, calls), calls, n - 1);
      }
    }
  }

  lemma CheckedHeadNotDue(s: Flat, calls: Callbacks)
    requires Inv(s) && Allowed(calls)
    ensures !HeadDue(Checked(s, calls))
  {
    hide InvBut, Positive, Allowed, Checked;
    CheckedKeeps(s, calls);
    var s' := Checked(s, calls);
    if s'.list != [] { assert s'.list[0] in s'.list; }
  }

  // Of the times rt_timer_start accepts, a periodic timer lets the check end if and only
  // if its own is not 0.
  lemma CheckEndsIff(s: Flat, calls: Callbacks, t: Id)
    requires InvBut(s, Null) && Allowed(calls) && AllIgnore(calls, t)
    requires t in s.list && t in s.deadline && s.deadline[t] == s.now && t in s.periodic
    requires t in s.init && forall u :: u in s.init && u != t ==> 1 <= s.init[u]
    ensures (exists n :: !HeadDue(Turns(s, calls, n))) <==> s.init[t] >= 1
  {
    hide InvBut, Allowed, AllIgnore, HeadDue;
    if s.init[t] >= 1 {
      TurnsEnd(s, calls, DueIn(s));
      CheckedHeadNotDue(s, calls);
      assert !HeadDue(Turns(s, calls, DueIn(s)));
    } else {
      forall n ensures HeadDue(Turns(s, calls, n)) { ZeroPeriodNeverEnds(s, calls, t, n); }
    }
  }
}
