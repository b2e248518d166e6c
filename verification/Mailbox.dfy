// The mailbox: a ring buffer of mails with two wait queues. Each stretch of code between
// disabling and enabling interrupts is one atomic section; a thread that was woken runs
// its next section at some later time, and anything may happen in between.
module Mailbox {
  import opened Words
  import opened Lists
  import opened WaitQueue

  // ---- the abstract mailbox ----

  datatype State = State(
    size: nat,
    flag: Flag,
    prio: Priorities,
    mails: seq<u32>,          // oldest first
    recvQ: seq<Tid>,          // receivers suspended on the mailbox
    sendQ: seq<Tid>,          // senders suspended on the mailbox
    wokenRecv: set<Tid>,      // receivers resumed by a send that have not run yet
    wokenSend: set<Tid>,      // senders resumed by a receive that have not run yet
    failed: set<Tid>,         // waiters ended by a timeout or a reset that have not run yet
    sent: seq<u32>,           // mails accepted since the last reset
    received: seq<u32>)       // mails handed out since the last reset

  datatype Outcome = Done | Refused | Blocked

  ghost predicate Idle(s: State, t: Tid) {
    t !in s.recvQ && t !in s.sendQ && t !in s.wokenRecv && t !in s.wokenSend && t !in s.failed
  }

  // Resuming the first receiver, if there is one.
  function WakeReceiver(s: State): State {
    if s.recvQ == [] then s
    else s.(recvQ := s.recvQ[1..], wokenRecv := s.wokenRecv + {s.recvQ[0]})
  }

  function WakeSender(s: State): State {
    if s.sendQ == [] then s
    else s.(sendQ := s.sendQ[1..], wokenSend := s.wokenSend + {s.sendQ[0]})
  }

  // One pass of a sender through its section, on entry or after being resumed.
  ghost predicate Sends(s: State, t: Tid, value: u32, wait: bool, r: Outcome, s': State) {
    var s0 := s.(wokenSend := s.wokenSend - {t});
    if |s.mails| < s.size then
      r == Done && s' == WakeReceiver(s0.(mails := s.mails + [value], sent := s.sent + [value]))
    else if !wait then
      r == Refused && s' == s0
    else
      r == Blocked && Joined(s.sendQ, t, s.prio, s.flag, s'.sendQ) && s' == s0.(sendQ := s'.sendQ)
  }

  // One pass of a receiver through its section.
  ghost predicate Receives(s: State, t: Tid, value: u32, wait: bool, r: Outcome, s': State) {
    var s0 := s.(wokenRecv := s.wokenRecv - {t});
    if s.mails != [] then
      r == Done && value == s.mails[0] && s' == WakeSender(s0.(mails := s.mails[1..], received := s.received + [value]))
    else if !wait then
      r == Refused && s' == s0
    else
      r == Blocked && Joined(s.recvQ, t, s.prio, s.flag, s'.recvQ) && s' == s0.(recvQ := s'.recvQ)
  }

  ghost predicate TimesOut(s: State, t: Tid, s': State) {
    (exists i: nat :: i < |s.recvQ| && s.recvQ[i] == t &&
       s' == s.(recvQ := Dropped(s.recvQ, i), failed := s.failed + {t})) ||
    (exists i: nat :: i < |s.sendQ| && s.sendQ[i] == t &&
       s' == s.(sendQ := Dropped(s.sendQ, i), failed := s.failed + {t}))
  }

  function AfterReset(s: State): State {
    s.(mails := [], recvQ := [], sendQ := [], failed := s.failed + Members(s.recvQ) + Members(s.sendQ), sent := [],
       received := [])
  }

  // Every atomic step any thread, the timer or a control call can take.
  ghost predicate Step(s: State, s': State) {
    || (exists t, v, w, r :: (Idle(s, t) || t in s.wokenSend) && Sends(s, t, v, w, r, s'))
    || (exists t, v, w, r :: (Idle(s, t) || t in s.wokenRecv) && Receives(s, t, v, w, r, s'))
    || (exists t :: TimesOut(s, t, s'))
    || (exists t :: t in s.failed && s' == s.(failed := s.failed - {t}))
    || s' == AfterReset(s)
  }

  ghost predicate Start(s: State) {
    s == State(s.size, s.flag, s.prio, [], [], [], {}, {}, {}, [], [])
  }

  ghost predicate IsRun(run: seq<State>) {
    run != [] && Start(run[0]) && forall i :: 0 <= i < |run| - 1 ==> Step(run[i], run[i + 1])
  }

  // ---- what every step keeps ----

  // Each thread is in at most one place.
  ghost predicate Separate(s: State) {
    && NoRepeats(s.recvQ) && NoRepeats(s.sendQ)
    && (forall t :: t in s.recvQ ==> t !in s.sendQ && t !in s.wokenRecv && t !in s.wokenSend && t !in s.failed)
    && (forall t :: t in s.sendQ ==> t !in s.wokenRecv && t !in s.wokenSend && t !in s.failed)
    && s.wokenRecv !! s.wokenSend !! s.failed
  }

  ghost predicate QueuesOrdered(s: State) {
    Ordered(s.recvQ, s.prio, s.flag) && Ordered(s.sendQ, s.prio, s.flag)
  }

  // No wakeup is lost: for every mail a waiting receiver could take, some receiver is
  // already on its way, and likewise for senders and free places.
  ghost predicate NoLostWakeup(s: State) {
    && (s.recvQ != [] ==> |s.wokenRecv| >= |s.mails|)
    && (s.sendQ != [] ==> |s.wokenSend| >= s.size - |s.mails|)
  }

  // First in, first out: what was received followed by what is held is what was sent.
  ghost predicate InOrder(s: State) {
    s.received + s.mails == s.sent
  }

  ghost predicate Inv(s: State) {
    |s.mails| <= s.size && Separate(s) && QueuesOrdered(s) && NoLostWakeup(s) && InOrder(s)
  }

  lemma WokenReceiverSeparate(s: State)
    requires Separate(s)
    ensures Separate(WakeReceiver(s))
    ensures s.recvQ != [] ==> |WakeReceiver(s).wokenRecv| == |s.wokenRecv| + 1
  {
    if s.recvQ != [] {
      var h := s.recvQ[0];
      assert h in s.recvQ;
      assert forall t :: t in s.recvQ[1..] ==> t in s.recvQ && t != h;
    }
  }

  lemma WokenSenderSeparate(s: State)
    requires Separate(s)
    ensures Separate(WakeSender(s))
    ensures s.sendQ != [] ==> |WakeSender(s).wokenSend| == |s.wokenSend| + 1
  {
    if s.sendQ != [] {
      var h := s.sendQ[0];
      assert h in s.sendQ;
      assert forall t :: t in s.sendQ[1..] ==> t in s.sendQ && t != h;
    }
  }

  lemma SendSeparate(s: State, t: Tid, v: u32, w: bool, r: Outcome, s': State)
    requires Separate(s) && (Idle(s, t) || t in s.wokenSend) && Sends(s, t, v, w, r, s')
    ensures Separate(s')
  {
    var s0 := s.(wokenSend := s.wokenSend - {t});
    assert Separate(s0);
    hide Separate, Joined;
    if |s.mails| < s.size {
      var s1 := s0.(mails := s.mails + [v], sent := s.sent + [v]);
      SameThreads(s0, s1);
      WokenReceiverSeparate(s1);
    } else if w {
      SenderJoins(s0, t, s');
    }
  }

  lemma SameThreads(s: State, s': State)
    requires Separate(s) && s'.recvQ == s.recvQ && s'.sendQ == s.sendQ
    requires s'.wokenRecv == s.wokenRecv && s'.wokenSend == s.wokenSend && s'.failed == s.failed
    ensures Separate(s')
  {
  }

  lemma SenderJoins(s: State, t: Tid, s': State)
    requires Separate(s) && Idle(s, t) && Joined(s.sendQ, t, s.prio, s.flag, s'.sendQ) && s' == s.(sendQ := s'.sendQ)
    ensures Separate(s')
  {
    JoinMembers(s.sendQ, t, s.prio, s.flag, s'.sendQ);
    hide Joined;
  }

  lemma ReceiverJoins(s: State, t: Tid, s': State)
    requires Separate(s) && Idle(s, t) && Joined(s.recvQ, t, s.prio, s.flag, s'.recvQ) && s' == s.(recvQ := s'.recvQ)
    ensures Separate(s')
  {
    JoinMembers(s.recvQ, t, s.prio, s.flag, s'.recvQ);
    hide Joined;
  }

  lemma ReceiveSeparate(s: State, t: Tid, v: u32, w: bool, r: Outcome, s': State)
    requires Separate(s) && (Idle(s, t) || t in s.wokenRecv) && Receives(s, t, v, w, r, s')
    ensures Separate(s')
  {
    var s0 := s.(wokenRecv := s.wokenRecv - {t});
    assert Separate(s0);
    hide Separate, Joined;
    if s.mails != [] {
      var s1 := s0.(mails := s.mails[1..], received := s.received + [v]);
      SameThreads(s0, s1);
      WokenSenderSeparate(s1);
    } else if w {
      ReceiverJoins(s0, t, s');
    }
  }

  lemma SendInOrder(s: State, t: Tid, v: u32, w: bool, r: Outcome, s': State)
    requires InOrder(s) && Sends(s, t, v, w, r, s')
    ensures InOrder(s')
  {
    hide Joined;
    assert s.received + (s.mails + [v]) == s.received + s.mails + [v];
  }

  lemma ReceiveInOrder(s: State, t: Tid, v: u32, w: bool, r: Outcome, s': State)
    requires InOrder(s) && Receives(s, t, v, w, r, s')
    ensures InOrder(s')
  {
    hide Joined;
    if s.mails != [] {
      assert s.received + [v] + s.mails[1..] == s.received + s.mails;
    }
  }

  lemma SendLosesNoWakeup(s: State, t: Tid, v: u32, w: bool, r: Outcome, s': State)
    requires Inv(s) && (Idle(s, t) || t in s.wokenSend) && Sends(s, t, v, w, r, s')
    ensures |s'.mails| <= s'.size && NoLostWakeup(s')
  {
    var s0 := s.(wokenSend := s.wokenSend - {t});
    assert |s0.wokenSend| >= |s.wokenSend| - 1;
    if s.recvQ != [] { assert s.recvQ[0] in s.recvQ && s.recvQ[0] !in s.wokenRecv; }
    hide Separate, Joined, QueuesOrdered, InOrder;
  }

  lemma ReceiveLosesNoWakeup(s: State, t: Tid, v: u32, w: bool, r: Outcome, s': State)
    requires Inv(s) && (Idle(s, t) || t in s.wokenRecv) && Receives(s, t, v, w, r, s')
    ensures |s'.mails| <= s'.size && NoLostWakeup(s')
  {
    var s0 := s.(wokenRecv := s.wokenRecv - {t});
    assert |s0.wokenRecv| >= |s.wokenRecv| - 1;
    if s.sendQ != [] { assert s.sendQ[0] in s.sendQ && s.sendQ[0] !in s.wokenSend; }
    hide Separate, Joined, QueuesOrdered, InOrder;
  }

  lemma SendOrdered(s: State, t: Tid, v: u32, w: bool, r: Outcome, s': State)
    requires QueuesOrdered(s) && Sends(s, t, v, w, r, s')
    ensures QueuesOrdered(s')
  {
    if |s.mails| == s.size && w {
      JoinKeepsOrder(s.sendQ, t, s.prio, s.flag, s'.sendQ);
    }
    hide Joined;
  }

  lemma ReceiveOrdered(s: State, t: Tid, v: u32, w: bool, r: Outcome, s': State)
    requires QueuesOrdered(s) && Receives(s, t, v, w, r, s')
    ensures QueuesOrdered(s')
  {
    if s.mails == [] && w {
      JoinKeepsOrder(s.recvQ, t, s.prio, s.flag, s'.recvQ);
    }
    hide Joined;
  }

  lemma SendKeeps(s: State, t: Tid, v: u32, w: bool, r: Outcome, s': State)
    requires Inv(s) && (Idle(s, t) || t in s.wokenSend) && Sends(s, t, v, w, r, s')
    ensures Inv(s')
  {
    SendSeparate(s, t, v, w, r, s');
    SendOrdered(s, t, v, w, r, s');
    SendInOrder(s, t, v, w, r, s');
    SendLosesNoWakeup(s, t, v, w, r, s');
  }

  lemma ReceiveKeeps(s: State, t: Tid, v: u32, w: bool, r: Outcome, s': State)
    requires Inv(s) && (Idle(s, t) || t in s.wokenRecv) && Receives(s, t, v, w, r, s')
    ensures Inv(s')
  {
    ReceiveSeparate(s, t, v, w, r, s');
    ReceiveOrdered(s, t, v, w, r, s');
    ReceiveInOrder(s, t, v, w, r, s');
    ReceiveLosesNoWakeup(s, t, v, w, r, s');
  }

  lemma TimeoutKeeps(s: State, t: Tid, s': State)
    requires Inv(s) && TimesOut(s, t, s')
    ensures Inv(s')
  {
    if i: nat :| i < |s.recvQ| && s.recvQ[i] == t && s' == s.(recvQ := Dropped(s.recvQ, i), failed := s.failed + {t}) {
      DropMembers(s.recvQ, i, s.prio, s.flag);
      assert t in s.recvQ;
    } else {
      var i: nat :| i < |s.sendQ| && s.sendQ[i] == t &&
        s' == s.(sendQ := Dropped(s.sendQ, i), failed := s.failed + {t});
      DropMembers(s.sendQ, i, s.prio, s.flag);
      assert t in s.sendQ;
    }
  }

  lemma StepKeeps(s: State, s': State)
    requires Inv(s) && Step(s, s')
    ensures Inv(s')
  {
    hide Inv, Idle, Sends, Receives, TimesOut, AfterReset;
    if t, v, w, r :| (Idle(s, t) || t in s.wokenSend) && Sends(s, t, v, w, r, s') {
      SendKeeps(s, t, v, w, r, s');
    } else if t, v, w, r :| (Idle(s, t) || t in s.wokenRecv) && Receives(s, t, v, w, r, s') {
      ReceiveKeeps(s, t, v, w, r, s');
    } else if t :| TimesOut(s, t, s') {
      TimeoutKeeps(s, t, s');
    } else if t :| t in s.failed && s' == s.(failed := s.failed - {t}) {
      ReturnKeeps(s, t);
    } else {
      ResetKeeps(s);
    }
  }

  lemma ReturnKeeps(s: State, t: Tid)
    requires Inv(s)
    ensures Inv(s.(failed := s.failed - {t}))
  {
    hide NoRepeats, Ordered;
  }

  lemma ResetKeeps(s: State)
    requires Inv(s)
    ensures Inv(AfterReset(s))
  {
  }

  // Safety over every run, of any length and with any interleaving.
  lemma {:induction false} EveryRunKeeps(run: seq<State>, n: nat)
    requires IsRun(run) && n < |run|
    ensures Inv(run[n])
  {
    if n > 0 {
      EveryRunKeeps(run, n - 1);
      assert Step(run[n - 1], run[n - 1 + 1]);
      StepKeeps(run[n - 1], run[n]);
    }
  }

  // Once every thread that was woken has run, nobody waits for what is there.
  lemma NobodyStuck(run: seq<State>, n: nat)
    requires IsRun(run) && n < |run| && run[n].wokenRecv == {} && run[n].wokenSend == {}
    ensures run[n].recvQ != [] ==> run[n].mails == []
    ensures run[n].sendQ != [] ==> |run[n].mails| == run[n].size
    ensures run[n].size > 0 ==> run[n].recvQ == [] || run[n].sendQ == []
  {
    EveryRunKeeps(run, n);
  }

  // ---- who is served first ----

  function Queue(s: State, sender: bool): seq<Tid> { if sender then s.sendQ else s.recvQ }

  function Woken(s: State, sender: bool): set<Tid> { if sender then s.wokenSend else s.wokenRecv }

  // Nothing but the queues moves, and of those who wait only the first is woken.
  ghost predicate Passes(s: State, s': State, sender: bool) {
    && s'.prio == s.prio && s'.flag == s.flag
    && Moves(Queue(s, sender), s.prio, s.flag, Queue(s', sender))
    && forall t :: t in Woken(s', sender) && t !in Woken(s, sender) ==>
         Queue(s, sender) != [] && t == Queue(s, sender)[0]
  }

  lemma SendPasses(s: State, t: Tid, v: u32, w: bool, r: Outcome, s': State, sender: bool)
    requires (Idle(s, t) || t in s.wokenSend) && Separate(s) && Sends(s, t, v, w, r, s')
    ensures Passes(s, s', sender)
  {
    hide Joined, Dropped, NoRepeats;
    FirstDropped(s.recvQ);
  }

  lemma ReceivePasses(s: State, t: Tid, v: u32, w: bool, r: Outcome, s': State, sender: bool)
    requires (Idle(s, t) || t in s.wokenRecv) && Separate(s) && Receives(s, t, v, w, r, s')
    ensures Passes(s, s', sender)
  {
    hide Joined, Dropped, NoRepeats;
    FirstDropped(s.sendQ);
  }

  lemma StepPasses(s: State, s': State, sender: bool)
    requires Inv(s) && Step(s, s')
    ensures Passes(s, s', sender)
  {
    hide Idle, Sends, Receives, Passes, QueuesOrdered, NoLostWakeup, Separate, InOrder;
    if t, v, w, r :| (Idle(s, t) || t in s.wokenSend) && Sends(s, t, v, w, r, s') {
      SendPasses(s, t, v, w, r, s', sender);
    } else if t, v, w, r :| (Idle(s, t) || t in s.wokenRecv) && Receives(s, t, v, w, r, s') {
      ReceivePasses(s, t, v, w, r, s', sender);
    } else {
      EndPasses(s, s', sender);
    }
  }

  lemma EndPasses(s: State, s': State, sender: bool)
    requires (exists t :: TimesOut(s, t, s')) || (exists t :: s' == s.(failed := s.failed - {t})) || s' == AfterReset(s)
    ensures Passes(s, s', sender)
  {
    hide Joined, Dropped;
  }

  // Over every run: while x waits, nobody who came later and is not more urgent - with
  // first-in-first-out queueing, nobody at all who came later - is resumed before it.
  lemma {:induction false} NotOvertaken(run: seq<State>, m: nat, n: nat, sender: bool, x: Tid, y: Tid)
    requires IsRun(run) && m <= n < |run| - 1 && x != y && y in run[m].prio && x in run[m].prio
    requires forall k :: m <= k <= n ==> x in Queue(run[k], sender)
    requires y !in Queue(run[m], sender) && (run[m].flag == Fifo || run[m].prio[x] <= run[m].prio[y])
    ensures run[n].prio == run[m].prio && run[n].flag == run[m].flag
    ensures y in Queue(run[n], sender) ==> Ahead(Queue(run[n], sender), x, y)
    ensures y in Woken(run[n + 1], sender) ==> y in Woken(run[n], sender)
    decreases n - m
  {
    hide Inv, Step, Moves, Queue;
    EveryRunKeeps(run, n);
    assert Step(run[n], run[n + 1]);
    StepPasses(run[n], run[n + 1], sender);
    if m < n {
      NotOvertaken(run, m, n - 1, sender, x, y);
      EveryRunKeeps(run, n - 1);
      var k := n - 1;
      assert Step(run[k], run[k + 1]);
      StepPasses(run[k], run[k + 1], sender);
      QueueFacts(run[k], sender);
      if y in Queue(run[n], sender) {
        AheadKept(Queue(run[k], sender), run[k].prio, run[k].flag, Queue(run[n], sender), x, y);
      }
    }
    QueueFacts(run[n], sender);
    NotFirst(Queue(run[n], sender), x, y);
  }

  lemma QueueFacts(s: State, sender: bool)
    requires Inv(s)
    ensures NoRepeats(Queue(s, sender)) && Ordered(Queue(s, sender), s.prio, s.flag)
  {
  }

  // ---- the mailbox object ----

  // Position k places after `out` in a buffer of n places.
  function Wrap(out: nat, k: nat, n: nat): nat {
    if out + k < n then out + k else out + k - n
  }

  // The k oldest mails of the ring buffer.
  function Held(buf: seq<u32>, out: nat, k: nat): (mails: seq<u32>)
    requires out < |buf| || k == 0
    requires k <= |buf|
    ensures |mails| == k
  {
    seq(k, i requires 0 <= i < k => buf[Wrap(out, i, |buf|)])
  }

  lemma HeldGrows(buf: seq<u32>, out: nat, k: nat, v: u32)
    requires out < |buf| && k < |buf|
    ensures Held(buf[Wrap(out, k, |buf|) := v], out, k + 1) == Held(buf, out, k) + [v]
  {
  }

  lemma HeldShrinks(buf: seq<u32>, out: nat, k: nat)
    requires out < |buf| && 0 < k <= |buf|
    ensures Held(buf, out, k)[0] == buf[out]
    ensures Held(buf, Wrap(out, 1, |buf|), k - 1) == Held(buf, out, k)[1..]
  {
  }

  class MailboxObject {
    const pool: array<u32>       // msg_pool
    const size: nat
    const flag: Flag
    const prio: Priorities       // the threads and their current priorities
    var entry: nat
    var inOffset: nat
    var outOffset: nat
    var recvQ: seq<Tid>          // parent.suspend_thread
    var sendQ: seq<Tid>          // suspend_sender_thread
    ghost var wokenRecv: set<Tid>
    ghost var wokenSend: set<Tid>
    ghost var failed: set<Tid>
    ghost var sent: seq<u32>
    ghost var received: seq<u32>

    ghost predicate Valid()
      reads this, pool
    {
      RingValid() && Known(recvQ, prio) && Known(sendQ, prio)
    }

    ghost predicate RingValid()
      reads this, pool
    {
      && pool.Length == size && entry <= size <= 0xFFFF
      && (size > 0 ==> outOffset < size && inOffset == Wrap(outOffset, entry, size))
      && (size == 0 ==> inOffset == outOffset == 0)
    }

    ghost function Mails(): seq<u32>
      requires RingValid()
      reads this, pool
    {
      Held(pool[..], outOffset, entry)
    }

    ghost function Abs(): State
      requires Valid()
      reads this, pool
    {
      State(size, flag, prio, Mails(), recvQ, sendQ, wokenRecv, wokenSend, failed, sent, received)
    }

    // rt_mb_init
    constructor (msgpool: array<u32>, flag: Flag, prio: Priorities)
      requires msgpool.Length <= 0xFFFF
      ensures Valid() && pool == msgpool && Start(Abs())
      ensures Abs().size == msgpool.Length && Abs().flag == flag && Abs().prio == prio
    {
      pool, size := msgpool, msgpool.Length;
      this.flag, this.prio := flag, prio;
      entry, inOffset, outOffset := 0, 0, 0;
      recvQ, sendQ, wokenRecv, wokenSend, failed, sent, received := [], [], {}, {}, {}, [], [];
    }

    // Storing a mail at in_offset, and taking one from out_offset.
    method Put(value: u32)
      requires RingValid() && entry < size
      modifies pool, this`inOffset, this`entry
      ensures RingValid() && Mails() == old(Mails()) + [value]
    {
      HeldGrows(pool[..], outOffset, entry, value);
      ghost var buf := pool[..];
      pool[inOffset] := value;
      assert pool[..] == buf[inOffset := value];
      inOffset := inOffset + 1;
      if inOffset >= size { inOffset := 0; }
      entry := entry + 1;
    }

    method Take() returns (value: u32)
      requires RingValid() && entry > 0
      modifies this`outOffset, this`entry
      ensures RingValid() && old(Mails()) == [value] + Mails()
    {
      HeldShrinks(pool[..], outOffset, entry);
      value := pool[outOffset];
      outOffset := outOffset + 1;
      if outOffset >= size { outOffset := 0; }
      entry := entry - 1;
    }

    // Resuming the first receiver, or the first sender, if one waits.
    method WakeFirstReceiver()
      requires Valid()
      modifies this`recvQ, this`wokenRecv
      ensures Valid() && Abs() == WakeReceiver(old(Abs()))
    {
      hide Held, Wrap;
      if recvQ != [] {
        wokenRecv := wokenRecv + {recvQ[0]};
        recvQ := recvQ[1..];
      }
    }

    method WakeFirstSender()
      requires Valid()
      modifies this`sendQ, this`wokenSend
      ensures Valid() && Abs() == WakeSender(old(Abs()))
    {
      hide Held, Wrap;
      if sendQ != [] {
        wokenSend := wokenSend + {sendQ[0]};
        sendQ := sendQ[1..];
      }
    }

    // rt_mb_send_wait, from disabling interrupts to enabling them again: on entry, or
    // when thread t has been resumed without error and tests the loop condition again.
    method Send(t: Tid, value: u32, timeout: int) returns (r: Outcome)
      requires Valid() && t in prio
      modifies this, pool
      ensures Valid() && Sends(old(Abs()), t, value, timeout != 0, r, Abs())
      // a full mailbox is refused without a timeout and waited for with one
      ensures r == Done <==> old(entry) < size
      ensures r == Refused <==> old(entry) == size && timeout == 0
      ensures entry == old(entry) + (if r == Done then 1 else 0)
      ensures Mails() == old(Mails()) + (if r == Done then [value] else [])
      ensures sent == old(sent) + (if r == Done then [value] else []) && received == old(received)
      ensures if r == Blocked then Joined(old(sendQ), t, prio, flag, sendQ) else sendQ == old(sendQ)
      // a mail accepted resumes the first receiver
      ensures if r == Done && old(recvQ) != [] then
                recvQ == old(recvQ)[1..] && wokenRecv == old(wokenRecv) + {old(recvQ)[0]}
              else recvQ == old(recvQ) && wokenRecv == old(wokenRecv)
      ensures wokenSend == old(wokenSend) - {t} && failed == old(failed)
    {
      hide Held, Joined, Wrap, Known;
      wokenSend := wokenSend - {t};
      if entry == size {
        if timeout == 0 { return Refused; }
        sendQ := Suspend(sendQ, t, prio, flag);
        JoinMembers(old(sendQ), t, prio, flag, sendQ);
        return Blocked;
      }
      Put(value);
      sent := sent + [value];
      WakeFirstReceiver();
      r := Done;
    }

    // rt_mb_recv, in the same way.
    method Receive(t: Tid, timeout: int) returns (r: Outcome, value: u32)
      requires Valid() && t in prio
      modifies this
      ensures Valid() && Receives(old(Abs()), t, value, timeout != 0, r, Abs())
      // an empty mailbox is refused without a timeout and waited for with one
      ensures r == Done <==> old(entry) > 0
      ensures r == Refused <==> old(entry) == 0 && timeout == 0
      ensures entry == old(entry) - (if r == Done then 1 else 0)
      ensures old(Mails()) == (if r == Done then [value] else []) + Mails()
      ensures received == old(received) + (if r == Done then [value] else []) && sent == old(sent)
      ensures if r == Blocked then Joined(old(recvQ), t, prio, flag, recvQ) else recvQ == old(recvQ)
      // a place that becomes free resumes the first sender
      ensures if r == Done && old(sendQ) != [] then
                sendQ == old(sendQ)[1..] && wokenSend == old(wokenSend) + {old(sendQ)[0]}
              else sendQ == old(sendQ) && wokenSend == old(wokenSend)
      ensures wokenRecv == old(wokenRecv) - {t} && failed == old(failed)
    {
      hide Held, Joined, Wrap, Known;
      value := 0;
      wokenRecv := wokenRecv - {t};
      if entry == 0 {
        if timeout == 0 { return Refused, 0; }
        recvQ := Suspend(recvQ, t, prio, flag);
        JoinMembers(old(recvQ), t, prio, flag, recvQ);
        return Blocked, 0;
      }
      value := Take();
      received := received + [value];
      WakeFirstSender();
      r := Done;
    }

    // The timeout of the i-th waiter of one of the queues.
    method Timeout(sender: bool, i: nat)
      requires Valid() && i < if sender then |sendQ| else |recvQ|
      modifies this
      ensures Valid() && TimesOut(old(Abs()), if sender then old(sendQ)[i] else old(recvQ)[i], Abs())
      ensures sendQ == if sender then old(sendQ)[..i] + old(sendQ)[i + 1..] else old(sendQ)
      ensures recvQ == if sender then old(recvQ) else old(recvQ)[..i] + old(recvQ)[i + 1..]
      ensures failed == old(failed) + {if sender then old(sendQ)[i] else old(recvQ)[i]}
      ensures entry == old(entry) && Mails() == old(Mails()) && sent == old(sent) && received == old(received)
      ensures wokenSend == old(wokenSend) && wokenRecv == old(wokenRecv)
    {
      hide Held;
      if sender {
        failed := failed + {sendQ[i]};
        sendQ := Dropped(sendQ, i);
      } else {
        failed := failed + {recvQ[i]};
        recvQ := Dropped(recvQ, i);
      }
    }

    lemma Emptied()
      requires pool.Length == size <= 0xFFFF && entry == inOffset == outOffset == 0 && recvQ == sendQ == []
      ensures Valid() && Mails() == []
    {
    }

    // Resuming all waiting threads with an error.
    method ResumeEveryone()
      modifies this`recvQ, this`sendQ, this`failed
      ensures recvQ == [] && sendQ == [] && failed == old(failed) + Members(old(recvQ)) + Members(old(sendQ))
    {
      hide Members;
      ghost var endedRecv, endedSend;
      recvQ, endedRecv := ResumeAll(recvQ);
      sendQ, endedSend := ResumeAll(sendQ);
      failed := failed + endedRecv + endedSend;
    }

    // rt_mb_control with RT_IPC_CMD_RESET
    method Reset()
      requires Valid()
      modifies this
      ensures Valid() && Abs() == AfterReset(old(Abs()))
      ensures entry == 0 && Mails() == [] && recvQ == sendQ == []
      ensures forall t :: t in failed <==> t in old(failed) || t in old(recvQ) || t in old(sendQ)
      ensures wokenSend == old(wokenSend) && wokenRecv == old(wokenRecv)
    {
      hide Held, Known, Wrap, Members, Mails;
      ResumeEveryone();
      entry, inOffset, outOffset := 0, 0, 0;
      sent, received := [], [];
      Emptied();
      forall t ensures t in failed <==> t in old(failed) || t in old(recvQ) || t in old(sendQ) {
        MembersAre(old(recvQ), t);
        MembersAre(old(sendQ), t);
      }
    }
  }
}
