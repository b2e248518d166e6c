// The message queue: fixed-size message nodes on a free list and a queue, both singly
// linked. A send or a receive is not one atomic section: the node is detached in one
// section, its bytes are copied with interrupts enabled, and it is attached in another.
// Each section and each copy is one step here, in any interleaving.
module MessageQueue {
  import opened Words
  import opened Lists
  import opened WaitQueue

  type Bytes = seq<bv8>

  // What a thread in the middle of a call holds: a node for the message it is sending,
  // before and after copying it in, or a node it has received and not yet given back.
  datatype Hand =
    | Claimed(node: nat, msg: Bytes, urgent: bool)
    | Filled(node: nat, msg: Bytes, urgent: bool)
    | Taken(node: nat, msg: Bytes)

  datatype State = State(
    msgSize: nat,
    flag: Flag,
    prio: Priorities,
    data: seq<Bytes>,         // the bytes of each node
    free: seq<nat>,           // the free list, first node first
    queue: seq<nat>,          // the message list, oldest deliverable first
    hands: map<Tid, Hand>,
    recvQ: seq<Tid>,
    wokenRecv: set<Tid>,
    failed: set<Tid>,
    deque: seq<Bytes>)        // the messages that should be in the queue

  datatype Outcome = Done | TooLong | Refused | Blocked

  ghost predicate Idle(s: State, t: Tid) {
    t !in s.hands && t !in s.recvQ && t !in s.wokenRecv && t !in s.failed
  }

  function WakeReceiver(s: State): State {
    if s.recvQ == [] then s
    else s.(recvQ := s.recvQ[1..], wokenRecv := s.wokenRecv + {s.recvQ[0]})
  }

  function Overwrite(old_: Bytes, msg: Bytes): Bytes
    requires |msg| <= |old_|
  {
    msg + old_[|msg|..]
  }

  lemma OverwriteAt(old_: Bytes, msg: Bytes)
    requires |msg| <= |old_|
    ensures |Overwrite(old_, msg)| == |old_|
    ensures forall k :: 0 <= k < |old_| ==> Overwrite(old_, msg)[k] == if k < |msg| then msg[k] else old_[k]
  {
  }

  // ---- the steps ----

  // rt_mq_send and rt_mq_urgent, first section: a node off the free list.
  ghost predicate Claims(s: State, t: Tid, msg: Bytes, urgent: bool, r: Outcome, s': State) {
    if |msg| > s.msgSize then r == TooLong && s' == s
    else if s.free == [] then r == Refused && s' == s
    else r == Done && s' == s.(free := s.free[1..], hands := s.hands[t := Claimed(s.free[0], msg, urgent)])
  }

  function AfterFill(s: State, t: Tid): State
    requires t in s.hands && !s.hands[t].Taken? && s.hands[t].node < |s.data| &&
             |s.hands[t].msg| <= |s.data[s.hands[t].node]|
  {
    var h := s.hands[t];
    s.(data := s.data[h.node := Overwrite(s.data[h.node], h.msg)],
       hands := s.hands[t := Filled(h.node, h.msg, h.urgent)])
  }

  ghost predicate Fills(s: State, t: Tid, s': State) {
    && t in s.hands && s.hands[t].Claimed?
    && s.hands[t].node < |s.data| && |s.hands[t].msg| <= |s.data[s.hands[t].node]|
    && s' == AfterFill(s, t)
  }

  // Second section: a normal message goes behind all others, an urgent one before them.
  function AfterLink(s: State, t: Tid): State
    requires t in s.hands && s.hands[t].Filled?
  {
    var h := s.hands[t];
    s.(queue := if h.urgent then [h.node] + s.queue else s.queue + [h.node],
       deque := if h.urgent then [h.msg] + s.deque else s.deque + [h.msg],
       hands := s.hands - {t})
  }

  ghost predicate Links(s: State, t: Tid, s': State) {
    t in s.hands && s.hands[t].Filled? && s' == WakeReceiver(AfterLink(s, t))
  }

  function AfterTake(s: State, t: Tid): State
    requires s.queue != [] && s.deque != []
  {
    s.(wokenRecv := s.wokenRecv - {t}, queue := s.queue[1..], deque := s.deque[1..],
       hands := s.hands[t := Taken(s.queue[0], s.deque[0])])
  }

  // rt_mq_recv, first section, on entry or after being resumed.
  ghost predicate Takes(s: State, t: Tid, wait: bool, r: Outcome, s': State) {
    var s0 := s.(wokenRecv := s.wokenRecv - {t});
    if s.queue != [] then
      r == Done && s.deque != [] && s' == AfterTake(s, t)
    else if !wait then
      r == Refused && s' == s0
    else
      r == Blocked && Joined(s.recvQ, t, s.prio, s.flag, s'.recvQ) && s' == s0.(recvQ := s'.recvQ)
  }

  function Prefix(b: Bytes, size: nat): Bytes {
    if size > |b| then b else b[..size]
  }

  // What is copied to the receiver: at most a whole node.
  ghost predicate CopiesOut(s: State, t: Tid, size: nat, out: Bytes) {
    && t in s.hands && s.hands[t].Taken? && s.hands[t].node < |s.data|
    && out == Prefix(s.data[s.hands[t].node], size)
  }

  ghost predicate Releases(s: State, t: Tid, s': State) {
    && t in s.hands && s.hands[t].Taken?
    && s' == s.(free := [s.hands[t].node] + s.free, hands := s.hands - {t})
  }

  ghost predicate TimesOut(s: State, t: Tid, s': State) {
    exists i: nat :: i < |s.recvQ| && s.recvQ[i] == t &&
      s' == s.(recvQ := Dropped(s.recvQ, i), failed := s.failed + {t})
  }

  function Reversed(q: seq<nat>): seq<nat> {
    if q == [] then [] else Reversed(q[1..]) + [q[0]]
  }

  function AfterReset(s: State): State {
    s.(free := Reversed(s.queue) + s.free, queue := [], deque := [], recvQ := [], failed := s.failed + Members(s.recvQ))
  }

  ghost predicate Step(s: State, s': State) {
    || (exists t, m, u, r :: Idle(s, t) && Claims(s, t, m, u, r, s'))
    || (exists t :: Fills(s, t, s'))
    || (exists t :: Links(s, t, s'))
    || (exists t, w, r :: (Idle(s, t) || t in s.wokenRecv) && Takes(s, t, w, r, s'))
    || (exists t :: Releases(s, t, s'))
    || (exists t :: TimesOut(s, t, s'))
    || (exists t :: t in s.failed && s' == s.(failed := s.failed - {t}))
    || s' == AfterReset(s)
  }

  function CountDown(n: nat): seq<nat> {
    if n == 0 then [] else [n - 1] + CountDown(n - 1)
  }

  ghost predicate Start(s: State) {
    && s == State(s.msgSize, s.flag, s.prio, s.data, CountDown(|s.data|), [], map[], [], {}, {}, [])
    && forall n :: 0 <= n < |s.data| ==> |s.data[n]| == s.msgSize
  }

  ghost predicate IsRun(run: seq<State>) {
    run != [] && Start(run[0]) && forall i :: 0 <= i < |run| - 1 ==> Step(run[i], run[i + 1])
  }

  // ---- what every step keeps ----

  ghost predicate InHands(hands: map<Tid, Hand>, n: nat) {
    exists t :: t in hands && hands[t].node == n
  }

  // Every node is in exactly one place: on the free list, in the queue, or in the hands
  // of one thread.
  ghost predicate Partition(count: nat, free: seq<nat>, queue: seq<nat>, hands: map<Tid, Hand>) {
    && (forall i, j :: 0 <= i < j < |free| ==> free[i] != free[j])
    && (forall i, j :: 0 <= i < j < |queue| ==> queue[i] != queue[j])
    && (forall t, u :: t in hands && u in hands && t != u ==> hands[t].node != hands[u].node)
    && (forall n :: n in free ==> n !in queue && !InHands(hands, n))
    && (forall n :: n in queue ==> !InHands(hands, n))
    && (forall n: nat :: n < count <==> n in free || n in queue || InHands(hands, n))
  }

  // The bytes of the queued nodes are the messages of the deque, in order, and every
  // message in a sender's or receiver's hands is intact too.
  ghost predicate Intact(data: seq<Bytes>, n: nat, msg: Bytes) {
    n < |data| && msg <= data[n]
  }

  ghost predicate Contents(s: State) {
    && (forall n :: 0 <= n < |s.data| ==> |s.data[n]| == s.msgSize)
    && |s.deque| == |s.queue|
    && (forall i :: 0 <= i < |s.queue| ==> Intact(s.data, s.queue[i], s.deque[i]))
    && (forall t :: t in s.hands ==> |s.hands[t].msg| <= s.msgSize)
    && (forall t :: t in s.hands && !s.hands[t].Claimed? ==> Intact(s.data, s.hands[t].node, s.hands[t].msg))
  }

  ghost predicate Separate(s: State) {
    && NoRepeats(s.recvQ)
    && (forall t :: t in s.recvQ ==> t !in s.hands && t !in s.wokenRecv && t !in s.failed)
    && (forall t :: t in s.wokenRecv ==> t !in s.hands && t !in s.failed)
    && (forall t :: t in s.failed ==> t !in s.hands)
  }

  ghost predicate NoLostWakeup(s: State) {
    s.recvQ != [] ==> |s.wokenRecv| >= |s.queue|
  }

  ghost predicate Inv(s: State) {
    && Partition(|s.data|, s.free, s.queue, s.hands)
    && Contents(s) && Separate(s) && Ordered(s.recvQ, s.prio, s.flag) && NoLostWakeup(s)
  }

  // ---- where the nodes are ----

  ghost predicate OneHandEach(hands: map<Tid, Hand>) {
    forall t, u :: t in hands && u in hands && t != u ==> hands[t].node != hands[u].node
  }

  lemma HandsAdd(hands: map<Tid, Hand>, t: Tid, h: Hand, hands': map<Tid, Hand>)
    requires t !in hands && hands' == hands[t := h]
    ensures forall n :: InHands(hands', n) <==> InHands(hands, n) || n == h.node
  {
    forall n | InHands(hands, n) ensures InHands(hands', n) {
      var u :| u in hands && hands[u].node == n;
      assert u in hands';
    }
    assert t in hands' && hands'[t] == h;
  }

  lemma HandsDrop(hands: map<Tid, Hand>, t: Tid, hands': map<Tid, Hand>)
    requires t in hands && OneHandEach(hands) && hands' == hands - {t}
    ensures forall n :: InHands(hands', n) <==> InHands(hands, n) && n != hands[t].node
  {
    forall n | InHands(hands, n) && n != hands[t].node ensures InHands(hands', n) {
      var u :| u in hands && hands[u].node == n;
      assert u in hands';
    }
  }

  lemma HandsTurn(hands: map<Tid, Hand>, t: Tid, h: Hand, hands': map<Tid, Hand>)
    requires t in hands && hands[t].node == h.node && hands' == hands[t := h]
    ensures forall n :: InHands(hands', n) <==> InHands(hands, n)
    ensures OneHandEach(hands) ==> OneHandEach(hands')
  {
    forall n | InHands(hands, n) ensures InHands(hands', n) {
      var u :| u in hands && hands[u].node == n;
      assert u in hands';
    }
  }

  lemma TakenIsHeld(count: nat, free: seq<nat>, queue: seq<nat>, hands: map<Tid, Hand>, t: Tid)
    requires Partition(count, free, queue, hands) && t in hands
    ensures hands[t].node !in free && hands[t].node !in queue && hands[t].node < count && OneHandEach(hands)
  {
    assert InHands(hands, hands[t].node);
  }

  lemma ClaimMoves(count: nat, free: seq<nat>, queue: seq<nat>, hands: map<Tid, Hand>, t: Tid, h: Hand)
    requires Partition(count, free, queue, hands)
    requires free != [] && t !in hands && h.node == free[0]
    ensures Partition(count, free[1..], queue, hands[t := h])
  {
    var hands' := hands[t := h];
    HandsAdd(hands, t, h, hands');
    forall u, v | u in hands' && v in hands' && u != v ensures hands'[u].node != hands'[v].node {
      if u in hands { assert InHands(hands, hands[u].node); }
      if v in hands { assert InHands(hands, hands[v].node); }
    }
    FirstAndRest(free);
    hide InHands;
    assert free[0] in free;
  }

  lemma TakeMoves(count: nat, free: seq<nat>, queue: seq<nat>, hands: map<Tid, Hand>, t: Tid, h: Hand)
    requires Partition(count, free, queue, hands)
    requires queue != [] && t !in hands && h.node == queue[0]
    ensures Partition(count, free, queue[1..], hands[t := h])
  {
    PlacesSwap(count, queue, free, hands);
    ClaimMoves(count, queue, free, hands, t, h);
    PlacesSwap(count, queue[1..], free, hands[t := h]);
  }

  lemma PlacesSwap(count: nat, free: seq<nat>, queue: seq<nat>, hands: map<Tid, Hand>)
    ensures Partition(count, free, queue, hands) <==> Partition(count, queue, free, hands)
  {
    hide InHands;
  }

  lemma GiveMoves(count: nat, free: seq<nat>, queue: seq<nat>, hands: map<Tid, Hand>, t: Tid, free': seq<nat>)
    requires Partition(count, free, queue, hands) && t in hands
    requires free' == [hands[t].node] + free || free' == free + [hands[t].node]
    ensures Partition(count, free', queue, hands - {t})
  {
    var hands' := hands - {t};
    TakenIsHeld(count, free, queue, hands, t);
    HandsDrop(hands, t, hands');
    assert forall n :: n in free' <==> n in free || n == hands[t].node;
    hide InHands;
  }

  lemma LinkMoves(count: nat, free: seq<nat>, queue: seq<nat>, hands: map<Tid, Hand>, t: Tid, queue': seq<nat>)
    requires Partition(count, free, queue, hands) && t in hands
    requires queue' == [hands[t].node] + queue || queue' == queue + [hands[t].node]
    ensures Partition(count, free, queue', hands - {t})
  {
    PlacesSwap(count, queue, free, hands);
    GiveMoves(count, queue, free, hands, t, queue');
    PlacesSwap(count, queue', free, hands - {t});
  }

  lemma FillStays(count: nat, free: seq<nat>, queue: seq<nat>, hands: map<Tid, Hand>, t: Tid, h: Hand)
    requires Partition(count, free, queue, hands) && t in hands && hands[t].node == h.node
    ensures Partition(count, free, queue, hands[t := h])
  {
    HandsTurn(hands, t, h, hands[t := h]);
    hide InHands;
  }

  lemma {:induction false} ReversedMembers(q: seq<nat>)
    ensures forall n :: n in Reversed(q) <==> n in q
    ensures |Reversed(q)| == |q| && forall i :: 0 <= i < |q| ==> Reversed(q)[i] == q[|q| - 1 - i]
  {
    if q != [] {
      ReversedMembers(q[1..]);
      assert q == [q[0]] + q[1..];
    }
  }

  lemma ResetMoves(count: nat, free: seq<nat>, queue: seq<nat>, hands: map<Tid, Hand>)
    requires Partition(count, free, queue, hands)
    ensures Partition(count, Reversed(queue) + free, [], hands)
  {
    ReversedMembers(queue);
    hide InHands, Reversed;
    var r := Reversed(queue);
    assert forall n :: n in r + free <==> n in r || n in free;
    forall i, j | 0 <= i < j < |r + free| ensures (r + free)[i] != (r + free)[j] {
      if i < |r| && j >= |r| {
        assert r[i] in queue && free[j - |r|] in free;
      }
    }
  }

  lemma {:induction false} CountDownMembers(n: nat)
    ensures |CountDown(n)| == n && forall i :: 0 <= i < n ==> CountDown(n)[i] == n - 1 - i
    ensures forall k: nat :: k in CountDown(n) <==> k < n
  {
    if n > 0 { CountDownMembers(n - 1); }
  }

  lemma CountDownStep(n: nat)
    ensures CountDown(n + 1) == [n] + CountDown(n)
  {
  }

  // ---- the messages ----

  lemma ClaimContents(s: State, t: Tid, m: Bytes, u: bool, r: Outcome, s': State)
    requires Contents(s) && t !in s.hands && Claims(s, t, m, u, r, s')
    ensures Contents(s')
  {
    hide Intact;
  }

  lemma WriteElsewhere(data: seq<Bytes>, n: nat, b: Bytes, k: nat, msg: Bytes)
    requires n < |data| && n != k && Intact(data, k, msg)
    ensures Intact(data[n := b], k, msg)
  {
  }

  lemma FillContents(s: State, t: Tid, s': State)
    requires Contents(s) && Fills(s, t, s') && Partition(|s.data|, s.free, s.queue, s.hands)
    ensures Contents(s')
  {
    var n := s.hands[t].node;
    var b := Overwrite(s.data[n], s.hands[t].msg);
    TakenIsHeld(|s.data|, s.free, s.queue, s.hands, t);
    forall i | 0 <= i < |s.queue| ensures Intact(s'.data, s.queue[i], s.deque[i]) {
      WriteElsewhere(s.data, n, b, s.queue[i], s.deque[i]);
    }
    forall u | u in s'.hands && !s'.hands[u].Claimed? ensures Intact(s'.data, s'.hands[u].node, s'.hands[u].msg) {
      if u != t { WriteElsewhere(s.data, n, b, s.hands[u].node, s.hands[u].msg); }
    }
    hide Partition, Intact;
  }

  lemma LinkContents(s: State, t: Tid, s': State)
    requires Contents(s) && Links(s, t, s')
    ensures Contents(s')
  {
    hide Intact;
  }

  lemma TakeContents(s: State, t: Tid, w: bool, r: Outcome, s': State)
    requires Contents(s) && t !in s.hands && Takes(s, t, w, r, s')
    ensures Contents(s')
  {
    if s.queue != [] {
      assert Intact(s.data, s.queue[0], s.deque[0]);
      assert |s.deque[0]| <= s.msgSize;
    }
    hide Intact, Joined;
  }

  // Whatever else went on while the message was in the queue, and while it is being
  // copied out, the receiver gets what the sender sent, up to the length asked for.
  lemma ReceivedIsSent(s: State, t: Tid, size: nat, out: Bytes)
    requires Inv(s) && CopiesOut(s, t, size, out)
    ensures |out| == if size > s.msgSize then s.msgSize else size
    ensures Prefix(s.hands[t].msg, size) <= out
  {
    assert Intact(s.data, s.hands[t].node, s.hands[t].msg);
  }

  // ---- the threads ----

  lemma WokenSeparate(s: State)
    requires Separate(s)
    ensures Separate(WakeReceiver(s))
    ensures s.recvQ != [] ==> |WakeReceiver(s).wokenRecv| == |s.wokenRecv| + 1
  {
    if s.recvQ != [] {
      assert s.recvQ[0] in s.recvQ;
      assert forall t :: t in s.recvQ[1..] ==> t in s.recvQ && t != s.recvQ[0];
    }
  }

  lemma TakeSeparate(s: State, t: Tid, w: bool, r: Outcome, s': State)
    requires Separate(s) && (Idle(s, t) || t in s.wokenRecv) && Takes(s, t, w, r, s')
    ensures Separate(s')
  {
    if s.queue == [] && w {
      JoinMembers(s.recvQ, t, s.prio, s.flag, s'.recvQ);
    }
    hide Joined;
  }

  // ---- every step, every run ----

  lemma ClaimKeeps(s: State, t: Tid, m: Bytes, u: bool, r: Outcome, s': State)
    requires Inv(s) && Idle(s, t) && Claims(s, t, m, u, r, s')
    ensures Inv(s')
  {
    ClaimContents(s, t, m, u, r, s');
    if r == Done { ClaimMoves(|s.data|, s.free, s.queue, s.hands, t, Claimed(s.free[0], m, u)); }
    assert Separate(s');
    hide Separate, Contents, Partition;
  }

  lemma FillKeeps(s: State, t: Tid, s': State)
    requires Inv(s) && Fills(s, t, s')
    ensures Inv(s')
  {
    FillContents(s, t, s');
    FillStays(|s.data|, s.free, s.queue, s.hands, t, s'.hands[t]);
    assert Separate(s');
    hide Separate, Contents, Partition;
  }

  lemma LinkQueues(s: State, t: Tid, s': State)
    requires Ordered(s.recvQ, s.prio, s.flag) && NoLostWakeup(s) && Links(s, t, s')
    requires s.recvQ != [] ==> |s'.wokenRecv| == |s.wokenRecv| + 1
    ensures Ordered(s'.recvQ, s'.prio, s'.flag) && NoLostWakeup(s')
  {
  }

  lemma LinkKeeps(s: State, t: Tid, s': State)
    requires Inv(s) && Links(s, t, s')
    ensures Inv(s')
  {
    hide Contents, Partition, Separate, Ordered, NoLostWakeup;
    LinkContents(s, t, s');
    LinkMoves(|s.data|, s.free, s.queue, s.hands, t, s'.queue);
    LinkSeparate(s, t);
    LinkQueues(s, t, s');
  }

  lemma LinkSeparate(s: State, t: Tid)
    requires Separate(s) && t in s.hands && s.hands[t].Filled?
    ensures Separate(WakeReceiver(AfterLink(s, t)))
    ensures s.recvQ != [] ==> |WakeReceiver(AfterLink(s, t)).wokenRecv| == |s.wokenRecv| + 1
  {
    var s0 := AfterLink(s, t);
    assert Separate(s0);
    WokenSeparate(s0);
  }

  lemma TakeKeeps(s: State, t: Tid, w: bool, r: Outcome, s': State)
    requires Inv(s) && (Idle(s, t) || t in s.wokenRecv) && Takes(s, t, w, r, s')
    ensures Inv(s')
  {
    assert t !in s.hands;
    TakeContents(s, t, w, r, s');
    TakeSeparate(s, t, w, r, s');
    if r == Done { TakeMoves(|s.data|, s.free, s.queue, s.hands, t, s'.hands[t]); }
    if r == Blocked { JoinKeepsOrder(s.recvQ, t, s.prio, s.flag, s'.recvQ); }
    assert |s.wokenRecv - {t}| >= |s.wokenRecv| - 1;
    hide Separate, Contents, Partition, Joined, Ordered;
  }

  lemma ReleaseKeeps(s: State, t: Tid, s': State)
    requires Inv(s) && Releases(s, t, s')
    ensures Inv(s')
  {
    GiveMoves(|s.data|, s.free, s.queue, s.hands, t, s'.free);
    assert Separate(s') && Contents(s');
    hide Separate, Contents, Partition;
  }

  lemma TimeoutKeeps(s: State, t: Tid, s': State)
    requires Inv(s) && TimesOut(s, t, s')
    ensures Inv(s')
  {
    var i: nat :| i < |s.recvQ| && s.recvQ[i] == t && s' == s.(recvQ := Dropped(s.recvQ, i), failed := s.failed + {t});
    DropMembers(s.recvQ, i, s.prio, s.flag);
    assert t in s.recvQ;
    hide Partition, Contents, Dropped;
    assert Contents(s') by { assert Contents(s); }
  }

  lemma ResetKeeps(s: State)
    requires Inv(s)
    ensures Inv(AfterReset(s))
  {
    ResetMoves(|s.data|, s.free, s.queue, s.hands);
    hide Partition, Reversed;
  }

  lemma StepKeeps(s: State, s': State)
    requires Inv(s) && Step(s, s')
    ensures Inv(s')
  {
    hide Inv, Claims, Fills, Links, Takes, Releases, TimesOut, Idle;
    if t, m, u, r :| Idle(s, t) && Claims(s, t, m, u, r, s') {
      ClaimKeeps(s, t, m, u, r, s');
    } else if t :| Fills(s, t, s') {
      FillKeeps(s, t, s');
    } else if t :| Links(s, t, s') {
      LinkKeeps(s, t, s');
    } else if t, w, r :| (Idle(s, t) || t in s.wokenRecv) && Takes(s, t, w, r, s') {
      TakeKeeps(s, t, w, r, s');
    } else if t :| Releases(s, t, s') {
      ReleaseKeeps(s, t, s');
    } else if t :| TimesOut(s, t, s') {
      TimeoutKeeps(s, t, s');
    } else if t :| t in s.failed && s' == s.(failed := s.failed - {t}) {
      FailureReported(s, t);
    } else {
      ResetKeeps(s);
    }
  }

  lemma FailureReported(s: State, t: Tid)
    requires Inv(s)
    ensures Inv(s.(failed := s.failed - {t}))
  {
    hide Partition;
  }

  lemma StartHolds(s: State)
    requires Start(s)
    ensures Inv(s)
  {
    CountDownMembers(|s.data|);
    hide CountDown;
  }

  lemma {:induction false} EveryRunKeeps(run: seq<State>, n: nat)
    requires IsRun(run) && n < |run|
    ensures Inv(run[n])
  {
    hide Inv, Step;
    if n == 0 {
      StartHolds(run[0]);
    } else {
      EveryRunKeeps(run, n - 1);
      assert Step(run[n - 1], run[n - 1 + 1]);
      StepKeeps(run[n - 1], run[n]);
    }
  }

  // No counter overflows: no list is longer than the number of nodes.
  lemma QueueFits(s: State)
    requires Inv(s)
    ensures |s.queue| == |s.deque| <= |s.data| && |s.free| <= |s.data|
  {
    forall i | 0 <= i < |s.queue| ensures s.queue[i] < |s.data| { assert s.queue[i] in s.queue; }
    forall i | 0 <= i < |s.free| ensures s.free[i] < |s.data| { assert s.free[i] in s.free; }
    DistinctFit(s.queue, |s.data|);
    DistinctFit(s.free, |s.data|);
  }

  // A send is refused only when every node is queued or in some thread's hands.
  lemma RefusedOnlyWhenUsedUp(s: State, t: Tid, m: Bytes, u: bool, s': State)
    requires Inv(s) && Claims(s, t, m, u, Refused, s')
    ensures forall n: nat :: n < |s.data| ==> n in s.queue || InHands(s.hands, n)
  {
  }

  // Once every receiver that was woken has run, nobody waits while a message is queued.
  lemma NobodyStuck(run: seq<State>, n: nat)
    requires IsRun(run) && n < |run| && run[n].wokenRecv == {} && run[n].recvQ != []
    ensures run[n].queue == [] && run[n].deque == []
  {
    EveryRunKeeps(run, n);
  }

  // ---- who is served first ----

  // Of the receivers that wait only the first is woken, and the queue changes in one place.
  ghost predicate Passes(s: State, s': State) {
    && s'.prio == s.prio && s'.flag == s.flag
    && Moves(s.recvQ, s.prio, s.flag, s'.recvQ)
    && forall t :: t in s'.wokenRecv && t !in s.wokenRecv ==> s.recvQ != [] && t == s.recvQ[0]
  }

  lemma LinkPasses(s: State, t: Tid, s': State)
    requires Links(s, t, s')
    ensures Passes(s, s')
  {
    hide Joined, Dropped;
    FirstDropped(s.recvQ);
  }

  lemma TakePasses(s: State, t: Tid, w: bool, r: Outcome, s': State)
    requires (Idle(s, t) || t in s.wokenRecv) && Separate(s) && Takes(s, t, w, r, s')
    ensures Passes(s, s')
  {
    hide Joined, Dropped, NoRepeats;
  }

  lemma StepPasses(s: State, s': State)
    requires Inv(s) && Step(s, s')
    ensures Passes(s, s')
  {
    hide Links, Takes, Passes, Separate, Partition, Contents, NoLostWakeup, Ordered, Idle;
    if t :| Links(s, t, s') {
      LinkPasses(s, t, s');
    } else if t, w, r :| (Idle(s, t) || t in s.wokenRecv) && Takes(s, t, w, r, s') {
      TakePasses(s, t, w, r, s');
    } else {
      OtherPasses(s, s');
    }
  }

  lemma OtherPasses(s: State, s': State)
    requires Step(s, s') && !(exists t :: Links(s, t, s'))
    requires !(exists t, w, r :: (Idle(s, t) || t in s.wokenRecv) && Takes(s, t, w, r, s'))
    ensures Passes(s, s')
  {
    hide Links, Takes, Joined, Dropped, Idle;
  }

  // Over every run: while x waits, nobody who came later and is not more urgent - with
  // first-in-first-out queueing, nobody at all who came later - is resumed before it.
  lemma {:induction false} NotOvertaken(run: seq<State>, m: nat, n: nat, x: Tid, y: Tid)
    requires IsRun(run) && m <= n < |run| - 1 && x != y && y in run[m].prio && x in run[m].prio
    requires forall k :: m <= k <= n ==> x in run[k].recvQ
    requires y !in run[m].recvQ && (run[m].flag == Fifo || run[m].prio[x] <= run[m].prio[y])
    ensures run[n].prio == run[m].prio && run[n].flag == run[m].flag
    ensures y in run[n].recvQ ==> Ahead(run[n].recvQ, x, y)
    ensures y in run[n + 1].wokenRecv ==> y in run[n].wokenRecv
    decreases n - m
  {
    hide Inv, Step, Moves;
    EveryRunKeeps(run, n);
    assert Step(run[n], run[n + 1]);
    StepPasses(run[n], run[n + 1]);
    if m < n {
      NotOvertaken(run, m, n - 1, x, y);
      EveryRunKeeps(run, n - 1);
      var k := n - 1;
      assert Step(run[k], run[k + 1]);
      StepPasses(run[k], run[k + 1]);
      QueueFacts(run[k]);
      if y in run[n].recvQ { AheadKept(run[k].recvQ, run[k].prio, run[k].flag, run[n].recvQ, x, y); }
    }
    QueueFacts(run[n]);
    NotFirst(run[n].recvQ, x, y);
  }

  lemma QueueFacts(s: State)
    requires Inv(s)
    ensures NoRepeats(s.recvQ) && Ordered(s.recvQ, s.prio, s.flag)
  {
  }

  // ---- the message queue object ----

  function PtrTo(nodes: seq<nat>, i: nat): Ptr {
    if i < |nodes| then At(nodes[i]) else Null
  }

  // From p the next pointers lead through exactly these nodes, and then to RT_NULL.
  ghost predicate Chain(next: seq<Ptr>, p: Ptr, nodes: seq<nat>) {
    && p == PtrTo(nodes, 0)
    && forall i :: 0 <= i < |nodes| ==> nodes[i] < |next| && next[nodes[i]] == PtrTo(nodes, i + 1)
  }

  ghost predicate IsTail(tail: Ptr, nodes: seq<nat>) {
    tail == if nodes == [] then Null else At(nodes[|nodes| - 1])
  }

  lemma ChainPop(next: seq<Ptr>, p: Ptr, nodes: seq<nat>)
    requires Chain(next, p, nodes) && nodes != []
    ensures p == At(nodes[0]) && nodes[0] < |next| && Chain(next, next[nodes[0]], nodes[1..])
  {
    var rest := nodes[1..];
    forall i | 0 <= i < |rest|
      ensures rest[i] < |next| && next[rest[i]] == PtrTo(rest, i + 1)
    {
      assert rest[i] == nodes[i + 1] && PtrTo(rest, i + 1) == PtrTo(nodes, i + 2);
    }
  }

  lemma ChainPush(next: seq<Ptr>, p: Ptr, nodes: seq<nat>, n: nat)
    requires Chain(next, p, nodes) && n < |next| && n !in nodes
    ensures Chain(next[n := p], At(n), [n] + nodes)
  {
    var all := [n] + nodes;
    forall i | 0 <= i < |all|
      ensures all[i] < |next| && next[n := p][all[i]] == PtrTo(all, i + 1)
    {
      if i > 0 { assert all[i] == nodes[i - 1] && PtrTo(all, i + 1) == PtrTo(nodes, i); }
    }
  }

  lemma ChainElsewhere(next: seq<Ptr>, p: Ptr, nodes: seq<nat>, n: nat, q: Ptr)
    requires Chain(next, p, nodes) && n < |next| && n !in nodes
    ensures Chain(next[n := q], p, nodes)
  {
  }

  lemma ChainAppend(next: seq<Ptr>, p: Ptr, nodes: seq<nat>, n: nat)
    requires Chain(next, p, nodes) && nodes != [] && n < |next| && next[n] == Null && n !in nodes
    requires forall i, j :: 0 <= i < j < |nodes| ==> nodes[i] != nodes[j]
    ensures nodes[|nodes| - 1] < |next|
    ensures Chain(next[nodes[|nodes| - 1] := At(n)], p, nodes + [n])
  {
  }

  lemma ChainHead(next: seq<Ptr>, p: Ptr, nodes: seq<nat>)
    requires Chain(next, p, nodes)
    ensures p == Null <==> nodes == []
  {
  }

  // A normal message in hand already ends the list it will join.
  ghost predicate EndsMarked(next: seq<Ptr>, hands: map<Tid, Hand>) {
    forall t :: t in hands && hands[t].Filled? && !hands[t].urgent ==>
        hands[t].node < |next| && next[hands[t].node] == Null
  }

  ghost predicate Linked(next: seq<Ptr>, freeHead: Ptr, head: Ptr, tail: Ptr, free: seq<nat>, queue: seq<nat>,
      hands: map<Tid, Hand>)
  {
    Chain(next, freeHead, free) && Chain(next, head, queue) && IsTail(tail, queue) && EndsMarked(next, hands)
  }

  // ---- what each pointer change does to the lists ----

  lemma ClaimLinked(next: seq<Ptr>, freeHead: Ptr, head: Ptr, tail: Ptr, free: seq<nat>, queue: seq<nat>,
      hands: map<Tid, Hand>, t: Tid, h: Hand)
    requires Linked(next, freeHead, head, tail, free, queue, hands) && free != [] && h.Claimed?
    ensures freeHead == At(free[0]) && free[0] < |next|
    ensures Linked(next, next[free[0]], head, tail, free[1..], queue, hands[t := h])
  {
    ChainPop(next, freeHead, free);
    hide Chain;
  }

  lemma FillLinked(count: nat, next: seq<Ptr>, freeHead: Ptr, head: Ptr, tail: Ptr, free: seq<nat>, queue: seq<nat>,
      hands: map<Tid, Hand>, t: Tid, next': seq<Ptr>)
    requires Linked(next, freeHead, head, tail, free, queue, hands) && Partition(count, free, queue, hands) &&
             |next| == count
    requires t in hands && hands[t].Claimed?
    requires hands[t].node < count && next' == if hands[t].urgent then next else next[hands[t].node := Null]
    ensures Linked(next', freeHead, head, tail, free, queue,
                   hands[t := Filled(hands[t].node, hands[t].msg, hands[t].urgent)])
  {
    hide Chain, Partition;
    TakenIsHeld(count, free, queue, hands, t);
    ChainElsewhere(next, freeHead, free, hands[t].node, Null);
    ChainElsewhere(next, head, queue, hands[t].node, Null);
  }

  lemma UrgentLinked(count: nat, next: seq<Ptr>, freeHead: Ptr, head: Ptr, tail: Ptr, free: seq<nat>, queue: seq<nat>,
      hands: map<Tid, Hand>, t: Tid, n: nat)
    requires Linked(next, freeHead, head, tail, free, queue, hands) && Partition(count, free, queue, hands) &&
             |next| == count
    requires t in hands && hands[t].node == n && n < count
    ensures Linked(next[n := head], freeHead, At(n), if tail == Null then At(n) else tail,
                   free, [n] + queue, hands - {t})
  {
    hide Chain, Partition;
    TakenIsHeld(count, free, queue, hands, t);
    ChainElsewhere(next, freeHead, free, n, head);
    ChainPush(next, head, queue, n);
  }

  lemma LastApart(count: nat, free: seq<nat>, queue: seq<nat>, hands: map<Tid, Hand>)
    requires Partition(count, free, queue, hands) && queue != []
    ensures var last := queue[|queue| - 1];
      last !in free && forall u :: u in hands ==> hands[u].node != last
    ensures forall i, j :: 0 <= i < j < |queue| ==> queue[i] != queue[j]
  {
    var last := queue[|queue| - 1];
    assert last in queue;
    forall u | u in hands ensures hands[u].node != last { TakenIsHeld(count, free, queue, hands, u); }
  }

  lemma ChainOne(next: seq<Ptr>, n: nat)
    requires n < |next| && next[n] == Null
    ensures Chain(next, At(n), [n])
  {
  }

  lemma NormalLinked(count: nat, next: seq<Ptr>, freeHead: Ptr, head: Ptr, tail: Ptr, free: seq<nat>, queue: seq<nat>,
      hands: map<Tid, Hand>, t: Tid, n: nat, next': seq<Ptr>)
    requires Linked(next, freeHead, head, tail, free, queue, hands) && Partition(count, free, queue, hands) &&
             |next| == count
    requires t in hands && hands[t].Filled? && !hands[t].urgent && hands[t].node == n && n < count
    requires tail.At? ==> tail.addr < count
    requires next' == if tail == Null then next else next[tail.addr := At(n)]
    ensures Linked(next', freeHead, if head == Null then At(n) else head, At(n), free, queue + [n], hands - {t})
  {
    hide Chain, Partition;
    TakenIsHeld(count, free, queue, hands, t);
    ChainHead(next, head, queue);
    if queue != [] {
      LastApart(count, free, queue, hands);
      ChainAppend(next, head, queue, n);
      ChainElsewhere(next, freeHead, free, queue[|queue| - 1], At(n));
    } else {
      ChainOne(next, n);
      assert queue + [n] == [n];
    }
  }

  lemma TakeLinked(count: nat, next: seq<Ptr>, freeHead: Ptr, head: Ptr, tail: Ptr, free: seq<nat>, queue: seq<nat>,
      hands: map<Tid, Hand>, t: Tid, h: Hand)
    requires Linked(next, freeHead, head, tail, free, queue, hands) && Partition(count, free, queue, hands)
    requires queue != [] && h.Taken?
    ensures head == At(queue[0]) && queue[0] < |next|
    ensures Linked(next, freeHead, next[queue[0]], if tail == head then Null else tail, free, queue[1..], hands[t := h])
  {
    ChainPop(next, head, queue);
    assert |queue| > 1 ==> queue[0] != queue[|queue| - 1];
    hide Chain, Partition;
  }

  lemma ReleaseLinked(count: nat, next: seq<Ptr>, freeHead: Ptr, head: Ptr, tail: Ptr, free: seq<nat>, queue: seq<nat>,
      hands: map<Tid, Hand>, t: Tid, n: nat)
    requires Linked(next, freeHead, head, tail, free, queue, hands) && Partition(count, free, queue, hands) &&
             |next| == count
    requires t in hands && hands[t].node == n && n < count
    ensures Linked(next[n := freeHead], At(n), head, tail, [n] + free, queue, hands - {t})
  {
    hide Chain, Partition;
    TakenIsHeld(count, free, queue, hands, t);
    ChainPush(next, freeHead, free, n);
    ChainElsewhere(next, head, queue, n, freeHead);
    forall u | u in hands && u != t ensures hands[u].node != n {}
  }

  lemma FlushMoves(count: nat, free: seq<nat>, queue: seq<nat>, hands: map<Tid, Hand>)
    requires Partition(count, free, queue, hands) && queue != []
    ensures Partition(count, [queue[0]] + free, queue[1..], hands)
  {
    hide InHands;
    FirstAndRest(queue);
    var free' := [queue[0]] + free;
    assert forall n :: n in free' <==> n == queue[0] || n in free;
    assert Partition(count, free', queue[1..], hands);
  }

  lemma FlushApart(count: nat, free: seq<nat>, queue: seq<nat>, hands: map<Tid, Hand>)
    requires Partition(count, free, queue, hands) && queue != []
    ensures queue[0] !in free && queue[0] !in queue[1..]
    ensures |queue| > 1 ==> queue[0] != queue[|queue| - 1]
    ensures forall u :: u in hands ==> hands[u].node != queue[0]
  {
    FirstAndRest(queue);
    assert queue[0] in queue;
    forall u | u in hands ensures hands[u].node != queue[0] { TakenIsHeld(count, free, queue, hands, u); }
  }

  lemma FlushLinked(count: nat, next: seq<Ptr>, freeHead: Ptr, head: Ptr, tail: Ptr, free: seq<nat>, queue: seq<nat>,
      hands: map<Tid, Hand>)
    requires Linked(next, freeHead, head, tail, free, queue, hands) && Partition(count, free, queue, hands) &&
             |next| == count
    requires queue != []
    ensures head == At(queue[0]) && queue[0] < |next|
    ensures Linked(next[queue[0] := freeHead], At(queue[0]), next[queue[0]], if tail == head then Null else tail,
                   [queue[0]] + free, queue[1..], hands)
    ensures Partition(count, [queue[0]] + free, queue[1..], hands)
  {
    hide Chain, Partition, InHands;
    var n := queue[0];
    FlushMoves(count, free, queue, hands);
    FlushApart(count, free, queue, hands);
    ChainPop(next, head, queue);
    ChainPush(next, freeHead, free, n);
    ChainElsewhere(next, next[n], queue[1..], n, freeHead);
  }

  // The object's own fields describe the abstract state s.
  ghost predicate Good(next: seq<Ptr>, freeHead: Ptr, head: Ptr, tail: Ptr, entry: nat, s: State) {
    && |next| == |s.data| <= 0xFFFF && entry == |s.queue|
    && Linked(next, freeHead, head, tail, s.free, s.queue, s.hands)
    && Inv(s)
  }

  lemma HandFits(s: State, t: Tid)
    requires Inv(s) && t in s.hands
    ensures s.hands[t].node < |s.data| && |s.data[s.hands[t].node]| == s.msgSize && |s.hands[t].msg| <= s.msgSize
  {
    TakenIsHeld(|s.data|, s.free, s.queue, s.hands, t);
  }

  lemma GoodFacts(next: seq<Ptr>, freeHead: Ptr, head: Ptr, tail: Ptr, entry: nat, s: State)
    requires Good(next, freeHead, head, tail, entry, s)
    ensures |next| == |s.data| <= 0xFFFF && entry == |s.queue| == |s.deque|
    ensures Known(s.recvQ, s.prio)
    ensures freeHead == (if s.free == [] then Null else At(s.free[0])) && (s.free != [] ==> s.free[0] < |next|)
    ensures head == (if s.queue == [] then Null else At(s.queue[0])) && (s.queue != [] ==> s.queue[0] < |next|)
    ensures tail.At? ==> tail.addr < |next|
    ensures forall t :: t in s.hands ==> s.hands[t].node < |next|
  {
    forall t | t in s.hands ensures s.hands[t].node < |next| { HandFits(s, t); }
    hide Partition;
  }

  lemma ClaimGood(next: seq<Ptr>, freeHead: Ptr, head: Ptr, tail: Ptr, entry: nat, s: State, t: Tid, m: Bytes, u: bool)
    requires Good(next, freeHead, head, tail, entry, s) && Idle(s, t) && |m| <= s.msgSize && s.free != []
    ensures s.free[0] < |next|
    ensures Good(next, next[s.free[0]], head, tail, entry,
                 s.(free := s.free[1..], hands := s.hands[t := Claimed(s.free[0], m, u)]))
  {
    var s' := s.(free := s.free[1..], hands := s.hands[t := Claimed(s.free[0], m, u)]);
    ClaimLinked(next, freeHead, head, tail, s.free, s.queue, s.hands, t, Claimed(s.free[0], m, u));
    ClaimKeeps(s, t, m, u, Done, s');
    hide Inv, Linked;
  }

  lemma FillGood(next: seq<Ptr>, freeHead: Ptr, head: Ptr, tail: Ptr, entry: nat, s: State, t: Tid, next': seq<Ptr>)
    requires Good(next, freeHead, head, tail, entry, s) && t in s.hands && s.hands[t].Claimed? &&
             s.hands[t].node < |next|
    requires next' == if s.hands[t].urgent then next else next[s.hands[t].node := Null]
    ensures s.hands[t].node < |s.data| && |s.hands[t].msg| <= |s.data[s.hands[t].node]|
    ensures Good(next', freeHead, head, tail, entry, AfterFill(s, t))
  {
    HandFits(s, t);
    FillLinked(|s.data|, next, freeHead, head, tail, s.free, s.queue, s.hands, t, next');
    FillKeeps(s, t, AfterFill(s, t));
    hide Inv, Linked;
  }

  lemma WokenGood(next: seq<Ptr>, freeHead: Ptr, head: Ptr, tail: Ptr, entry: nat, s: State, t: Tid)
    requires Good(next, freeHead, head, tail, entry, s) && t in s.hands && s.hands[t].Filled?
    ensures Inv(WakeReceiver(AfterLink(s, t)))
  {
    LinkKeeps(s, t, WakeReceiver(AfterLink(s, t)));
  }

  lemma LinkGood(next: seq<Ptr>, freeHead: Ptr, head: Ptr, tail: Ptr, entry: nat, s: State, t: Tid, next': seq<Ptr>)
    requires Good(next, freeHead, head, tail, entry, s) && t in s.hands && s.hands[t].Filled? && !s.hands[t].urgent
    requires tail.At? ==> tail.addr < |next|
    requires next' == if tail == Null then next else next[tail.addr := At(s.hands[t].node)]
    ensures Good(next', freeHead, if head == Null then At(s.hands[t].node) else head, At(s.hands[t].node), entry + 1,
                 WakeReceiver(AfterLink(s, t)))
  {
    HandFits(s, t);
    WokenGood(next, freeHead, head, tail, entry, s, t);
    NormalLinked(|s.data|, next, freeHead, head, tail, s.free, s.queue, s.hands, t, s.hands[t].node, next');
    hide Inv, Linked;
  }

  lemma UrgentGood(next: seq<Ptr>, freeHead: Ptr, head: Ptr, tail: Ptr, entry: nat, s: State, t: Tid)
    requires Good(next, freeHead, head, tail, entry, s) && t in s.hands && s.hands[t].Filled? && s.hands[t].urgent
    requires s.hands[t].node < |next|
    ensures Good(next[s.hands[t].node := head], freeHead, At(s.hands[t].node),
                 if tail == Null then At(s.hands[t].node) else tail, entry + 1, WakeReceiver(AfterLink(s, t)))
  {
    WokenGood(next, freeHead, head, tail, entry, s, t);
    UrgentLinked(|s.data|, next, freeHead, head, tail, s.free, s.queue, s.hands, t, s.hands[t].node);
    hide Inv, Linked;
  }

  lemma TakeGood(next: seq<Ptr>, freeHead: Ptr, head: Ptr, tail: Ptr, entry: nat, s: State, t: Tid)
    requires Good(next, freeHead, head, tail, entry, s) && (Idle(s, t) || t in s.wokenRecv) && s.queue != []
    ensures s.deque != [] && head == At(s.queue[0]) && s.queue[0] < |next|
    ensures Good(next, freeHead, next[s.queue[0]], if tail == head then Null else tail, entry - 1, AfterTake(s, t))
  {
    TakeLinked(|s.data|, next, freeHead, head, tail, s.free, s.queue, s.hands, t, Taken(s.queue[0], s.deque[0]));
    TakeKeeps(s, t, true, Done, AfterTake(s, t));
    hide Inv, Linked;
  }

  lemma WaitGood(next: seq<Ptr>, freeHead: Ptr, head: Ptr, tail: Ptr, entry: nat, s: State, t: Tid, r: Outcome,
      s': State)
    requires Good(next, freeHead, head, tail, entry, s) && (Idle(s, t) || t in s.wokenRecv) && s.queue == []
    requires Takes(s, t, r == Blocked, r, s')
    ensures Good(next, freeHead, head, tail, entry, s')
  {
    TakeKeeps(s, t, r == Blocked, r, s');
    hide Inv, Linked, Joined;
  }

  lemma ReleaseGood(next: seq<Ptr>, freeHead: Ptr, head: Ptr, tail: Ptr, entry: nat, s: State, t: Tid)
    requires Good(next, freeHead, head, tail, entry, s) && t in s.hands && s.hands[t].Taken? && s.hands[t].node < |next|
    ensures Good(next[s.hands[t].node := freeHead], At(s.hands[t].node), head, tail, entry,
                 s.(free := [s.hands[t].node] + s.free, hands := s.hands - {t}))
  {
    ReleaseLinked(|s.data|, next, freeHead, head, tail, s.free, s.queue, s.hands, t, s.hands[t].node);
    ReleaseKeeps(s, t, s.(free := [s.hands[t].node] + s.free, hands := s.hands - {t}));
    hide Inv, Linked;
  }

  lemma TimeoutGood(next: seq<Ptr>, freeHead: Ptr, head: Ptr, tail: Ptr, entry: nat, s: State, i: nat)
    requires Good(next, freeHead, head, tail, entry, s) && i < |s.recvQ|
    ensures Good(next, freeHead, head, tail, entry, s.(recvQ := Dropped(s.recvQ, i), failed := s.failed + {s.recvQ[i]}))
  {
    TimeoutKeeps(s, s.recvQ[i], s.(recvQ := Dropped(s.recvQ, i), failed := s.failed + {s.recvQ[i]}));
    hide Inv, Linked;
  }

  lemma ResetGood(next: seq<Ptr>, freeHead: Ptr, head: Ptr, tail: Ptr, s: State)
    requires Inv(s) && |next| == |s.data| <= 0xFFFF
    requires Linked(next, freeHead, head, tail, Reversed(s.queue) + s.free, [], s.hands)
    ensures Good(next, freeHead, head, tail, 0, AfterReset(s))
  {
    ResetKeeps(s);
    hide Inv, Linked;
  }

  // ---- the pool, whose nodes are named by their numbers ----

  const LINK: nat := 4           // sizeof(struct rt_mq_message)

  // Where node n ends in the pool.
  function NodeEnd(size: nat, n: nat): (end: nat)
    ensures end >= LINK + size
  {
    assert n * (LINK + size) >= 0;
    (n + 1) * (LINK + size)
  }

  // The message area of node n.
  function Area(pool: Bytes, size: nat, n: nat): (area: Bytes)
    requires NodeEnd(size, n) <= |pool|
    ensures |area| == size
  {
    pool[NodeEnd(size, n) - size..NodeEnd(size, n)]
  }

  // Byte i of the pool belongs to the link of node n, or to its message area.
  ghost predicate InLink(size: nat, n: nat, i: nat) {
    NodeEnd(size, n) - size - LINK <= i < NodeEnd(size, n) - size
  }

  ghost predicate InArea(size: nat, n: nat, i: nat) {
    NodeEnd(size, n) - size <= i < NodeEnd(size, n)
  }

  lemma NodeEndGrows(size: nat, m: nat, n: nat)
    requires m < n
    ensures NodeEnd(size, m) + LINK + size <= NodeEnd(size, n)
  {
    assert (n - (m + 1)) * (LINK + size) >= 0;
    assert (n + 1) * (LINK + size) == (n - (m + 1)) * (LINK + size) + (m + 1) * (LINK + size) + (LINK + size);
  }

  // No byte belongs to two nodes, nor to both the link and the area of one.
  lemma NodesApart(size: nat, m: nat, n: nat, i: nat)
    requires InLink(size, m, i) || InArea(size, m, i)
    ensures m != n ==> !InLink(size, n, i) && !InArea(size, n, i)
    ensures InLink(size, m, i) <==> !InArea(size, m, i)
  {
    if m < n { NodeEndGrows(size, m, n); } else if n < m { NodeEndGrows(size, n, m); }
    hide NodeEnd;
  }

  // So bytes written into the area of one node change no link and no other area.
  lemma WrittenApart(pool: Bytes, pool': Bytes, size: nat, m: nat, n: nat)
    requires |pool'| == |pool| && NodeEnd(size, n) <= |pool|
    requires forall i :: 0 <= i < |pool| && !InArea(size, m, i) ==> pool'[i] == pool[i]
    ensures m != n ==> Area(pool', size, n) == Area(pool, size, n)
    ensures forall i :: 0 <= i < |pool| && InLink(size, n, i) ==> pool'[i] == pool[i]
  {
    hide NodeEnd;
    forall i | 0 <= i < |pool| && (InLink(size, n, i) || (InArea(size, n, i) && m != n)) ensures pool'[i] == pool[i] {
      NodesApart(size, n, m, i);
    }
    var e := NodeEnd(size, n);
    if m != n {
      forall k | 0 <= k < size ensures Area(pool', size, n)[k] == Area(pool, size, n)[k] {
        assert InArea(size, n, e - size + k);
      }
    }
  }

  // How many nodes the pool is divided into.
  function NodeCount(len: nat, size: nat): (n: nat)
    ensures n < 0x1_0000
  {
    len / (LINK + size) % 0x1_0000
  }

  lemma AtMost(a: nat, m: nat)
    requires m > 0
    ensures a % m <= a
  {
    var q := a / m;
    assert a == q * m + a % m && q * m >= 0;
  }

  lemma NodeFits(len: nat, w: nat, n: nat)
    requires w > 0 && n < len / w
    ensures (n + 1) * w <= len
  {
    var q := len / w;
    assert len == q * w + len % w;
    assert (q - (n + 1)) * w >= 0;
    assert q * w == (q - (n + 1)) * w + (n + 1) * w;
  }

  // No node reaches beyond the pool, and unless their number does not fit in 16 bits there
  // is no place for one more.
  lemma NodesFit(len: nat, size: nat)
    ensures forall n: nat :: n < NodeCount(len, size) ==> NodeEnd(size, n) <= len
    ensures len / (4 + size) < 0x1_0000 ==> NodeEnd(size, NodeCount(len, size)) > len
  {
    NoMoreFit(len, LINK + size);
    hide NodeCount;
    forall n: nat | n < NodeCount(len, size) ensures NodeEnd(size, n) <= len {
      CountAtMost(len, size);
      NodeFits(len, LINK + size, n);
    }
  }

  lemma NoMoreFit(len: nat, w: nat)
    requires w > 0
    ensures (len / w + 1) * w > len
    ensures len / w < 0x1_0000 ==> len / w % 0x1_0000 == len / w
  {
    var q := len / w;
    assert len == q * w + len % w;
    assert (q + 1) * w == q * w + w;
  }

  // Where the message area of node n lies: behind n whole nodes and the link.
  lemma AreaMeans(pool: Bytes, size: nat, n: nat)
    requires NodeEnd(size, n) <= |pool|
    ensures NodeEnd(size, n) == n * (4 + size) + 4 + size
    ensures 0 <= n * (4 + size) && Area(pool, size, n) == pool[n * (4 + size) + 4..n * (4 + size) + 4 + size]
  {
    assert (n + 1) * (4 + size) == n * (4 + size) + (4 + size);
  }

  lemma CountAtMost(len: nat, size: nat)
    ensures NodeCount(len, size) <= len / (LINK + size)
  {
    AtMost(len / (LINK + size), 0x1_0000);
  }

  lemma StartGood(next: seq<Ptr>, freeHead: Ptr, s: State)
    requires Start(s) && Chain(next, freeHead, s.free) && |next| == |s.data|
    requires |s.data| < 0x1_0000
    ensures Good(next, freeHead, Null, Null, 0, s)
  {
    hide Inv, CountDown;
    StartHolds(s);
  }

  class MessageQueueObject {
    const msgSize: nat
    const maxMsgs: nat
    const flag: Flag
    const prio: Priorities
    var next: seq<Ptr>             // the link at the start of each node
    var data: seq<Bytes>           // the message area behind it
    var freeHead: Ptr              // msg_queue_free
    var head: Ptr                  // msg_queue_head
    var tail: Ptr                  // msg_queue_tail
    var entry: nat
    var recvQ: seq<Tid>            // parent.suspend_thread
    ghost var free: seq<nat>
    ghost var queue: seq<nat>
    ghost var hands: map<Tid, Hand>
    ghost var wokenRecv: set<Tid>
    ghost var failed: set<Tid>
    ghost var deque: seq<Bytes>

    ghost function Abs(): State
      reads this
    {
      State(msgSize, flag, prio, data, free, queue, hands, recvQ, wokenRecv, failed, deque)
    }

    ghost predicate Valid()
      reads this
    {
      Good(next, freeHead, head, tail, entry, Abs()) && |data| == maxMsgs
    }

    // rt_mq_init: the pool is divided into as many nodes as fit, a link and a message area
    // each; both counts are kept in 16 bits.
    constructor (size: u32, pool: Bytes, flag: Flag, prio: Priorities)
      requires |pool| < WORD
      ensures Valid() && Start(Abs()) && Abs().flag == flag && Abs().prio == prio
      ensures Abs().msgSize == Align4(size) % 0x1_0000
      ensures |Abs().data| == NodeCount(|pool|, Abs().msgSize)
      ensures forall n :: 0 <= n < |Abs().data| ==>
                  NodeEnd(Abs().msgSize, n) <= |pool| && Abs().data[n] == Area(pool, Abs().msgSize, n)
    {
      hide Inv, Good, CountDown, Area, NodeEnd, NodeCount, Chain, Align4;
      var sz := Align4(size) % 0x1_0000;
      var count := NodeCount(|pool|, sz);
      NodesFit(|pool|, sz);
      msgSize, maxMsgs, this.flag, this.prio := sz, count, flag, prio;
      next, data := seq(count, i => Null), seq(count, n requires 0 <= n < count => Area(pool, sz, n));
      freeHead, head, tail, entry := Null, Null, Null, 0;
      recvQ, free, queue, hands, wokenRecv, failed, deque := [], [], [], map[], {}, {}, [];
      new;
      LinkNodes();
      StartGood(next, freeHead, Abs());
    }

    // The loop of rt_mq_init: each node is put in front of the free list.
    method LinkNodes()
      requires |next| == maxMsgs && freeHead == Null && free == []
      modifies this`freeHead, this`free, this`next
      ensures |next| == maxMsgs && free == CountDown(maxMsgs) && Chain(next, freeHead, free)
    {
      hide CountDown;
      var n := 0;
      CountDownMembers(0);
      while n < maxMsgs
        invariant n <= maxMsgs == |next| && free == CountDown(n) && Chain(next, freeHead, free)
      {
        CountDownMembers(n);
        CountDownStep(n);
        ChainPush(next, freeHead, free, n);
        next := next[n := freeHead];
        freeHead := At(n);
        free := [n] + free;
        n := n + 1;
      }
    }

    // Resuming the first receiver, if one waits.
    method WakeFirst()
      modifies this`recvQ, this`wokenRecv
      ensures Abs() == WakeReceiver(old(Abs()))
      ensures if old(recvQ) == [] then recvQ == [] && wokenRecv == old(wokenRecv)
              else recvQ == old(recvQ)[1..] && wokenRecv == old(wokenRecv) + {old(recvQ)[0]}
    {
      if recvQ != [] {
        wokenRecv := wokenRecv + {recvQ[0]};
        recvQ := recvQ[1..];
      }
    }

    // rt_mq_send and rt_mq_urgent up to the first enabling of interrupts.
    method Claim(t: Tid, msg: Bytes, urgent: bool) returns (r: Outcome, node: Ptr)
      requires Valid() && Idle(Abs(), t)
      modifies this
      ensures Valid() && Claims(old(Abs()), t, msg, urgent, r, Abs())
      ensures r == Done ==> node == At(old(free)[0])
      // only a message that does not fit a node is too long
      ensures r == TooLong <==> |msg| > msgSize
      ensures r == Refused <==> |msg| <= msgSize && old(free) == []
      ensures r == Done || r == TooLong || r == Refused
      ensures free == if r == Done then old(free)[1..] else old(free)
      ensures hands == if r == Done then old(hands)[t := Claimed(old(free)[0], msg, urgent)] else old(hands)
      ensures queue == old(queue) && deque == old(deque) && data == old(data) && entry == old(entry)
      ensures recvQ == old(recvQ) && wokenRecv == old(wokenRecv) && failed == old(failed)
    {
      hide Good, Idle;
      if |msg| > msgSize { return TooLong, Null; }
      GoodFacts(next, freeHead, head, tail, entry, Abs());
      node := freeHead;
      if node == Null { return Refused, Null; }
      ClaimGood(next, freeHead, head, tail, entry, Abs(), t, msg, urgent);
      freeHead := next[node.addr];
      hands := hands[t := Claimed(node.addr, msg, urgent)];
      free := free[1..];
      r := Done;
    }

    // Between the sections: a normal message ends the list it is going to join, and the
    // buffer is copied into the node.
    method Fill(t: Tid, node: nat, msg: Bytes, urgent: bool)
      requires Valid() && t in hands && hands[t] == Claimed(node, msg, urgent)
      modifies this`hands, this`next, this`data
      ensures Valid() && Fills(old(Abs()), t, Abs())
      ensures hands == old(hands)[t := Filled(node, msg, urgent)]
      ensures node < |data| == |old(data)| && |data[node]| == |old(data)[node]|
      ensures forall k :: 0 <= k < |data[node]| ==> data[node][k] == if k < |msg| then msg[k] else old(data)[node][k]
      ensures forall n :: 0 <= n < |data| && n != node ==> data[n] == old(data)[n]
    {
      hide Good, Overwrite;
      GoodFacts(next, freeHead, head, tail, entry, Abs());
      FillGood(next, freeHead, head, tail, entry, Abs(), t, if urgent then next else next[node := Null]);
      OverwriteAt(data[node], msg);
      if !urgent { next := next[node := Null]; }
      data := data[node := Overwrite(data[node], msg)];
      hands := hands[t := Filled(node, msg, urgent)];
    }

    ghost method Enqueue(t: Tid)
      requires t in hands && hands[t].Filled?
      modifies this`queue, this`deque, this`hands
      ensures Abs() == AfterLink(old(Abs()), t) && hands == old(hands) - {t}
      ensures var h := old(hands)[t];
        && queue == (if h.urgent then [h.node] + old(queue) else old(queue) + [h.node])
        && deque == (if h.urgent then [h.msg] + old(deque) else old(deque) + [h.msg])
    {
      var h := hands[t];
      queue := if h.urgent then [h.node] + queue else queue + [h.node];
      deque := if h.urgent then [h.msg] + deque else deque + [h.msg];
      hands := hands - {t};
    }

    // The second section of rt_mq_send.
    method Link(t: Tid, node: nat)
      requires Valid() && t in hands && hands[t].Filled? && hands[t].node == node && !hands[t].urgent
      modifies this
      ensures Valid() && Links(old(Abs()), t, Abs())
      ensures queue == old(queue) + [node] && deque == old(deque) + [old(hands)[t].msg]
      // the longest waiting receiver, by the order of its queue, is resumed
      ensures if old(recvQ) == [] then recvQ == [] && wokenRecv == old(wokenRecv)
              else recvQ == old(recvQ)[1..] && wokenRecv == old(wokenRecv) + {old(recvQ)[0]}
      ensures hands == old(hands) - {t} && free == old(free) && data == old(data) && failed == old(failed)
      ensures entry == old(entry) + 1
    {
      hide Good, WakeReceiver, AfterLink;
      GoodFacts(next, freeHead, head, tail, entry, Abs());
      LinkGood(next, freeHead, head, tail, entry, Abs(), t, if tail == Null then next else next[tail.addr := At(node)]);
      AttachTail(node);
      Enqueue(t);
      WakeFirst();
    }

    method AttachTail(node: nat)
      requires tail.At? ==> tail.addr < |next|
      modifies this`next, this`tail, this`head, this`entry
      ensures next == if old(tail) == Null then old(next) else old(next)[old(tail).addr := At(node)]
      ensures tail == At(node) && head == (if old(head) == Null then At(node) else old(head)) && entry == old(entry) + 1
    {
      if tail != Null { next := next[tail.addr := At(node)]; }
      tail := At(node);
      if head == Null { head := At(node); }
      entry := entry + 1;
    }

    // The second section of rt_mq_urgent.
    method LinkUrgent(t: Tid, node: nat)
      requires Valid() && t in hands && hands[t].Filled? && hands[t].node == node && hands[t].urgent
      modifies this
      ensures Valid() && Links(old(Abs()), t, Abs())
      ensures queue == [node] + old(queue) && deque == [old(hands)[t].msg] + old(deque)
      // the longest waiting receiver, by the order of its queue, is resumed
      ensures if old(recvQ) == [] then recvQ == [] && wokenRecv == old(wokenRecv)
              else recvQ == old(recvQ)[1..] && wokenRecv == old(wokenRecv) + {old(recvQ)[0]}
      ensures hands == old(hands) - {t} && free == old(free) && data == old(data) && failed == old(failed)
      ensures entry == old(entry) + 1
    {
      hide Good, WakeReceiver, AfterLink;
      GoodFacts(next, freeHead, head, tail, entry, Abs());
      UrgentGood(next, freeHead, head, tail, entry, Abs(), t);
      AttachHead(node);
      Enqueue(t);
      WakeFirst();
    }

    method AttachHead(node: nat)
      requires node < |next|
      modifies this`next, this`tail, this`head, this`entry
      ensures next == old(next)[node := old(head)] && head == At(node)
      ensures tail == (if old(tail) == Null then At(node) else old(tail)) && entry == old(entry) + 1
    {
      next := next[node := head];
      head := At(node);
      if tail == Null { tail := At(node); }
      entry := entry + 1;
    }

    // rt_mq_recv up to enabling interrupts: on entry, or when thread t has been resumed
    // without error and tests the loop condition again.
    method Take(t: Tid, timeout: int) returns (r: Outcome, node: Ptr)
      requires Valid() && t in prio && (Idle(Abs(), t) || t in wokenRecv)
      modifies this
      ensures Valid() && Takes(old(Abs()), t, timeout != 0, r, Abs())
      ensures r == Done ==> node == At(old(queue)[0])
      // an empty queue is refused without a timeout and waited for with one
      ensures r == Done <==> old(entry) > 0
      ensures r == Refused <==> old(entry) == 0 && timeout == 0
      ensures r == Blocked <==> old(entry) == 0 && timeout != 0
      ensures entry == old(entry) - (if r == Done then 1 else 0)
      ensures r == Done ==>
                && old(queue) == [node.addr] + queue && old(deque) != [] && deque == old(deque)[1..]
                && hands == old(hands)[t := Taken(node.addr, old(deque)[0])]
      ensures r != Done ==> queue == old(queue) && deque == old(deque) && hands == old(hands)
      ensures if r == Blocked then Joined(old(recvQ), t, prio, flag, recvQ) else recvQ == old(recvQ)
      ensures wokenRecv == old(wokenRecv) - {t} && failed == old(failed)
      ensures free == old(free) && data == old(data)
    {
      hide Good, Idle, Joined, Known, AfterTake;
      ghost var s := Abs();
      GoodFacts(next, freeHead, head, tail, entry, s);
      if entry == 0 {
        node := Null;
        r := Wait(t, timeout);
        WaitGood(next, freeHead, head, tail, entry, s, t, r, Abs());
        return;
      }
      TakeGood(next, freeHead, head, tail, entry, s, t);
      node := head;
      head := next[node.addr];
      if tail == node { tail := Null; }
      entry := entry - 1;
      Dequeue(t);
      r := Done;
    }

    ghost method Dequeue(t: Tid)
      requires queue != [] && deque != []
      modifies this`queue, this`deque, this`hands, this`wokenRecv
      ensures Abs() == AfterTake(old(Abs()), t) && wokenRecv == old(wokenRecv) - {t}
      ensures hands == old(hands)[t := Taken(old(queue)[0], old(deque)[0])]
      ensures queue == old(queue)[1..] && deque == old(deque)[1..]
    {
      wokenRecv := wokenRecv - {t};
      hands := hands[t := Taken(queue[0], deque[0])];
      queue, deque := queue[1..], deque[1..];
    }

    // The turn of the waiting loop when there is nothing to receive.
    method Wait(t: Tid, timeout: int) returns (r: Outcome)
      requires queue == [] && Known(recvQ, prio) && t in prio
      modifies this`recvQ, this`wokenRecv
      ensures Takes(old(Abs()), t, timeout != 0, r, Abs())
      ensures r == if timeout != 0 then Blocked else Refused
      ensures if r == Blocked then Joined(old(recvQ), t, prio, flag, recvQ) else recvQ == old(recvQ)
      ensures wokenRecv == old(wokenRecv) - {t}
    {
      hide Joined, Known;
      wokenRecv := wokenRecv - {t};
      r := Refused;
      if timeout != 0 {
        recvQ := Suspend(recvQ, t, prio, flag);
        r := Blocked;
      }
    }

    // The copy out of the node, with interrupts enabled.
    method CopyOut(t: Tid, node: nat, size: nat) returns (out: Bytes)
      requires Valid() && t in hands && hands[t].Taken? && hands[t].node == node
      ensures CopiesOut(Abs(), t, size, out)
      ensures node < |data| && |out| == (if size > msgSize then msgSize else size) && out <= data[node]
      ensures Prefix(hands[t].msg, size) <= out
    {
      HandFits(Abs(), t);
      out := data[node][..if size > msgSize then msgSize else size];
      ReceivedIsSent(Abs(), t, size, out);
    }

    // The last section of rt_mq_recv.
    method Release(t: Tid, node: nat)
      requires Valid() && t in hands && hands[t].Taken? && hands[t].node == node
      modifies this
      ensures Valid() && Releases(old(Abs()), t, Abs())
      ensures free == [node] + old(free) && hands == old(hands) - {t}
      ensures queue == old(queue) && deque == old(deque) && data == old(data) && entry == old(entry)
      ensures recvQ == old(recvQ) && wokenRecv == old(wokenRecv) && failed == old(failed)
    {
      hide Good;
      GoodFacts(next, freeHead, head, tail, entry, Abs());
      ReleaseGood(next, freeHead, head, tail, entry, Abs(), t);
      next := next[node := freeHead];
      freeHead := At(node);
      free := [node] + free;
      hands := hands - {t};
    }

    // The timeout of the i-th waiting receiver.
    method Timeout(i: nat)
      requires Valid() && i < |recvQ|
      modifies this
      ensures Valid() && TimesOut(old(Abs()), old(recvQ)[i], Abs())
      ensures recvQ == old(recvQ)[..i] + old(recvQ)[i + 1..] && failed == old(failed) + {old(recvQ)[i]}
      ensures free == old(free) && queue == old(queue) && deque == old(deque) && hands == old(hands)
      ensures data == old(data) && entry == old(entry) && wokenRecv == old(wokenRecv)
    {
      hide Good, Dropped;
      TimeoutGood(next, freeHead, head, tail, entry, Abs(), i);
      failed := failed + {recvQ[i]};
      recvQ := Dropped(recvQ, i);
    }

    // One turn of the loop that gives all queued nodes back.
    method FlushOne()
      requires Linked(next, freeHead, head, tail, free, queue, hands) && Partition(|next|, free, queue, hands)
      requires head != Null
      modifies this`head, this`tail, this`freeHead, this`free, this`queue, this`next
      ensures Linked(next, freeHead, head, tail, free, queue, hands) && Partition(|next|, free, queue, hands)
      ensures |next| == old(|next|) && old(queue) != [] && queue == old(queue)[1..]
      ensures free == [old(queue)[0]] + old(free)
    {
      hide Linked, Partition;
      FreeHead(next, freeHead, head, tail, free, queue, hands);
      FlushLinked(|next|, next, freeHead, head, tail, free, queue, hands);
      var msg := head;
      head := next[msg.addr];
      if tail == msg { tail := Null; }
      next := next[msg.addr := freeHead];
      freeHead := msg;
      free, queue := [queue[0]] + free, queue[1..];
    }

    method Flush()
      requires Linked(next, freeHead, head, tail, free, queue, hands) && Partition(|next|, free, queue, hands)
      modifies this`head, this`tail, this`freeHead, this`free, this`queue, this`next
      ensures Linked(next, freeHead, head, tail, free, queue, hands)
      ensures |next| == old(|next|) && queue == [] && free == Reversed(old(queue)) + old(free)
    {
      hide Linked, Partition;
      while head != Null
        invariant Linked(next, freeHead, head, tail, free, queue, hands) && Partition(|next|, free, queue, hands)
        invariant |next| == old(|next|)
        invariant Reversed(queue) + free == Reversed(old(queue)) + old(free)
        decreases |queue|
      {
        ghost var q, f := queue, free;
        FlushOne();
        assert Reversed(q[1..]) + ([q[0]] + f) == Reversed(q) + f;
      }
      FreeHead(next, freeHead, head, tail, free, queue, hands);
      assert Reversed(queue) + free == free;
    }

    // rt_mq_control with RT_IPC_CMD_RESET
    method Reset()
      requires Valid()
      modifies this
      ensures Valid() && Abs() == AfterReset(old(Abs()))
      ensures entry == 0 && queue == [] && deque == [] && recvQ == []
      ensures hands == old(hands) && data == old(data) && wokenRecv == old(wokenRecv)
      ensures forall t :: t in failed <==> t in old(failed) || t in old(recvQ)
      ensures forall n :: n in free <==> n in old(free) || n in old(queue)
    {
      hide Good, Inv, Linked, Partition, Reversed, Members;
      ghost var s := Abs();
      GoodParts(next, freeHead, head, tail, entry, s);
      ghost var ended;
      recvQ, ended := ResumeAll(recvQ);
      failed := failed + ended;
      Flush();
      entry := 0;
      deque := [];
      ResetGood(next, freeHead, head, tail, s);
      forall t ensures t in failed <==> t in old(failed) || t in old(recvQ) { MembersAre(old(recvQ), t); }
      forall n ensures n in free <==> n in old(free) || n in old(queue) { ReversedMembers(old(queue)); }
    }
  }

  lemma GoodParts(next: seq<Ptr>, freeHead: Ptr, head: Ptr, tail: Ptr, entry: nat, s: State)
    requires Good(next, freeHead, head, tail, entry, s)
    ensures |next| == |s.data| <= 0xFFFF && Inv(s) && Linked(next, freeHead, head, tail, s.free, s.queue, s.hands)
    ensures Partition(|next|, s.free, s.queue, s.hands)
  {
  }

  lemma FreeHead(next: seq<Ptr>, freeHead: Ptr, head: Ptr, tail: Ptr, free: seq<nat>, queue: seq<nat>,
      hands: map<Tid, Hand>)
    requires Linked(next, freeHead, head, tail, free, queue, hands)
    ensures freeHead == Null <==> free == []
    ensures head == Null <==> queue == []
  {
  }
}
