/** The executor together with any number of channels: no wakeup is lost, and a receiver that can go
    on does so within a bounded number of rounds. */
module System {
  import opened Options
  import opened Scheduler
  import opened Channels

  type Cid = nat
  type Msg = nat

  /** `waiting` holds, for each channel, the waker with which its receiver was last polled and came
      back pending, until the future behind that waker is polled again or completes. */
  datatype Sys = Sys(sched: Sched, chans: map<Cid, Chan<Msg>>, waiting: map<Cid, Waker>)

  datatype Act =
    | Schedule(event: Event)
    | Open(c: Cid)
    | SendOn(c: Cid, m: Msg)
    | RecvOn(c: Cid)
    | CloneOn(c: Cid)
    | DropOn(c: Cid)

  /** The waker of the future that is being polled. */
  function Current(s: Sched): Waker {
    if s.phase.InTask? then TaskWaker(s.phase.id) else MainWaker
  }

  predicate CanAct(s: Sys, a: Act) {
    match a
    case Schedule(e) => Enabled(s.sched, e)
    case Open(c) => Polling(s.sched) && c !in s.chans
    case SendOn(c, _) => Polling(s.sched) && c in s.chans && s.chans[c].senders > 0
    case RecvOn(c) => Polling(s.sched) && c in s.chans
    case CloneOn(c) => Polling(s.sched) && c in s.chans && s.chans[c].senders > 0
    case DropOn(c) => Polling(s.sched) && c in s.chans && s.chans[c].senders > 0
  }

  /** The ids that an action queues through the wakers stored in a channel. */
  function Wakes(s: Sys, a: Act): seq<Id>
    requires CanAct(s, a)
  {
    match a
    case SendOn(c, _) => Woken(s.chans[c].wakeReceiver)
    case RecvOn(c) => if s.chans[c].queue != [] then Woken(s.chans[c].wakeSender) else []
    case DropOn(c) => DropWakes(s.chans[c])
    case _ => []
  }

  function Queued(s: Sched, ids: seq<Id>): Sched {
    s.(queue := s.queue + ids)
  }

  /** The future with this waker no longer waits anywhere. */
  function Without(waiting: map<Cid, Waker>, w: Waker): map<Cid, Waker> {
    map c | c in waiting && waiting[c] != w :: waiting[c]
  }

  function StillWaiting(s: Sys, e: Event): map<Cid, Waker>
    requires Enabled(s.sched, e)
  {
    var t := Step(s.sched, e);
    if e == Pop && t.phase.InTask? then Without(s.waiting, TaskWaker(t.phase.id))
    else if e == TaskDone(true) then Without(s.waiting, TaskWaker(s.sched.phase.id))
    else s.waiting
  }

  function Do(s: Sys, a: Act): Sys
    requires CanAct(s, a)
  {
    var sched := Queued(s.sched, Wakes(s, a));
    var w := Current(s.sched);
    match a
    case Schedule(e) => Sys(Step(s.sched, e), s.chans, StillWaiting(s, e))
    case Open(c) => s.(chans := s.chans[c := NewChan()])
    case SendOn(c, m) => s.(sched := sched, chans := s.chans[c := SendPoll(s.chans[c], m, w)])
    case RecvOn(c) =>
      Sys(sched,
          s.chans[c := RecvPoll(s.chans[c], w)],
          if RecvResult(s.chans[c]) == Pending then s.waiting[c := w] else s.waiting - {c})
    case CloneOn(c) => s.(chans := s.chans[c := s.chans[c].(senders := s.chans[c].senders + 1)])
    case DropOn(c) => s.(sched := sched, chans := s.chans[c := DropSender(s.chans[c])])
  }

  // ----- The invariant -----

  /** A stored waker is never that of the main future under the guise of a task. */
  predicate GoodWaker(w: Option<Waker>, node: Id) {
    w.Some? && w.value.TaskWaker? ==> w.value.id != node
  }

  /** The receiver of `c`, parked in a task, is registered with an empty and open channel, or its
      task is queued to run. */
  predicate Awake(s: Sys, c: Cid)
    requires c in s.waiting && c in s.chans
  {
    s.waiting[c].TaskWaker? ==>
      || s.waiting[c].id in s.sched.queue
      || (s.chans[c].queue == [] && !s.chans[c].closed && s.chans[c].wakeReceiver == Some(s.waiting[c]))
  }

  predicate Safe(s: Sys) {
    && WellFormed(s.sched)
    && (forall c :: c in s.waiting ==> c in s.chans && Awake(s, c))
    && (forall c :: c in s.waiting && s.waiting[c].TaskWaker? ==> s.waiting[c].id in s.sched.tasks)
    && (forall c :: c in s.chans ==>
          && Conserved(s.chans[c])
          && GoodWaker(s.chans[c].wakeReceiver, s.sched.node)
          && GoodWaker(s.chans[c].wakeSender, s.sched.node))
  }

  lemma ScheduleIsSafe(s: Sys, e: Event)
    requires Safe(s) && Enabled(s.sched, e)
    ensures Safe(Do(s, Schedule(e)))
  {
    StepKeepsWellFormed(s.sched, e);
    var s' := Do(s, Schedule(e));
    forall c | c in s'.waiting ensures Awake(s', c) {
      assert Awake(s, c);
      if e == Pop && s.sched.queue != [] && s.waiting[c].TaskWaker? && s.waiting[c].id in s.sched.queue {
        var id := s.waiting[c].id;
        assert id == s.sched.queue[0] || id in s.sched.queue[1..];
      }
    }
  }

  lemma ChannelActsAreSafe(s: Sys, a: Act)
    requires Safe(s) && CanAct(s, a) && !a.Schedule?
    ensures Safe(Do(s, a))
  {
    var s' := Do(s, a);
    var m := if a.SendOn? then a.m else 0;
    if !a.Open? {
      ChannelConserves(s.chans[a.c], m, Current(s.sched));
    }
    forall c | c in s'.waiting ensures Awake(s', c) {
      if c in s.waiting {
        assert Awake(s, c);
      }
    }
  }

  /** No lost wakeups: every action of the executor and of the tasks keeps it so that a parked
      receiver either is registered with an empty, open channel or has its task queued. */
  lemma ActsAreSafe(s: Sys, a: Act)
    requires Safe(s) && CanAct(s, a)
    ensures Safe(Do(s, a))
  {
    if a.Schedule? {
      ScheduleIsSafe(s, a.event);
    } else {
      ChannelActsAreSafe(s, a);
    }
  }

  // ----- Runs -----

  function Start(node: Id): Sys {
    Sys(Sched(node, {}, [], node + 1, InMain), map[], map[])
  }

  predicate CanDo(s: Sys, acts: seq<Act>)
    decreases |acts|
  {
    acts == [] || (CanAct(s, acts[0]) && CanDo(Do(s, acts[0]), acts[1..]))
  }

  function After(s: Sys, acts: seq<Act>): Sys
    requires CanDo(s, acts)
    decreases |acts|
  {
    if acts == [] then s else After(Do(s, acts[0]), acts[1..])
  }

  lemma {:induction false} RunsAreSafe(s: Sys, acts: seq<Act>)
    requires Safe(s) && CanDo(s, acts)
    ensures Safe(After(s, acts))
    decreases |acts|
  {
    if acts != [] {
      ActsAreSafe(s, acts[0]);
      RunsAreSafe(Do(s, acts[0]), acts[1..]);
    }
  }

  /** No lost wakeups, in every reachable state. */
  lemma NoLostWakeups(node: Id, acts: seq<Act>, c: Cid)
    requires CanDo(Start(node), acts)
    ensures var s := After(Start(node), acts);
            && (c in s.waiting ==> c in s.chans && Awake(s, c))
            && (c in s.chans ==> s.chans[c].received + s.chans[c].queue == s.chans[c].sent)
  {
    RunsAreSafe(Start(node), acts);
  }

  // ----- Overflow -----

  /** The action sends on `c` while its queue is full. */
  predicate Overflows(s: Sys, a: Act, c: Cid)
    requires CanAct(s, a)
  {
    a.SendOn? && a.c == c && |s.chans[c].queue| == CAPACITY
  }

  function Overflown(s: Sys, acts: seq<Act>, c: Cid): nat
    requires CanDo(s, acts)
    decreases |acts|
  {
    if acts == [] then 0
    else (if Overflows(s, acts[0], c) then 1 else 0) + Overflown(Do(s, acts[0]), acts[1..], c)
  }

  predicate LostOn(s: Sys, c: Cid, lost: nat) {
    if c in s.chans then Lost(s.chans[c], lost) else lost == 0
  }

  lemma ActLoses(s: Sys, a: Act, c: Cid, lost: nat)
    requires Safe(s) && CanAct(s, a) && LostOn(s, c, lost)
    ensures LostOn(Do(s, a), c, lost + if Overflows(s, a, c) then 1 else 0)
  {
    if a.SendOn? && a.c == c {
      SendLoses(s.chans[c], a.m, Current(s.sched), lost);
    }
  }

  lemma {:induction false} RunLoses(s: Sys, acts: seq<Act>, c: Cid, lost: nat)
    requires Safe(s) && CanDo(s, acts) && LostOn(s, c, lost)
    ensures LostOn(After(s, acts), c, lost + Overflown(s, acts, c))
    decreases |acts|
  {
    if acts != [] {
      ActsAreSafe(s, acts[0]);
      ActLoses(s, acts[0], c, lost);
      RunLoses(Do(s, acts[0]), acts[1..], c, lost + if Overflows(s, acts[0], c) then 1 else 0);
    }
  }

  /** After any run, the values handed to a channel are those that came out of it followed by those in
      its queue if and only if no send of the run met a full queue. */
  lemma LosesOnlyByOverflow(node: Id, acts: seq<Act>, c: Cid)
    requires CanDo(Start(node), acts) && c in After(Start(node), acts).chans
    ensures Lossless(After(Start(node), acts).chans[c]) <==> Overflown(Start(node), acts, c) == 0
  {
    RunsAreSafe(Start(node), acts);
    RunLoses(Start(node), acts, c, 0);
    LosslessExactly(After(Start(node), acts).chans[c], Overflown(Start(node), acts, c));
  }

  /** A channel is closed exactly when it has no sender or has overflown. */
  predicate ClosedOn(s: Sys, c: Cid, lost: nat) {
    if c in s.chans then s.chans[c].closed <==> s.chans[c].senders == 0 || lost > 0 else lost == 0
  }

  lemma {:induction false} RunCloses(s: Sys, acts: seq<Act>, c: Cid, lost: nat)
    requires Safe(s) && CanDo(s, acts) && ClosedOn(s, c, lost)
    ensures ClosedOn(After(s, acts), c, lost + Overflown(s, acts, c))
    decreases |acts|
  {
    if acts != [] {
      ActsAreSafe(s, acts[0]);
      RunCloses(Do(s, acts[0]), acts[1..], c, lost + if Overflows(s, acts[0], c) then 1 else 0);
    }
  }

  /** After any run, a channel is closed, so that a receiver that finds it empty is told so, if and only
      if all its senders were dropped or a send of the run met a full queue. */
  lemma ClosesExactly(node: Id, acts: seq<Act>, c: Cid)
    requires CanDo(Start(node), acts) && c in After(Start(node), acts).chans
    ensures var chan := After(Start(node), acts).chans[c];
            chan.closed <==> chan.senders == 0 || Overflown(Start(node), acts, c) > 0
  {
    RunCloses(Start(node), acts, c, 0);
  }

  // ----- What receives return -----

  /** The values that the receives of a run on `c` return, in order. */
  function Returned(s: Sys, acts: seq<Act>, c: Cid): seq<Msg>
    requires CanDo(s, acts)
    decreases |acts|
  {
    if acts == [] then [] else Returns(s, acts[0], c) + Returned(Do(s, acts[0]), acts[1..], c)
  }

  function Returns(s: Sys, a: Act, c: Cid): seq<Msg>
    requires CanAct(s, a)
  {
    if a == RecvOn(c) && RecvResult(s.chans[c]).Ready? && RecvResult(s.chans[c]).value.Some?
    then [RecvResult(s.chans[c]).value.value] else []
  }

  function ReceivedOn(s: Sys, c: Cid): seq<Msg> {
    if c in s.chans then s.chans[c].received else []
  }

  lemma ActReturns(s: Sys, a: Act, c: Cid)
    requires CanAct(s, a)
    ensures ReceivedOn(Do(s, a), c) == ReceivedOn(s, c) + Returns(s, a, c)
  {
    if a == RecvOn(c) && s.chans[c].queue != [] {
      ReceiveReturnsTheOldest(s.chans[c], Current(s.sched), s.chans[c].queue[0]);
    }
  }

  lemma {:induction false} RunReturns(s: Sys, acts: seq<Act>, c: Cid)
    requires CanDo(s, acts)
    ensures ReceivedOn(After(s, acts), c) == ReceivedOn(s, c) + Returned(s, acts, c)
    decreases |acts|
  {
    if acts != [] {
      ActReturns(s, acts[0], c);
      RunReturns(Do(s, acts[0]), acts[1..], c);
    }
  }

  /** After any run, the values that the receives on a channel returned, in order, followed by its queue,
      are the values that entered the queue; and all that were handed to it if no send met a full
      queue. */
  lemma ReceivesReturnWhatWasSent(node: Id, acts: seq<Act>, c: Cid)
    requires CanDo(Start(node), acts) && c in After(Start(node), acts).chans
    ensures var chan := After(Start(node), acts).chans[c];
            && Returned(Start(node), acts, c) + chan.queue == chan.sent
            && (Overflown(Start(node), acts, c) == 0 ==> chan.sent == chan.offered)
  {
    RunsAreSafe(Start(node), acts);
    RunReturns(Start(node), acts, c);
    RunLoses(Start(node), acts, c, 0);
    assert ReceivedOn(Start(node), c) + Returned(Start(node), acts, c) == Returned(Start(node), acts, c);
  }

  /** The values handed to a channel by the sends of a run. */
  function Offered(s: Sys, acts: seq<Act>, c: Cid): seq<Msg>
    requires CanDo(s, acts)
    decreases |acts|
  {
    if acts == [] then []
    else (if acts[0].SendOn? && acts[0].c == c then [acts[0].m] else []) + Offered(Do(s, acts[0]), acts[1..], c)
  }

  function OfferedOn(s: Sys, c: Cid): seq<Msg> {
    if c in s.chans then s.chans[c].offered else []
  }

  /** The log of a channel is what was sent on it. */
  lemma {:induction false} RunOffers(s: Sys, acts: seq<Act>, c: Cid)
    requires CanDo(s, acts)
    ensures OfferedOn(After(s, acts), c) == OfferedOn(s, c) + Offered(s, acts, c)
    decreases |acts|
  {
    if acts != [] {
      RunOffers(Do(s, acts[0]), acts[1..], c);
      var first := if acts[0].SendOn? && acts[0].c == c then [acts[0].m] else [];
      assert OfferedOn(Do(s, acts[0]), c) == OfferedOn(s, c) + first;
    }
  }

  /** The sender handles of a channel: one when it is opened, and then as many as were cloned and not
      dropped. */
  function Handles(acts: seq<Act>, c: Cid): int {
    if acts == [] then 0
    else
      (if acts[0] == Open(c) || acts[0] == CloneOn(c) then 1 else if acts[0] == DropOn(c) then -1 else 0)
      + Handles(acts[1..], c)
  }

  function SendersOn(s: Sys, c: Cid): int {
    if c in s.chans then s.chans[c].senders else 0
  }

  lemma {:induction false} SendersAreHandles(s: Sys, acts: seq<Act>, c: Cid)
    requires CanDo(s, acts)
    ensures SendersOn(After(s, acts), c) == SendersOn(s, c) + Handles(acts, c)
    decreases |acts|
  {
    if acts != [] {
      SendersAreHandles(Do(s, acts[0]), acts[1..], c);
    }
  }

  /** A receive that takes a value queues the task whose waker a send has registered. */
  lemma ReceiveWakesSender(s: Sys, c: Cid, id: Id)
    requires CanAct(s, RecvOn(c)) && s.chans[c].queue != [] && s.chans[c].wakeSender == Some(TaskWaker(id))
    ensures Do(s, RecvOn(c)).sched == s.sched.(queue := s.sched.queue + [id])
    ensures Do(s, RecvOn(c)).chans[c].wakeSender == None
  {
  }

  function Sends(c: Cid, n: nat): seq<Act> {
    if n == 0 then [] else [SendOn(c, n)] + Sends(c, n - 1)
  }

  /** Sends without a receive fill the queue, and those beyond its capacity overflow. */
  lemma {:induction false} SendsFill(s: Sys, c: Cid, n: nat)
    requires Polling(s.sched) && c in s.chans && s.chans[c].senders > 0 && |s.chans[c].queue| <= CAPACITY
    ensures CanDo(s, Sends(c, n)) && c in After(s, Sends(c, n)).chans
    ensures var room := CAPACITY - |s.chans[c].queue|;
            Overflown(s, Sends(c, n), c) == if n <= room then 0 else n - room
    decreases n
  {
    if n > 0 {
      var a := SendOn(c, n);
      SendsFill(Do(s, a), c, n - 1);
      assert ([a] + Sends(c, n - 1))[1..] == Sends(c, n - 1);
    }
  }

  /** A new channel holds sixteen values. */
  lemma SixteenSendsFit(node: Id, c: Cid)
    ensures var acts := [Open(c)] + Sends(c, 16);
            && CanDo(Start(node), acts) && c in After(Start(node), acts).chans
            && Lossless(After(Start(node), acts).chans[c])
  {
    var s, acts := Do(Start(node), Open(c)), [Open(c)] + Sends(c, 16);
    SendsFill(s, c, 16);
    assert acts[1..] == Sends(c, 16);
    LosesOnlyByOverflow(node, acts, c);
  }

  /** One send more than a new channel holds loses a value. */
  lemma SeventeenSendsLose(node: Id, c: Cid)
    ensures var acts := [Open(c)] + Sends(c, 17);
            && CanDo(Start(node), acts) && c in After(Start(node), acts).chans
            && !Lossless(After(Start(node), acts).chans[c])
  {
    var s, acts := Do(Start(node), Open(c)), [Open(c)] + Sends(c, 17);
    SendsFill(s, c, 17);
    assert acts[1..] == Sends(c, 17);
    LosesOnlyByOverflow(node, acts, c);
  }

  // ----- Delivery -----

  predicate Visited(s: Sys, acts: seq<Act>, id: Id)
    requires CanDo(s, acts)
    decreases |acts|
  {
    acts != [] &&
    ((acts[0].Schedule? && Visits(s.sched, acts[0].event, id)) || Visited(Do(s, acts[0]), acts[1..], id))
  }

  function RoundsBegun(acts: seq<Act>): nat {
    if acts == [] then 0 else (if acts[0] == Schedule(MainPending) then 1 else 0) + RoundsBegun(acts[1..])
  }

  lemma {:induction false} WakesWait(s: Sched, ids: seq<Id>, id: Id)
    requires WellFormed(s) && Waits(s, id)
    ensures Waits(Queued(s, ids), id) && Patience(Queued(s, ids), id) == Patience(s, id)
    decreases |ids|
  {
    if ids == [] {
      assert s.queue + ids == s.queue;
    } else {
      var n := |ids| - 1;
      WakesWait(s, ids[..n], id);
      PositionPush(s.queue + ids[..n], id, ids[n]);
      assert s.queue + ids == (s.queue + ids[..n]) + [ids[n]];
    }
  }

  /** A queued task that is not visited sees no more rounds than there are tasks in front of it. */
  lemma {:induction false} WaitingIsBounded(s: Sys, acts: seq<Act>, id: Id)
    requires Safe(s) && CanDo(s, acts) && Waits(s.sched, id) && !Visited(s, acts, id)
    ensures RoundsBegun(acts) <= Patience(s.sched, id)
    decreases |acts|
  {
    if acts != [] {
      var a := acts[0];
      ActsAreSafe(s, a);
      if a.Schedule? {
        StepWaits(s.sched, a.event, id);
      } else {
        WakesWait(s.sched, Wakes(s, a), id);
      }
      WaitingIsBounded(Do(s, a), acts[1..], id);
    }
  }

  /** A receiver parked in a task while its channel holds a value, or is closed, is polled again: at
      the beginning of any round of any run, no more rounds can begin than there are queued tasks
      before it has been. */
  lemma ParkedReceiversGoOn(node: Id, before: seq<Act>, acts: seq<Act>, c: Cid)
    requires CanDo(Start(node), before)
    requires var s := After(Start(node), before);
             && CanDo(s, acts) && Fresh(s.sched)
             && c in s.waiting && s.waiting[c].TaskWaker? && c in s.chans
             && (s.chans[c].queue != [] || s.chans[c].closed)
             && RoundsBegun(acts) >= |s.sched.queue|
    ensures var s := After(Start(node), before);
            Visited(s, acts, s.waiting[c].id)
  {
    var s := After(Start(node), before);
    RunsAreSafe(Start(node), before);
    assert Awake(s, c);
    var id := s.waiting[c].id;
    if !Visited(s, acts, id) {
      WaitingIsBounded(s, acts, id);
    }
  }
}
