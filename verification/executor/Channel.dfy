/** The bounded channel between tasks: a queue of at most 16 values and the wakers of both sides. */
module Channels {
  import opened Options
  import opened Scheduler

  /** The waker of the main future does nothing; the waker of a task queues its id. */
  datatype Waker = MainWaker | TaskWaker(id: Id)

  const CAPACITY := 16

  /** The shared part of a channel, with the values that were handed to it to send, put into its queue and
      taken out of it so far. */
  datatype Chan<T> = Chan(
    queue: seq<T>,
    wakeReceiver: Option<Waker>,
    wakeSender: Option<Waker>,
    senders: nat,
    closed: bool,
    offered: seq<T>,
    sent: seq<T>,
    received: seq<T>)

  function NewChan<T>(): Chan<T> {
    Chan([], None, None, 1, false, [], [], [])
  }

  /** The ids that waking a stored waker queues. */
  function Woken(w: Option<Waker>): seq<Id> {
    if w.Some? && w.value.TaskWaker? then [w.value.id] else []
  }

  datatype Received<+T> = Ready(value: Option<T>) | Pending

  /** Sending wakes the receiver.  With a full queue the value is lost and the channel closes. */
  function SendPoll<T>(c: Chan<T>, m: T, w: Waker): Chan<T> {
    if |c.queue| < CAPACITY
    then c.(queue := c.queue + [m], offered := c.offered + [m], sent := c.sent + [m], wakeReceiver := None)
    else c.(closed := true, offered := c.offered + [m], wakeReceiver := None, wakeSender := Some(w))
  }

  /** Receiving wakes a sender; with nothing to receive it registers the receiver. */
  function RecvPoll<T>(c: Chan<T>, w: Waker): Chan<T> {
    if c.queue != []
    then c.(queue := c.queue[1..], received := c.received + [c.queue[0]], wakeSender := None)
    else c.(wakeReceiver := Some(w))
  }

  function RecvResult<T>(c: Chan<T>): Received<T> {
    if c.queue != [] then Ready(Some(c.queue[0])) else if c.closed then Ready(None) else Pending
  }

  /** Dropping the last sender closes the channel and wakes the receiver. */
  function DropSender<T>(c: Chan<T>): Chan<T>
    requires c.senders > 0
  {
    if c.senders == 1 then c.(senders := 0, closed := true, wakeReceiver := None)
    else c.(senders := c.senders - 1)
  }

  function DropWakes<T>(c: Chan<T>): seq<Id> {
    if c.senders == 1 then Woken(c.wakeReceiver) else []
  }

  /** Values come out in the order in which they went in, and none is duplicated or dropped on the
      way; a channel without senders is closed. */
  predicate Conserved<T(==)>(c: Chan<T>) {
    c.received + c.queue == c.sent && |c.queue| <= CAPACITY && (c.senders == 0 ==> c.closed)
  }

  lemma ChannelConserves<T>(c: Chan<T>, m: T, w: Waker)
    requires Conserved(c)
    ensures Conserved(SendPoll(c, m, w)) && Conserved(RecvPoll(c, w))
    ensures c.senders > 0 ==> Conserved(DropSender(c)) && Conserved(c.(senders := c.senders + 1))
  {
    if |c.queue| < CAPACITY {
      assert c.received + (c.queue + [m]) == (c.received + c.queue) + [m];
    }
    if c.queue != [] {
      assert c.received + [c.queue[0]] + c.queue[1..] == c.received + c.queue;
    }
  }

  /** What a receive returns is what it takes: the oldest value, or nothing, which means the end of a
      closed channel and waiting for an open one. */
  lemma ReceiveReturnsTheOldest<T>(c: Chan<T>, w: Waker, v: T)
    ensures RecvResult(c) == Ready(Some(v)) <==> c.queue != [] && RecvPoll(c, w).received == c.received + [v]
    ensures RecvResult(c) == Ready(Some(v)) <==> c.queue != [] && c.queue[0] == v
    ensures RecvResult(c) == Ready(None) <==> c.queue == [] && c.closed
    ensures RecvResult(c) == Pending <==> c.queue == [] && !c.closed
    ensures c.queue == [] ==> RecvPoll(c, w) == c.(wakeReceiver := Some(w))
  {
    if c.queue != [] && c.received + [c.queue[0]] == c.received + [v] {
      assert (c.received + [v])[|c.received|] == v;
    }
  }

  /** A send with room queues the value behind all others; one without leaves the queue, closes the channel
      and registers the sender.  Either way the receiver has been woken. */
  lemma SendEffects<T>(c: Chan<T>, m: T, w: Waker)
    ensures |c.queue| < 16 ==> SendPoll(c, m, w).queue == c.queue + [m] && SendPoll(c, m, w).closed == c.closed
    ensures |c.queue| >= 16 ==>
              SendPoll(c, m, w).queue == c.queue && SendPoll(c, m, w).closed && SendPoll(c, m, w).wakeSender == Some(w)
    ensures SendPoll(c, m, w).wakeReceiver == None
  {
  }

  /** The waker of a task queues its id, that of the main future nothing. */
  lemma WakersQueue(id: Id)
    ensures Woken(Some(TaskWaker(id))) == [id] && Woken(Some(MainWaker)) == [] && Woken(None) == []
  {
  }

  /** Everything handed to the channel has come out or is queued, in order. */
  predicate Lossless<T(==)>(c: Chan<T>) {
    c.offered == c.received + c.queue
  }

  /** So many values were handed to the channel and lost. */
  predicate Lost<T(==)>(c: Chan<T>, lost: nat) {
    |c.offered| == |c.sent| + lost && (lost == 0 ==> c.offered == c.sent)
  }

  lemma SendLoses<T>(c: Chan<T>, m: T, w: Waker, lost: nat)
    requires Lost(c, lost)
    ensures Lost(SendPoll(c, m, w), if |c.queue| < CAPACITY then lost else lost + 1)
  {
  }

  lemma LosslessExactly<T>(c: Chan<T>, lost: nat)
    requires Conserved(c) && Lost(c, lost)
    ensures Lossless(c) <==> lost == 0
  {
  }

  /** The shared object behind the handles. */
  class Inner<T> {
    var chan: Chan<T>

    constructor ()
      ensures chan == NewChan()
      ensures chan.queue == [] && !chan.closed && chan.senders == 1
      ensures chan.wakeReceiver == None && chan.wakeSender == None
    {
      chan := NewChan();
    }

    /** Poll a send; `woken` are the ids to queue. */
    method Send(m: T, w: Waker) returns (done: bool, woken: seq<Id>)
      modifies this
      ensures chan == SendPoll(old(chan), m, w)
      ensures done <==> |old(chan).queue| < CAPACITY
      ensures woken == Woken(old(chan).wakeReceiver)
    {
      chan := chan.(offered := chan.offered + [m]);
      if |chan.queue| < CAPACITY {
        chan := chan.(queue := chan.queue + [m], sent := chan.sent + [m]);
        woken := WakeReceiver();
        return true, woken;
      }
      chan := chan.(closed := true);
      woken := WakeReceiver();
      chan := chan.(wakeSender := Some(w));
      return false, woken;
    }

    /** Poll a receive. */
    method Recv(w: Waker) returns (r: Received<T>, woken: seq<Id>)
      modifies this
      ensures chan == RecvPoll(old(chan), w) && r == RecvResult(old(chan))
      ensures woken == if old(chan).queue != [] then Woken(old(chan).wakeSender) else []
    {
      if chan.queue != [] {
        var m := chan.queue[0];
        chan := chan.(queue := chan.queue[1..], received := chan.received + [m]);
        woken := Woken(chan.wakeSender);
        chan := chan.(wakeSender := None);
        return Ready(Some(m)), woken;
      }
      chan := chan.(wakeReceiver := Some(w));
      if chan.closed {
        return Ready(None), [];
      }
      return Pending, [];
    }

    method Drop() returns (woken: seq<Id>)
      requires chan.senders > 0
      modifies this
      ensures chan == DropSender(old(chan)) && woken == DropWakes(old(chan))
    {
      var before := chan.senders;
      chan := chan.(senders := before - 1);
      if before != 1 {
        return [];
      }
      chan := chan.(closed := true);
      woken := WakeReceiver();
    }

    method WakeReceiver() returns (woken: seq<Id>)
      modifies this
      ensures chan == old(chan).(wakeReceiver := None) && woken == Woken(old(chan).wakeReceiver)
    {
      woken := Woken(chan.wakeReceiver);
      chan := chan.(wakeReceiver := None);
    }
  }
}
