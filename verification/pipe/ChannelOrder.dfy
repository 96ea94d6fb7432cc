/** Order: if every move takes the oldest message of its side, the messages of each side leave the channel
    in the order in which they entered it, through buffering and flushing. */
module ChannelOrder {
  import opened Sequences
  import opened Routes
  import opened Pipes
  import opened ChannelEnds
  import opened ChannelRun
  import opened ChannelTheorem

  // ----- Where a message is -----

  datatype Place = InWorker | InTx | InRx | InExit

  /** The message is one that entered at `x` and is now in front of this component. */
  predicate Is(w: Wiring, p: Packet, x: Side, k: Place) {
    var e := w.end.At(p.side);
    && p.msg.onward != []
    && match k
       case InWorker => p.side == x && p.msg.onward[0] == e.pub
       case InTx => p.side == x && p.msg.onward[0] == e.tx
       case InRx => p.side == Far(x) && p.msg.onward[0] == e.rx
       case InExit => p.side == Far(x) && p.msg.onward[0] == e.priv
  }

  function PayloadOf(b: Body): int {
    if b.Data? then b.payload else 0
  }

  /** The user message in a message whose first address is a worker. */
  function OriginIn(x: Side, m: Message): Origin {
    Origin(x, PopFront(m.onward), m.ret, PayloadOf(m.body))
  }

  function OriginOf(p: Packet, x: Side, k: Place): Origin {
    match k
    case InWorker => OriginIn(x, p.msg)
    case InTx => OriginIn(x, p.msg.(onward := PopFront(p.msg.onward)))
    case InRx => if p.msg.body.Packed? then OriginIn(x, p.msg.body.pipe.inner) else OriginIn(x, p.msg)
    case InExit => OriginIn(x, p.msg)
  }

  /** The form of a user message at each place. */
  predicate Formed(w: Wiring, p: Packet, o: Origin, k: Place) {
    && o.onward != []
    && match k
       case InWorker => p == AtNearWorker(w, o)
       case InTx => p == AtSender(w, o)
       case InRx => AtReceiver(w, p, o)
       case InExit => p == AtFarWorker(w, o)
  }

  lemma FormedIs(w: Wiring, p: Packet, o: Origin, k: Place)
    requires Linked(w) && Formed(w, p, o, k)
    ensures OriginOf(p, o.side, k) == o
    ensures forall x, k' :: Is(w, p, x, k') <==> x == o.side && k' == k
  {
    match k
    case InWorker => assert PopFront(p.msg.onward) == o.onward;
    case InTx => assert PopFront(PopFront(p.msg.onward)) == o.onward;
    case InRx => assert PopFront(Inside(w, o).onward) == o.onward;
    case InExit => assert PopFront(p.msg.onward) == o.onward;
  }

  lemma InitIsNoUser(w: Wiring, p: Packet)
    requires Linked(w) && IsInit(w, p)
    ensures forall x, k :: !Is(w, p, x, k)
  {
  }

  // ----- The messages at a place, in order -----

  function Taken(w: Wiring, p: Packet, x: Side, k: Place): seq<Origin> {
    if Is(w, p, x, k) then [OriginOf(p, x, k)] else []
  }

  function Pick(w: Wiring, ps: seq<Packet>, x: Side, k: Place): seq<Origin> {
    if ps == [] then [] else Pick(w, ps[..|ps| - 1], x, k) + Taken(w, ps[|ps| - 1], x, k)
  }

  lemma PickPush(w: Wiring, ps: seq<Packet>, p: Packet, x: Side, k: Place)
    ensures Pick(w, ps + [p], x, k) == Pick(w, ps, x, k) + Taken(w, p, x, k)
  {
    assert (ps + [p])[..|ps|] == ps;
  }

  lemma {:induction false} PickAppend(w: Wiring, a: seq<Packet>, b: seq<Packet>, x: Side, k: Place)
    ensures Pick(w, a + b, x, k) == Pick(w, a, x, k) + Pick(w, b, x, k)
    decreases |b|
  {
    if b == [] {
      Empty(a);
      Empty(Pick(w, a, x, k));
    } else {
      var n := |b| - 1;
      PickAppend(w, a, b[..n], x, k);
      PickPush(w, a + b[..n], b[n], x, k);
      assert a + b == (a + b[..n]) + [b[n]];
      Assoc(Pick(w, a, x, k), Pick(w, b[..n], x, k), Taken(w, b[n], x, k));
    }
  }

  lemma {:induction false} PickNone(w: Wiring, ps: seq<Packet>, x: Side, k: Place)
    requires forall i :: 0 <= i < |ps| ==> !Is(w, ps[i], x, k)
    ensures Pick(w, ps, x, k) == []
  {
    if ps != [] {
      PickNone(w, ps[..|ps| - 1], x, k);
    }
  }

  /** The message is the oldest of its side. */
  predicate Oldest(n: Net, i: nat)
    requires i < |n.flight|
  {
    forall j :: 0 <= j < i ==> n.flight[j].side != n.flight[i].side
  }

  /** Removing a message that is the oldest of its side takes it from the front of its place. */
  lemma PickRemove(w: Wiring, ps: seq<Packet>, i: nat, x: Side, k: Place)
    requires i < |ps| && forall j :: 0 <= j < i ==> ps[j].side != ps[i].side
    ensures Pick(w, ps, x, k) == Taken(w, ps[i], x, k) + Pick(w, Remove(ps, i), x, k)
  {
    var l, p, r := ps[..i], ps[i], ps[i + 1..];
    SplitAt(ps, i);
    PickAppend(w, l + [p], r, x, k);
    PickPush(w, l, p, x, k);
    PickAppend(w, l, r, x, k);
    if Is(w, p, x, k) {
      PickNone(w, l, x, k);
    } else {
      Empty(Pick(w, l, x, k));
      Empty(Pick(w, l + r, x, k));
    }
    Empty(Pick(w, r, x, k));
    Empty(Taken(w, p, x, k));
  }

  // ----- The line of a side -----

  function Held(x: Side, ms: seq<PipeMessage>): seq<Origin> {
    if ms == [] then [] else Held(x, ms[..|ms| - 1]) + [OriginIn(x, ms[|ms| - 1].inner)]
  }

  lemma HeldPush(x: Side, ms: seq<PipeMessage>, m: PipeMessage)
    ensures Held(x, ms + [m]) == Held(x, ms) + [OriginIn(x, m.inner)]
  {
    assert (ms + [m])[..|ms|] == ms;
  }

  /** The user message in one that has left the channel. */
  function OriginGone(x: Side, m: Message): Origin {
    Origin(x, m.onward, PopFront(m.ret), PayloadOf(m.body))
  }

  function Gone(x: Side, p: Packet): seq<Origin> {
    if p.side == Far(x) then [OriginGone(x, p.msg)] else []
  }

  function Left(x: Side, ps: seq<Packet>): seq<Origin> {
    if ps == [] then [] else Left(x, ps[..|ps| - 1]) + Gone(x, ps[|ps| - 1])
  }

  lemma LeftPush(x: Side, ps: seq<Packet>, p: Packet)
    ensures Left(x, ps + [p]) == Left(x, ps) + Gone(x, p)
  {
    assert (ps + [p])[..|ps|] == ps;
  }

  /** The messages that entered at a side, from those that have left to those that have just entered. */
  datatype Lane = Lane(left: seq<Origin>, exit: seq<Origin>, rx: seq<Origin>, held: seq<Origin>, tx: seq<Origin>, worker: seq<Origin>)

  function LaneOf(n: Net, x: Side): Lane {
    Lane(Left(x, n.delivered), Pick(n.w, n.flight, x, InExit), Pick(n.w, n.flight, x, InRx),
         Held(x, n.sender.At(x).outBuf), Pick(n.w, n.flight, x, InTx), Pick(n.w, n.flight, x, InWorker))
  }

  function Flat(l: Lane): seq<Origin> {
    l.left + (l.exit + (l.rx + (l.held + (l.tx + l.worker))))
  }

  // Going on to the next place keeps the line.

  lemma WorkerToTx(l: Lane, o: Origin)
    ensures Flat(l.(worker := [o] + l.worker)) == Flat(l.(tx := l.tx + [o]))
  {
    Assoc(l.tx, [o], l.worker);
  }

  lemma TxToHeld(l: Lane, o: Origin)
    ensures Flat(l.(tx := [o] + l.tx)) == Flat(l.(held := l.held + [o]))
  {
    Assoc([o], l.tx, l.worker);
    Assoc(l.held, [o], l.tx + l.worker);
  }

  lemma TxToRx(l: Lane, o: Origin)
    requires l.held == []
    ensures Flat(l.(tx := [o] + l.tx)) == Flat(l.(rx := l.rx + [o]))
  {
    var a := l.tx + l.worker;
    Assoc([o], l.tx, l.worker);
    Assoc(l.rx, [o], a);
    Empty(a);
    Empty([o] + a);
  }

  lemma RxToExit(l: Lane, o: Origin)
    ensures Flat(l.(rx := [o] + l.rx)) == Flat(l.(exit := l.exit + [o]))
  {
    var b := l.held + (l.tx + l.worker);
    Assoc([o], l.rx, b);
    Assoc(l.exit, [o], l.rx + b);
  }

  lemma ExitToLeft(l: Lane, o: Origin)
    ensures Flat(l.(exit := [o] + l.exit)) == Flat(l.(left := l.left + [o]))
  {
    var c := l.rx + (l.held + (l.tx + l.worker));
    Assoc([o], l.exit, c);
    Assoc(l.left, [o], l.exit + c);
  }

  lemma LetGo(l: Lane)
    ensures Flat(l) == Flat(l.(rx := l.rx + l.held, held := []))
  {
    Assoc(l.rx, l.held, l.tx + l.worker);
    Empty(l.tx + l.worker);
  }

  lemma Arrive(l: Lane, o: Origin)
    ensures Flat(l.(worker := l.worker + [o])) == Flat(l) + [o]
  {
    var a := l.tx + l.worker;
    var b := l.held + a;
    var c := l.rx + b;
    Assoc(l.tx, l.worker, [o]);
    Assoc(l.held, a, [o]);
    Assoc(l.rx, b, [o]);
    Assoc(l.exit, c, [o]);
    Assoc(l.left, l.exit + c, [o]);
  }

  // ----- One message more under way, or one fewer -----

  function Put(l: Lane, k: Place, o: Origin): Lane {
    match k
    case InWorker => l.(worker := l.worker + [o])
    case InTx => l.(tx := l.tx + [o])
    case InRx => l.(rx := l.rx + [o])
    case InExit => l.(exit := l.exit + [o])
  }

  function Front(l: Lane, k: Place, o: Origin): Lane {
    match k
    case InWorker => l.(worker := [o] + l.worker)
    case InTx => l.(tx := [o] + l.tx)
    case InRx => l.(rx := [o] + l.rx)
    case InExit => l.(exit := [o] + l.exit)
  }

  lemma LaneGrows(n: Net, p: Packet, o: Origin, k: Place, x: Side)
    requires Linked(n.w) && Formed(n.w, p, o, k)
    ensures var l := LaneOf(n, x);
            LaneOf(n.(flight := n.flight + [p]), x) == if x == o.side then Put(l, k, o) else l
  {
    FormedIs(n.w, p, o, k);
    PickPush(n.w, n.flight, p, x, InWorker);
    PickPush(n.w, n.flight, p, x, InTx);
    PickPush(n.w, n.flight, p, x, InRx);
    PickPush(n.w, n.flight, p, x, InExit);
    EmptyLane(LaneOf(n, x));
  }

  lemma EmptyLane(l: Lane)
    ensures l.exit + [] == l.exit && l.rx + [] == l.rx && l.tx + [] == l.tx && l.worker + [] == l.worker
    ensures [] + l.exit == l.exit && [] + l.rx == l.rx && [] + l.tx == l.tx && [] + l.worker == l.worker
  {
  }

  lemma PickRemoveAll(n: Net, i: nat, x: Side)
    requires i < |n.flight| && Oldest(n, i)
    ensures var l := LaneOf(n.(flight := Remove(n.flight, i)), x);
            LaneOf(n, x) == l.(worker := Taken(n.w, n.flight[i], x, InWorker) + l.worker,
                               tx := Taken(n.w, n.flight[i], x, InTx) + l.tx,
                               rx := Taken(n.w, n.flight[i], x, InRx) + l.rx,
                               exit := Taken(n.w, n.flight[i], x, InExit) + l.exit)
  {
    PickRemove(n.w, n.flight, i, x, InWorker);
    PickRemove(n.w, n.flight, i, x, InTx);
    PickRemove(n.w, n.flight, i, x, InRx);
    PickRemove(n.w, n.flight, i, x, InExit);
  }

  lemma LaneShrinks(n: Net, i: nat, o: Origin, k: Place, x: Side)
    requires i < |n.flight| && Oldest(n, i) && Linked(n.w) && Formed(n.w, n.flight[i], o, k)
    ensures var l := LaneOf(n.(flight := Remove(n.flight, i)), x);
            LaneOf(n, x) == if x == o.side then Front(l, k, o) else l
  {
    FormedIs(n.w, n.flight[i], o, k);
    PickRemoveAll(n, i, x);
    EmptyLane(LaneOf(n.(flight := Remove(n.flight, i)), x));
  }

  lemma InitShrinks(n: Net, i: nat, x: Side)
    requires i < |n.flight| && Oldest(n, i) && Linked(n.w) && IsInit(n.w, n.flight[i])
    ensures LaneOf(n, x) == LaneOf(n.(flight := Remove(n.flight, i)), x)
  {
    InitIsNoUser(n.w, n.flight[i]);
    PickRemoveAll(n, i, x);
    EmptyLane(LaneOf(n.(flight := Remove(n.flight, i)), x));
  }

  // ----- Each component keeps the line -----

  lemma WorkerKeepsLine(n: Net, o: Origin, x: Side)
    requires Linked(n.w) && o.onward != [] && Reaches(n, AtNearWorker(n.w, o))
    ensures var l := LaneOf(n, x);
            Flat(LaneOf(Dispatch(n, AtNearWorker(n.w, o)), x)) == Flat(if x == o.side then Front(l, InWorker, o) else l)
  {
    WorkerDoes(n, o);
    LaneGrows(n, AtSender(n.w, o), o, InTx, x);
    WorkerToTx(LaneOf(n, x), o);
  }

  lemma ReceiverKeepsLine(n: Net, p: Packet, o: Origin, x: Side)
    requires Linked(n.w) && o.onward != [] && AtReceiver(n.w, p, o) && Reaches(n, p)
    ensures var l := LaneOf(n, x);
            Flat(LaneOf(Dispatch(n, p), x)) == Flat(if x == o.side then Front(l, InRx, o) else l)
  {
    ReceiverDoes(n, p, o);
    LaneGrows(n, AtFarWorker(n.w, o), o, InExit, x);
    RxToExit(LaneOf(n, x), o);
  }

  lemma OutIsGone(w: Wiring, o: Origin)
    ensures OriginGone(o.side, Out(w, o).msg) == o
  {
    assert PopFront(Out(w, o).msg.ret) == o.ret;
  }

  lemma ExitKeepsLine(n: Net, o: Origin, x: Side)
    requires Linked(n.w) && o.onward != [] && Reaches(n, AtFarWorker(n.w, o))
    ensures var l := LaneOf(n, x);
            Flat(LaneOf(Dispatch(n, AtFarWorker(n.w, o)), x)) == Flat(if x == o.side then Front(l, InExit, o) else l)
  {
    ExitDoes(n, o);
    OutIsGone(n.w, o);
    LeftPush(x, n.delivered, Out(n.w, o));
    Empty(Left(x, n.delivered));
    ExitToLeft(LaneOf(n, x), o);
  }

  /** A change of a sender that keeps its buffer changes no line. */
  lemma SameBuffer(n: Net, y: Side, s: Sender, x: Side)
    requires s.outBuf == n.sender.At(y).outBuf
    ensures LaneOf(n.(sender := n.sender.With(y, s)), x) == LaneOf(n, x)
  {
  }

  lemma SenderKeepsLine(n: Net, b: Book, o: Origin, x: Side)
    requires Fits(n, b) && o.onward != [] && Reaches(n, AtSender(n.w, o))
    ensures var l := LaneOf(n, x);
            Flat(LaneOf(Dispatch(n, AtSender(n.w, o)), x)) == Flat(if x == o.side then Front(l, InTx, o) else l)
  {
    var y := o.side;
    if Ready(n.sender.At(y)) {
      var s, p := SenderEmits(n, b, o);
      SameBuffer(n, y, s, x);
      LaneGrows(n.(sender := n.sender.With(y, s)), p, o, InRx, x);
      if x == y {
        TxToRx(LaneOf(n, x), o);
      }
    } else {
      var s, pm := SenderBuffers(n, o);
      HeldPush(y, n.sender.At(y).outBuf, pm);
      InsideIs(n.w, o);
      TxToHeld(LaneOf(n, x), o);
    }
  }

  lemma InsideIs(w: Wiring, o: Origin)
    ensures OriginIn(o.side, Inside(w, o)) == o
  {
    assert PopFront(Inside(w, o).onward) == o.onward;
  }

  /** A flushed buffer is at the receiver, in order. */
  lemma {:induction false} FlushPicks(
      w: Wiring, y: Side, s: Sender, ms: seq<PipeMessage>, os: seq<Origin>, x: Side, k: Place)
    requires Linked(w) && AllHold(w, y, ms, os)
    ensures Pick(w, Arrivals(w, y, Envelopes(s, ToReceiver(w, y), ms)), x, k) ==
            if x == y && k == InRx then Held(y, ms) else []
    decreases |ms|
  {
    if ms != [] {
      var j, to := |ms| - 1, ToReceiver(w, y);
      HoldFront(w, y, ms, os);
      FlushPicks(w, y, s, ms[..j], os[..j], x, k);
      EnvelopesLast(s, to, ms);
      EnvelopeArrives(w, y, s, ms[j], os[j]);
      var before, q := Arrivals(w, y, Envelopes(s, to, ms[..j])), Arrival(w, y, Envelope(s, to, ms[j]));
      assert q == [q[0]];
      PickPush(w, before, q[0], x, k);
      FormedIs(w, q[0], os[j], InRx);
      InsideIs(w, os[j]);
    }
  }

  lemma InitKeepsLine(n: Net, b: Book, p: Packet, x: Side)
    requires Fits(n, b) && IsInit(n.w, p) && Reaches(n, p)
    ensures Flat(LaneOf(Dispatch(n, p), x)) == Flat(LaneOf(n, x))
  {
    var s := InitDoes(n, p);
    if Ready(n.sender.At(p.side)) {
      SameBuffer(n, p.side, s, x);
    } else {
      FlushKeepsLine(n, b, p.side, s, x);
    }
  }

  lemma FlushKeepsLine(n: Net, b: Book, y: Side, s': Sender, x: Side)
    requires Fits(n, b) && s'.outBuf == []
    ensures var s := n.sender.At(y);
            var n' := n.(sender := n.sender.With(y, s'),
                         flight := n.flight + Arrivals(n.w, y, Envelopes(s, ToReceiver(n.w, y), s.outBuf)));
            Flat(LaneOf(n', x)) == Flat(LaneOf(n, x))
  {
    var s, os := n.sender.At(y), b.buffered.At(y);
    var more := Arrivals(n.w, y, Envelopes(s, ToReceiver(n.w, y), s.outBuf));
    FlushPicks(n.w, y, s, s.outBuf, os, x, InWorker);
    FlushPicks(n.w, y, s, s.outBuf, os, x, InTx);
    FlushPicks(n.w, y, s, s.outBuf, os, x, InRx);
    FlushPicks(n.w, y, s, s.outBuf, os, x, InExit);
    PickAppend(n.w, n.flight, more, x, InWorker);
    PickAppend(n.w, n.flight, more, x, InTx);
    PickAppend(n.w, n.flight, more, x, InRx);
    PickAppend(n.w, n.flight, more, x, InExit);
    EmptyLane(LaneOf(n, x));
    LetGo(LaneOf(n, x));
  }

  // ----- Every event keeps the line -----

  /** Dispatching a message that stood in front of its place. */
  lemma DispatchKeepsLine(n: Net, b: Book, p: Packet, o: Origin, k: Place, x: Side)
    requires Fits(n, b) && Formed(n.w, p, o, k) && Reaches(n, p)
    ensures var l := LaneOf(n, x);
            p.msg.onward != [] && Flat(LaneOf(Dispatch(n, p), x)) == Flat(if x == o.side then Front(l, k, o) else l)
  {
    match k
    case InWorker => WorkerKeepsLine(n, o, x);
    case InTx => SenderKeepsLine(n, b, o, x);
    case InRx => ReceiverKeepsLine(n, p, o, x);
    case InExit => ExitKeepsLine(n, o, x);
  }

  lemma PlaceOf(w: Wiring, p: Packet, o: Origin) returns (k: Place)
    requires OnItsWay(w, p, o)
    ensures Formed(w, p, o, k)
  {
    k := if p == AtNearWorker(w, o) then InWorker
         else if p == AtSender(w, o) then InTx
         else if AtReceiver(w, p, o) then InRx
         else InExit;
  }

  lemma MoveKeepsLine(n: Net, b: Book, i: nat, x: Side)
    requires Inv(n, b) && i < |n.flight| && Oldest(n, i)
    ensures Flat(LaneOf(Next(n, Move(i)), x)) == Flat(LaneOf(n, x))
  {
    var p, rest := n.flight[i], n.(flight := Remove(n.flight, i));
    assert n.opening.Some? ==> Early(n.w, p);
    var b' := RemoveOne(n, b, i);
    if b.tags[i].Initialises? {
      InitKeepsLine(rest, b', p, x);
      InitShrinks(n, i, x);
    } else {
      var o := b.tags[i].o;
      var k := PlaceOf(n.w, p, o);
      DispatchKeepsLine(rest, b', p, o, k, x);
      LaneShrinks(n, i, o, k, x);
    }
  }

  /** The messages that entered at a side. */
  function On(os: seq<Origin>, x: Side): seq<Origin> {
    if os == [] then [] else On(os[..|os| - 1], x) + if os[|os| - 1].side == x then [os[|os| - 1]] else []
  }

  ghost predicate InLine(n: Net, x: Side) {
    Flat(LaneOf(n, x)) == On(n.entered, x)
  }

  lemma EventKeepsLine(n: Net, b: Book, e: Event, x: Side)
    requires Inv(n, b) && Can(n, e) && InLine(n, x) && (e.Move? ==> Oldest(n, e.i))
    ensures InLine(Next(n, e), x)
  {
    match e
    case Move(i) =>
      MoveKeepsLine(n, b, i, x);
      assert n.opening.Some? ==> Early(n.w, n.flight[i]);
      var b' := RemoveOne(n, b, i);
      if n.flight[i].msg.onward != [] {
        DispatchEnters(n.(flight := Remove(n.flight, i)), n.flight[i]);
      }
    case Enter(o) =>
      LaneGrows(n, AtNearWorker(n.w, o), o, InWorker, x);
      Arrive(LaneOf(n, x), o);
      assert (n.entered + [o])[..|n.entered|] == n.entered;
      Empty(On(n.entered, x));
    case Answer => AnswerKeepsLine(n, x);
  }

  lemma AnswerKeepsLine(n: Net, x: Side)
    requires n.opening.Some? && Quiet(n) && Linked(n.w)
    ensures LaneOf(Next(n, Answer), x) == LaneOf(n, x) && Next(n, Answer).entered == n.entered
  {
    var p := AnsweredIs(n);
    InitIsNoUser(n.w, p);
    PickPush(n.w, n.flight, p, x, InWorker);
    PickPush(n.w, n.flight, p, x, InTx);
    PickPush(n.w, n.flight, p, x, InRx);
    PickPush(n.w, n.flight, p, x, InExit);
    EmptyLane(LaneOf(n, x));
  }

  // ----- Runs -----

  /** Every move of the run takes the oldest message of its side. */
  predicate Fifo(n: Net, run: seq<Event>)
    requires CanAll(n, run)
    decreases |run|
  {
    run == [] || ((run[0].Move? ==> Oldest(n, run[0].i)) && Fifo(Next(n, run[0]), run[1..]))
  }

  lemma {:induction false} RunKeepsLine(n: Net, b: Book, run: seq<Event>, x: Side)
    requires Inv(n, b) && CanAll(n, run) && Fifo(n, run) && InLine(n, x)
    ensures InLine(After(n, run), x)
    decreases |run|
  {
    if run != [] {
      EventKeepsLine(n, b, run[0], x);
      var b' := EventKeeps(n, b, run[0]);
      RunKeepsLine(Next(n, run[0]), b', run[1..], x);
    }
  }

  /** The packets that have left at a side. */
  function Sent(ps: seq<Packet>, y: Side): seq<Packet> {
    if ps == [] then [] else Sent(ps[..|ps| - 1], y) + if ps[|ps| - 1].side == y then [ps[|ps| - 1]] else []
  }

  function Outs(w: Wiring, os: seq<Origin>): seq<Packet> {
    if os == [] then [] else Outs(w, os[..|os| - 1]) + [Out(w, os[|os| - 1])]
  }

  lemma OutsPush(w: Wiring, os: seq<Origin>, o: Origin)
    ensures Outs(w, os + [o]) == Outs(w, os) + [Out(w, o)]
  {
    assert (os + [o])[..|os|] == os;
  }

  lemma {:induction false} OutsAppend(w: Wiring, a: seq<Origin>, b: seq<Origin>)
    ensures Outs(w, a) <= Outs(w, a + b)
    decreases |b|
  {
    if b == [] {
      Empty(a);
    } else {
      var n := |b| - 1;
      OutsAppend(w, a, b[..n]);
      OutsPush(w, a + b[..n], b[n]);
      assert a + b == (a + b[..n]) + [b[n]];
    }
  }

  /** What has left at the far side is what left of this side, in form. */
  lemma {:induction false} SentAreOuts(w: Wiring, ps: seq<Packet>, os: seq<Origin>, x: Side)
    requires AllOut(w, ps, os)
    ensures Sent(ps, Far(x)) == Outs(w, Left(x, ps))
    decreases |ps|
  {
    if ps != [] {
      var k := |ps| - 1;
      forall i | 0 <= i < k ensures IsOut(w, ps[..k][i], os[..k][i]) {
        assert IsOut(w, ps[i], os[i]);
      }
      assert IsOut(w, ps[k], os[k]);
      SentAreOuts(w, ps[..k], os[..k], x);
      OutIsGone(w, os[k]);
      if ps[k].side == Far(x) {
        OutsPush(w, Left(x, ps[..k]), os[k]);
      } else {
        Empty(Left(x, ps[..k]));
        Empty(Sent(ps[..k], Far(x)));
      }
    }
  }

  /** With nothing under way, the whole line has left. */
  lemma IdleLine(n: Net, b: Book, x: Side)
    requires Inv(n, b) && Started(n) && Idle(n)
    ensures Flat(LaneOf(n, x)) == Left(x, n.delivered)
  {
    assert Ready(n.sender.At(x)) && n.sender.At(x).outBuf == [];
    Empty(Left(x, n.delivered));
  }

  /** If every move takes the oldest message of its side, then in every state of the run what has left at
      one end is, in order, a first part of what entered at the other; and all of it once nothing is
      under way. */
  lemma KeepsOrder(a: End, picks: Picks, listener: Address, fwd: Route, back: Route, run: seq<Event>, x: Side)
    requires Distinct(a) && Distinct(Answering(Learned(a, back), picks))
    requires var n := Connect(a, picks, listener, fwd, back);
             CanAll(n, run) && Fifo(n, run)
    ensures var n := After(Connect(a, picks, listener, fwd, back), run);
            && Sent(n.delivered, Far(x)) <= Outs(n.w, On(n.entered, x))
            && (Idle(n) ==> Sent(n.delivered, Far(x)) == Outs(n.w, On(n.entered, x)))
  {
    var n := Connect(a, picks, listener, fwd, back);
    var b := HandshakeLinks(a, picks, listener, fwd, back);
    RunKeepsLine(n, b, run, x);
    var b' := RunKeeps(n, b, run);
    var n' := After(n, run);
    var l := LaneOf(n', x);
    SentAreOuts(n'.w, n'.delivered, b'.outs, x);
    OutsAppend(n'.w, l.left, l.exit + (l.rx + (l.held + (l.tx + l.worker))));
    if Idle(n') {
      IdleLine(n', b', x);
    }
  }
}
