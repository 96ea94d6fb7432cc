/** How far the messages of a channel have come: every move brings some message one stage on, so a run
    that keeps moving delivers everything, after a number of moves that is known beforehand. */
module ChannelProgress {
  import opened Sequences
  import opened Routes
  import opened Pipes
  import opened ChannelEnds
  import opened ChannelRun
  import opened ChannelTheorem

  /** The moves still ahead of a message, by the component it is in front of. */
  function Stages(w: Wiring, p: Packet): nat {
    var e := w.end.At(p.side);
    if p.msg.onward == [] then 0
    else if p.msg.onward[0] == e.pub then 4
    else if p.msg.onward[0] == e.tx then 3
    else if p.msg.onward[0] == e.rx then 2
    else 1
  }

  function AllStages(w: Wiring, ps: seq<Packet>): nat {
    if ps == [] then 0 else AllStages(w, ps[..|ps| - 1]) + Stages(w, ps[|ps| - 1])
  }

  /** The moves still ahead of all messages; a buffered message has two to come once it is let go, and
      the announcement is followed by the command that initialises the connecting sender. */
  function Ahead(n: Net): nat {
    AllStages(n.w, n.flight) + 2 * |n.sender.a.outBuf| + 2 * |n.sender.b.outBuf| + if n.opening.Some? then 2 else 0
  }

  lemma StagesPush(w: Wiring, ps: seq<Packet>, p: Packet)
    ensures AllStages(w, ps + [p]) == AllStages(w, ps) + Stages(w, p)
  {
    assert (ps + [p])[..|ps|] == ps;
  }

  lemma {:induction false} StagesAppend(w: Wiring, a: seq<Packet>, b: seq<Packet>)
    ensures AllStages(w, a + b) == AllStages(w, a) + AllStages(w, b)
    decreases |b|
  {
    if b == [] {
      assert a + b == a;
    } else {
      var k := |b| - 1;
      StagesAppend(w, a, b[..k]);
      StagesPush(w, a + b[..k], b[k]);
      assert a + b == (a + b[..k]) + [b[k]];
    }
  }

  lemma StagesRemove(w: Wiring, ps: seq<Packet>, i: nat)
    requires i < |ps|
    ensures AllStages(w, ps) == AllStages(w, Remove(ps, i)) + Stages(w, ps[i])
  {
    SplitAt(ps, i);
    StagesAppend(w, ps[..i] + [ps[i]], ps[i + 1..]);
    StagesPush(w, ps[..i], ps[i]);
    StagesAppend(w, ps[..i], ps[i + 1..]);
  }

  /** A message under way is not yet at its end. */
  lemma StagesOfTagged(w: Wiring, p: Packet, t: Tag)
    requires Linked(w) && Tagged(w, p, t)
    ensures p.msg.onward != [] && Stages(w, p) > 0
  {
  }

  lemma {:induction false} NothingAhead(w: Wiring, ps: seq<Packet>, ts: seq<Tag>)
    requires Linked(w) && AllTagged(w, ps, ts)
    ensures AllStages(w, ps) == 0 <==> ps == []
  {
    if ps != [] {
      var k := |ps| - 1;
      assert Tagged(w, ps[k], ts[k]);
      StagesOfTagged(w, ps[k], ts[k]);
    }
  }

  // ----- Each component brings a message one stage on -----

  lemma ArrivalStages(w: Wiring, x: Side, s: Sender, pm: PipeMessage)
    requires Linked(w)
    ensures AllStages(w, Arrival(w, x, Envelope(s, ToReceiver(w, x), pm))) == 2
  {
    var hops, rx := w.hops.At(x), w.end.At(Far(x)).rx;
    assert (hops + [rx])[..|hops|] == hops && (hops + [rx])[|hops|..] == [rx];
    var ps := Arrival(w, x, Envelope(s, ToReceiver(w, x), pm));
    assert ps == [] + [ps[0]];
    StagesPush(w, [], ps[0]);
  }

  lemma {:induction false} FlushStages(w: Wiring, x: Side, s: Sender, ms: seq<PipeMessage>)
    requires Linked(w)
    ensures AllStages(w, Arrivals(w, x, Envelopes(s, ToReceiver(w, x), ms))) == 2 * |ms|
    decreases |ms|
  {
    if ms != [] {
      var k, to := |ms| - 1, ToReceiver(w, x);
      FlushStages(w, x, s, ms[..k]);
      EnvelopesLast(s, to, ms);
      ArrivalStages(w, x, s, ms[k]);
      StagesAppend(w, Arrivals(w, x, Envelopes(s, to, ms[..k])), Arrival(w, x, Envelope(s, to, ms[k])));
    }
  }

  lemma SenderProgress(n: Net, b: Book, o: Origin)
    requires Fits(n, b) && o.onward != [] && Reaches(n, AtSender(n.w, o))
    ensures Ahead(Dispatch(n, AtSender(n.w, o))) == Ahead(n) + 2
  {
    if Ready(n.sender.At(o.side)) {
      var s, p := SenderEmits(n, b, o);
      StagesAre(n.w, p, o);
      StagesPush(n.w, n.flight, p);
    } else {
      var s, pm := SenderBuffers(n, o);
    }
  }

  lemma InitProgress(n: Net, b: Book, p: Packet)
    requires Fits(n, b) && IsInit(n.w, p) && Reaches(n, p)
    ensures Ahead(Dispatch(n, p)) == Ahead(n)
  {
    var t := n.sender.At(p.side);
    var s := InitDoes(n, p);
    if !Ready(t) {
      FlushStages(n.w, p.side, t, t.outBuf);
      StagesAppend(n.w, n.flight, Arrivals(n.w, p.side, Envelopes(t, ToReceiver(n.w, p.side), t.outBuf)));
    }
  }

  lemma NearWorkerProgress(n: Net, b: Book, o: Origin)
    requires Fits(n, b) && o.onward != [] && Reaches(n, AtNearWorker(n.w, o))
    ensures Ahead(Dispatch(n, AtNearWorker(n.w, o))) == Ahead(n) + 3
  {
    WorkerDoes(n, o);
    StagesAre(n.w, AtSender(n.w, o), o);
    StagesPush(n.w, n.flight, AtSender(n.w, o));
  }

  lemma ReceiverProgress(n: Net, b: Book, p: Packet, o: Origin)
    requires Fits(n, b) && o.onward != [] && AtReceiver(n.w, p, o) && Reaches(n, p)
    ensures Ahead(Dispatch(n, p)) == Ahead(n) + 1
  {
    ReceiverDoes(n, p, o);
    StagesAre(n.w, AtFarWorker(n.w, o), o);
    StagesPush(n.w, n.flight, AtFarWorker(n.w, o));
  }

  lemma FarWorkerProgress(n: Net, b: Book, o: Origin)
    requires Fits(n, b) && o.onward != [] && Reaches(n, AtFarWorker(n.w, o))
    ensures Ahead(Dispatch(n, AtFarWorker(n.w, o))) == Ahead(n)
  {
    ExitDoes(n, o);
  }

  /** The stages of a message by where it is. */
  lemma StagesAre(w: Wiring, p: Packet, o: Origin)
    requires Linked(w) && o.onward != []
    ensures p == AtNearWorker(w, o) ==> Stages(w, p) == 4
    ensures p == AtSender(w, o) ==> Stages(w, p) == 3
    ensures AtReceiver(w, p, o) ==> Stages(w, p) == 2
    ensures p == AtFarWorker(w, o) ==> Stages(w, p) == 1
  {
  }

  lemma DispatchProgress(n: Net, b: Book, p: Packet, t: Tag)
    requires Fits(n, b) && Tagged(n.w, p, t) && Reaches(n, p)
    ensures p.msg.onward != [] && Ahead(Dispatch(n, p)) == Ahead(n) + Stages(n.w, p) - 1
  {
    if t.Initialises? {
      InitProgress(n, b, p);
    } else {
      StagesAre(n.w, p, t.o);
      if p == AtNearWorker(n.w, t.o) {
        NearWorkerProgress(n, b, t.o);
      } else if p == AtSender(n.w, t.o) {
        SenderProgress(n, b, t.o);
      } else if AtReceiver(n.w, p, t.o) {
        ReceiverProgress(n, b, p, t.o);
      } else {
        FarWorkerProgress(n, b, t.o);
      }
    }
  }

  lemma MoveProgress(n: Net, b: Book, i: nat)
    requires Inv(n, b) && i < |n.flight|
    ensures Ahead(Next(n, Move(i))) == Ahead(n) - 1
  {
    assert n.opening.Some? ==> Early(n.w, n.flight[i]);
    var b' := RemoveOne(n, b, i);
    StagesRemove(n.w, n.flight, i);
    DispatchProgress(n.(flight := Remove(n.flight, i)), b', n.flight[i], b.tags[i]);
  }

  lemma AnswerProgress(n: Net, b: Book)
    requires Inv(n, b) && n.opening.Some?
    ensures Ahead(Next(n, Answer)) == Ahead(n) - 1
  {
    var p := AnsweredIs(n);
    StagesPush(n.w, n.flight, p);
    assert Stages(n.w, p) == 1;
  }

  /** A message handed in has four moves ahead; every move takes one off what is ahead. */
  lemma EventProgress(n: Net, b: Book, e: Event)
    requires Inv(n, b) && Can(n, e)
    ensures Ahead(Next(n, e)) == if e.Enter? then Ahead(n) + 4 else Ahead(n) - 1
  {
    match e
    case Enter(o) =>
      StagesAre(n.w, AtNearWorker(n.w, o), o);
      StagesPush(n.w, n.flight, AtNearWorker(n.w, o));
    case Answer => AnswerProgress(n, b);
    case Move(i) => MoveProgress(n, b, i);
  }

  // ----- Runs -----

  /** Everything that is not a message handed in: moves, and the answer. */
  function Moves(run: seq<Event>): nat {
    if run == [] then 0 else (if run[0].Enter? then 0 else 1) + Moves(run[1..])
  }

  function Enters(run: seq<Event>): nat {
    if run == [] then 0 else (if run[0].Enter? then 1 else 0) + Enters(run[1..])
  }

  lemma {:induction false} RunProgress(n: Net, b: Book, run: seq<Event>)
    requires Inv(n, b) && Started(n) && CanAll(n, run)
    ensures Ahead(After(n, run)) + Moves(run) == Ahead(n) + 4 * Enters(run)
    decreases |run|
  {
    if run != [] {
      EventProgress(n, b, run[0]);
      var b' := EventKeeps(n, b, run[0]);
      StartedIsKept(n, run[0]);
      RunProgress(Next(n, run[0]), b', run[1..]);
    }
  }

  /** With nothing under way, nothing is buffered either. */
  lemma NothingIsLeft(n: Net, b: Book)
    requires Inv(n, b) && Started(n)
    ensures Ahead(n) == 0 <==> Idle(n)
  {
    NothingAhead(n.w, n.flight, b.tags);
  }

  /** From the announcement on, no run makes more than four moves for each message handed in, one for
      the answer and one for the command that initialises the connecting sender; and nothing is under
      way any more, so that everything has been delivered, exactly when it has made that many. */
  lemma EveryMoveCounts(a: End, picks: Picks, listener: Address, fwd: Route, back: Route, run: seq<Event>)
    requires Distinct(a) && Distinct(Answering(Learned(a, back), picks))
    requires CanAll(Connect(a, picks, listener, fwd, back), run)
    ensures Moves(run) <= 4 * Enters(run) + 2
    ensures Idle(After(Connect(a, picks, listener, fwd, back), run)) <==> Moves(run) == 4 * Enters(run) + 2
  {
    var n := Connect(a, picks, listener, fwd, back);
    var b := HandshakeLinks(a, picks, listener, fwd, back);
    RunProgress(n, b, run);
    var b' := RunKeeps(n, b, run);
    NothingIsLeft(After(n, run), b');
  }
}
