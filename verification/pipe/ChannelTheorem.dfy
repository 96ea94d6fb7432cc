/** From the handshake on: what a whole run of a channel delivers. */
module ChannelTheorem {
  import opened Options
  import opened Routes
  import opened Pipes
  import opened ChannelEnds
  import opened ChannelRun

  // ----- The handshake -----

  /** The channel once the connecting end exists: its sender has no peer, and the announcement is under
      way to the listener. */
  function Connect(a: End, picks: Picks, listener: Address, fwd: Route, back: Route): Net {
    var b := Answering(Learned(a, back), picks);
    Net(Wiring(Both(a, b), Both(fwd, back)), picks,
        Some(Message([listener], back + [a.priv], Create(CreationOf(a)))),
        Both(NewSender(a.txInt, None), NewSender(b.txInt, None)), [], [], [])
  }

  /** Connecting: stage 1 of the worker, and the transport that carries its announcement, make this
      channel. */
  method Connecting(a: End, picks: Picks, listener: Address, fwd: Route, back: Route)
      returns (rx: PipeReceiver, tx: PipeSender, opening: Option<Message>)
    ensures fresh(rx) && rx.addr == a.rx && fresh(tx) && tx.Valid()
    ensures var n := Connect(a, picks, listener, fwd, back);
            n.opening == opening && n.sender.a == tx.View()
  {
    var worker := new ChannelWorker(a, Stage1);
    var creation: Message;
    rx, tx, creation := worker.InitStage1(fwd + [listener]);
    assert (fwd + [listener])[..|fwd|] == fwd && (fwd + [listener])[|fwd|..] == [listener];
    opening := Cross(fwd, back, creation);
  }

  /** Answering: what the listener does with the announcement, and the transport that carries the
      command back, are the answering event of the channel. */
  method AnsweringEvent(n: Net) returns (rx: PipeReceiver, tx: PipeSender, worker: ChannelWorker, init: Option<Message>)
    requires n.opening.Some? && Quiet(n)
    ensures fresh(rx) && fresh(tx) && tx.Valid() && fresh(worker)
    ensures var n' := Next(n, Answer);
            && worker.end == n'.w.end.b == n.w.end.b && rx.addr == n'.w.end.b.rx
            && tx.View() == n'.sender.b
            && init.Some? && n'.flight == n.flight + [Packet(A, init.value)]
  {
    var rx?, tx?, worker?, init? := HandleCreation(n.opening.value, n.picks);
    ghost var p := AnsweredIs(n);
    rx, tx, worker := rx?, tx?, worker?;
    init := Cross(n.w.hops.b, n.w.hops.a, init?.value);
    assert n.flight + [p] == n.flight + [Packet(A, init.value)];
  }

  /** The announcement is under way; or the answering end is ready and the command for the connecting
      one has arrived or is under way. */
  ghost predicate Started(n: Net) {
    || n.opening.Some?
    || (Ready(n.sender.b) && (Ready(n.sender.a) || exists p :: p in n.flight && p.side == A && IsInit(n.w, p)))
  }

  /** Nothing is under way. */
  predicate Idle(n: Net) {
    n.flight == [] && n.opening == None
  }

  /** From the start the books are right, and each end will know the other. */
  lemma HandshakeLinks(a: End, picks: Picks, listener: Address, fwd: Route, back: Route) returns (b: Book)
    requires Distinct(a) && Distinct(Answering(Learned(a, back), picks))
    ensures Inv(Connect(a, picks, listener, fwd, back), b) && Started(Connect(a, picks, listener, fwd, back))
  {
    PopBackPush(back, a.priv);
    b := Book([], Both([], []), []);
  }

  // ----- The command arrives -----

  lemma DispatchStarts(n: Net, p: Packet)
    requires Linked(n.w) && p.msg.onward != [] && n.opening == None
    ensures var n' := Dispatch(n, p);
            && n'.w == n.w && n'.opening == None && n.flight <= n'.flight
            && (forall x :: Ready(n.sender.At(x)) ==> Ready(n'.sender.At(x)))
            && (p.side == A && IsInit(n.w, p) ==> Ready(n'.sender.a))
  {
  }

  lemma InRemoved<T>(s: seq<T>, i: nat, x: T)
    requires i < |s| && x in s && x != s[i]
    ensures x in Remove(s, i)
  {
    var j :| 0 <= j < |s| && s[j] == x;
    assert Remove(s, i)[if j < i then j else j - 1] == x;
  }

  lemma StartedIsKept(n: Net, e: Event)
    requires Linked(n.w) && Started(n) && Can(n, e) && (n.opening.Some? ==> Quiet(n))
    ensures Started(Next(n, e)) && Next(n, e).w == n.w
  {
    var n' := Next(n, e);
    if e.Answer? {
      var p := AnsweredIs(n);
      assert n'.flight[|n.flight|] == p;
    } else if n.opening.Some? {
      QuietIsKept(n, e);
    } else {
      StillStarted(n, e);
    }
  }

  lemma StillStarted(n: Net, e: Event)
    requires Linked(n.w) && Started(n) && Can(n, e) && n.opening == None
    ensures Started(Next(n, e)) && Next(n, e).w == n.w
  {
    var n' := Next(n, e);
    if e.Move? {
      var rest := n.(flight := Remove(n.flight, e.i));
      var p := n.flight[e.i];
      if p.msg.onward != [] {
        DispatchStarts(rest, p);
        assert Ready(rest.sender.At(A)) ==> Ready(n'.sender.At(A));
        assert Ready(rest.sender.At(B)) ==> Ready(n'.sender.At(B));
      }
      if !Ready(n.sender.a) {
        var q :| q in n.flight && q.side == A && IsInit(n.w, q);
        if q != p {
          InRemoved(n.flight, e.i, q);
          assert q in n'.flight;
        }
      }
    } else if !Ready(n.sender.a) {
      var q :| q in n.flight && q.side == A && IsInit(n.w, q);
      assert q in n'.flight;
    }
  }

  // ----- Runs -----

  predicate CanAll(n: Net, run: seq<Event>)
    decreases |run|
  {
    run == [] || (Can(n, run[0]) && CanAll(Next(n, run[0]), run[1..]))
  }

  function After(n: Net, run: seq<Event>): Net
    requires CanAll(n, run)
    decreases |run|
  {
    if run == [] then n else After(Next(n, run[0]), run[1..])
  }

  lemma {:induction false} RunKeeps(n: Net, b: Book, run: seq<Event>) returns (b': Book)
    requires Inv(n, b) && Started(n) && CanAll(n, run)
    ensures Inv(After(n, run), b') && Started(After(n, run)) && After(n, run).w == n.w
    decreases |run|
  {
    if run == [] {
      b' := b;
    } else {
      var b1 := EventKeeps(n, b, run[0]);
      StartedIsKept(n, run[0]);
      b' := RunKeeps(Next(n, run[0]), b1, run[1..]);
    }
  }

  /** In every state of every run, each message that has come out of the channel is a message that a
      user handed in at the other end, with its onward route and with the public address of the end
      it left prepended to its return route; none has come out twice; and once nothing is under way,
      every message handed in has come out. */
  lemma ChannelDelivers(a: End, picks: Picks, listener: Address, fwd: Route, back: Route, run: seq<Event>)
      returns (outs: seq<Origin>, missing: multiset<Origin>)
    requires Distinct(a) && Distinct(Answering(Learned(a, back), picks))
    requires CanAll(Connect(a, picks, listener, fwd, back), run)
    ensures var n := After(Connect(a, picks, listener, fwd, back), run);
            && |outs| == |n.delivered|
            && (forall i :: 0 <= i < |outs| ==> n.delivered[i] == Out(n.w, outs[i]))
            && multiset(outs) + missing == multiset(n.entered)
            && (Idle(n) ==> missing == multiset{})
  {
    var b := HandshakeLinks(a, picks, listener, fwd, back);
    b := RunKeeps(Connect(a, picks, listener, fwd, back), b, run);
    var n := After(Connect(a, picks, listener, fwd, back), run);
    outs := b.outs;
    missing := Users(b.tags) + multiset(b.buffered.a) + multiset(b.buffered.b);
    forall i | 0 <= i < |outs| ensures n.delivered[i] == Out(n.w, outs[i]) {
      assert IsOut(n.w, n.delivered[i], outs[i]);
    }
    Apart(missing, multiset(outs));
  }

  lemma Apart(a: multiset<Origin>, b: multiset<Origin>)
    ensures a + b == b + a
  {
  }

  /** Once nothing is under way, a message handed in has come out. */
  lemma HasArrived(a: End, picks: Picks, listener: Address, fwd: Route, back: Route, run: seq<Event>, o: Origin)
    requires Distinct(a) && Distinct(Answering(Learned(a, back), picks))
    requires CanAll(Connect(a, picks, listener, fwd, back), run)
    requires var n := After(Connect(a, picks, listener, fwd, back), run);
             Idle(n) && o in n.entered
    ensures var n := After(Connect(a, picks, listener, fwd, back), run);
            Out(n.w, o) in n.delivered
  {
    var n := After(Connect(a, picks, listener, fwd, back), run);
    var outs, missing := ChannelDelivers(a, picks, listener, fwd, back, run);
    assert o in multiset(n.entered) && o in multiset(outs);
    var i :| 0 <= i < |outs| && outs[i] == o;
    assert n.delivered[i] == Out(n.w, o);
  }

  /** A reply to a message that came out, sent along the return route with which it came out, enters at
      the far end; and once nothing is under way it has come out at the near end, on its way to the
      original return route, with the near public address prepended to its own. */
  lemma RepliesComeBack(a: End, picks: Picks, listener: Address, fwd: Route, back: Route, run: seq<Event>,
                        o: Origin, ret: Route, payload: int)
    requires Distinct(a) && Distinct(Answering(Learned(a, back), picks))
    requires CanAll(Connect(a, picks, listener, fwd, back), run)
    requires var n := After(Connect(a, picks, listener, fwd, back), run);
             Idle(n) && Origin(Far(o.side), o.ret, ret, payload) in n.entered
    ensures var n := After(Connect(a, picks, listener, fwd, back), run);
            var reply := Origin(Far(o.side), o.ret, ret, payload);
            && AtNearWorker(n.w, reply) == Packet(Out(n.w, o).side, Message(Out(n.w, o).msg.ret, ret, Data(payload)))
            && Packet(o.side, Message(o.ret, [n.w.end.At(o.side).pub] + ret, Data(payload))) in n.delivered
  {
    HasArrived(a, picks, listener, fwd, back, run, Origin(Far(o.side), o.ret, ret, payload));
  }
}
