/** The two ends of a channel: the workers that rewrite routes, and the listener that answers the
    creation handshake. */
module ChannelEnds {
  import opened Options
  import opened Routes
  import opened Pipes

  /** The addresses of a channel worker and its pipes, and the address of the worker at the far
      end. */
  datatype End = End(pub: Address, priv: Address, tx: Address, txInt: Address, rx: Address, rxInt: Address, peer: Address)

  /** A message to the public address goes on to the far worker through the local sender; a message
      to the internal address goes on to the user, who will answer to the public address. */
  function Forward(e: End, to: Address, m: Message): Message {
    if to == e.pub then m.(onward := [e.tx, e.peer] + PopFront(m.onward))
    else if to == e.priv then m.(onward := PopFront(m.onward), ret := [e.pub] + m.ret)
    else m
  }

  datatype Stage = Stage1 | Stage2 | Finalised

  /** What the listener learns about the end that sent an announcement. */
  datatype PeerInfo = PeerInfo(txPub: Route, txInt: Route, rxPub: Route, rxInt: Route, channel: Address, peer: Address)

  /** The sender of the announcement is the last address of the return route; its pipes are reached the
      same way. */
  function Listen(returnRoute: Route, h: Creation): Option<PeerInfo> {
    if returnRoute == [] then None
    else
      var base := PopBack(returnRoute);
      Some(PeerInfo(base + [h.tx], base + [h.txInt], base + [h.rx], base + [h.rxInt],
                    h.channel, returnRoute[|returnRoute| - 1]))
  }

  /** The listener takes the last address of the return route for the worker at the far end, and reaches
      each of its pipes by the same way; without a return route there is nothing to answer. */
  lemma ListenLearns(back: Route, from: Address, c: Address, tx: Address, txInt: Address, rx: Address, rxInt: Address)
    ensures Listen(back + [from], Creation(c, tx, txInt, rx, rxInt)) ==
            Some(PeerInfo(back + [tx], back + [txInt], back + [rx], back + [rxInt], c, from))
    ensures Listen([], Creation(c, tx, txInt, rx, rxInt)) == None
  {
    assert (back + [from])[..|back|] == back;
  }

  /** At the public address the message is sent on through the local sender to the far worker; at the
      internal one it goes to the user, to be answered through the public one. */
  lemma WorkerRewrites(e: End, onward: Route, ret: Route, body: Body)
    requires e.pub != e.priv
    ensures Forward(e, e.pub, Message([e.pub] + onward, ret, body)) == Message([e.tx, e.peer] + onward, ret, body)
    ensures Forward(e, e.priv, Message([e.priv] + onward, ret, body)) == Message(onward, [e.pub] + ret, body)
    ensures forall to, m :: to != e.pub && to != e.priv ==> Forward(e, to, m) == m
  {
    assert ([e.pub] + onward)[1..] == onward && ([e.priv] + onward)[1..] == onward;
  }

  class ChannelWorker {
    var stage: Stage
    const end: End

    constructor (end: End, stage: Stage)
      ensures this.end == end && this.stage == stage
    {
      this.end, this.stage := end, stage;
    }

    /** Stage 1: make the pipes and send the announcement to the listener from the internal address. */
    method InitStage1(listener: Route) returns (rx: PipeReceiver, tx: PipeSender, creation: Message)
      requires stage == Stage1
      modifies this
      ensures stage == Finalised && fresh(rx) && rx.addr == end.rx && rx.answered == None
      ensures fresh(tx) && tx.Valid() && tx.View() == NewSender(end.txInt, None)
      ensures creation == Announcement(end, listener)
    {
      rx := new PipeReceiver(end.rx, false);
      tx := new PipeSender(end.txInt, None);
      var h := Creation(end.peer, end.tx, end.txInt, end.rx, end.rxInt);
      creation := Message(listener, [end.priv], Create(h));
      stage := Finalised;
    }

    /** Stage 2: make the pipes, the sender pointed at the far receiver, and have the far sender
        initialised from the local receiver. */
    method InitStage2(info: PeerInfo) returns (rx: PipeReceiver, tx: PipeSender, init: Option<Message>)
      requires stage == Stage2
      modifies this
      ensures stage == Finalised && fresh(rx) && rx.addr == end.rx && rx.answered == Some(true)
      ensures fresh(tx) && tx.Valid()
      ensures tx.View() == NewSender(end.txInt, Some(Peer(info.rxPub)))
      ensures init == Some(InitOf(end, info))
    {
      rx := new PipeReceiver(end.rx, true);
      tx := new PipeSender(end.txInt, Some(Peer(info.rxPub)));
      init := rx.HandleInternal(Handshake(info.txInt));
      stage := Finalised;
    }

    method HandleExternal(to: Address, m: Message) returns (trans: Message)
      ensures trans == Forward(end, to, m)
    {
      trans := m;
      if to == end.pub {
        var r := PopFront(trans.onward);
        r := [end.peer] + r;
        r := [end.tx] + r;
        trans := trans.(onward := r);
      } else if to == end.priv {
        trans := trans.(onward := PopFront(trans.onward));
        trans := trans.(ret := [end.pub] + trans.ret);
      }
    }
  }

  function CreationOf(e: End): Creation {
    Creation(e.peer, e.tx, e.txInt, e.rx, e.rxInt)
  }

  function Announcement(e: End, listener: Route): Message {
    Message(listener, [e.priv], Create(CreationOf(e)))
  }

  /** The addresses that the answering end picks for itself. */
  datatype Picks = Picks(pub: Address, tx: Address, txInt: Address, rx: Address, rxInt: Address)

  /** The answering end: its internal address is the one announced for it. */
  function Answering(info: PeerInfo, picks: Picks): End {
    End(picks.pub, info.channel, picks.tx, picks.txInt, picks.rx, picks.rxInt, info.peer)
  }

  function InitOf(e: End, info: PeerInfo): Message {
    Message(info.txInt, [e.rx], Internal(InitSender))
  }

  /** The listener: an announcement is answered by a stage 2 worker. */
  method HandleCreation(m: Message, picks: Picks)
      returns (rx: PipeReceiver?, tx: PipeSender?, worker: ChannelWorker?, init: Option<Message>)
    ensures var info := if m.body.Create? then Listen(m.ret, m.body.creation) else None;
            if info == None then rx == null && tx == null && worker == null && init == None
            else
              var b := Answering(info.value, picks);
              && worker != null && fresh(worker) && worker.end == b && worker.stage == Finalised
              && rx != null && fresh(rx) && rx.addr == b.rx
              && tx != null && fresh(tx) && tx.Valid() && tx.View() == NewSender(b.txInt, Some(Peer(info.value.rxPub)))
              && init == Some(InitOf(b, info.value))
  {
    rx, tx, worker, init := null, null, null, None;
    if !m.body.Create? {
      return;
    }
    var info := Listen(m.ret, m.body.creation);
    if info.Some? {
      worker := new ChannelWorker(Answering(info.value, picks), Stage2);
      rx, tx, init := worker.InitStage2(info.value);
    }
  }

  /** A transport takes a message along `hops`, and adds the way back to the return route. */
  function Cross(hops: Route, back: Route, m: Message): Option<Message> {
    if hops <= m.onward then Some(m.(onward := m.onward[|hops|..], ret := back + m.ret)) else None
  }
}
