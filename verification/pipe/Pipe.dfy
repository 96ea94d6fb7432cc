/** The sending and receiving ends of a pipe. */
module Pipes {
  import opened Options
  import opened Sequences
  import opened Routes

  const INDEX_END := 0x1_0000_0000_0000_0000

  datatype PeerRoute = Peer(route: Route) | Listener(route: Route)

  /** A sender, with the messages it has emitted so far. */
  datatype Sender = Sender(intAddr: Address, index: nat, outBuf: seq<PipeMessage>, peer: Option<PeerRoute>, sent: seq<Message>)

  /** A sender counts from 1, and knows its peer, a listener or nothing. */
  function NewSender(intAddr: Address, peer: Option<PeerRoute>): Sender {
    Sender(intAddr, 1, [], peer, [])
  }

  predicate Ready(s: Sender) {
    s.peer.Some? && s.peer.value.Peer?
  }

  function Envelope(s: Sender, to: Route, m: PipeMessage): Message {
    Message(to, [s.intAddr], Packed(m))
  }

  function Envelopes(s: Sender, to: Route, ms: seq<PipeMessage>): seq<Message> {
    if ms == [] then [] else Envelopes(s, to, ms[..|ms| - 1]) + [Envelope(s, to, ms[|ms| - 1])]
  }

  /** A user message is numbered, and emitted or buffered. */
  function External(s: Sender, m: Message): Sender {
    var pm := PipeMessage(s.index, m.(onward := PopFront(m.onward)));
    var next := (s.index + 1) % INDEX_END;
    if Ready(s) then s.(index := next, sent := s.sent + [Envelope(s, s.peer.value.route, pm)])
    else s.(index := next, outBuf := s.outBuf + [pm])
  }

  /** The command that initialises a sender sets its peer and emits the buffer. */
  function OnCommand(s: Sender, cmd: Command, returnRoute: Route): Sender {
    if Ready(s) || cmd != InitSender then s
    else s.(peer := Some(Peer(returnRoute)), outBuf := [], sent := s.sent + Envelopes(s, returnRoute, s.outBuf))
  }

  /** `Monotonic`: an atomic counter that wraps around. */
  class Monotonic {
    var inner: nat

    ghost predicate Valid()
      reads this
    {
      inner < INDEX_END
    }

    constructor From(u: nat)
      requires u < INDEX_END
      ensures Valid() && inner == u
    {
      inner := u;
    }

    method Next() returns (r: nat)
      requires Valid()
      modifies this
      ensures Valid() && r == old(inner) && inner == (old(inner) + 1) % INDEX_END
      ensures inner == if old(inner) == 18446744073709551615 then 0 else old(inner) + 1
    {
      r := inner;
      inner := (inner + 1) % INDEX_END;
    }
  }

  class PipeSender {
    const index: Monotonic
    const intAddr: Address
    var outBuf: seq<PipeMessage>
    var peer: Option<PeerRoute>
    var sent: seq<Message>

    ghost predicate Valid()
      reads this, index
    {
      index.Valid()
    }

    ghost function View(): Sender
      reads this, index
    {
      Sender(intAddr, index.inner, outBuf, peer, sent)
    }

    constructor (intAddr: Address, peer: Option<PeerRoute>)
      ensures Valid() && fresh(index) && View() == NewSender(intAddr, peer)
    {
      index := new Monotonic.From(1);
      this.intAddr, this.peer := intAddr, peer;
      outBuf, sent := [], [];
    }

    method SendPipeMsg(to: Route, m: PipeMessage)
      requires Valid()
      modifies this`sent
      ensures View() == old(View()).(sent := old(sent) + [Envelope(old(View()), to, m)])
    {
      sent := sent + [Message(to, [intAddr], Packed(m))];
    }

    method HandleInternal(cmd: Command, returnRoute: Route)
      requires Valid()
      modifies this
      ensures Valid() && View() == OnCommand(old(View()), cmd, returnRoute)
    {
      if peer.Some? && peer.value.Peer? {
        return;
      }
      if cmd == InitSender {
        peer := Some(Peer(returnRoute));
        var rest := outBuf;
        outBuf := [];
        ghost var done: seq<PipeMessage> := [];
        ghost var s0 := old(View());
        while rest != []
          invariant Valid() && outBuf == [] && peer == Some(Peer(returnRoute)) && index.inner == old(index.inner)
          invariant done + rest == old(outBuf)
          invariant sent == old(sent) + Envelopes(s0, returnRoute, done)
          decreases |rest|
        {
          SendPipeMsg(returnRoute, rest[0]);
          EnvelopesPush(s0, returnRoute, done, rest[0]);
          MoveOne(done, rest);
          Assoc(old(sent), Envelopes(s0, returnRoute, done), [Envelope(s0, returnRoute, rest[0])]);
          done, rest := done + [rest[0]], rest[1..];
        }
        assert done == old(outBuf);
      }
    }

    method HandleExternal(m: Message)
      requires Valid()
      modifies this, index
      ensures Valid() && View() == External(old(View()), m)
    {
      var msg := m.(onward := PopFront(m.onward));
      var i := index.Next();
      var pm := PipeMessage(i, msg);
      if peer.Some? && peer.value.Peer? {
        SendPipeMsg(peer.value.route, pm);
      } else {
        outBuf := outBuf + [pm];
      }
    }
  }

  lemma EnvelopesPush(s: Sender, to: Route, ms: seq<PipeMessage>, m: PipeMessage)
    ensures Envelopes(s, to, ms + [m]) == Envelopes(s, to, ms) + [Envelope(s, to, m)]
  {
    assert (ms + [m])[..|ms|] == ms;
  }

  // ----- Any interleaving of user messages and commands -----

  datatype Input = User(msg: Message) | Cmd(cmd: Command, returnRoute: Route)

  function Handle(s: Sender, i: Input): Sender {
    match i case User(m) => External(s, m) case Cmd(cmd, r) => OnCommand(s, cmd, r)
  }

  function HandleAll(s: Sender, inputs: seq<Input>): Sender {
    if inputs == [] then s else Handle(HandleAll(s, inputs[..|inputs| - 1]), inputs[|inputs| - 1])
  }

  /** The user messages of a run, numbered from 1 and without the sender's own address. */
  function Accepted(inputs: seq<Input>): seq<PipeMessage> {
    if inputs == [] then []
    else
      var before, last := Accepted(inputs[..|inputs| - 1]), inputs[|inputs| - 1];
      if last.User?
      then before + [PipeMessage((|before| + 1) % INDEX_END, last.msg.(onward := PopFront(last.msg.onward)))]
      else before
  }

  function Contents(ms: seq<Message>): seq<PipeMessage>
    requires forall i :: 0 <= i < |ms| ==> ms[i].body.Packed?
  {
    if ms == [] then [] else Contents(ms[..|ms| - 1]) + [ms[|ms| - 1].body.pipe]
  }

  /** Everything emitted is a pipe message, sent to the peer from the internal address. */
  ghost predicate ToPeer(s: Sender) {
    && (s.sent != [] ==> Ready(s))
    && forall i :: 0 <= i < |s.sent| ==>
         s.sent[i].body.Packed? && s.sent[i].onward == s.peer.value.route && s.sent[i].ret == [s.intAddr]
  }

  lemma ContentsPush(ms: seq<Message>, m: Message)
    requires (forall i :: 0 <= i < |ms| ==> ms[i].body.Packed?) && m.body.Packed?
    ensures Contents(ms + [m]) == Contents(ms) + [m.body.pipe]
  {
    assert (ms + [m])[..|ms|] == ms;
  }

  lemma {:induction false} ContentsOfEnvelopes(s: Sender, sent: seq<Message>, to: Route, ms: seq<PipeMessage>)
    requires forall i :: 0 <= i < |sent| ==> sent[i].body.Packed?
    ensures var all := sent + Envelopes(s, to, ms);
            && (forall i :: 0 <= i < |all| ==> all[i].body.Packed?)
            && (forall i :: |sent| <= i < |all| ==> all[i].onward == to && all[i].ret == [s.intAddr])
            && Contents(all) == Contents(sent) + ms
  {
    if ms == [] {
      assert sent + Envelopes(s, to, ms) == sent && Contents(sent) + ms == Contents(sent);
    } else {
      var n := |ms| - 1;
      ContentsOfEnvelopes(s, sent, to, ms[..n]);
      ContentsPush(sent + Envelopes(s, to, ms[..n]), Envelope(s, to, ms[n]));
      assert sent + Envelopes(s, to, ms) == (sent + Envelopes(s, to, ms[..n])) + [Envelope(s, to, ms[n])];
      assert Contents(sent) + ms[..n] + [ms[n]] == Contents(sent) + ms;
    }
  }

  ghost predicate InOrder(s: Sender, accepted: seq<PipeMessage>) {
    && ToPeer(s)
    && Contents(s.sent) + s.outBuf == accepted
    && s.index == (|accepted| + 1) % INDEX_END
    && (Ready(s) ==> s.outBuf == [])
  }

  lemma ExternalInOrder(s: Sender, accepted: seq<PipeMessage>, m: Message)
    requires InOrder(s, accepted)
    ensures var pm := PipeMessage((|accepted| + 1) % INDEX_END, m.(onward := PopFront(m.onward)));
            InOrder(External(s, m), accepted + [pm])
  {
    var pm := PipeMessage(s.index, m.(onward := PopFront(m.onward)));
    if Ready(s) {
      ContentsPush(s.sent, Envelope(s, s.peer.value.route, pm));
    }
  }

  lemma CommandInOrder(s: Sender, accepted: seq<PipeMessage>, cmd: Command, returnRoute: Route)
    requires InOrder(s, accepted)
    ensures InOrder(OnCommand(s, cmd, returnRoute), accepted)
  {
    if !Ready(s) && cmd == InitSender {
      ContentsOfEnvelopes(s, s.sent, returnRoute, s.outBuf);
    }
  }

  /** Under any interleaving: what was emitted, followed by the buffer, is exactly what was accepted,
      in order and numbered; nothing is emitted before a peer is known, and the buffer is empty once
      it is. */
  lemma {:induction false} SenderInOrder(intAddr: Address, peer: Option<PeerRoute>, inputs: seq<Input>)
    ensures InOrder(HandleAll(NewSender(intAddr, peer), inputs), Accepted(inputs))
  {
    if inputs != [] {
      var n := |inputs| - 1;
      SenderInOrder(intAddr, peer, inputs[..n]);
      var s, before := HandleAll(NewSender(intAddr, peer), inputs[..n]), Accepted(inputs[..n]);
      match inputs[n]
      case User(m) => ExternalInOrder(s, before, m);
      case Cmd(cmd, r) => CommandInOrder(s, before, cmd, r);
    }
  }

  /** Once a sender has a peer it keeps it, and what it has emitted, for ever. */
  lemma {:induction false} PeerIsKept(s: Sender, inputs: seq<Input>)
    requires Ready(s)
    ensures HandleAll(s, inputs).peer == s.peer && s.sent <= HandleAll(s, inputs).sent
  {
    if inputs != [] {
      PeerIsKept(s, inputs[..|inputs| - 1]);
    }
  }

  predicate NoInit(inputs: seq<Input>) {
    forall i :: 0 <= i < |inputs| ==> !(inputs[i].Cmd? && inputs[i].cmd == InitSender)
  }

  /** Without a peer, and with a listener no more than without one, everything is buffered until the
      sender is initialised. */
  lemma {:induction false} BuffersUntilInit(intAddr: Address, peer: Option<PeerRoute>, inputs: seq<Input>)
    requires (peer == None || peer.value.Listener?) && NoInit(inputs)
    ensures var s := HandleAll(NewSender(intAddr, peer), inputs);
            s.sent == [] && s.outBuf == Accepted(inputs) && s.peer == peer
  {
    SenderInOrder(intAddr, peer, inputs);
    if inputs != [] {
      BuffersUntilInit(intAddr, peer, inputs[..|inputs| - 1]);
    }
  }

  /** The first command that initialises a sender decides its peer, and lets everything go that was
      accepted before, in order and to that peer. */
  lemma FirstInitDecides(intAddr: Address, peer: Option<PeerRoute>, inputs: seq<Input>, r: Route)
    requires (peer == None || peer.value.Listener?) && NoInit(inputs)
    ensures var s := HandleAll(NewSender(intAddr, peer), inputs + [Cmd(InitSender, r)]);
            && s.peer == Some(Peer(r)) && s.outBuf == []
            && ToPeer(s) && Contents(s.sent) == Accepted(inputs)
  {
    BuffersUntilInit(intAddr, peer, inputs);
    var all := inputs + [Cmd(InitSender, r)];
    assert all[..|inputs|] == inputs;
    SenderInOrder(intAddr, peer, all);
    var s := HandleAll(NewSender(intAddr, peer), all);
    assert s == OnCommand(HandleAll(NewSender(intAddr, peer), inputs), InitSender, r);
    assert Contents(s.sent) + [] == Contents(s.sent);
  }

  /** A sender made with a peer never buffers. */
  lemma WithPeerNeverBuffers(intAddr: Address, r: Route, inputs: seq<Input>)
    ensures var s := HandleAll(NewSender(intAddr, Some(Peer(r))), inputs);
            s.peer == Some(Peer(r)) && s.outBuf == [] && ToPeer(s) && Contents(s.sent) == Accepted(inputs)
  {
    var s0 := NewSender(intAddr, Some(Peer(r)));
    PeerIsKept(s0, inputs);
    SenderInOrder(intAddr, Some(Peer(r)), inputs);
    var s := HandleAll(s0, inputs);
    assert Contents(s.sent) + [] == Contents(s.sent);
  }

  /** Messages are numbered 1, 2, 3 and so on; only commands between them do not count. */
  lemma {:induction false} NumberedFromOne(inputs: seq<Input>, i: nat)
    requires i < |Accepted(inputs)| && |inputs| < 0xFFFF_FFFF_FFFF_FFFF
    ensures |Accepted(inputs)| <= |inputs| && Accepted(inputs)[i].index == i + 1
  {
    var before := Accepted(inputs[..|inputs| - 1]);
    if i < |before| {
      NumberedFromOne(inputs[..|inputs| - 1], i);
    } else if before != [] {
      NumberedFromOne(inputs[..|inputs| - 1], 0);
    }
  }

  // ----- The receiver -----

  /** A pipe message is unpacked and forwarded; anything else cannot be decoded. */
  function Receive(m: Message): Option<Message> {
    if m.body.Packed? then Some(m.body.pipe.inner) else None
  }

  /** A receiver, and the hook that answers a handshake, if it is attached: it remembers whether it
      has answered one. */
  class PipeReceiver {
    const addr: Address
    var answered: Option<bool>

    constructor (addr: Address, hooked: bool)
      ensures this.addr == addr && answered == if hooked then Some(false) else None
    {
      this.addr := addr;
      answered := if hooked then Some(false) else None;
    }

    method HandleExternal(m: Message) returns (forwarded: Option<Message>)
      ensures forwarded == Receive(m)
    {
      if !m.body.Packed? {
        return None;
      }
      return Some(m.body.pipe.inner);
    }

    /** The first handshake has the sender it names initialised from this receiver; nothing else has
        an effect. */
    method HandleInternal(cmd: Command) returns (sent: Option<Message>)
      modifies this
      ensures if old(answered) == Some(false) && cmd.Handshake?
              then sent == Some(Message(cmd.routeToSender, [addr], Internal(InitSender))) && answered == Some(true)
              else sent == None && answered == old(answered)
    {
      sent := None;
      if answered.Some? && cmd.Handshake? && !answered.value {
        sent := Some(Message(cmd.routeToSender, [addr], Internal(InitSender)));
        answered := Some(true);
      }
    }
  }
}
