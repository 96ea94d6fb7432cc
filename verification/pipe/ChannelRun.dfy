/** Whole runs of a channel: every message a user hands to one end comes out of the other end, once,
    with the right onward and return routes, whatever the order in which messages travel and
    whenever the far end answers. */
module ChannelRun {
  import opened Options
  import opened Sequences
  import opened Routes
  import opened Pipes
  import opened ChannelEnds

  datatype Side = A | B

  function Far(x: Side): Side {
    if x == A then B else A
  }

  /** One thing for each side. */
  datatype Both<T> = Both(a: T, b: T) {
    function At(x: Side): T {
      if x == A then a else b
    }

    function With(x: Side, t: T): Both<T> {
      if x == A then Both(t, b) else Both(a, t)
    }
  }

  /** A message at one of the two sides. */
  datatype Packet = Packet(side: Side, msg: Message)

  /** A user message: where it entered, its onward route behind the channel, its return route and its
      payload. */
  datatype Origin = Origin(side: Side, onward: Route, ret: Route, payload: int)

  /** The two ends, and the transport routes from each side to the other. */
  datatype Wiring = Wiring(end: Both<End>, hops: Both<Route>)

  /** `opening` is the announcement while it is under way to the listener; until it arrives there is
      nothing at the far side, and `w` and `sender` only say what will be there.  `picks` are the
      addresses that the far end will pick. */
  datatype Net = Net(
    w: Wiring,
    picks: Picks,
    opening: Option<Message>,
    sender: Both<Sender>,
    flight: seq<Packet>,
    delivered: seq<Packet>,
    entered: seq<Origin>)

  // ----- Steps -----

  datatype Event = Enter(o: Origin) | Move(i: nat) | Answer

  /** A message that has nowhere to go behind the channel is not considered, and none can be handed to
      an end that does not exist yet. */
  predicate Can(n: Net, e: Event) {
    match e
    case Enter(o) => o.onward != [] && (o.side == A || n.opening == None)
    case Move(i) => i < |n.flight|
    case Answer => n.opening.Some?
  }

  function Arrival(w: Wiring, x: Side, m: Message): seq<Packet> {
    match Cross(w.hops.At(x), w.hops.At(Far(x)), m)
    case Some(m') => [Packet(Far(x), m')]
    case None => []
  }

  /** Messages that leave `x` for the other side, as they arrive there. */
  function Arrivals(w: Wiring, x: Side, ms: seq<Message>): seq<Packet> {
    if ms == [] then [] else Arrivals(w, x, ms[..|ms| - 1]) + Arrival(w, x, ms[|ms| - 1])
  }

  /** The sender at `x` has become `s`; what it emitted travels to the other side. */
  function WithSender(n: Net, x: Side, s: Sender): Net
    requires |n.sender.At(x).sent| <= |s.sent|
  {
    n.(sender := n.sender.With(x, s), flight := n.flight + Arrivals(n.w, x, s.sent[|n.sender.At(x).sent|..]))
  }

  /** Hand a message to the component that its next address names.  What the worker forwards from its
      internal address has left the channel. */
  function Dispatch(n: Net, p: Packet): Net
    requires p.msg.onward != []
  {
    var x, m := p.side, p.msg;
    var e, s, to := n.w.end.At(x), n.sender.At(x), m.onward[0];
    if x == B && n.opening.Some? then n
    else if to == e.pub then n.(flight := n.flight + [Packet(x, Forward(e, to, m))])
    else if to == e.priv then n.(delivered := n.delivered + [Packet(x, Forward(e, to, m))])
    else if to == e.tx then WithSender(n, x, External(s, m))
    else if to == e.txInt && m.body.Internal? then WithSender(n, x, OnCommand(s, m.body.cmd, m.ret))
    else if to == e.rx && Receive(m).Some? then n.(flight := n.flight + [Packet(x, Receive(m).value)])
    else n
  }

  /** The listener answers the announcement: the far end comes up with a sender pointed at the near
      receiver, and has the near sender initialised. */
  function Answered(n: Net, m: Message): Net {
    var info := if m.body.Create? then Listen(m.ret, m.body.creation) else None;
    if info == None then n.(opening := None)
    else
      var b := Answering(info.value, n.picks);
      var w := n.w.(end := n.w.end.With(B, b));
      n.(w := w,
         opening := None,
         sender := n.sender.With(B, NewSender(b.txInt, Some(Peer(info.value.rxPub)))),
         flight := n.flight + Arrival(w, B, InitOf(b, info.value)))
  }

  function Remove<T>(s: seq<T>, i: nat): seq<T>
    requires i < |s|
  {
    s[..i] + s[i + 1..]
  }

  function Next(n: Net, e: Event): Net
    requires Can(n, e)
  {
    match e
    case Enter(o) => n.(flight := n.flight + [AtNearWorker(n.w, o)], entered := n.entered + [o])
    case Move(i) =>
      var rest := n.(flight := Remove(n.flight, i));
      if n.flight[i].msg.onward == [] then rest else Dispatch(rest, n.flight[i])
    case Answer => Answered(n, n.opening.value)
  }

  // ----- The messages on their way -----

  /** Random addresses do not collide. */
  predicate Distinct(e: End) {
    && e.pub != e.priv && e.pub != e.tx && e.pub != e.txInt && e.pub != e.rx
    && e.priv != e.tx && e.priv != e.txInt && e.priv != e.rx
    && e.tx != e.txInt && e.tx != e.rx && e.txInt != e.rx
  }

  /** Each end knows the internal address of the other. */
  predicate Linked(w: Wiring) {
    && Distinct(w.end.a) && Distinct(w.end.b)
    && w.end.a.peer == w.end.b.priv && w.end.b.peer == w.end.a.priv
  }

  /** The form of a user message in front of the near worker. */
  function AtNearWorker(w: Wiring, o: Origin): Packet {
    Packet(o.side, Message([w.end.At(o.side).pub] + o.onward, o.ret, Data(o.payload)))
  }

  /** In front of the near sender. */
  function AtSender(w: Wiring, o: Origin): Packet {
    var e := w.end.At(o.side);
    Packet(o.side, Message([e.tx, e.peer] + o.onward, o.ret, Data(o.payload)))
  }

  /** Inside the pipe. */
  function Inside(w: Wiring, o: Origin): Message {
    Message([w.end.At(o.side).peer] + o.onward, o.ret, Data(o.payload))
  }

  /** In front of the far receiver. */
  predicate AtReceiver(w: Wiring, p: Packet, o: Origin) {
    && p.side == Far(o.side)
    && p.msg.onward == [w.end.At(p.side).rx]
    && p.msg.body.Packed? && p.msg.body.pipe.inner == Inside(w, o)
  }

  /** In front of the far worker. */
  function AtFarWorker(w: Wiring, o: Origin): Packet {
    Packet(Far(o.side), Inside(w, o))
  }

  /** How a user message leaves the channel: on its way to its onward route, to be answered through
      the public address of the far end. */
  function Out(w: Wiring, o: Origin): Packet {
    Packet(Far(o.side), Message(o.onward, [w.end.At(Far(o.side)).pub] + o.ret, Data(o.payload)))
  }

  predicate OnItsWay(w: Wiring, p: Packet, o: Origin) {
    && o.onward != []
    && (p == AtNearWorker(w, o) || p == AtSender(w, o) || AtReceiver(w, p, o) || p == AtFarWorker(w, o))
  }

  /** The route from a side to the receiver at the other. */
  function ToReceiver(w: Wiring, x: Side): Route {
    w.hops.At(x) + [w.end.At(Far(x)).rx]
  }

  /** The command that initialises the sender at a side, from the receiver at the other. */
  predicate IsInit(w: Wiring, p: Packet) {
    p.msg == Message([w.end.At(p.side).txInt], ToReceiver(w, p.side), Internal(InitSender))
  }

  // ----- Book-keeping -----

  datatype Tag = Carries(o: Origin) | Initialises

  /** For every message under way, in a buffer or delivered, which user message it is. */
  datatype Book = Book(tags: seq<Tag>, buffered: Both<seq<Origin>>, outs: seq<Origin>)

  predicate Tagged(w: Wiring, p: Packet, t: Tag) {
    match t case Carries(o) => OnItsWay(w, p, o) case Initialises => IsInit(w, p)
  }

  ghost predicate AllTagged(w: Wiring, ps: seq<Packet>, ts: seq<Tag>) {
    |ps| == |ts| && forall i {:trigger Tagged(w, ps[i], ts[i])} :: 0 <= i < |ps| ==> Tagged(w, ps[i], ts[i])
  }

  /** A buffered message is the user message `o`, entered at `x`. */
  predicate Holds(w: Wiring, x: Side, m: PipeMessage, o: Origin) {
    o.side == x && o.onward != [] && m.inner == Inside(w, o)
  }

  ghost predicate AllHold(w: Wiring, x: Side, ms: seq<PipeMessage>, os: seq<Origin>) {
    |ms| == |os| && forall i {:trigger Holds(w, x, ms[i], os[i])} :: 0 <= i < |ms| ==> Holds(w, x, ms[i], os[i])
  }

  /** The sender at `x` is pointed at the far receiver with nothing buffered, or not yet pointed
      anywhere. */
  ghost predicate SenderFits(w: Wiring, x: Side, s: Sender, os: seq<Origin>) {
    AllHold(w, x, s.outBuf, os) && (Ready(s) ==> s.peer.value.route == ToReceiver(w, x) && os == [])
  }

  predicate IsOut(w: Wiring, p: Packet, o: Origin) {
    p == Out(w, o)
  }

  ghost predicate AllOut(w: Wiring, ps: seq<Packet>, os: seq<Origin>) {
    |ps| == |os| && forall i {:trigger IsOut(w, ps[i], os[i])} :: 0 <= i < |ps| ==> IsOut(w, ps[i], os[i])
  }

  ghost predicate Fits(n: Net, b: Book) {
    && Linked(n.w)
    && AllTagged(n.w, n.flight, b.tags)
    && SenderFits(n.w, A, n.sender.a, b.buffered.a)
    && SenderFits(n.w, B, n.sender.b, b.buffered.b)
    && AllOut(n.w, n.delivered, b.outs)
  }

  ghost function UserOf(t: Tag): multiset<Origin> {
    if t.Carries? then multiset{t.o} else multiset{}
  }

  ghost function Users(tags: seq<Tag>): multiset<Origin> {
    if tags == [] then multiset{} else Users(tags[..|tags| - 1]) + UserOf(tags[|tags| - 1])
  }

  /** All user messages the book accounts for. */
  ghost function Account(b: Book): multiset<Origin> {
    Users(b.tags) + multiset(b.buffered.a) + multiset(b.buffered.b) + multiset(b.outs)
  }

  /** A message in front of the near worker or the near sender of the connecting end. */
  predicate Early(w: Wiring, p: Packet) {
    && p.side == A && p.msg.onward != []
    && (p.msg.onward[0] == w.end.a.pub || p.msg.onward[0] == w.end.a.tx)
  }

  /** What the listener will learn from the announcement, which reaches it with the way back in front of
      the address it was sent from. */
  function Learned(a: End, back: Route): PeerInfo {
    Listen(back + [a.priv], CreationOf(a)).value
  }

  /** Before the far end has answered, messages only get as far as the buffer of the near sender. */
  ghost predicate Quiet(n: Net)
    requires n.opening.Some?
  {
    && n.opening.value.ret == n.w.hops.b + [n.w.end.a.priv]
    && n.opening.value.body == Create(CreationOf(n.w.end.a))
    && n.w.end.b == Answering(Learned(n.w.end.a, n.w.hops.b), n.picks)
    && !Ready(n.sender.a) && n.sender.b == NewSender(n.w.end.b.txInt, None)
    && forall i :: 0 <= i < |n.flight| ==> Early(n.w, n.flight[i])
  }

  /** The book is right, and accounts for every user message exactly once. */
  ghost predicate Inv(n: Net, b: Book) {
    Fits(n, b) && Account(b) == multiset(n.entered) && (n.opening.Some? ==> Quiet(n))
  }

  // ----- Sums -----

  lemma Swap(a: multiset<Origin>, b: multiset<Origin>, c: multiset<Origin>)
    ensures (a + b) + c == (a + c) + b
  {
  }

  lemma Group(a: multiset<Origin>, b: multiset<Origin>, c: multiset<Origin>)
    ensures (a + b) + c == a + (b + c)
  {
  }

  lemma UsersPush(tags: seq<Tag>, t: Tag)
    ensures Users(tags + [t]) == Users(tags) + UserOf(t)
  {
    assert (tags + [t])[..|tags|] == tags;
  }

  lemma {:induction false} UsersAppend(a: seq<Tag>, b: seq<Tag>)
    ensures Users(a + b) == Users(a) + Users(b)
    decreases |b|
  {
    if b == [] {
      assert a + b == a;
    } else {
      var n := |b| - 1;
      UsersAppend(a, b[..n]);
      UsersPush(a + b[..n], b[n]);
      Group(Users(a), Users(b[..n]), UserOf(b[n]));
      assert a + b == (a + b[..n]) + [b[n]];
    }
  }

  lemma UsersMiddle(l: seq<Tag>, t: Tag, r: seq<Tag>)
    ensures Users((l + [t]) + r) == Users(l + r) + UserOf(t)
  {
    UsersAppend(l + [t], r);
    UsersPush(l, t);
    UsersAppend(l, r);
    Swap(Users(l), UserOf(t), Users(r));
  }

  lemma UsersRemove(tags: seq<Tag>, i: nat)
    requires i < |tags|
    ensures Users(tags) == Users(Remove(tags, i)) + UserOf(tags[i])
  {
    SplitAt(tags, i);
    UsersMiddle(tags[..i], tags[i], tags[i + 1..]);
  }

  function Tags(os: seq<Origin>): (ts: seq<Tag>)
    ensures |ts| == |os|
  {
    if os == [] then [] else Tags(os[..|os| - 1]) + [Carries(os[|os| - 1])]
  }

  lemma MultisetPush(os: seq<Origin>, o: Origin)
    ensures multiset(os + [o]) == multiset(os) + multiset{o}
  {
  }

  lemma SplitLast(os: seq<Origin>)
    requires os != []
    ensures os == os[..|os| - 1] + [os[|os| - 1]]
  {
  }

  lemma {:induction false} UsersOfTags(os: seq<Origin>)
    ensures Users(Tags(os)) == multiset(os)
  {
    if os != [] {
      var n := |os| - 1;
      UsersOfTags(os[..n]);
      UsersPush(Tags(os[..n]), Carries(os[n]));
      MultisetPush(os[..n], os[n]);
      SplitLast(os);
    }
  }

  /** The account grows with any of its four parts. */
  lemma AccountGrows(u: multiset<Origin>, a: multiset<Origin>, b: multiset<Origin>, o: multiset<Origin>, m: multiset<Origin>)
    ensures (u + m) + a + b + o == (u + a + b + o) + m
    ensures u + (a + m) + b + o == (u + a + b + o) + m
    ensures u + a + (b + m) + o == (u + a + b + o) + m
    ensures u + a + b + (o + m) == (u + a + b + o) + m
  {
  }

  // ----- Parts of the book -----

  lemma TaggedPush(w: Wiring, ps: seq<Packet>, ts: seq<Tag>, p: Packet, t: Tag)
    requires AllTagged(w, ps, ts) && Tagged(w, p, t)
    ensures AllTagged(w, ps + [p], ts + [t])
  {
    forall i | 0 <= i < |ps| + 1 ensures Tagged(w, (ps + [p])[i], (ts + [t])[i]) {
      assert i < |ps| ==> Tagged(w, ps[i], ts[i]);
    }
  }

  lemma TaggedRemove(w: Wiring, ps: seq<Packet>, ts: seq<Tag>, k: nat)
    requires AllTagged(w, ps, ts) && k < |ps|
    ensures AllTagged(w, Remove(ps, k), Remove(ts, k)) && Tagged(w, ps[k], ts[k])
  {
    forall i | 0 <= i < |ps| - 1 ensures Tagged(w, Remove(ps, k)[i], Remove(ts, k)[i]) {
      var j := if i < k then i else i + 1;
      assert Tagged(w, ps[j], ts[j]);
      assert Remove(ps, k)[i] == ps[j] && Remove(ts, k)[i] == ts[j];
    }
  }

  lemma HoldPush(w: Wiring, x: Side, ms: seq<PipeMessage>, os: seq<Origin>, m: PipeMessage, o: Origin)
    requires AllHold(w, x, ms, os) && Holds(w, x, m, o)
    ensures AllHold(w, x, ms + [m], os + [o])
  {
    forall i | 0 <= i < |ms| + 1 ensures Holds(w, x, (ms + [m])[i], (os + [o])[i]) {
      assert i < |ms| ==> Holds(w, x, ms[i], os[i]);
    }
  }

  lemma HoldFront(w: Wiring, x: Side, ms: seq<PipeMessage>, os: seq<Origin>)
    requires AllHold(w, x, ms, os) && ms != []
    ensures var k := |ms| - 1; AllHold(w, x, ms[..k], os[..k]) && Holds(w, x, ms[k], os[k])
  {
    var k := |ms| - 1;
    forall i | 0 <= i < k ensures Holds(w, x, ms[..k][i], os[..k][i]) {
      assert Holds(w, x, ms[i], os[i]);
    }
  }

  lemma OutPush(w: Wiring, ps: seq<Packet>, os: seq<Origin>, o: Origin)
    requires AllOut(w, ps, os)
    ensures AllOut(w, ps + [Out(w, o)], os + [o])
  {
    forall i | 0 <= i < |ps| + 1 ensures IsOut(w, (ps + [Out(w, o)])[i], (os + [o])[i]) {
      assert i < |ps| ==> IsOut(w, ps[i], os[i]);
    }
  }

  // ----- Emitted messages arrive -----

  /** An envelope for the far receiver arrives there. */
  lemma EnvelopeArrives(w: Wiring, x: Side, s: Sender, pm: PipeMessage, o: Origin)
    requires Holds(w, x, pm, o)
    ensures var ps := Arrival(w, x, Envelope(s, ToReceiver(w, x), pm));
            |ps| == 1 && AtReceiver(w, ps[0], o) && Tagged(w, ps[0], Carries(o))
  {
    var hops, rx := w.hops.At(x), w.end.At(Far(x)).rx;
    assert (hops + [rx])[..|hops|] == hops && (hops + [rx])[|hops|..] == [rx];
    var ps := Arrival(w, x, Envelope(s, ToReceiver(w, x), pm));
    assert AtReceiver(w, ps[0], o);
  }

  /** A flushed buffer arrives, message by message. */
  lemma {:induction false} FlushArrives(
      w: Wiring, x: Side, s: Sender, ms: seq<PipeMessage>, os: seq<Origin>, ps: seq<Packet>, ts: seq<Tag>)
    requires AllHold(w, x, ms, os) && AllTagged(w, ps, ts)
    ensures AllTagged(w, ps + Arrivals(w, x, Envelopes(s, ToReceiver(w, x), ms)), ts + Tags(os))
    decreases |ms|
  {
    var to := ToReceiver(w, x);
    if ms == [] {
      assert ps + [] == ps && ts + [] == ts;
    } else {
      var k := |ms| - 1;
      HoldFront(w, x, ms, os);
      FlushArrives(w, x, s, ms[..k], os[..k], ps, ts);
      EnvelopeArrives(w, x, s, ms[k], os[k]);
      EnvelopesLast(s, to, ms);
      var q := Arrival(w, x, Envelope(s, to, ms[k]));
      var before := Arrivals(w, x, Envelopes(s, to, ms[..k]));
      TaggedPush(w, ps + before, ts + Tags(os[..k]), q[0], Carries(os[k]));
      assert ps + (before + q) == (ps + before) + [q[0]];
      assert ts + (Tags(os[..k]) + [Carries(os[k])]) == (ts + Tags(os[..k])) + [Carries(os[k])];
    }
  }

  lemma EnvelopesLast(s: Sender, to: Route, ms: seq<PipeMessage>)
    requires ms != []
    ensures var es, k := Envelopes(s, to, ms), |ms| - 1;
            es != [] && es[..|es| - 1] == Envelopes(s, to, ms[..k]) && es[|es| - 1] == Envelope(s, to, ms[k])
  {
  }

  // ----- Every step keeps the books -----

  /** One more message under way. */
  lemma FlightGrows(n: Net, b: Book, p: Packet, t: Tag) returns (b': Book)
    requires Fits(n, b) && Tagged(n.w, p, t)
    ensures b' == b.(tags := b.tags + [t])
    ensures Fits(n.(flight := n.flight + [p]), b') && Account(b') == Account(b) + UserOf(t)
  {
    b' := b.(tags := b.tags + [t]);
    TaggedPush(n.w, n.flight, b.tags, p, t);
    UsersPush(b.tags, t);
    AccountGrows(Users(b.tags), multiset(b.buffered.a), multiset(b.buffered.b), multiset(b.outs), UserOf(t));
  }

  lemma DeliveredGrows(n: Net, b: Book, o: Origin) returns (b': Book)
    requires Fits(n, b)
    ensures Fits(n.(delivered := n.delivered + [Out(n.w, o)]), b') && Account(b') == Account(b) + multiset{o}
  {
    b' := b.(outs := b.outs + [o]);
    OutPush(n.w, n.delivered, b.outs, o);
    AccountGrows(Users(b.tags), multiset(b.buffered.a), multiset(b.buffered.b), multiset(b.outs), multiset{o});
  }

  lemma BufferGrows(n: Net, b: Book, x: Side, s: Sender, pm: PipeMessage, o: Origin) returns (b': Book)
    requires Fits(n, b) && Holds(n.w, x, pm, o)
    requires !Ready(n.sender.At(x)) && s == n.sender.At(x).(index := s.index, outBuf := n.sender.At(x).outBuf + [pm])
    ensures Fits(n.(sender := n.sender.With(x, s)), b') && Account(b') == Account(b) + multiset{o}
  {
    b' := b.(buffered := b.buffered.With(x, b.buffered.At(x) + [o]));
    HoldPush(n.w, x, n.sender.At(x).outBuf, b.buffered.At(x), pm, o);
    AccountGrows(Users(b.tags), multiset(b.buffered.a), multiset(b.buffered.b), multiset(b.outs), multiset{o});
  }

  /** There is something at the side where the message is. */
  predicate Reaches(n: Net, p: Packet) {
    p.side == A || n.opening == None
  }

  // What each component does with a message.

  lemma WorkerDoes(n: Net, o: Origin)
    requires Linked(n.w) && o.onward != [] && Reaches(n, AtNearWorker(n.w, o))
    ensures Dispatch(n, AtNearWorker(n.w, o)) == n.(flight := n.flight + [AtSender(n.w, o)])
  {
    var p := AtNearWorker(n.w, o);
    assert PopFront(p.msg.onward) == o.onward;
    assert Packet(p.side, Forward(n.w.end.At(p.side), p.msg.onward[0], p.msg)) == AtSender(n.w, o);
  }

  lemma ReceiverDoes(n: Net, p: Packet, o: Origin)
    requires Linked(n.w) && o.onward != [] && AtReceiver(n.w, p, o) && Reaches(n, p)
    ensures Dispatch(n, p) == n.(flight := n.flight + [AtFarWorker(n.w, o)])
  {
  }

  lemma ExitDoes(n: Net, o: Origin)
    requires Linked(n.w) && o.onward != [] && Reaches(n, AtFarWorker(n.w, o))
    ensures Dispatch(n, AtFarWorker(n.w, o)) == n.(delivered := n.delivered + [Out(n.w, o)])
  {
    var p := AtFarWorker(n.w, o);
    assert PopFront(p.msg.onward) == o.onward;
    assert Packet(p.side, Forward(n.w.end.At(p.side), p.msg.onward[0], p.msg)) == Out(n.w, o);
  }

  lemma SenderEmits(n: Net, b: Book, o: Origin) returns (s: Sender, p: Packet)
    requires Fits(n, b) && o.onward != [] && Reaches(n, AtSender(n.w, o)) && Ready(n.sender.At(o.side))
    ensures n.sender.At(o.side).outBuf == s.outBuf == [] && AtReceiver(n.w, p, o)
    ensures Dispatch(n, AtSender(n.w, o)) ==
            n.(sender := n.sender.With(o.side, s), flight := n.flight + [p])
  {
    var q, y := AtSender(n.w, o), o.side;
    var t := n.sender.At(y);
    var pm := PipeMessage(t.index, Inside(n.w, o));
    assert PopFront(q.msg.onward) == [n.w.end.At(y).peer] + o.onward;
    s := External(t, q.msg);
    var m := Envelope(t, t.peer.value.route, pm);
    assert s.sent[|t.sent|..] == [m];
    EnvelopeArrives(n.w, y, t, pm, o);
    p := Arrival(n.w, y, m)[0];
    assert Arrival(n.w, y, m) == [p];
    OneArrives(n.w, y, m);
    assert Dispatch(n, q) == WithSender(n, y, s);
  }

  lemma SenderBuffers(n: Net, o: Origin) returns (s: Sender, pm: PipeMessage)
    requires Linked(n.w) && o.onward != [] && Reaches(n, AtSender(n.w, o)) && !Ready(n.sender.At(o.side))
    ensures s.outBuf == n.sender.At(o.side).outBuf + [pm] && pm.inner == Inside(n.w, o)
    ensures Dispatch(n, AtSender(n.w, o)) == n.(sender := n.sender.With(o.side, s))
  {
    var q, y := AtSender(n.w, o), o.side;
    var t := n.sender.At(y);
    pm := PipeMessage(t.index, Inside(n.w, o));
    assert PopFront(q.msg.onward) == [n.w.end.At(y).peer] + o.onward;
    s := External(t, q.msg);
    assert s.sent[|t.sent|..] == [];
    Empty(n.flight);
    assert Dispatch(n, q) == WithSender(n, y, s);
  }

  lemma OneArrives(w: Wiring, x: Side, m: Message)
    ensures Arrivals(w, x, [m]) == Arrival(w, x, m)
  {
    assert [m][..0] == [];
    assert Arrivals(w, x, [m][..0]) + Arrival(w, x, m) == Arrival(w, x, m);
  }

  lemma InitDoes(n: Net, p: Packet) returns (s: Sender)
    requires Linked(n.w) && IsInit(n.w, p) && Reaches(n, p)
    ensures var t := n.sender.At(p.side);
            if Ready(t) then s.outBuf == t.outBuf && Dispatch(n, p) == n.(sender := n.sender.With(p.side, s))
            else
              && s.outBuf == []
              && Dispatch(n, p) ==
                 n.(sender := n.sender.With(p.side, s),
                    flight := n.flight + Arrivals(n.w, p.side, Envelopes(t, ToReceiver(n.w, p.side), t.outBuf)))
  {
    var t, to := n.sender.At(p.side), ToReceiver(n.w, p.side);
    s := OnCommand(t, InitSender, to);
    assert Dispatch(n, p) == WithSender(n, p.side, s);
    if Ready(t) {
      assert s.sent[|t.sent|..] == [];
      Empty(n.flight);
    } else {
      CutAppend(t.sent, Envelopes(t, to, t.outBuf));
    }
  }

  // And what that does to the books.

  /** The near worker hands a message to the sender. */
  lemma NearWorkerStep(n: Net, b: Book, o: Origin) returns (b': Book)
    requires Fits(n, b) && o.onward != []
    requires Reaches(n, AtNearWorker(n.w, o))
    ensures Fits(Dispatch(n, AtNearWorker(n.w, o)), b') && Account(b') == Account(b) + multiset{o}
  {
    WorkerDoes(n, o);
    b' := FlightGrows(n, b, AtSender(n.w, o), Carries(o));
  }

  /** The far worker lets a message out. */
  lemma FarWorkerStep(n: Net, b: Book, o: Origin) returns (b': Book)
    requires Fits(n, b) && o.onward != []
    requires Reaches(n, AtFarWorker(n.w, o))
    ensures Fits(Dispatch(n, AtFarWorker(n.w, o)), b') && Account(b') == Account(b) + multiset{o}
  {
    ExitDoes(n, o);
    b' := DeliveredGrows(n, b, o);
  }

  /** The receiver unpacks a message for the far worker. */
  lemma ReceiverStep(n: Net, b: Book, p: Packet, o: Origin) returns (b': Book)
    requires Fits(n, b) && o.onward != [] && AtReceiver(n.w, p, o) && Reaches(n, p)
    ensures Fits(Dispatch(n, p), b') && Account(b') == Account(b) + multiset{o}
  {
    ReceiverDoes(n, p, o);
    b' := FlightGrows(n, b, AtFarWorker(n.w, o), Carries(o));
  }

  /** The sender emits or buffers a message. */
  lemma SenderStep(n: Net, b: Book, o: Origin) returns (b': Book)
    requires Fits(n, b) && o.onward != []
    requires Reaches(n, AtSender(n.w, o))
    ensures Fits(Dispatch(n, AtSender(n.w, o)), b') && Account(b') == Account(b) + multiset{o}
  {
    var p, x := AtSender(n.w, o), o.side;
    var s := n.sender.At(x);
    var s' := External(s, p.msg);
    var pm := PipeMessage(s.index, Inside(n.w, o));
    assert PopFront(p.msg.onward) == [n.w.end.At(x).peer] + o.onward;
    if Ready(s) {
      b' := EmitOne(n, b, x, s', pm, o);
    } else {
      assert s'.sent[|s.sent|..] == [] && n.flight + [] == n.flight;
      b' := BufferGrows(n, b, x, s', pm, o);
    }
  }

  lemma EmitOne(n: Net, b: Book, x: Side, s': Sender, pm: PipeMessage, o: Origin) returns (b': Book)
    requires Fits(n, b) && Holds(n.w, x, pm, o)
    requires var s := n.sender.At(x);
             Ready(s) && s' == s.(index := s'.index, sent := s.sent + [Envelope(s, s.peer.value.route, pm)])
    ensures Fits(WithSender(n, x, s'), b') && Account(b') == Account(b) + multiset{o}
  {
    var s := n.sender.At(x);
    var m := Envelope(s, s.peer.value.route, pm);
    assert s'.sent[|s.sent|..] == [m];
    EnvelopeArrives(n.w, x, s, pm, o);
    var q := Arrival(n.w, x, m);
    assert q == [q[0]];
    OneArrives(n.w, x, m);
    b' := FlightGrows(n.(sender := n.sender.With(x, s')), b, q[0], Carries(o));
  }

  /** The command sets the peer and lets the buffer go. */
  lemma InitStep(n: Net, b: Book, p: Packet) returns (b': Book)
    requires Fits(n, b) && IsInit(n.w, p) && Reaches(n, p)
    ensures Fits(Dispatch(n, p), b') && Account(b') == Account(b)
  {
    var x := p.side;
    var s := n.sender.At(x);
    if Ready(s) {
      assert s.sent[|s.sent|..] == [] && n.flight + [] == n.flight;
      b' := b;
    } else {
      b' := Flush(n, b, x);
    }
  }

  lemma Flush(n: Net, b: Book, x: Side) returns (b': Book)
    requires Fits(n, b) && !Ready(n.sender.At(x))
    ensures Fits(WithSender(n, x, OnCommand(n.sender.At(x), InitSender, ToReceiver(n.w, x))), b')
    ensures Account(b') == Account(b)
  {
    var s, os, to := n.sender.At(x), b.buffered.At(x), ToReceiver(n.w, x);
    var s' := OnCommand(s, InitSender, to);
    assert s'.sent[|s.sent|..] == Envelopes(s, to, s.outBuf);
    FlushArrives(n.w, x, s, s.outBuf, os, n.flight, b.tags);
    b' := Book(b.tags + Tags(os), b.buffered.With(x, []), b.outs);
    UsersOfTags(os);
    UsersAppend(b.tags, Tags(os));
    FlushAccount(Users(b.tags), multiset(b.buffered.a), multiset(b.buffered.b), multiset(b.outs));
  }

  lemma FlushAccount(u: multiset<Origin>, a: multiset<Origin>, b: multiset<Origin>, o: multiset<Origin>)
    ensures (u + a) + multiset([]) + b + o == u + a + b + o
    ensures (u + b) + a + multiset([]) + o == u + a + b + o
  {
  }

  lemma RemoveOne(n: Net, b: Book, i: nat) returns (b': Book)
    requires Fits(n, b) && i < |n.flight|
    ensures Fits(n.(flight := Remove(n.flight, i)), b')
    ensures Tagged(n.w, n.flight[i], b.tags[i]) && Account(b) == Account(b') + UserOf(b.tags[i])
  {
    b' := b.(tags := Remove(b.tags, i));
    TaggedRemove(n.w, n.flight, b.tags, i);
    UsersRemove(b.tags, i);
    AccountGrows(Users(b'.tags), multiset(b.buffered.a), multiset(b.buffered.b), multiset(b.outs), UserOf(b.tags[i]));
  }

  lemma DispatchKeeps(n: Net, b: Book, p: Packet, t: Tag) returns (b': Book)
    requires Fits(n, b) && Tagged(n.w, p, t) && Reaches(n, p)
    ensures p.msg.onward != [] && Fits(Dispatch(n, p), b') && Account(b') == Account(b) + UserOf(t)
  {
    match t {
      case Initialises => b' := InitStep(n, b, p);
      case Carries(o) =>
        if p == AtNearWorker(n.w, o) {
          b' := NearWorkerStep(n, b, o);
        } else if p == AtSender(n.w, o) {
          b' := SenderStep(n, b, o);
        } else if AtReceiver(n.w, p, o) {
          b' := ReceiverStep(n, b, p, o);
        } else {
          b' := FarWorkerStep(n, b, o);
        }
    }
  }

  // ----- Before the answer -----

  lemma EarlyPush(w: Wiring, ps: seq<Packet>, p: Packet)
    requires (forall i :: 0 <= i < |ps| ==> Early(w, ps[i])) && Early(w, p)
    ensures forall i :: 0 <= i < |ps| + 1 ==> Early(w, (ps + [p])[i])
  {
  }

  lemma EarlyRemove(w: Wiring, ps: seq<Packet>, k: nat)
    requires (forall i :: 0 <= i < |ps| ==> Early(w, ps[i])) && k < |ps|
    ensures forall i :: 0 <= i < |ps| - 1 ==> Early(w, Remove(ps, k)[i])
  {
    forall i | 0 <= i < |ps| - 1 ensures Early(w, Remove(ps, k)[i]) {
      assert Remove(ps, k)[i] == ps[if i < k then i else i + 1];
    }
  }

  /** The worker hands an early message on, and the sender buffers it. */
  lemma DispatchQuiet(n: Net, p: Packet)
    requires Linked(n.w) && n.opening.Some? && Quiet(n) && Early(n.w, p)
    ensures var n' := Dispatch(n, p);
            n'.opening == n.opening && Quiet(n') && n'.w == n.w
  {
    var e, s, to := n.w.end.a, n.sender.a, p.msg.onward[0];
    if to == e.pub {
      EarlyPush(n.w, n.flight, Packet(A, Forward(e, to, p.msg)));
    } else {
      assert External(s, p.msg).sent[|s.sent|..] == [] && n.flight + [] == n.flight;
    }
  }

  lemma QuietIsKept(n: Net, e: Event)
    requires Linked(n.w) && n.opening.Some? && Quiet(n) && Can(n, e) && e != Answer
    ensures var n' := Next(n, e);
            n'.opening == n.opening && Quiet(n') && n'.w == n.w
  {
    match e
    case Enter(o) => EarlyPush(n.w, n.flight, AtNearWorker(n.w, o));
    case Move(i) =>
      EarlyRemove(n.w, n.flight, i);
      assert Early(n.w, n.flight[i]);
      DispatchQuiet(n.(flight := Remove(n.flight, i)), n.flight[i]);
  }

  /** The answer, if the announcement is as it was sent: both ends are as planned, the far sender is
      ready, and the command for the near one is under way. */
  lemma AnsweredIs(n: Net) returns (p: Packet)
    requires n.opening.Some? && Quiet(n)
    ensures p.side == A && IsInit(n.w, p)
    ensures Answered(n, n.opening.value) ==
            n.(opening := None,
               sender := n.sender.With(B, NewSender(n.w.end.b.txInt, Some(Peer(ToReceiver(n.w, B))))),
               flight := n.flight + [p])
  {
    var a, back := n.w.end.a, n.w.hops.b;
    PopBackPush(back, a.priv);
    var info := Learned(a, back);
    var init := InitOf(n.w.end.b, info);
    assert init.onward[..|back|] == back && init.onward[|back|..] == [a.txInt];
    p := Packet(A, init.(onward := [a.txInt], ret := n.w.hops.a + init.ret));
    assert Arrival(n.w, B, init) == [p];
  }

  lemma PopBackPush(r: Route, x: Address)
    ensures PopBack(r + [x]) == r && (r + [x])[|r|] == x
  {
  }

  lemma AnswerKeeps(n: Net, b: Book) returns (b': Book)
    requires Inv(n, b) && n.opening.Some?
    ensures Inv(Answered(n, n.opening.value), b')
  {
    var p := AnsweredIs(n);
    var up := n.(opening := None,
                 sender := n.sender.With(B, NewSender(n.w.end.b.txInt, Some(Peer(ToReceiver(n.w, B))))));
    assert Fits(up, b);
    b' := FlightGrows(up, b, p, Initialises);
  }

  // ----- All events -----

  /** Every event keeps the books: nothing is lost, duplicated or misrouted. */
  lemma EventKeeps(n: Net, b: Book, e: Event) returns (b': Book)
    requires Inv(n, b) && Can(n, e)
    ensures Inv(Next(n, e), b')
  {
    if n.opening.Some? && e != Answer {
      QuietIsKept(n, e);
    }
    match e {
      case Enter(o) => b' := FlightGrows(n, b, AtNearWorker(n.w, o), Carries(o));
      case Answer => b' := AnswerKeeps(n, b);
      case Move(i) =>
        assert n.opening.Some? ==> Early(n.w, n.flight[i]);
        var b1 := RemoveOne(n, b, i);
        b' := DispatchKeeps(n.(flight := Remove(n.flight, i)), b1, n.flight[i], b.tags[i]);
        DispatchEnters(n.(flight := Remove(n.flight, i)), n.flight[i]);
    }
  }

  lemma DispatchEnters(n: Net, p: Packet)
    requires p.msg.onward != []
    ensures Dispatch(n, p).entered == n.entered && Dispatch(n, p).opening == n.opening
  {
  }
}
