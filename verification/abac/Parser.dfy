/** The parser as it runs: one control stack that holds values, open brackets and what to do next. */
module Parser {
  import opened Options
  import opened Exprs
  import opened Compare
  import opened Grammar

  datatype Op = Next | Value(expr: Expr) | Start(kind: Kind) | End(kind: Kind)

  function Reverse<T>(s: seq<T>): seq<T> {
    if s == [] then [] else [s[|s| - 1]] + Reverse(s[..|s| - 1])
  }

  lemma ReversePush<T>(s: seq<T>, x: T)
    ensures Reverse(s + [x]) == [x] + Reverse(s)
  {
    assert (s + [x])[..|s|] == s;
  }

  /** Moving the last element of `left` over to the reversed `v`. */
  lemma MoveLast<T>(left: seq<T>, v: seq<T>)
    requires left != []
    ensures left[..|left| - 1] + Reverse(v + [left[|left| - 1]]) == left + Reverse(v)
  {
    ReversePush(v, left[|left| - 1]);
  }

  /** The control stack of a parser state: its top is the last value read at the innermost level,
      or else the innermost open bracket. */
  function Stack(frames: seq<Frame>, vals: seq<Expr>): seq<Op>
    decreases |frames|, |vals|
  {
    if vals != [] then Stack(frames, vals[..|vals| - 1]) + [Value(vals[|vals| - 1])]
    else if frames == [] then []
    else
      var n := |frames| - 1;
      Stack(frames[..n], frames[n].before) + [Start(frames[n].kind)]
  }

  lemma StackPush(frames: seq<Frame>, vals: seq<Expr>, e: Expr)
    ensures Stack(frames, vals + [e]) == Stack(frames, vals) + [Value(e)]
  {
    assert (vals + [e])[..|vals|] == vals;
  }

  lemma StackOpen(frames: seq<Frame>, vals: seq<Expr>, k: Kind)
    ensures Stack(frames + [Frame(k, vals)], []) == Stack(frames, vals) + [Start(k)]
  {
    assert (frames + [Frame(k, vals)])[..|frames|] == frames;
  }

  /** Popping the stack of a state. */
  lemma StackPop(frames: seq<Frame>, vals: seq<Expr>)
    requires Stack(frames, vals) != []
    ensures var ctrl := Stack(frames, vals);
            var c := ctrl[..|ctrl| - 1];
            match ctrl[|ctrl| - 1]
            case Value(e) => vals != [] && e == vals[|vals| - 1] && c == Stack(frames, vals[..|vals| - 1])
            case Start(k) =>
              var n := |frames| - 1;
              vals == [] && n >= 0 && k == frames[n].kind && c == Stack(frames[..n], frames[n].before)
            case _ => false
  {
  }

  method CheckTypes(v: seq<Expr>) returns (r: Result<()>)
    ensures r == CheckSeq(v)
  {
    var i := 0;
    while i + 1 < |v|
      invariant 0 <= i <= |v|
      invariant CheckSeq(v) == CheckSeq(v[i..])
    {
      assert v[i..][1..] == v[i + 1..];
      var same := Equals(v[i], v[i + 1]);
      if same.Err? {
        return Err(same.error);
      }
      i := i + 1;
    }
    return Ok(());
  }

  /** Pop values down to the open bracket of the same kind, or to the bottom of the stack.  The
      closing brackets and pending reads the source guards against cannot be met here. */
  method PopGroup(k: Kind, ctrl0: seq<Op>, ghost s: State) returns (r: Parsed<seq<Expr>>, ctrl: seq<Op>)
    requires ctrl0 == Stack(s.frames, s.vals)
    ensures var n := |s.frames| - 1;
            if n < 0 then r == Accept(s.vals) && ctrl == []
            else if s.frames[n].kind != k then r == Reject(Unmatched(s.frames[n].kind))
            else r == Accept(s.vals) && ctrl == Stack(s.frames[..n], s.frames[n].before)
  {
    ctrl := ctrl0;
    var v: seq<Expr> := [];
    ghost var left := s.vals;
    while ctrl != []
      invariant ctrl == Stack(s.frames, left)
      invariant left + Reverse(v) == s.vals
      decreases |ctrl|
    {
      StackPop(s.frames, left);
      var x := ctrl[|ctrl| - 1];
      ctrl := ctrl[..|ctrl| - 1];
      match x {
        case Start(k') =>
          if k' != k {
            return Reject(Unmatched(k')), ctrl;
          }
          assert [] + Reverse(v) == Reverse(v);
          return Accept(Reverse(v)), ctrl;
        case Value(e) =>
          MoveLast(left, v);
          v := v + [e];
          left := left[..|left| - 1];
        case End(_) => assert false;
        case Next => assert false;
      }
    }
    assert left == [] && [] + Reverse(v) == Reverse(v);
    return Accept(Reverse(v)), ctrl;
  }

  /** Reduce at a closing bracket. */
  method Reduce(k: Kind, ctrl0: seq<Op>, ghost s: State) returns (r: Parsed<seq<Op>>)
    requires ctrl0 == Stack(s.frames, s.vals)
    ensures match Shift(s, Close(k))
            case Accept(s') => r == Accept(Stack(s'.frames, s'.vals))
            case Reject(e) => r == Reject(e)
  {
    var v, ctrl := PopGroup(k, ctrl0, s);
    if v.Reject? {
      return Reject(v.error);
    }
    if k == Square {
      var t := CheckTypes(v.value);
      if t.Err? && t.error.TypeMismatch? {
        return Reject(Mixed(t.error.left, t.error.right));
      }
    }
    ReducedStack(k, s, ctrl);
    return Accept(ctrl + [Value(Wrap(k, v.value))]);
  }

  /** The reduced group is pushed where its opening bracket was. */
  lemma ReducedStack(k: Kind, s: State, ctrl: seq<Op>)
    requires Shift(s, Close(k)).Accept?
    requires ctrl == if s.frames == [] then []
                     else
                       var n := |s.frames| - 1;
                       Stack(s.frames[..n], s.frames[n].before)
    ensures var s' := Shift(s, Close(k)).value;
            Stack(s'.frames, s'.vals) == ctrl + [Value(Wrap(k, s.vals))]
  {
    var e := Wrap(k, s.vals);
    if s.frames == [] {
      StackPush([], [], e);
    } else {
      var n := |s.frames| - 1;
      StackPush(s.frames[..n], s.frames[n].before, e);
    }
  }

  /** Where the loop is: about to read, about to reduce, or emptying the stack at the end. */
  datatype Phase = Reading | Reducing(kind: Kind) | Draining

  function Rank(p: Phase): nat {
    match p case Draining => 0 case Reading => 1 case Reducing(_) => 2
  }

  /** What the whole parse gives, from the state of the loop. */
  ghost function Rest(p: Phase, ts: seq<Token>, s: State, vals: seq<Expr>): Parsed<seq<Expr>> {
    match p
    case Reading => TokenValues(ts, s)
    case Draining => AtEnd(s.(vals := s.vals + Reverse(vals)))
    case Reducing(k) =>
      match Shift(s, Close(k))
      case Accept(s') => TokenValues(ts, s')
      case Reject(e) => Reject(e)
  }

  function Top(p: Phase): seq<Op> {
    match p case Reading => [Next] case Reducing(k) => [End(k)] case Draining => []
  }

  ghost predicate Inv(all: Parsed<seq<Expr>>, p: Phase, ts: seq<Token>, s: State, ctrl: seq<Op>, vals: seq<Expr>) {
    && all == Rest(p, ts, s, vals)
    && ctrl == Stack(s.frames, s.vals) + Top(p)
    && (if p.Draining? then ts == [] else vals == [])
  }

  /** The parse loop.  On every token stream it gives what the frame parser gives. */
  method ParseTokens(ts: seq<Token>) returns (r: Parsed<Option<Expr>>)
    ensures r == Parse(ts)
  {
    var ctrl: seq<Op>, vals: seq<Expr>, rest := [Next], [], ts;
    ghost var all := TokenValues(ts, State([], []));
    ghost var s, p := State([], []), Reading;
    while ctrl != []
      invariant Inv(all, p, rest, s, ctrl, vals)
      decreases |rest|, Rank(p), |ctrl|
    {
      TopOp(all, p, rest, s, ctrl, vals);
      var x := ctrl[|ctrl| - 1];
      ctrl := ctrl[..|ctrl| - 1];
      var error := None;
      match x {
        case Next => error, ctrl, rest, s, p := ReadNext(rest, ctrl, all, s);
        case Value(e) =>
          vals := vals + [e];
          s := s.(vals := s.vals[..|s.vals| - 1]);
        case End(k) =>
          error, ctrl, s := ReduceNext(k, ctrl, all, rest, s);
          p := Reading;
        case Start(k) => return Reject(Unclosed(k));
      }
      if error.Some? {
        return Reject(error.value);
      }
    }
    Drained(all, p, rest, s, vals);
    if |vals| == 0 {
      return Accept(None);
    } else if |vals| == 1 {
      return Accept(Some(vals[0]));
    } else {
      return Accept(Some(List(Reverse(vals))));
    }
  }

  /** The operation on top tells the phase. */
  lemma TopOp(all: Parsed<seq<Expr>>, p: Phase, ts: seq<Token>, s: State, ctrl: seq<Op>, vals: seq<Expr>)
    requires ctrl != [] && Inv(all, p, ts, s, ctrl, vals)
    ensures var c := ctrl[..|ctrl| - 1];
            match ctrl[|ctrl| - 1]
            case Next => p == Reading && c == Stack(s.frames, s.vals) && vals == [] && all == TokenValues(ts, s)
            case End(k) =>
              p == Reducing(k) && c == Stack(s.frames, s.vals) && vals == [] && all == Rest(p, ts, s, vals)
            case Start(k) => all == Reject(Unclosed(k))
            case Value(e) =>
              && p == Draining && s.vals != []
              && Inv(all, p, ts, s.(vals := s.vals[..|s.vals| - 1]), c, vals + [e])
  {
    if p.Draining? {
      assert ctrl == Stack(s.frames, s.vals);
      StackPop(s.frames, s.vals);
      if s.vals != [] {
        MoveLast(s.vals, vals);
        assert ctrl[..|ctrl| - 1] + [] == ctrl[..|ctrl| - 1];
      }
    }
  }

  lemma Drained(all: Parsed<seq<Expr>>, p: Phase, ts: seq<Token>, s: State, vals: seq<Expr>)
    requires Inv(all, p, ts, s, [], vals)
    ensures all == Accept(Reverse(vals)) && |Reverse(vals)| == |vals|
    ensures |vals| == 1 ==> Reverse(vals) == vals
  {
    assert Stack(s.frames, s.vals) == [];
    assert [] + Reverse(vals) == Reverse(vals);
    ReverseLength(vals);
    if |vals| == 1 {
      assert vals[..0] == [];
    }
  }

  lemma {:induction false} ReverseLength<T>(s: seq<T>)
    ensures |Reverse(s)| == |s|
  {
    if s != [] {
      ReverseLength(s[..|s| - 1]);
    }
  }

  /** Reduce and go on reading. */
  method ReduceNext(k: Kind, ctrl0: seq<Op>, ghost all: Parsed<seq<Expr>>, ghost ts: seq<Token>, ghost s: State)
      returns (e: Option<ParseError>, ctrl: seq<Op>, ghost s': State)
    requires ctrl0 == Stack(s.frames, s.vals) && all == Rest(Reducing(k), ts, s, [])
    ensures match e
            case Some(err) => all == Reject(err)
            case None => Inv(all, Reading, ts, s', ctrl, [])
  {
    s' := s;
    var c := Reduce(k, ctrl0, s);
    if c.Reject? {
      return Some(c.error), [], s';
    }
    s' := Shift(s, Close(k)).value;
    return None, c.value + [Next], s';
  }

  /** Read the next token, if there is one. */
  method ReadNext(ts: seq<Token>, ctrl0: seq<Op>, ghost all: Parsed<seq<Expr>>, ghost s0: State)
      returns (e: Option<ParseError>, ctrl: seq<Op>, rest: seq<Token>, ghost s: State, ghost p: Phase)
    requires ctrl0 == Stack(s0.frames, s0.vals) && all == TokenValues(ts, s0)
    ensures match e
            case Some(err) => all == Reject(err)
            case None => (|rest| < |ts| || (rest == ts && p.Draining?)) && Inv(all, p, rest, s, ctrl, [])
  {
    e, ctrl, rest, s, p := None, ctrl0, ts, s0, Reading;
    if ts == [] {
      p := Draining;
      assert s.vals + [] == s.vals && ctrl + [] == ctrl;
    } else {
      rest := ts[1..];
      e, ctrl, s, p := ReadToken(ts, ctrl, s);
    }
  }

  /** One token read with the marker for the next read already popped. */
  method ReadToken(ts: seq<Token>, ctrl0: seq<Op>, ghost s: State)
      returns (e: Option<ParseError>, ctrl: seq<Op>, ghost s': State, ghost p: Phase)
    requires ts != [] && ctrl0 == Stack(s.frames, s.vals)
    ensures match e
            case Some(err) => TokenValues(ts, s) == Reject(err)
            case None => !p.Draining? && Inv(TokenValues(ts, s), p, ts[1..], s', ctrl, [])
  {
    e, ctrl, s', p := None, ctrl0, s, Reading;
    match Read(ts[0]) {
      case Skip => ctrl := ctrl + [Next];
      case Bad(err) => e := Some(err);
      case Sym(Atom(x)) =>
        StackPush(s.frames, s.vals, x);
        s' := s.(vals := s.vals + [x]);
        ctrl := ctrl + [Value(x)] + [Next];
      case Sym(Open(k)) =>
        StackOpen(s.frames, s.vals, k);
        s' := State(s.frames + [Frame(k, s.vals)], []);
        ctrl := ctrl + [Start(k)] + [Next];
      case Sym(Close(k)) =>
        p := Reducing(k);
        ctrl := ctrl + [End(k)];
    }
  }
}
