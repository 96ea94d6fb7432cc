/** Typed equality and ordering of expressions: `Expr::equals` and `Expr::compare`. */
module Compare {
  import opened Options
  import opened Exprs

  // ----- Scalars -----

  function CompareInts(a: int, b: int): Ordering {
    if a < b then Less else if a > b then Greater else Equal
  }

  function CompareBools(a: bool, b: bool): Ordering {
    if a == b then Equal else if b then Less else Greater
  }

  /** Code-point order, which is also the byte order of the UTF-8 encodings. */
  function CompareStrings(a: string, b: string): Ordering {
    if a == [] && b == [] then Equal
    else if a == [] then Less
    else if b == [] then Greater
    else if a[0] < b[0] then Less
    else if a[0] > b[0] then Greater
    else CompareStrings(a[1..], b[1..])
  }

  function CompareFloats(a: Float, b: Float): Option<Ordering> {
    match (a, b)
    case (NaN, _) => None
    case (_, NaN) => None
    case (Finite(x), Finite(y)) => Some(if x < y then Less else if x > y then Greater else Equal)
    case (NegInf, NegInf) => Some(Equal)
    case (PosInf, PosInf) => Some(Equal)
    case (NegInf, _) => Some(Less)
    case (_, PosInf) => Some(Less)
    case (PosInf, _) => Some(Greater)
    case (_, NegInf) => Some(Greater)
  }

  // ----- The recursive ordering the loops must compute -----

  type Cmp = Result<Option<Ordering>>

  const EQUAL: Cmp := Ok(Some(Equal))

  /** Containers order by length first and then by their first unequal elements. */
  function Order(a: Expr, b: Expr): Cmp
    decreases a, 1
  {
    match (a, b)
    case (Str(x), Str(y)) => Ok(Some(CompareStrings(x, y)))
    case (Bool(x), Bool(y)) => Ok(Some(CompareBools(x, y)))
    case (Ident(x), Ident(y)) => Ok(Some(CompareStrings(x, y)))
    case (Int(x), Int(y)) => Ok(Some(CompareInts(x, y)))
    case (Float(x), Float(y)) => Ok(CompareFloats(x, y))
    case (Seq(xs), Seq(ys)) => OrderElems(xs, ys)
    case (List(xs), List(ys)) => OrderElems(xs, ys)
    case _ => Err(TypeMismatch(a, b))
  }

  function OrderElems(xs: seq<Expr>, ys: seq<Expr>): Cmp
    decreases xs, 1
  {
    if |xs| != |ys| then Ok(Some(CompareInts(|xs|, |ys|))) else OrderAll(xs, ys)
  }

  function OrderAll(xs: seq<Expr>, ys: seq<Expr>): Cmp
    requires |xs| == |ys|
    decreases xs, 0
  {
    if xs == [] then EQUAL
    else
      var first := Order(xs[0], ys[0]);
      if first == EQUAL then OrderAll(xs[1..], ys[1..]) else first
  }

  // ----- The laws of the ordering -----

  function FlipOrdering(o: Ordering): Ordering {
    match o case Less => Greater case Equal => Equal case Greater => Less
  }

  /** What the comparison of `b` with `a` must be, given the comparison of `a` with `b`. */
  function Flip(r: Cmp): Cmp {
    match r
    case Ok(None) => Ok(None)
    case Ok(Some(o)) => Ok(Some(FlipOrdering(o)))
    case Err(TypeMismatch(x, y)) => Err(TypeMismatch(y, x))
    case Err(_) => r
  }

  /** Two orderings compose unless one says less and the other greater. */
  predicate Composable(p: Ordering, q: Ordering) {
    p == q || p == Equal || q == Equal
  }

  function Compose(p: Ordering, q: Ordering): Ordering {
    if p == Equal then q else p
  }

  lemma {:induction false} StringsEqual(a: string, b: string)
    ensures CompareStrings(a, b) == Equal <==> a == b
  {
    if a != [] && b != [] {
      StringsEqual(a[1..], b[1..]);
      assert a == [a[0]] + a[1..] && b == [b[0]] + b[1..];
    }
  }

  lemma {:induction false} StringsFlip(a: string, b: string)
    ensures CompareStrings(b, a) == FlipOrdering(CompareStrings(a, b))
  {
    if a != [] && b != [] && a[0] == b[0] {
      StringsFlip(a[1..], b[1..]);
    }
  }

  lemma {:induction false} StringsCompose(a: string, b: string, c: string)
    requires Composable(CompareStrings(a, b), CompareStrings(b, c))
    ensures CompareStrings(a, c) == Compose(CompareStrings(a, b), CompareStrings(b, c))
  {
    if a != [] && b != [] && c != [] && a[0] == b[0] && b[0] == c[0] {
      StringsCompose(a[1..], b[1..], c[1..]);
    }
  }

  /** Comparing in the other direction gives the dual result, errors included. */
  lemma {:induction false} OrderFlips(a: Expr, b: Expr)
    ensures Order(b, a) == Flip(Order(a, b))
    decreases a, 1
  {
    match (a, b)
    case (Str(x), Str(y)) => StringsFlip(x, y);
    case (Ident(x), Ident(y)) => StringsFlip(x, y);
    case (Seq(xs), Seq(ys)) => if |xs| == |ys| { OrderAllFlips(xs, ys); }
    case (List(xs), List(ys)) => if |xs| == |ys| { OrderAllFlips(xs, ys); }
    case _ =>
  }

  lemma {:induction false} OrderAllFlips(xs: seq<Expr>, ys: seq<Expr>)
    requires |xs| == |ys|
    ensures OrderAll(ys, xs) == Flip(OrderAll(xs, ys))
    decreases xs, 0
  {
    if xs != [] {
      OrderFlips(xs[0], ys[0]);
      OrderAllFlips(xs[1..], ys[1..]);
    }
  }

  /** "Less" and "greater" are transitive, and "equal" is a congruence for both; composing two
      results never raises an error on the outer pair. */
  lemma {:induction false} OrderComposes(a: Expr, b: Expr, c: Expr, p: Ordering, q: Ordering)
    requires Order(a, b) == Ok(Some(p)) && Order(b, c) == Ok(Some(q)) && Composable(p, q)
    ensures Order(a, c) == Ok(Some(Compose(p, q)))
    decreases a, 1
  {
    match (a, b)
    case (Str(x), Str(y)) => StringsCompose(x, y, c.text);
    case (Ident(x), Ident(y)) => StringsCompose(x, y, c.id);
    case (Seq(xs), Seq(ys)) =>
      if |xs| == |ys| == |c.elems| { OrderAllComposes(xs, ys, c.elems, p, q); }
    case (List(xs), List(ys)) =>
      if |xs| == |ys| == |c.elems| { OrderAllComposes(xs, ys, c.elems, p, q); }
    case _ =>
  }

  lemma {:induction false} OrderAllComposes(
      xs: seq<Expr>, ys: seq<Expr>, zs: seq<Expr>, p: Ordering, q: Ordering)
    requires |xs| == |ys| == |zs|
    requires OrderAll(xs, ys) == Ok(Some(p)) && OrderAll(ys, zs) == Ok(Some(q)) && Composable(p, q)
    ensures OrderAll(xs, zs) == Ok(Some(Compose(p, q)))
    decreases xs, 0
  {
    if xs != [] {
      var o, o' := Order(xs[0], ys[0]).value.value, Order(ys[0], zs[0]).value.value;
      OrderComposes(xs[0], ys[0], zs[0], o, o');
      if o == Equal && o' == Equal {
        OrderAllComposes(xs[1..], ys[1..], zs[1..], p, q);
      }
    }
  }

  /** "Equal" means the same expression, and one that holds no not-a-number. */
  lemma {:induction false} OrderEqual(a: Expr, b: Expr)
    ensures Order(a, b) == EQUAL <==> a == b && NanFree(a)
    decreases a, 1
  {
    match (a, b)
    case (Str(x), Str(y)) => StringsEqual(x, y);
    case (Ident(x), Ident(y)) => StringsEqual(x, y);
    case (Seq(xs), Seq(ys)) => if |xs| == |ys| { OrderAllEqual(xs, ys); }
    case (List(xs), List(ys)) => if |xs| == |ys| { OrderAllEqual(xs, ys); }
    case _ =>
  }

  lemma {:induction false} OrderAllEqual(xs: seq<Expr>, ys: seq<Expr>)
    requires |xs| == |ys|
    ensures OrderAll(xs, ys) == EQUAL <==> xs == ys && forall i :: 0 <= i < |xs| ==> NanFree(xs[i])
    decreases xs, 0
  {
    if xs != [] {
      OrderEqual(xs[0], ys[0]);
      OrderAllEqual(xs[1..], ys[1..]);
      assert xs == [xs[0]] + xs[1..] && ys == [ys[0]] + ys[1..];
      assert forall i :: 0 < i < |xs| ==> xs[i] == xs[1..][i - 1];
    }
  }

  /** Without not-a-number, a comparison that raises no error always gives an ordering. */
  lemma {:induction false} OrderTotal(a: Expr, b: Expr)
    requires NanFree(a) && NanFree(b)
    ensures Order(a, b) != Ok(None)
    decreases a, 1
  {
    match (a, b)
    case (Seq(xs), Seq(ys)) => if |xs| == |ys| { OrderAllTotal(xs, ys); }
    case (List(xs), List(ys)) => if |xs| == |ys| { OrderAllTotal(xs, ys); }
    case _ =>
  }

  lemma {:induction false} OrderAllTotal(xs: seq<Expr>, ys: seq<Expr>)
    requires |xs| == |ys|
    requires forall i :: 0 <= i < |xs| ==> NanFree(xs[i]) && NanFree(ys[i])
    ensures OrderAll(xs, ys) != Ok(None)
    decreases xs, 0
  {
    if xs != [] {
      OrderTotal(xs[0], ys[0]);
      OrderAllTotal(xs[1..], ys[1..]);
    }
  }

  /** The answer of `equals` that agrees with a comparison: true exactly for "equal", false for
      every other ordering and for not-a-number, and the same error. */
  function Agrees(r: Cmp): Result<bool> {
    match r
    case Ok(o) => Ok(o == Some(Equal))
    case Err(e) => Err(e)
  }

  function Same(a: Expr, b: Expr): Result<bool> {
    Agrees(Order(a, b))
  }

  function MirrorError(r: Result<bool>): Result<bool> {
    match r
    case Err(TypeMismatch(x, y)) => Err(TypeMismatch(y, x))
    case _ => r
  }

  /** `equals` is symmetric with its errors mirrored, and transitive. */
  lemma SameIsSymmetricAndTransitive(a: Expr, b: Expr, c: Expr)
    ensures Same(b, a) == MirrorError(Same(a, b))
    ensures Same(a, b) == Ok(true) && Same(b, c) == Ok(true) ==> Same(a, c) == Ok(true)
  {
    OrderFlips(a, b);
    OrderEqual(a, b);
    OrderEqual(b, c);
  }

  /** `equals` never errs on an expression and itself, and is reflexive exactly without
      not-a-number. */
  lemma {:induction false} SameAsItself(a: Expr)
    ensures Same(a, a) == Ok(NanFree(a))
    decreases a, 1
  {
    OrderEqual(a, a);
    if a.Seq? || a.List? {
      SameAllAsThemselves(a.elems);
    }
  }

  lemma {:induction false} SameAllAsThemselves(xs: seq<Expr>)
    ensures OrderAll(xs, xs).Ok?
    decreases xs, 0
  {
    if xs != [] {
      SameAsItself(xs[0]);
      SameAllAsThemselves(xs[1..]);
    }
  }

  // ----- The loops over an explicit stack of pairs -----

  type Pairs = seq<(Expr, Expr)>

  /** The first comparison that is not "equal" decides. */
  function Then(first: Cmp, rest: Cmp): Cmp {
    if first == EQUAL then rest else first
  }

  /** The comparison still to do for a stack of pairs whose top is the last one. */
  ghost function Pending(ctrl: Pairs): Cmp {
    if ctrl == [] then EQUAL
    else
      var (a, b) := ctrl[|ctrl| - 1];
      Then(Order(a, b), Pending(ctrl[..|ctrl| - 1]))
  }

  ghost function Weight(ctrl: Pairs): nat {
    if ctrl == [] then 0 else Size(ctrl[|ctrl| - 1].0) + Weight(ctrl[..|ctrl| - 1])
  }

  lemma PendingPush(ctrl: Pairs, a: Expr, b: Expr)
    ensures Pending(ctrl + [(a, b)]) == Then(Order(a, b), Pending(ctrl))
    ensures Weight(ctrl + [(a, b)]) == Size(a) + Weight(ctrl)
  {
    assert (ctrl + [(a, b)])[..|ctrl|] == ctrl;
  }

  method PushElems(ctrl: Pairs, xs: seq<Expr>, ys: seq<Expr>) returns (pushed: Pairs)
    requires |xs| == |ys|
    ensures Pending(pushed) == Then(OrderAll(xs, ys), Pending(ctrl))
    ensures Weight(pushed) == SizeAll(xs) + Weight(ctrl)
    ensures xs != [] ==> pushed != []
    ensures xs == [] ==> pushed == ctrl
  {
    pushed := ctrl;
    for i := |xs| downto 0
      invariant Pending(pushed) == Then(OrderAll(xs[i..], ys[i..]), Pending(ctrl))
      invariant Weight(pushed) == SizeAll(xs[i..]) + Weight(ctrl)
      invariant i < |xs| ==> pushed != []
      invariant i == |xs| ==> pushed == ctrl
    {
      assert xs[i..][1..] == xs[i + 1..] && ys[i..][1..] == ys[i + 1..];
      PendingPush(pushed, xs[i], ys[i]);
      pushed := pushed + [(xs[i], ys[i])];
    }
    assert xs[0..] == xs && ys[0..] == ys;
  }

  method CompareExprs(self: Expr, other: Expr) returns (r: Cmp)
    ensures r == Order(self, other)
  {
    var ctrl := [(self, other)];
    PendingPush([], self, other);
    var result: Option<Ordering> := None;
    while ctrl != []
      invariant Pending(ctrl) == Order(self, other)
      invariant ctrl == [] ==> result == Some(Equal)
      decreases Weight(ctrl)
    {
      var a: Expr, b: Expr := ctrl[|ctrl| - 1].0, ctrl[|ctrl| - 1].1;
      ctrl := ctrl[..|ctrl| - 1];
      match (a, b) {
        case (Str(x), Str(y)) => result := Some(CompareStrings(x, y));
        case (Bool(x), Bool(y)) => result := Some(CompareBools(x, y));
        case (Ident(x), Ident(y)) => result := Some(CompareStrings(x, y));
        case (Int(x), Int(y)) => result := Some(CompareInts(x, y));
        case (Float(x), Float(y)) => result := CompareFloats(x, y);
        case (Seq(xs), Seq(ys)) =>
          assert Order(a, b) == OrderElems(xs, ys);
          result := Some(CompareInts(|xs|, |ys|));
          if result == Some(Equal) {
            ctrl := PushElems(ctrl, xs, ys);
            continue;
          } else {
            return Ok(result);
          }
        case (List(xs), List(ys)) =>
          assert Order(a, b) == OrderElems(xs, ys);
          result := Some(CompareInts(|xs|, |ys|));
          if result == Some(Equal) {
            ctrl := PushElems(ctrl, xs, ys);
            continue;
          } else {
            return Ok(result);
          }
        case _ => return Err(TypeMismatch(a, b));
      }
      if result != Some(Equal) {
        return Ok(result);
      }
    }
    return Ok(result);
  }

  predicate FloatsEqual(a: Float, b: Float) {
    a != NaN && b != NaN && a == b
  }

  /** Scalars of one type can be compared, and are "equal" when they are the same and not NaN. */
  lemma ScalarsAreSame(a: Expr, b: Expr)
    ensures a.Str? && b.Str? ==> Order(a, b).Ok? && (Order(a, b) == EQUAL <==> a.text == b.text)
    ensures a.Ident? && b.Ident? ==> Order(a, b).Ok? && (Order(a, b) == EQUAL <==> a.id == b.id)
    ensures a.Bool? && b.Bool? ==> Order(a, b).Ok? && (Order(a, b) == EQUAL <==> a.b == b.b)
    ensures a.Int? && b.Int? ==> Order(a, b).Ok? && (Order(a, b) == EQUAL <==> a.n == b.n)
    ensures a.Float? && b.Float? ==> Order(a, b).Ok? && (Order(a, b) == EQUAL <==> FloatsEqual(a.x, b.x))
  {
    if a.Str? && b.Str? {
      StringsEqual(a.text, b.text);
    } else if a.Ident? && b.Ident? {
      StringsEqual(a.id, b.id);
    }
  }

  method Equals(self: Expr, other: Expr) returns (r: Result<bool>)
    ensures r == Same(self, other)
  {
    var ctrl := [(self, other)];
    PendingPush([], self, other);
    while ctrl != []
      invariant Pending(ctrl) == Order(self, other)
      decreases Weight(ctrl)
    {
      var a: Expr, b: Expr := ctrl[|ctrl| - 1].0, ctrl[|ctrl| - 1].1;
      ctrl := ctrl[..|ctrl| - 1];
      ScalarsAreSame(a, b);
      match (a, b) {
        case (Str(x), Str(y)) => if x != y { return Ok(false); }
        case (Bool(x), Bool(y)) => if x != y { return Ok(false); }
        case (Ident(x), Ident(y)) => if x != y { return Ok(false); }
        case (Int(x), Int(y)) => if x != y { return Ok(false); }
        case (Float(x), Float(y)) => if !FloatsEqual(x, y) { return Ok(false); }
        case (Seq(xs), Seq(ys)) =>
          assert Order(a, b) == OrderElems(xs, ys);
          if |xs| != |ys| { return Ok(false); }
          ctrl := PushElems(ctrl, xs, ys);
        case (List(xs), List(ys)) =>
          assert Order(a, b) == OrderElems(xs, ys);
          if |xs| != |ys| { return Ok(false); }
          ctrl := PushElems(ctrl, xs, ys);
        case _ => return Err(TypeMismatch(a, b));
      }
    }
    return Ok(true);
  }
}
