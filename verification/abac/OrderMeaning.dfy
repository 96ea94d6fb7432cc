/** Which way the ordering runs, on the values themselves. */
module OrderMeaning {
  import opened Options
  import opened Sequences
  import opened Exprs
  import opened Compare

  const LESS: Cmp := Ok(Some(Less))
  const GREATER: Cmp := Ok(Some(Greater))

  lemma IntsByValue(x: i64, y: i64)
    ensures Order(Int(x), Int(y)) == LESS <==> x < y
    ensures Order(Int(x), Int(y)) == GREATER <==> x > y
    ensures Order(Int(x), Int(y)) == EQUAL <==> x == y
  {
  }

  lemma FalseBelowTrue(x: bool, y: bool)
    ensures Order(Bool(x), Bool(y)) == LESS <==> !x && y
    ensures Order(Bool(x), Bool(y)) == GREATER <==> x && !y
    ensures Order(Bool(x), Bool(y)) == EQUAL <==> x == y
  {
  }

  /** A float as a point of the extended line; not-a-number is none. */
  predicate Below(x: Exprs.Float, y: Exprs.Float) {
    || (x == NegInf && (y.Finite? || y == PosInf))
    || (x.Finite? && y == PosInf)
    || (x.Finite? && y.Finite? && x.value < y.value)
  }

  lemma FloatsByValue(x: Exprs.Float, y: Exprs.Float)
    ensures Order(Expr.Float(x), Expr.Float(y)) == LESS <==> Below(x, y)
    ensures Order(Expr.Float(x), Expr.Float(y)) == GREATER <==> Below(y, x)
    ensures Order(Expr.Float(x), Expr.Float(y)) == EQUAL <==> x == y && x != NaN
    ensures Order(Expr.Float(x), Expr.Float(y)) == Ok(None) <==> x == NaN || y == NaN
  {
  }

  /** Up to the first place `k` where they differ, or one ends, the texts are the same; there the first
      text ends, or has the smaller code point. */
  predicate Precedes(a: string, b: string, k: nat) {
    && k <= |a| && k < |b| && a[..k] == b[..k]
    && (k == |a| || a[k] < b[k])
  }

  /** The place where two different texts part. */
  lemma {:induction false} Parting(a: string, b: string) returns (k: nat)
    requires a != b
    ensures Precedes(a, b, k) || Precedes(b, a, k)
    ensures Precedes(a, b, k) ==> CompareStrings(a, b) == Less
    ensures Precedes(b, a, k) ==> CompareStrings(a, b) == Greater
  {
    k := 0;
    if a != [] && b != [] && a[0] == b[0] {
      HeadAndTail(a);
      HeadAndTail(b);
      var j := Parting(a[1..], b[1..]);
      k := j + 1;
      assert j <= |a[1..]| ==> a[..k] == [a[0]] + a[1..][..j];
      assert j <= |b[1..]| ==> b[..k] == [b[0]] + b[1..][..j];
      PrecedesTail(a, b, j);
      PrecedesTail(b, a, j);
    }
  }

  lemma PrecedesTail(a: string, b: string, j: nat)
    requires a != [] && b != [] && a[0] == b[0]
    ensures Precedes(a, b, j + 1) <==> Precedes(a[1..], b[1..], j)
  {
    if j <= |a[1..]| && j < |b[1..]| {
      assert a[..j + 1] == [a[0]] + a[1..][..j] && b[..j + 1] == [b[0]] + b[1..][..j];
      assert a[1..][..j] == a[..j + 1][1..] && b[1..][..j] == b[..j + 1][1..];
    }
  }

  lemma SameBefore(a: string, b: string, k: nat, i: nat)
    requires k <= |a| && k <= |b| && a[..k] == b[..k] && i < k
    ensures a[i] == b[i]
  {
    assert a[..k][i] == b[..k][i];
  }

  /** Two texts cannot precede each other, at whatever places. */
  lemma PrecedesOneWay(a: string, b: string, j: nat, k: nat)
    ensures !(Precedes(a, b, j) && Precedes(b, a, k))
  {
    if Precedes(b, a, k) && j < k {
      SameBefore(b, a, k, j);
    }
    if Precedes(a, b, j) && k < j {
      SameBefore(a, b, j, k);
    }
  }

  /** Texts and identifiers: a proper prefix, or the smaller code point at the first difference, is less. */
  lemma StringsByCodePoint(a: string, b: string)
    ensures Order(Str(a), Str(b)) == LESS <==> exists k :: Precedes(a, b, k)
    ensures Order(Str(a), Str(b)) == GREATER <==> exists k :: Precedes(b, a, k)
    ensures Order(Ident(a), Ident(b)) == Order(Str(a), Str(b))
  {
    StringsEqual(a, b);
    if a != b {
      var k := Parting(a, b);
      forall j ensures !(Precedes(a, b, j) && Precedes(b, a, k)) && !(Precedes(a, b, k) && Precedes(b, a, j)) {
        PrecedesOneWay(a, b, j, k);
        PrecedesOneWay(a, b, k, j);
      }
    } else {
      forall j ensures !Precedes(a, b, j) && !Precedes(b, a, j) {
        PrecedesOneWay(a, b, j, j);
      }
    }
  }

  /** A shorter sequence or list is less, whatever it holds. */
  lemma ShorterIsLess(xs: seq<Expr>, ys: seq<Expr>)
    ensures |xs| < |ys| ==> Order(Seq(xs), Seq(ys)) == LESS && Order(List(xs), List(ys)) == LESS
    ensures |xs| > |ys| ==> Order(Seq(xs), Seq(ys)) == GREATER && Order(List(xs), List(ys)) == GREATER
  {
  }

  /** Of two of the same length, the first elements that are not "equal" decide, be it by an error. */
  lemma {:induction false} FirstDifferenceDecides(xs: seq<Expr>, ys: seq<Expr>, k: nat)
    requires |xs| == |ys| && k < |xs|
    requires (forall i :: 0 <= i < k ==> Order(xs[i], ys[i]) == EQUAL) && Order(xs[k], ys[k]) != EQUAL
    ensures OrderAll(xs, ys) == Order(xs[k], ys[k])
    ensures Order(Seq(xs), Seq(ys)) == Order(xs[k], ys[k]) && Order(List(xs), List(ys)) == Order(xs[k], ys[k])
    decreases |xs|
  {
    if k > 0 {
      assert Order(xs[0], ys[0]) == EQUAL;
      FirstDifferenceDecides(xs[1..], ys[1..], k - 1);
    }
    assert Order(Seq(xs), Seq(ys)) == OrderElems(xs, ys) == Order(List(xs), List(ys));
  }

  /** The two expressions are of the same kind. */
  predicate SameKind(a: Expr, b: Expr) {
    || (a.Str? && b.Str?) || (a.Int? && b.Int?) || (a.Float? && b.Float?) || (a.Bool? && b.Bool?)
    || (a.Ident? && b.Ident?) || (a.Seq? && b.Seq?) || (a.List? && b.List?)
  }

  /** Expressions of different kinds cannot be compared, and the error names them in order. */
  lemma KindsMustAgree(a: Expr, b: Expr)
    requires !SameKind(a, b)
    ensures Order(a, b) == Err(TypeMismatch(a, b)) && Same(a, b) == Err(TypeMismatch(a, b))
  {
  }
}
