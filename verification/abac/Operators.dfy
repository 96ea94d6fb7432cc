/** What each operator does, by its name, on the outcomes of its arguments. */
module Operators {
  import opened Options
  import opened Sequences
  import opened Exprs
  import opened Compare
  import opened Semantics
  import opened Laws

  function Call(op: string, xs: seq<Expr>): Expr {
    List([Ident(op)] + xs)
  }

  lemma CallApplies(op: string, xs: seq<Expr>, env: Env, d: nat)
    ensures Eval(Call(op, xs), env, d) == Apply(op, xs, env, d)
  {
    assert ([Ident(op)] + xs)[1..] == xs;
  }

  // ----- What is not a call -----

  lemma PlainExpressions(env: Env, d: nat, id: string, s: string, n: i64, f: Exprs.Float, b: bool)
    ensures Eval(Str(s), env, d) == Done(Str(s)) && Eval(Int(n), env, d) == Done(Int(n))
    ensures Eval(Expr.Float(f), env, d) == Done(Expr.Float(f)) && Eval(Bool(b), env, d) == Done(Bool(b))
    ensures Eval(List([]), env, d) == Done(List([]))
    ensures id !in env ==> Eval(Ident(id), env, d) == Failed(Unbound(id))
    ensures id in env && d > 0 ==> Eval(Ident(id), env, d) == Eval(env[id], env, d - 1)
  {
  }

  lemma CallsNeedAName(xs: seq<Expr>, env: Env, d: nat)
    requires xs != [] && !xs[0].Ident?
    ensures Eval(List(xs), env, d) == Failed(InvalidType(xs[0], "expected (op ...)"))
  {
  }

  lemma UnknownNames(op: string, xs: seq<Expr>, env: Env, d: nat)
    requires op !in {"and", "or", "not", "if", "<", ">", "=", "!=", "member?", "exists?"}
    ensures Eval(Call(op, xs), env, d) == Failed(Unknown(op))
  {
    CallApplies(op, xs, env, d);
  }

  // ----- and, or, if -----

  /** Every argument evaluates to a boolean. */
  predicate Booleans(xs: seq<Expr>, env: Env, d: nat) {
    forall i :: 0 <= i < |xs| ==> Eval(xs[i], env, d) == Done(Bool(true)) || Eval(xs[i], env, d) == Done(Bool(false))
  }

  lemma {:induction false} ShortOnBooleans(goOn: bool, xs: seq<Expr>, env: Env, d: nat)
    requires xs != [] && Booleans(xs, env, d)
    ensures EvalShort(goOn, xs, env, d) ==
            Done(Bool(if forall i :: 0 <= i < |xs| ==> Eval(xs[i], env, d) == Done(Bool(goOn)) then goOn else !goOn))
    decreases |xs|
  {
    var tail := xs[1..];
    assert forall i :: 0 <= i < |tail| ==> tail[i] == xs[i + 1];
    assert forall i :: 1 <= i < |xs| ==> xs[i] == tail[i - 1];
    if |xs| > 1 {
      ShortOnBooleans(goOn, tail, env, d);
    }
  }

  /** `and` of booleans is true exactly when all are, and so of none. */
  lemma AndMeansAll(xs: seq<Expr>, env: Env, d: nat)
    requires Booleans(xs, env, d)
    ensures Eval(Call("and", xs), env, d) ==
            Done(Bool(forall i :: 0 <= i < |xs| ==> Eval(xs[i], env, d) == Done(Bool(true))))
  {
    CallApplies("and", xs, env, d);
    if xs != [] {
      ShortOnBooleans(true, xs, env, d);
    }
  }

  /** `or` of booleans is true exactly when some is, and so not of none. */
  lemma OrMeansSome(xs: seq<Expr>, env: Env, d: nat)
    requires Booleans(xs, env, d)
    ensures Eval(Call("or", xs), env, d) ==
            Done(Bool(exists i :: 0 <= i < |xs| && Eval(xs[i], env, d) == Done(Bool(true))))
  {
    CallApplies("or", xs, env, d);
    if xs != [] {
      ShortOnBooleans(false, xs, env, d);
    }
  }

  /** In general the first argument that does not let `and` go on decides; only the last need not be a
      boolean. */
  lemma AndStops(xs: seq<Expr>, env: Env, d: nat, k: nat)
    requires k < |xs| && forall i :: 0 <= i < k ==> Eval(xs[i], env, d) == Done(Bool(true))
    requires k == |xs| - 1 || Eval(xs[k], env, d) != Done(Bool(true))
    ensures var o := Eval(xs[k], env, d);
            Eval(Call("and", xs), env, d) ==
              if o.Done? && k < |xs| - 1 && !o.value.Bool?
              then Failed(InvalidType(o.value, "'and' expects boolean arguments")) else o
  {
    CallApplies("and", xs, env, d);
    ShortMeans(true, xs, env, d, k);
  }

  lemma OrStops(xs: seq<Expr>, env: Env, d: nat, k: nat)
    requires k < |xs| && forall i :: 0 <= i < k ==> Eval(xs[i], env, d) == Done(Bool(false))
    requires k == |xs| - 1 || Eval(xs[k], env, d) != Done(Bool(false))
    ensures var o := Eval(xs[k], env, d);
            Eval(Call("or", xs), env, d) ==
              if o.Done? && k < |xs| - 1 && !o.value.Bool?
              then Failed(InvalidType(o.value, "'or' expects boolean arguments")) else o
  {
    CallApplies("or", xs, env, d);
    ShortMeans(false, xs, env, d, k);
  }

  /** `if` evaluates its test and then the branch it chooses; the other one does not matter. */
  lemma IfChooses(xs: seq<Expr>, env: Env, d: nat)
    ensures |xs| != 3 ==> Eval(Call("if", xs), env, d) == Failed(Malformed("'if' requires three arguments"))
    ensures |xs| == 3 ==>
              var test, r := Eval(xs[0], env, d), Eval(Call("if", xs), env, d);
              && (test == Done(Bool(true)) ==> r == Eval(xs[1], env, d))
              && (test == Done(Bool(false)) ==> r == Eval(xs[2], env, d))
              && (test.Done? && !test.value.Bool? ==>
                    r == Failed(InvalidType(test.value, "'if' expects test to evaluate to bool")))
              && (!test.Done? ==> r == test)
  {
    CallApplies("if", xs, env, d);
    assert FormOf("if") == Conditional;
  }

  // ----- exists? -----

  /** `exists?` of identifiers is true exactly when all are bound, and looks at none beyond the first that
      is not. */
  lemma {:induction false} ExistMeans(xs: seq<Expr>, env: Env, k: nat)
    requires k <= |xs| && forall i :: 0 <= i < k ==> xs[i].Ident? && xs[i].id in env
    requires k < |xs| ==> !(xs[k].Ident? && xs[k].id in env)
    ensures Exist(xs, env) ==
            if k == |xs| then Ok(true)
            else if xs[k].Ident? then Ok(false)
            else Err(InvalidType(xs[k], "'exists?' expects identifiers as arguments"))
    decreases |xs|
  {
    if k > 0 {
      var tail := xs[1..];
      assert forall i :: 0 <= i < |tail| ==> tail[i] == xs[i + 1];
      ExistMeans(tail, env, k - 1);
    }
  }

  lemma ExistsMeansAllBound(xs: seq<Expr>, env: Env, d: nat, k: nat)
    requires k <= |xs| && forall i :: 0 <= i < k ==> xs[i].Ident? && xs[i].id in env
    requires k < |xs| ==> !(xs[k].Ident? && xs[k].id in env)
    ensures Eval(Call("exists?", xs), env, d) ==
            if k == |xs| then Done(Bool(true))
            else if xs[k].Ident? then Done(Bool(false))
            else Failed(InvalidType(xs[k], "'exists?' expects identifiers as arguments"))
  {
    CallApplies("exists?", xs, env, d);
    assert FormOf("exists?") == Existence;
    ExistMeans(xs, env, k);
  }

  // ----- Operators that evaluate all their arguments -----

  /** The arguments evaluate to these values. */
  predicate Evaluate(xs: seq<Expr>, vs: seq<Expr>, env: Env, d: nat) {
    |xs| == |vs| && forall i :: 0 <= i < |xs| ==> Eval(xs[i], env, d) == Done(vs[i])
  }

  lemma {:induction false} AllDone(xs: seq<Expr>, vs: seq<Expr>, env: Env, d: nat)
    requires Evaluate(xs, vs, env, d)
    ensures EvalAll(xs, env, d) == Done(vs)
    decreases |xs|
  {
    if xs != [] {
      var tail, rest := xs[1..], vs[1..];
      assert forall i :: 0 <= i < |tail| ==> tail[i] == xs[i + 1] && rest[i] == vs[i + 1];
      AllDone(tail, rest, env, d);
      HeadAndTail(vs);
    }
  }

  /** A sequence evaluates its elements. */
  lemma SequencesEvaluate(xs: seq<Expr>, vs: seq<Expr>, env: Env, d: nat)
    requires Evaluate(xs, vs, env, d)
    ensures Eval(Seq(xs), env, d) == Done(Seq(vs))
  {
    AllDone(xs, vs, env, d);
  }

  /** The first argument that fails decides. */
  lemma {:induction false} FirstFails(xs: seq<Expr>, env: Env, d: nat, k: nat)
    requires k < |xs| && (forall i :: 0 <= i < k ==> Eval(xs[i], env, d).Done?) && Eval(xs[k], env, d).Failed?
    ensures EvalAll(xs, env, d) == Failed(Eval(xs[k], env, d).error)
    decreases |xs|
  {
    if k > 0 {
      var tail := xs[1..];
      assert forall i :: 0 <= i < |tail| ==> tail[i] == xs[i + 1];
      FirstFails(tail, env, d, k - 1);
    }
  }

  lemma SequencesFail(xs: seq<Expr>, env: Env, d: nat, k: nat)
    requires k < |xs| && (forall i :: 0 <= i < k ==> Eval(xs[i], env, d).Done?) && Eval(xs[k], env, d).Failed?
    ensures Eval(Seq(xs), env, d) == Failed(Eval(xs[k], env, d).error)
  {
    FirstFails(xs, env, d, k);
  }

  lemma StrictCallsFail(op: string, xs: seq<Expr>, env: Env, d: nat, k: nat)
    requires || (op in {"<", ">", "="} && |xs| >= 2) || op == "!="
             || (op == "not" && |xs| == 1) || (op == "member?" && |xs| == 2)
    requires k < |xs| && (forall i :: 0 <= i < k ==> Eval(xs[i], env, d).Done?) && Eval(xs[k], env, d).Failed?
    ensures Eval(Call(op, xs), env, d) == Failed(Eval(xs[k], env, d).error)
  {
    CallApplies(op, xs, env, d);
    assert FormOf(op) == Plain && CheckStrict(op, |xs|).Ok?;
    FirstFails(xs, env, d, k);
  }

  lemma NotNegates(xs: seq<Expr>, vs: seq<Expr>, env: Env, d: nat)
    requires Evaluate(xs, vs, env, d)
    ensures |xs| != 1 ==> Eval(Call("not", xs), env, d) == Failed(Malformed("'not' requires one argument"))
    ensures |xs| == 1 ==>
              Eval(Call("not", xs), env, d) ==
                if vs[0].Bool? then Done(Bool(!vs[0].b))
                else Failed(InvalidType(vs[0], "'not' expects boolean arguments"))
  {
    CallApplies("not", xs, env, d);
    assert FormOf("not") == Plain;
    AllDone(xs, vs, env, d);
  }

  /** All pairs of neighbours before `k` compare as `o`. */
  predicate Run(vs: seq<Expr>, o: Ordering, k: nat)
    requires k < |vs|
  {
    forall i :: 0 <= i < k ==> Pair(vs, i) == Ok(Some(o))
  }

  function Pair(vs: seq<Expr>, i: nat): Cmp
    requires i < |vs| - 1
  {
    Order(vs[i], vs[i + 1])
  }

  function OrderingOf(rel: Relation): Ordering {
    match rel case Eq => Equal case Lt => Less case Gt => Greater
  }

  /** A chain is true if all neighbours compare so; otherwise the first that do not decide. */
  lemma ChainIs(rel: Relation, vs: seq<Expr>) returns (k: nat)
    requires vs != []
    ensures k < |vs| && Run(vs, OrderingOf(rel), k)
    ensures k < |vs| - 1 ==> Pair(vs, k) != Ok(Some(OrderingOf(rel)))
    ensures Chain(rel, vs) ==
            if k == |vs| - 1 then Ok(true) else if Pair(vs, k).Err? then Err(Pair(vs, k).error) else Ok(false)
  {
    k := ChainMeans(rel, vs);
    forall i | 0 <= i < k ensures Pair(vs, i) == Ok(Some(OrderingOf(rel))) {
      assert PairHolds(rel, vs, i);
    }
  }

  /** What a comparison gives when the first pair that does not compare as it should is number `k`. */
  ghost predicate Decided(r: Outcome<Expr>, vs: seq<Expr>, o: Ordering, k: nat) {
    && k < |vs| && Run(vs, o, k)
    && (k < |vs| - 1 ==> Pair(vs, k) != Ok(Some(o)))
    && r == if k == |vs| - 1 then Done(Bool(true))
            else if Pair(vs, k).Err? then Failed(Pair(vs, k).error)
            else Done(Bool(false))
  }

  lemma LessMeansAscending(xs: seq<Expr>, vs: seq<Expr>, env: Env, d: nat) returns (k: nat)
    requires Evaluate(xs, vs, env, d)
    ensures |xs| < 2 ==> Eval(Call("<", xs), env, d) == Failed(Malformed("'<' requires at least two arguments"))
    ensures |xs| >= 2 ==> Decided(Eval(Call("<", xs), env, d), vs, Less, k)
  {
    CallApplies("<", xs, env, d);
    assert FormOf("<") == Plain;
    AllDone(xs, vs, env, d);
    k := 0;
    if |xs| >= 2 {
      k := ChainIs(Lt, vs);
    }
  }

  lemma GreaterMeansDescending(xs: seq<Expr>, vs: seq<Expr>, env: Env, d: nat) returns (k: nat)
    requires Evaluate(xs, vs, env, d)
    ensures |xs| < 2 ==> Eval(Call(">", xs), env, d) == Failed(Malformed("'>' requires at least two arguments"))
    ensures |xs| >= 2 ==> Decided(Eval(Call(">", xs), env, d), vs, Greater, k)
  {
    CallApplies(">", xs, env, d);
    assert FormOf(">") == Plain;
    AllDone(xs, vs, env, d);
    k := 0;
    if |xs| >= 2 {
      k := ChainIs(Gt, vs);
    }
  }

  lemma EqualMeansAllTheSame(xs: seq<Expr>, vs: seq<Expr>, env: Env, d: nat) returns (k: nat)
    requires Evaluate(xs, vs, env, d)
    ensures |xs| < 2 ==> Eval(Call("=", xs), env, d) == Failed(Malformed("'=' requires at least two arguments"))
    ensures |xs| >= 2 ==> Decided(Eval(Call("=", xs), env, d), vs, Equal, k)
  {
    CallApplies("=", xs, env, d);
    assert FormOf("=") == Plain;
    AllDone(xs, vs, env, d);
    k := 0;
    if |xs| >= 2 {
      k := ChainIs(Eq, vs);
    }
  }

  /** `!=` is the opposite of `=`, and false of fewer than two arguments. */
  lemma NotEqualMeansSomeDiffer(xs: seq<Expr>, vs: seq<Expr>, env: Env, d: nat) returns (k: nat)
    requires Evaluate(xs, vs, env, d)
    ensures |xs| < 2 ==> Eval(Call("!=", xs), env, d) == Done(Bool(false))
    ensures |xs| >= 2 ==>
              && k < |vs| && Run(vs, Equal, k) && (k < |vs| - 1 ==> Pair(vs, k) != Ok(Some(Equal)))
              && Eval(Call("!=", xs), env, d) ==
                 if k == |vs| - 1 then Done(Bool(false))
                 else if Pair(vs, k).Err? then Failed(Pair(vs, k).error)
                 else Done(Bool(true))
  {
    CallApplies("!=", xs, env, d);
    assert FormOf("!=") == Plain && CheckStrict("!=", |xs|) == Ok(OpNotEqual);
    AllDone(xs, vs, env, d);
    k := 0;
    if |xs| >= 2 {
      k := ChainIs(Eq, vs);
    }
  }

  /** The comparisons of two numbers. */
  lemma NumbersCompare(x: i64, y: i64, env: Env, d: nat)
    ensures Eval(Call("<", [Int(x), Int(y)]), env, d) == Done(Bool(x < y))
    ensures Eval(Call(">", [Int(x), Int(y)]), env, d) == Done(Bool(x > y))
    ensures Eval(Call("=", [Int(x), Int(y)]), env, d) == Done(Bool(x == y))
    ensures Eval(Call("!=", [Int(x), Int(y)]), env, d) == Done(Bool(x != y))
  {
    var vs := [Int(x), Int(y)];
    assert Evaluate(vs, vs, env, d);
    assert Pair(vs, 0) == Order(Int(x), Int(y));
    var lt := LessMeansAscending(vs, vs, env, d);
    var gt := GreaterMeansDescending(vs, vs, env, d);
    var eq := EqualMeansAllTheSame(vs, vs, env, d);
    var ne := NotEqualMeansSomeDiffer(vs, vs, env, d);
  }

  /** `member?` is true when an element equals the first argument and none before it cannot be compared. */
  lemma MemberMeansContained(xs: seq<Expr>, vs: seq<Expr>, env: Env, d: nat) returns (k: nat)
    requires Evaluate(xs, vs, env, d)
    ensures |xs| != 2 ==> Eval(Call("member?", xs), env, d) == Failed(Malformed("'member?' requires two arguments"))
    ensures |xs| == 2 && !vs[1].Seq? ==>
              Eval(Call("member?", xs), env, d) ==
                Failed(InvalidType(vs[1], "'member?' expects sequence as second argument"))
    ensures |xs| == 2 && vs[1].Seq? ==>
              var es := vs[1].elems;
              && k <= |es| && DiffersTo(vs[0], es, k)
              && (k < |es| ==> Same(vs[0], es[k]) != Ok(false))
              && Eval(Call("member?", xs), env, d) ==
                 if k == |es| then Done(Bool(false))
                 else if Same(vs[0], es[k]).Err? then Failed(Same(vs[0], es[k]).error)
                 else Done(Bool(true))
  {
    CallApplies("member?", xs, env, d);
    assert FormOf("member?") == Plain;
    AllDone(xs, vs, env, d);
    k := 0;
    if |xs| == 2 && vs[1].Seq? {
      k := ContainsMeans(vs[0], vs[1].elems);
    }
  }
}
