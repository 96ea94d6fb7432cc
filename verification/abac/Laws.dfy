/** Laws of policy evaluation: answers are values, deeper lookups change nothing, ranked
    environments always have an answer, and adding bindings keeps the answers already there. */
module Laws {
  import opened Exprs
  import Compare
  import opened Semantics
  import opened Machine
  import opened Refinement
  import Evaluator

  // ----- Answers are values -----

  predicate IsValue(e: Expr) {
    match e
    case Ident(_) => false
    case List(xs) => xs == []
    case Seq(xs) => forall i :: 0 <= i < |xs| ==> IsValue(xs[i])
    case _ => true
  }

  lemma {:induction false} AnswersAreValues(e: Expr, env: Env, d: nat)
    ensures Eval(e, env, d).Done? ==> IsValue(Eval(e, env, d).value)
    decreases d, e, 2
  {
    match e
    case Ident(id) => if id in env && d > 0 { AnswersAreValues(env[id], env, d - 1); }
    case List(xs) => if xs != [] && xs[0].Ident? { CallsGiveValues(xs[0].id, xs[1..], env, d); }
    case Seq(xs) => AllAnswersAreValues(xs, env, d);
    case _ =>
  }

  lemma {:induction false} AllAnswersAreValues(xs: seq<Expr>, env: Env, d: nat)
    ensures EvalAll(xs, env, d).Done? ==>
              forall i :: 0 <= i < |xs| ==> IsValue(EvalAll(xs, env, d).value[i])
    decreases d, xs, 0
  {
    if xs != [] {
      AnswersAreValues(xs[0], env, d);
      AllAnswersAreValues(xs[1..], env, d);
    }
  }

  lemma {:induction false} CallsGiveValues(op: string, xs: seq<Expr>, env: Env, d: nat)
    ensures Apply(op, xs, env, d).Done? ==> IsValue(Apply(op, xs, env, d).value)
    decreases d, xs, 1
  {
    match FormOf(op)
    case Short(goOn) => if xs != [] { ShortGivesValues(goOn, xs, env, d); }
    case Conditional => if |xs| == 3 { IfGivesValues(xs, env, d); }
    case Existence =>
    case Plain =>
      if Apply(op, xs, env, d).Done? {
        StrictGivesBools(CheckStrict(op, |xs|).value, EvalAll(xs, env, d).value);
      }
  }

  lemma {:induction false} IfGivesValues(xs: seq<Expr>, env: Env, d: nat)
    requires |xs| == 3
    ensures EvalIf(xs, env, d).Done? ==> IsValue(EvalIf(xs, env, d).value)
    decreases d, xs, 0
  {
    AnswersAreValues(xs[1], env, d);
    AnswersAreValues(xs[2], env, d);
  }

  lemma StrictGivesBools(op: StrictOp, vs: seq<Expr>)
    requires op == OpNot ==> |vs| == 1
    requires op == OpMember ==> |vs| == 2
    ensures Strict(op, vs).Ok? ==> Strict(op, vs).value.Bool?
  {
  }

  lemma {:induction false} ShortGivesValues(goOn: bool, xs: seq<Expr>, env: Env, d: nat)
    requires xs != []
    ensures EvalShort(goOn, xs, env, d).Done? ==> IsValue(EvalShort(goOn, xs, env, d).value)
    decreases d, xs, 0
  {
    AnswersAreValues(xs[0], env, d);
    if |xs| > 1 {
      ShortGivesValues(goOn, xs[1..], env, d);
    }
  }

  /** A value evaluates to itself, in any environment. */
  lemma {:induction false} ValuesAreFixed(v: Expr, env: Env, d: nat)
    requires IsValue(v)
    ensures Eval(v, env, d) == Done(v)
    decreases v, 1
  {
    if v.Seq? {
      AllValuesAreFixed(v.elems, env, d);
    }
  }

  lemma {:induction false} AllValuesAreFixed(vs: seq<Expr>, env: Env, d: nat)
    requires forall i :: 0 <= i < |vs| ==> IsValue(vs[i])
    ensures EvalAll(vs, env, d) == Done(vs)
    decreases vs, 0
  {
    if vs != [] {
      ValuesAreFixed(vs[0], env, d);
      AllValuesAreFixed(vs[1..], env, d);
      assert [vs[0]] + vs[1..] == vs;
    }
  }

  /** What an evaluation answers is a value, and evaluating it again, in any environment, gives it
      back. */
  lemma EvaluatingTwice(e: Expr, env: Env, d: nat, env': Env, d': nat)
    requires Eval(e, env, d).Done?
    ensures IsValue(Eval(e, env, d).value)
    ensures Eval(Eval(e, env, d).value, env', d') == Eval(e, env, d)
  {
    AnswersAreValues(e, env, d);
    ValuesAreFixed(Eval(e, env, d).value, env', d');
  }

  // ----- What the operators mean -----

  predicate PairHolds(rel: Relation, vs: seq<Expr>, i: nat)
    requires i < |vs| - 1
  {
    Holds(rel, vs[i], vs[i + 1]) == Ok(true)
  }

  /** All pairs before `k` are related. */
  predicate RelatedTo(rel: Relation, vs: seq<Expr>, k: nat)
    requires k < |vs|
  {
    forall i :: 0 <= i < k ==> PairHolds(rel, vs, i)
  }

  /** The comparison operators hold exactly when every adjacent pair is related; otherwise the first
      pair that is not related decides, be it by an error. */
  lemma {:induction false} ChainMeans(rel: Relation, vs: seq<Expr>) returns (k: nat)
    ensures vs == [] ==> Chain(rel, vs) == Ok(true)
    ensures vs != [] ==>
              && k < |vs| && RelatedTo(rel, vs, k)
              && (k == |vs| - 1 <==> Chain(rel, vs) == Ok(true))
              && (k < |vs| - 1 ==> Chain(rel, vs) == Holds(rel, vs[k], vs[k + 1]))
  {
    k := 0;
    if |vs| >= 2 && Holds(rel, vs[0], vs[1]) == Ok(true) {
      var tail := vs[1..];
      var j := ChainMeans(rel, tail);
      k := j + 1;
      forall i | 0 <= i < k ensures PairHolds(rel, vs, i) {
        assert i > 0 ==> PairHolds(rel, tail, i - 1);
      }
    }
  }

  /** All elements before `k` can be compared with `y` and differ from it. */
  predicate DiffersTo(y: Expr, xs: seq<Expr>, k: nat)
    requires k <= |xs|
  {
    forall i :: 0 <= i < k ==> Compare.Same(y, xs[i]) == Ok(false)
  }

  /** `member?` is false exactly when every element differs; otherwise the first that does not
      differ decides, be it by an error. */
  lemma {:induction false} ContainsMeans(y: Expr, xs: seq<Expr>) returns (k: nat)
    ensures k <= |xs| && DiffersTo(y, xs, k)
    ensures k == |xs| <==> Contains(y, xs) == Ok(false)
    ensures k < |xs| ==> Contains(y, xs) == Compare.Same(y, xs[k])
  {
    k := 0;
    if xs != [] && Compare.Same(y, xs[0]) == Ok(false) {
      var tail := xs[1..];
      var j := ContainsMeans(y, tail);
      k := j + 1;
      assert forall i :: 1 <= i < |xs| ==> xs[i] == tail[i - 1];
    }
  }

  /** `and` and `or` are decided by the first argument that is not the value they go on with, or by
      the last one; no argument behind it matters, not even one that errs or does not terminate. */
  lemma {:induction false} ShortMeans(goOn: bool, xs: seq<Expr>, env: Env, d: nat, k: nat)
    requires k < |xs|
    requires forall i :: 0 <= i < k ==> Eval(xs[i], env, d) == Done(Bool(goOn))
    requires k == |xs| - 1 || Eval(xs[k], env, d) != Done(Bool(goOn))
    ensures var o := Eval(xs[k], env, d);
            EvalShort(goOn, xs, env, d) ==
              if o.Done? && k < |xs| - 1 && !o.value.Bool? then Failed(InvalidType(o.value, ShortMessage(goOn)))
              else o
    decreases |xs|
  {
    if k > 0 {
      ShortMeans(goOn, xs[1..], env, d, k - 1);
      assert xs[1..][k - 1] == xs[k];
    }
  }

  // ----- Larger environments -----

  /** `small` is part of `large`. */
  predicate Extends(large: Env, small: Env) {
    forall id :: id in small ==> id in large && large[id] == small[id]
  }

  /** `e`, and every binding it reaches in at most `d` lookups, is free of `exists?`. */
  predicate NoExistence(e: Expr, env: Env, d: nat)
    decreases d, e
  {
    match e
    case Ident(id) => id in env && d > 0 ==> NoExistence(env[id], env, d - 1)
    case Seq(xs) => forall i :: 0 <= i < |xs| ==> NoExistence(xs[i], env, d)
    case List(xs) =>
      && (xs != [] && xs[0].Ident? ==> FormOf(xs[0].id) != Existence)
      && forall i :: 1 <= i < |xs| ==> NoExistence(xs[i], env, d)
    case _ => true
  }

  predicate AllNoExistence(xs: seq<Expr>, env: Env, d: nat) {
    forall i :: 0 <= i < |xs| ==> NoExistence(xs[i], env, d)
  }

  /** The outcomes that another binding, or more depth, may still change. */
  predicate Open<T>(o: Outcome<T>) {
    o == Deep || (o.Failed? && o.error.Unbound?)
  }

  /** More bindings and more depth keep every settled outcome, if `exists?` is not used. */
  lemma {:induction false} Weaken(e: Expr, env: Env, d: nat, env': Env, d': nat)
    requires Extends(env', env) && d <= d' && NoExistence(e, env, d) && !Open(Eval(e, env, d))
    ensures Eval(e, env', d') == Eval(e, env, d)
    decreases d, e, 2
  {
    match e
    case Ident(id) => Weaken(env[id], env, d - 1, env', d' - 1);
    case List(xs) =>
      if xs != [] && xs[0].Ident? {
        WeakenCall(xs[0].id, xs[1..], env, d, env', d');
      }
    case Seq(xs) => WeakenAll(xs, env, d, env', d');
    case _ =>
  }

  lemma {:induction false} WeakenAll(xs: seq<Expr>, env: Env, d: nat, env': Env, d': nat)
    requires Extends(env', env) && d <= d' && AllNoExistence(xs, env, d) && !Open(EvalAll(xs, env, d))
    ensures EvalAll(xs, env', d') == EvalAll(xs, env, d)
    decreases d, xs, 0
  {
    if xs != [] {
      Weaken(xs[0], env, d, env', d');
      if Eval(xs[0], env, d).Done? {
        WeakenAll(xs[1..], env, d, env', d');
      }
    }
  }

  lemma {:induction false} WeakenCall(op: string, xs: seq<Expr>, env: Env, d: nat, env': Env, d': nat)
    requires Extends(env', env) && d <= d' && AllNoExistence(xs, env, d) && FormOf(op) != Existence
    requires !Open(Apply(op, xs, env, d))
    ensures Apply(op, xs, env', d') == Apply(op, xs, env, d)
    decreases d, xs, 1
  {
    match FormOf(op)
    case Short(goOn) => if xs != [] { WeakenShort(goOn, xs, env, d, env', d'); }
    case Conditional => if |xs| == 3 { WeakenIf(xs, env, d, env', d'); }
    case Plain => if CheckStrict(op, |xs|).Ok? { WeakenAll(xs, env, d, env', d'); }
  }

  lemma {:induction false} WeakenShort(goOn: bool, xs: seq<Expr>, env: Env, d: nat, env': Env, d': nat)
    requires xs != []
    requires Extends(env', env) && d <= d' && AllNoExistence(xs, env, d)
    requires !Open(EvalShort(goOn, xs, env, d))
    ensures EvalShort(goOn, xs, env', d') == EvalShort(goOn, xs, env, d)
    decreases d, xs, 0
  {
    Weaken(xs[0], env, d, env', d');
    if |xs| > 1 && Eval(xs[0], env, d) == Done(Bool(goOn)) {
      WeakenShort(goOn, xs[1..], env, d, env', d');
    }
  }

  lemma {:induction false} WeakenIf(xs: seq<Expr>, env: Env, d: nat, env': Env, d': nat)
    requires |xs| == 3
    requires Extends(env', env) && d <= d' && AllNoExistence(xs, env, d) && !Open(EvalIf(xs, env, d))
    ensures EvalIf(xs, env', d') == EvalIf(xs, env, d)
    decreases d, xs, 0
  {
    Weaken(xs[0], env, d, env', d');
    if Eval(xs[0], env, d).Done? && Eval(xs[0], env, d).value.Bool? {
      Weaken(if Eval(xs[0], env, d).value.b then xs[1] else xs[2], env, d, env', d');
    }
  }

  /** With `exists?` the law fails: a new binding turns an answer round. */
  lemma ExistenceSeesNewBindings()
    ensures var e, env' := List([Ident("exists?"), Ident("x")]), map["x" := Bool(true)];
            && Extends(env', map[])
            && Eval(e, map[], 1) == Done(Bool(false))
            && Eval(e, env', 1) == Done(Bool(true))
  {
    assert FormOf("exists?") == Existence;
    var xs := [Ident("exists?"), Ident("x")];
    assert xs[1..] == [Ident("x")];
    assert Exist([Ident("x")], map["x" := Bool(true)]) == Exist([Ident("x")][1..], map["x" := Bool(true)]);
  }

  // ----- Termination -----

  /** The identifiers an evaluation of `e` may look up: operators and the arguments of `exists?`
      are not. */
  predicate Refers(e: Expr, id: string) {
    match e
    case Ident(x) => x == id
    case Seq(xs) => exists i :: 0 <= i < |xs| && Refers(xs[i], id)
    case List(xs) =>
      && xs != [] && xs[0].Ident? && FormOf(xs[0].id) != Existence
      && exists i :: 1 <= i < |xs| && Refers(xs[i], id)
    case _ => false
  }

  type Ranks = map<string, nat>

  /** Bindings only refer to bindings of smaller rank, so no identifier leads back to itself. */
  predicate Ranked(env: Env, rank: Ranks) {
    && env.Keys <= rank.Keys
    && forall id, x :: id in env && x in env && Refers(env[id], x) ==> rank[x] < rank[id]
  }

  predicate Below(e: Expr, env: Env, rank: Ranks, d: nat)
    requires env.Keys <= rank.Keys
  {
    forall x :: x in env && Refers(e, x) ==> rank[x] < d
  }

  predicate AllBelow(xs: seq<Expr>, env: Env, rank: Ranks, d: nat)
    requires env.Keys <= rank.Keys
  {
    forall i :: 0 <= i < |xs| ==> Below(xs[i], env, rank, d)
  }

  /** In a ranked environment every expression has an outcome once the depth is above the ranks of
      the identifiers it refers to. */
  lemma {:induction false} RankedHasAnOutcome(e: Expr, env: Env, rank: Ranks, d: nat)
    requires Ranked(env, rank) && Below(e, env, rank, d)
    ensures Eval(e, env, d) != Deep
    decreases d, e, 2
  {
    match e
    case Ident(id) =>
      if id in env {
        assert Refers(e, id);
        forall x | x in env && Refers(env[id], x) ensures rank[x] < d - 1 {}
        RankedHasAnOutcome(env[id], env, rank, d - 1);
      }
    case List(xs) =>
      if xs != [] && xs[0].Ident? && FormOf(xs[0].id) != Existence {
        forall i, x | 0 <= i < |xs[1..]| && x in env && Refers(xs[1..][i], x) ensures rank[x] < d {
          assert Refers(xs[i + 1], x) && Refers(e, x);
        }
        RankedCall(xs[0].id, xs[1..], env, rank, d);
      }
    case Seq(xs) =>
      forall i, x | 0 <= i < |xs| && x in env && Refers(xs[i], x) ensures rank[x] < d {
        assert Refers(e, x);
      }
      RankedAll(xs, env, rank, d);
    case _ =>
  }

  lemma {:induction false} RankedAll(xs: seq<Expr>, env: Env, rank: Ranks, d: nat)
    requires Ranked(env, rank) && AllBelow(xs, env, rank, d)
    ensures EvalAll(xs, env, d) != Deep
    decreases d, xs, 0
  {
    if xs != [] {
      RankedHasAnOutcome(xs[0], env, rank, d);
      RankedAll(xs[1..], env, rank, d);
    }
  }

  lemma {:induction false} RankedCall(op: string, xs: seq<Expr>, env: Env, rank: Ranks, d: nat)
    requires Ranked(env, rank) && AllBelow(xs, env, rank, d)
    ensures Apply(op, xs, env, d) != Deep
    decreases d, xs, 1
  {
    match FormOf(op)
    case Short(goOn) => if xs != [] { RankedShort(goOn, xs, env, rank, d); }
    case Conditional =>
      if |xs| == 3 {
        RankedHasAnOutcome(xs[0], env, rank, d);
        RankedHasAnOutcome(xs[1], env, rank, d);
        RankedHasAnOutcome(xs[2], env, rank, d);
      }
    case Existence =>
    case Plain => RankedAll(xs, env, rank, d);
  }

  lemma {:induction false} RankedShort(goOn: bool, xs: seq<Expr>, env: Env, rank: Ranks, d: nat)
    requires xs != [] && Ranked(env, rank) && AllBelow(xs, env, rank, d)
    ensures EvalShort(goOn, xs, env, d) != Deep
    decreases d, xs, 0
  {
    RankedHasAnOutcome(xs[0], env, rank, d);
    if |xs| > 1 {
      RankedShort(goOn, xs[1..], env, rank, d);
    }
  }

  /** A bound above every rank. */
  lemma {:induction false} RanksAreBounded(rank: Ranks, keys: set<string>) returns (d: nat)
    requires keys <= rank.Keys
    ensures forall id :: id in keys ==> rank[id] < d
    decreases keys
  {
    d := 0;
    if keys != {} {
      var id :| id in keys;
      var rest := RanksAreBounded(rank, keys - {id});
      d := if rank[id] < rest then rest else rank[id] + 1;
    }
  }

  /** The machine halts on every expression in every ranked environment. */
  lemma RankedHalts(e: Expr, env: Env, rank: Ranks) returns (n: nat, r: Result<Expr>)
    requires Ranked(env, rank)
    ensures Steps(n, Start(e), env) == Halt(r)
  {
    var d := RanksAreBounded(rank, env.Keys);
    RankedHasAnOutcome(e, env, rank, d);
    n := Final(e, env, d);
    r := Answer(Eval(e, env, d));
  }

  /** The depth at which an outcome is found does not change it. */
  lemma DepthDoesNotMatter(e: Expr, env: Env, d: nat, d': nat)
    requires Eval(e, env, d) != Deep && Eval(e, env, d') != Deep
    ensures Eval(e, env, d) == Eval(e, env, d')
  {
    var m := Final(e, env, d);
    var n := Final(e, env, d');
    HaltsOnce(m, n, Start(e), env);
  }

  /** The loop returns, on every expression in every ranked environment, what the recursive evaluator
      says. */
  method EvaluateRanked(expr: Expr, env: Env, ghost rank: Ranks) returns (r: Result<Expr>)
    requires Ranked(env, rank)
    ensures exists d :: Eval(expr, env, d) != Deep
    ensures forall d :: Eval(expr, env, d) != Deep ==> r == Answer(Eval(expr, env, d))
  {
    ghost var d := RanksAreBounded(rank, env.Keys);
    RankedHasAnOutcome(expr, env, rank, d);
    r := Evaluator.Evaluate(expr, env, d);
    forall d' | Eval(expr, env, d') != Deep ensures r == Answer(Eval(expr, env, d')) {
      DepthDoesNotMatter(expr, env, d, d');
    }
  }

  /** In a cyclic environment it need not: an identifier bound to itself is looked up for ever. */
  lemma {:induction false} CyclesNeverHalt(n: nat)
    ensures Steps(n, Start(Ident("x")), map["x" := Ident("x")]) == Start(Ident("x"))
  {
    if n > 0 {
      var s, env := Start(Ident("x")), map["x" := Ident("x")];
      assert s.ctrl[..0] + [Visit(Ident("x"))] == s.ctrl;
      assert Step(s, env) == s;
      CyclesNeverHalt(n - 1);
    }
  }
}
