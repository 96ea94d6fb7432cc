/** When an evaluation ends: as many nested lookups as there are bindings decide it. */
module Halting {
  import opened Exprs
  import opened Semantics
  import opened Machine
  import opened Refinement

  // ----- More depth keeps an outcome -----

  lemma {:induction false} StaysSettled(e: Expr, env: Env, d: nat)
    requires Eval(e, env, d) != Deep
    ensures Eval(e, env, d + 1) == Eval(e, env, d)
    decreases d, e, 2
  {
    match e
    case Ident(id) => if id in env { StaysSettled(env[id], env, d - 1); }
    case List(xs) => if xs != [] && xs[0].Ident? { CallStaysSettled(xs[0].id, xs[1..], env, d); }
    case Seq(xs) => AllStaySettled(xs, env, d);
    case _ =>
  }

  lemma {:induction false} AllStaySettled(xs: seq<Expr>, env: Env, d: nat)
    requires EvalAll(xs, env, d) != Deep
    ensures EvalAll(xs, env, d + 1) == EvalAll(xs, env, d)
    decreases d, xs, 0
  {
    if xs != [] {
      StaysSettled(xs[0], env, d);
      if Eval(xs[0], env, d).Done? {
        AllStaySettled(xs[1..], env, d);
      }
    }
  }

  lemma {:induction false} CallStaysSettled(op: string, xs: seq<Expr>, env: Env, d: nat)
    requires Apply(op, xs, env, d) != Deep
    ensures Apply(op, xs, env, d + 1) == Apply(op, xs, env, d)
    decreases d, xs, 1
  {
    match FormOf(op)
    case Short(goOn) => if xs != [] { ShortStaysSettled(goOn, xs, env, d); }
    case Conditional => if |xs| == 3 { IfStaysSettled(xs, env, d); }
    case Existence =>
    case Plain => if CheckStrict(op, |xs|).Ok? { AllStaySettled(xs, env, d); }
  }

  lemma {:induction false} ShortStaysSettled(goOn: bool, xs: seq<Expr>, env: Env, d: nat)
    requires xs != [] && EvalShort(goOn, xs, env, d) != Deep
    ensures EvalShort(goOn, xs, env, d + 1) == EvalShort(goOn, xs, env, d)
    decreases d, xs, 0
  {
    StaysSettled(xs[0], env, d);
    if |xs| > 1 && Eval(xs[0], env, d) == Done(Bool(goOn)) {
      ShortStaysSettled(goOn, xs[1..], env, d);
    }
  }

  lemma {:induction false} IfStaysSettled(xs: seq<Expr>, env: Env, d: nat)
    requires |xs| == 3 && EvalIf(xs, env, d) != Deep
    ensures EvalIf(xs, env, d + 1) == EvalIf(xs, env, d)
    decreases d, xs, 0
  {
    StaysSettled(xs[0], env, d);
    if Eval(xs[0], env, d).Done? && Eval(xs[0], env, d).value.Bool? {
      StaysSettled(if Eval(xs[0], env, d).value.b then xs[1] else xs[2], env, d);
    }
  }

  lemma {:induction false} SettledFrom(e: Expr, env: Env, d: nat, d': nat)
    requires d <= d' && Eval(e, env, d) != Deep
    ensures Eval(e, env, d') == Eval(e, env, d)
    decreases d'
  {
    if d < d' {
      SettledFrom(e, env, d, d' - 1);
      StaysSettled(e, env, d' - 1);
    }
  }

  // ----- What needs a depth refers to an identifier that needs it -----

  /** The identifier is bound, and `d` is the least depth at which it has an outcome. */
  predicate Needs(id: string, env: Env, d: nat) {
    id in env && d > 0 && Eval(Ident(id), env, d) != Deep && Eval(Ident(id), env, d - 1) == Deep
  }

  lemma {:induction false} Culprit(e: Expr, env: Env, d: nat) returns (id: string)
    requires d > 0 && Eval(e, env, d) != Deep && Eval(e, env, d - 1) == Deep
    ensures Needs(id, env, d)
    decreases e, 2
  {
    match e {
      case Ident(x) => id := x;
      case List(xs) => id := CulpritOfCall(xs[0].id, xs[1..], env, d);
      case Seq(xs) => id := CulpritOfAll(xs, env, d);
    }
  }

  lemma {:induction false} CulpritOfAll(xs: seq<Expr>, env: Env, d: nat) returns (id: string)
    requires d > 0 && EvalAll(xs, env, d) != Deep && EvalAll(xs, env, d - 1) == Deep
    ensures Needs(id, env, d)
    decreases xs, 0
  {
    if Eval(xs[0], env, d - 1) == Deep {
      id := Culprit(xs[0], env, d);
    } else {
      StaysSettled(xs[0], env, d - 1);
      id := CulpritOfAll(xs[1..], env, d);
    }
  }

  lemma {:induction false} CulpritOfCall(op: string, xs: seq<Expr>, env: Env, d: nat) returns (id: string)
    requires d > 0 && Apply(op, xs, env, d) != Deep && Apply(op, xs, env, d - 1) == Deep
    ensures Needs(id, env, d)
    decreases xs, 1
  {
    match FormOf(op) {
      case Short(goOn) => id := CulpritOfShort(goOn, xs, env, d);
      case Conditional => id := CulpritOfIf(xs, env, d);
      case Plain => id := CulpritOfAll(xs, env, d);
    }
  }

  lemma {:induction false} CulpritOfShort(goOn: bool, xs: seq<Expr>, env: Env, d: nat) returns (id: string)
    requires d > 0 && xs != []
    requires EvalShort(goOn, xs, env, d) != Deep && EvalShort(goOn, xs, env, d - 1) == Deep
    ensures Needs(id, env, d)
    decreases xs, 0
  {
    if Eval(xs[0], env, d - 1) == Deep {
      id := Culprit(xs[0], env, d);
    } else {
      StaysSettled(xs[0], env, d - 1);
      id := CulpritOfShort(goOn, xs[1..], env, d);
    }
  }

  lemma {:induction false} CulpritOfIf(xs: seq<Expr>, env: Env, d: nat) returns (id: string)
    requires d > 0 && |xs| == 3 && EvalIf(xs, env, d) != Deep && EvalIf(xs, env, d - 1) == Deep
    ensures Needs(id, env, d)
    decreases xs, 0
  {
    var test := Eval(xs[0], env, d - 1);
    if test == Deep {
      id := Culprit(xs[0], env, d);
    } else {
      StaysSettled(xs[0], env, d - 1);
      id := Culprit(if test.value.b then xs[1] else xs[2], env, d);
    }
  }

  // ----- No expression needs more depth than there are bindings -----

  /** An expression that needs the depth `d` leads through `d` different identifiers. */
  lemma {:induction false} Chained(e: Expr, env: Env, d: nat) returns (ids: set<string>)
    requires Eval(e, env, d) != Deep && (d > 0 ==> Eval(e, env, d - 1) == Deep)
    ensures ids <= env.Keys && |ids| == d
    ensures forall id :: id in ids ==> Eval(Ident(id), env, d) != Deep
    decreases d
  {
    ids := {};
    if d > 0 {
      var x := Culprit(e, env, d);
      var below := Chained(env[x], env, d - 1);
      forall id | id in below ensures Eval(Ident(id), env, d) != Deep {
        StaysSettled(Ident(id), env, d - 1);
      }
      ids := below + {x};
    }
  }

  lemma SubsetsAreSmaller(a: set<string>, b: set<string>)
    requires a <= b
    ensures |a| <= |b|
    decreases a
  {
    if a != {} {
      var x :| x in a;
      SubsetsAreSmaller(a - {x}, b - {x});
    }
  }

  /** If an expression has an outcome at any depth, it has the same one at the depth that is the number
      of bindings. */
  lemma {:induction false} BindingsSuffice(e: Expr, env: Env, d: nat)
    requires Eval(e, env, d) != Deep
    ensures Eval(e, env, |env|) == Eval(e, env, d)
    decreases d
  {
    if d <= |env| {
      SettledFrom(e, env, d, |env|);
    } else if Eval(e, env, d - 1) != Deep {
      StaysSettled(e, env, d - 1);
      BindingsSuffice(e, env, d - 1);
    } else {
      var ids := Chained(e, env, d);
      SubsetsAreSmaller(ids, env.Keys);
    }
  }

  /** Whether the machine halts, and with what, is decided by evaluating to the depth that is the number
      of bindings. */
  lemma HaltsExactly(e: Expr, env: Env, r: Result<Expr>)
    ensures (exists n :: Steps(n, Start(e), env) == Halt(r)) <==>
            Eval(e, env, |env|) != Deep && Answer(Eval(e, env, |env|)) == r
  {
    HaltsWithTheAnswer(e, env, r);
    if d :| Eval(e, env, d) != Deep && Answer(Eval(e, env, d)) == r {
      BindingsSuffice(e, env, d);
    }
  }

  /** Otherwise it runs for ever. */
  lemma RunsForEver(e: Expr, env: Env, n: nat)
    requires Eval(e, env, |env|) == Deep
    ensures Steps(n, Start(e), env).Run?
  {
    NeverPanics(e, env, n);
    if Steps(n, Start(e), env).Halt? {
      HaltsExactly(e, env, Steps(n, Start(e), env).result);
    }
  }

  /** In an environment with a cycle some expressions have an answer: those that do not look the cycle
      up. */
  lemma CyclesCanBeAvoided()
    ensures var env := map["x" := Ident("x")];
            && Eval(Bool(true), env, 1) == Done(Bool(true))
            && Eval(List([Ident("and"), Bool(false), Ident("x")]), env, 1) == Done(Bool(false))
            && Eval(Ident("x"), env, 1) == Deep
  {
    var env := map["x" := Ident("x")];
    var xs := [Ident("and"), Bool(false), Ident("x")];
    assert xs[1..] == [Bool(false), Ident("x")];
    assert FormOf("and") == Short(true);
    assert Eval(Bool(false), env, 1) == Done(Bool(false));
    assert Eval(Ident("x"), env, 1) == Eval(Ident("x"), env, 0);
  }
}
