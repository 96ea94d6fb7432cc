/** The stack machine computes exactly what the recursive evaluator says, for every expression and
    every environment, cyclic ones included. */
module Refinement {
  import opened Exprs
  import opened Semantics
  import opened Machine

  // ----- Runs of the machine -----

  function Steps(n: nat, s: State, env: Env): State
    decreases n
  {
    if n == 0 then s else Steps(n - 1, Step(s, env), env)
  }

  lemma {:induction false} StepsAdd(m: nat, n: nat, s: State, env: Env)
    ensures Steps(m + n, s, env) == Steps(n, Steps(m, s, env), env)
    decreases m
  {
    if m > 0 {
      StepsAdd(m - 1, n, Step(s, env), env);
    }
  }

  lemma {:induction false} StepsStay(n: nat, s: State, env: Env)
    requires !s.Run?
    ensures Steps(n, s, env) == s
    decreases n
  {
    if n > 0 {
      StepsStay(n - 1, s, env);
    }
  }

  /** A machine that runs after `n` steps ran after fewer. */
  lemma RunsBefore(m: nat, n: nat, s: State, env: Env)
    requires m <= n && Steps(n, s, env).Run?
    ensures Steps(m, s, env).Run?
  {
    StepsAdd(m, n - m, s, env);
    if !Steps(m, s, env).Run? {
      StepsStay(n - m, Steps(m, s, env), env);
    }
  }

  // ----- One evaluation, in any context -----

  /** Where the machine is once the outcome `o` is known: the values are on the argument stack
      and nothing else changed, or it has halted with the error, or it still runs after at least
      `d` steps. */
  ghost predicate Lands(o: Outcome<seq<Expr>>, n: nat, d: nat, s: State, ctrl: seq<Op>, args: seq<Expr>) {
    match o
    case Done(vs) => s == Run(ctrl, args + vs)
    case Failed(e) => s == Halt(Err(e))
    case Deep => s.Run? && n >= d
  }

  ghost function One(o: Outcome<Expr>): Outcome<seq<Expr>> {
    match o case Done(v) => Done([v]) case Failed(e) => Failed(e) case Deep => Deep
  }

  /** After `m` steps the machine is at `t`, and `n` more steps land it. */
  lemma Continue(o: Outcome<seq<Expr>>, m: nat, t: State, n: nat, d: nat,
                 s: State, env: Env, ctrl: seq<Op>, args: seq<Expr>)
    requires Steps(m, s, env) == t
    requires Lands(o, n, d, Steps(n, t, env), ctrl, args)
    ensures Lands(o, m + n, d, Steps(m + n, s, env), ctrl, args)
  {
    StepsAdd(m, n, s, env);
  }

  lemma StepTop(ctrl: seq<Op>, op: Op, args: seq<Expr>, env: Env)
    ensures Steps(1, Run(ctrl + [op], args), env) == StepOp(op, ctrl, args, env)
  {
    assert (ctrl + [op])[..|ctrl|] == ctrl;
    assert Steps(1, Run(ctrl + [op], args), env) == Steps(0, Step(Run(ctrl + [op], args), env), env);
  }

  /** Evaluating one expression on top of any two stacks. */
  lemma {:induction false} Exec(e: Expr, env: Env, d: nat, ctrl: seq<Op>, args: seq<Expr>) returns (n: nat)
    ensures Lands(One(Eval(e, env, d)), n, d, Steps(n, Run(ctrl + [Visit(e)], args), env), ctrl, args)
    decreases d, e, 2
  {
    StepTop(ctrl, Visit(e), args, env);
    var s := Run(ctrl + [Visit(e)], args);
    n := 1;
    match e {
      case Ident(id) =>
        if id in env {
          if d == 0 {
            n := 0;
          } else {
            n := Exec(env[id], env, d - 1, ctrl, args);
            StepsAdd(1, n, s, env);
            n := 1 + n;
          }
        }
      case List(xs) =>
        if xs != [] && xs[0].Ident? {
          n := ExecApply(xs[0].id, xs[1..], env, d, ctrl, args, s);
        }
      case Seq(xs) =>
        var c := ctrl + [Collect(|xs|)];
        n := ExecAll(xs, env, d, c, args);
        Continue(EvalAll(xs, env, d), 1, Run(c + Visits(xs), args), n, d, s, env, c, args);
        n := 1 + n;
        if EvalAll(xs, env, d).Done? {
          var vs := EvalAll(xs, env, d).value;
          StepTop(ctrl, Collect(|xs|), args + vs, env);
          assert (args + vs)[..|args|] == args && (args + vs)[|args|..] == vs;
          StepsAdd(n, 1, s, env);
          n := n + 1;
        }
      case _ =>
    }
  }

  /** Evaluating several expressions in order. */
  lemma {:induction false} ExecAll(xs: seq<Expr>, env: Env, d: nat, ctrl: seq<Op>, args: seq<Expr>) returns (n: nat)
    ensures Lands(EvalAll(xs, env, d), n, d, Steps(n, Run(ctrl + Visits(xs), args), env), ctrl, args)
    decreases d, xs, 0, 0
  {
    if xs == [] {
      n := 0;
      assert ctrl + Visits(xs) == ctrl && args + [] == args;
    } else {
      var c := ctrl + Visits(xs[1..]);
      assert ctrl + Visits(xs) == c + [Visit(xs[0])];
      n := Exec(xs[0], env, d, c, args);
      var first := Eval(xs[0], env, d);
      if first.Done? {
        var m := ExecAll(xs[1..], env, d, ctrl, args + [first.value]);
        n := AllJoin(first.value, EvalAll(xs[1..], env, d), Run(ctrl + Visits(xs), args), c, n, m, env, d, ctrl, args);
      }
    }
  }

  /** Put the first value together with the rest. */
  lemma AllJoin(v: Expr, rest: Outcome<seq<Expr>>, s: State, c: seq<Op>, n: nat, m: nat,
                env: Env, d: nat, ctrl: seq<Op>, args: seq<Expr>) returns (k: nat)
    requires Steps(n, s, env) == Run(c, args + [v])
    requires Lands(rest, m, d, Steps(m, Run(c, args + [v]), env), ctrl, args + [v])
    ensures var whole := if rest.Done? then Done([v] + rest.value) else rest;
            Lands(whole, k, d, Steps(k, s, env), ctrl, args)
  {
    StepsAdd(n, m, s, env);
    k := n + m;
    if rest.Done? {
      assert args + [v] + rest.value == args + ([v] + rest.value);
    }
  }

  lemma {:induction false} ExecApply(op: string, xs: seq<Expr>, env: Env, d: nat, ctrl: seq<Op>, args: seq<Expr>, s: State)
      returns (n: nat)
    requires Steps(1, s, env) == StepApply(op, xs, ctrl, args, env)
    ensures Lands(One(Apply(op, xs, env, d)), n, d, Steps(n, s, env), ctrl, args)
    decreases d, xs, 1, 1
  {
    var m := ExecForm(op, xs, env, d, ctrl, args);
    Continue(One(Apply(op, xs, env, d)), 1, StepApply(op, xs, ctrl, args, env), m, d, s, env, ctrl, args);
    n := 1 + m;
  }

  /** An operator by its form, once it has been dispatched. */
  lemma {:induction false} ExecForm(op: string, xs: seq<Expr>, env: Env, d: nat, ctrl: seq<Op>, args: seq<Expr>)
      returns (n: nat)
    ensures Lands(One(Apply(op, xs, env, d)), n, d, Steps(n, StepApply(op, xs, ctrl, args, env), env), ctrl, args)
    decreases d, xs, 1, 0
  {
    n := 0;
    match FormOf(op) {
      case Short(goOn) => if xs != [] { n := ExecShort(goOn, xs, env, d, ctrl, args); }
      case Conditional => if |xs| == 3 { n := ExecIf(xs, env, d, ctrl, args); }
      case Existence =>
      case Plain => n := ExecPlain(op, xs, env, d, ctrl, args);
    }
  }

  lemma ExecPlain(op: string, xs: seq<Expr>, env: Env, d: nat, ctrl: seq<Op>, args: seq<Expr>)
      returns (n: nat)
    requires FormOf(op) == Plain
    ensures Lands(One(Apply(op, xs, env, d)), n, d, Steps(n, StepApply(op, xs, ctrl, args, env), env), ctrl, args)
    decreases d, xs, 0, 2
  {
    n := 0;
    var strict := CheckStrict(op, |xs|);
    if strict.Ok? {
      n := ExecStrictCall(strict.value, xs, env, d, ctrl, args);
    }
  }

  lemma ExecStrictCall(op: StrictOp, xs: seq<Expr>, env: Env, d: nat, ctrl: seq<Op>, args: seq<Expr>)
      returns (n: nat)
    requires op == OpNot ==> |xs| == 1
    requires op == OpMember ==> |xs| == 2
    ensures var o := EvalAll(xs, env, d);
            var o' := if o.Done? then FromResult(Strict(op, o.value)) else o.PropagateFailure();
            Lands(One(o'), n, d, Steps(n, Run(ctrl + StrictOps(op, |xs|) + Visits(xs), args), env), ctrl, args)
    decreases d, xs, 0, 1
  {
    n := ExecAll(xs, env, d, ctrl + StrictOps(op, |xs|), args);
    if EvalAll(xs, env, d).Done? {
      var vs := EvalAll(xs, env, d).value;
      var m := ExecStrict(op, vs, env, ctrl, args);
      StepsAdd(n, m, Run(ctrl + StrictOps(op, |xs|) + Visits(xs), args), env);
      n := n + m;
    }
  }

  /** The operations of a strict operator consume exactly its evaluated arguments. */
  lemma ExecStrict(op: StrictOp, vs: seq<Expr>, env: Env, ctrl: seq<Op>, args: seq<Expr>) returns (n: nat)
    requires op == OpNot ==> |vs| == 1
    requires op == OpMember ==> |vs| == 2
    ensures Steps(n, Run(ctrl + StrictOps(op, |vs|), args + vs), env) == Push(Strict(op, vs), ctrl, args)
  {
    var all := args + vs;
    assert all[..|args|] == args && all[|args|..] == vs;
    n := 1;
    match op {
      case OpNot => StepTop(ctrl, Not, all, env);
      case OpRelation(rel) => StepTop(ctrl, Relate(rel, |vs|), all, env);
      case OpMember => StepTop(ctrl, Member, all, env);
      case OpNotEqual => n := ExecNotEqual(vs, env, ctrl, args);
    }
  }

  lemma ExecNotEqual(vs: seq<Expr>, env: Env, ctrl: seq<Op>, args: seq<Expr>) returns (n: nat)
    ensures Steps(n, Run(ctrl + [Not, Relate(Eq, |vs|)], args + vs), env) == Push(Strict(OpNotEqual, vs), ctrl, args)
  {
    var all, c := args + vs, ctrl + [Not];
    assert all[..|args|] == args && all[|args|..] == vs;
    assert ctrl + [Not, Relate(Eq, |vs|)] == c + [Relate(Eq, |vs|)];
    StepTop(c, Relate(Eq, |vs|), all, env);
    n := 1;
    if Chain(Eq, vs).Ok? {
      var b := Bool(Chain(Eq, vs).value);
      StepTop(ctrl, Not, args + [b], env);
      assert (args + [b])[..|args|] == args;
      StepsAdd(1, 1, Run(c + [Relate(Eq, |vs|)], all), env);
      n := 2;
    }
  }

  /** `and` and `or` discard exactly their own pending arguments. */
  lemma {:induction false} ExecShort(goOn: bool, xs: seq<Expr>, env: Env, d: nat, ctrl: seq<Op>, args: seq<Expr>)
      returns (n: nat)
    requires xs != []
    ensures var s := Run(ctrl + Visits(xs[1..]) + [ShortOp(goOn, |xs| - 1), Visit(xs[0])], args);
            Lands(One(EvalShort(goOn, xs, env, d)), n, d, Steps(n, s, env), ctrl, args)
    decreases d, xs, 0
  {
    var c := ctrl + Visits(xs[1..]);
    var op := ShortOp(goOn, |xs| - 1);
    assert c + [op, Visit(xs[0])] == c + [op] + [Visit(xs[0])];
    n := Exec(xs[0], env, d, c + [op], args);
    var first, m := Eval(xs[0], env, d), 0;
    if first == Done(Bool(goOn)) && |xs| > 1 {
      m := ExecShort(goOn, xs[1..], env, d, ctrl, args);
    }
    n := ShortJoin(goOn, xs, first, EvalShort(goOn, xs, env, d), n, m, env, d, ctrl, args);
  }

  /** Put the first argument of `and` or `or` together with the rest. */
  lemma ShortJoin(goOn: bool, xs: seq<Expr>, first: Outcome<Expr>, whole: Outcome<Expr>, n: nat, m: nat,
                  env: Env, d: nat, ctrl: seq<Op>, args: seq<Expr>) returns (k: nat)
    requires xs != []
    requires var s := Run(ctrl + Visits(xs[1..]) + [ShortOp(goOn, |xs| - 1), Visit(xs[0])], args);
             Lands(One(first), n, d, Steps(n, s, env), ctrl + Visits(xs[1..]) + [ShortOp(goOn, |xs| - 1)], args)
    requires if !first.Done? || |xs| == 1 || first.value == Bool(!goOn) then whole == first
             else if first.value != Bool(goOn) then whole == Failed(InvalidType(first.value, ShortMessage(goOn)))
             else
               var s := Run(ctrl + Visits(xs[1..][1..]) + [ShortOp(goOn, |xs| - 2), Visit(xs[1])], args);
               Lands(One(whole), m, d, Steps(m, s, env), ctrl, args)
    ensures var s := Run(ctrl + Visits(xs[1..]) + [ShortOp(goOn, |xs| - 1), Visit(xs[0])], args);
            Lands(One(whole), k, d, Steps(k, s, env), ctrl, args)
  {
    var s := Run(ctrl + Visits(xs[1..]) + [ShortOp(goOn, |xs| - 1), Visit(xs[0])], args);
    k := n;
    if first.Done? {
      ShortStep(goOn, xs, first.value, env, ctrl, args);
      StepsAdd(n, 1, s, env);
      k := n + 1;
      if |xs| > 1 && first.value == Bool(goOn) {
        StepsAdd(n + 1, m, s, env);
        k := n + 1 + m;
      }
    }
  }

  lemma ShortStep(goOn: bool, xs: seq<Expr>, v: Expr, env: Env, ctrl: seq<Op>, args: seq<Expr>)
    requires xs != []
    ensures Steps(1, Run(ctrl + Visits(xs[1..]) + [ShortOp(goOn, |xs| - 1)], args + [v]), env) ==
            if |xs| == 1 || v == Bool(!goOn) then Run(ctrl, args + [v])
            else if v == Bool(goOn) then
              Run(ctrl + Visits(xs[1..][1..]) + [ShortOp(goOn, |xs| - 2), Visit(xs[1])], args)
            else Halt(Err(InvalidType(v, ShortMessage(goOn))))
  {
    var c := ctrl + Visits(xs[1..]);
    StepTop(c, ShortOp(goOn, |xs| - 1), args + [v], env);
    assert (args + [v])[..|args|] == args;
    assert c[..|ctrl|] == ctrl;
    if |xs| == 1 {
      assert c == ctrl;
    } else {
      assert c[..|c| - 1] == ctrl + Visits(xs[1..][1..]);
    }
  }

  /** `if` discards exactly the branch it does not take. */
  lemma {:induction false} ExecIf(xs: seq<Expr>, env: Env, d: nat, ctrl: seq<Op>, args: seq<Expr>) returns (n: nat)
    requires |xs| == 3
    ensures Lands(One(EvalIf(xs, env, d)), n, d,
                  Steps(n, Run(ctrl + [Visit(xs[2]), Visit(xs[1]), If, Visit(xs[0])], args), env), ctrl, args)
    decreases d, xs, 0
  {
    var c := ctrl + [Visit(xs[2]), Visit(xs[1]), If];
    var s := Run(ctrl + [Visit(xs[2]), Visit(xs[1]), If, Visit(xs[0])], args);
    assert s.ctrl == c + [Visit(xs[0])];
    n := Exec(xs[0], env, d, c, args);
    var test := Eval(xs[0], env, d);
    if test.Done? {
      IfStep(xs[1], xs[2], test.value, env, ctrl, args);
      if test.value.Bool? {
        var branch := if test.value.b then xs[1] else xs[2];
        var m := Exec(branch, env, d, ctrl, args);
        var o, t, u := One(Eval(branch, env, d)), Run(c, args + [test.value]), Run(ctrl + [Visit(branch)], args);
        Continue(o, 1, u, m, d, t, env, ctrl, args);
        Continue(o, n, t, 1 + m, d, s, env, ctrl, args);
        n := n + 1 + m;
      } else {
        StepsAdd(n, 1, s, env);
        n := n + 1;
      }
    }
  }

  lemma IfStep(yes: Expr, no: Expr, v: Expr, env: Env, ctrl: seq<Op>, args: seq<Expr>)
    ensures Steps(1, Run(ctrl + [Visit(no), Visit(yes), If], args + [v]), env) ==
            if v.Bool? then Run(ctrl + [Visit(if v.b then yes else no)], args)
            else Halt(Err(InvalidType(v, "'if' expects test to evaluate to bool")))
  {
    var c := ctrl + [Visit(no), Visit(yes)];
    assert c + [If] == ctrl + [Visit(no), Visit(yes), If];
    StepTop(c, If, args + [v], env);
    assert (args + [v])[..|args|] == args;
    assert c[..|ctrl|] == ctrl && c[..|c| - 1] == ctrl + [Visit(no)];
  }

  // ----- Whole runs -----

  ghost function Answer(o: Outcome<Expr>): Result<Expr>
    requires o != Deep
  {
    if o.Done? then Ok(o.value) else Err(o.error)
  }

  /** An evaluation with an outcome halts the machine with that outcome. */
  lemma Final(e: Expr, env: Env, d: nat) returns (n: nat)
    requires Eval(e, env, d) != Deep
    ensures Steps(n, Start(e), env) == Halt(Answer(Eval(e, env, d)))
  {
    n := Exec(e, env, d, [], []);
    assert [] + [Visit(e)] == [Visit(e)];
    if Eval(e, env, d).Done? {
      StepsAdd(n, 1, Start(e), env);
      var v := Eval(e, env, d).value;
      assert Steps(1, Run([], [v]), env) == Steps(0, Step(Run([], [v]), env), env);
      n := n + 1;
    }
  }

  /** Two halted states of one run are the same. */
  lemma HaltsOnce(m: nat, n: nat, s: State, env: Env)
    requires !Steps(m, s, env).Run? && !Steps(n, s, env).Run?
    ensures Steps(m, s, env) == Steps(n, s, env)
  {
    var least, most := if m <= n then m else n, if m <= n then n else m;
    StepsAdd(least, most - least, s, env);
    StepsStay(most - least, Steps(least, s, env), env);
  }

  /** No reachable state is a panic: no pop finds an empty stack and no operation takes more
      arguments or control items than there are. */
  lemma NeverPanics(e: Expr, env: Env, n: nat)
    ensures Steps(n, Start(e), env) != Panic
  {
    if Eval(e, env, n) == Deep {
      var k := Exec(e, env, n, [], []);
      assert [] + [Visit(e)] == [Visit(e)];
      RunsBefore(n, k, Start(e), env);
    } else if !Steps(n, Start(e), env).Run? {
      var k := Final(e, env, n);
      HaltsOnce(k, n, Start(e), env);
    }
  }

  /** The machine halts with an answer exactly when the recursive evaluator has that answer at
      some depth. */
  lemma HaltsWithTheAnswer(e: Expr, env: Env, r: Result<Expr>)
    ensures (exists n :: Steps(n, Start(e), env) == Halt(r)) <==>
            (exists d :: Eval(e, env, d) != Deep && Answer(Eval(e, env, d)) == r)
  {
    if n :| Steps(n, Start(e), env) == Halt(r) {
      if Eval(e, env, n) == Deep {
        var k := Exec(e, env, n, [], []);
        assert [] + [Visit(e)] == [Visit(e)];
        RunsBefore(n, k, Start(e), env);
      } else {
        var k := Final(e, env, n);
        HaltsOnce(k, n, Start(e), env);
      }
    }
    if d :| Eval(e, env, d) != Deep && Answer(Eval(e, env, d)) == r {
      var n := Final(e, env, d);
    }
  }
}
