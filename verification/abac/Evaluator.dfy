/** The evaluation loop, `eval`, proved against the recursive evaluator. */
module Evaluator {
  import opened Exprs
  import opened Compare
  import opened Semantics
  import opened Machine
  import opened Refinement

  method PushVisits(ctrl: seq<Op>, xs: seq<Expr>) returns (pushed: seq<Op>)
    ensures pushed == ctrl + Visits(xs)
  {
    pushed := ctrl;
    for i := |xs| downto 0
      invariant pushed == ctrl + Visits(xs[i..])
    {
      assert xs[i..][1..] == xs[i + 1..];
      pushed := pushed + [Visit(xs[i])];
    }
    assert xs[0..] == xs;
  }

  method Related(rel: Relation, x: Expr, y: Expr) returns (r: Result<bool>)
    ensures r == Holds(rel, x, y)
  {
    match rel {
      case Eq => r := Equals(x, y);
      case Lt =>
        var o := CompareExprs(x, y);
        r := Is(Less, o);
      case Gt =>
        var o := CompareExprs(x, y);
        r := Is(Greater, o);
    }
  }

  /** `eval_predicate`: a relation over the `n` topmost arguments. */
  method EvalPredicate(rel: Relation, n: nat, args: seq<Expr>) returns (r: Result<seq<Expr>>)
    requires n <= |args|
    ensures var start := |args| - n;
            match Chain(rel, args[start..])
            case Ok(b) => r == Ok(args[..start] + [Bool(b)])
            case Err(e) => r == Err(e)
  {
    var b := true;
    var start := |args| - n;
    var i := start;
    while i + 1 < |args|
      invariant start <= i <= |args|
      invariant n > 0 ==> i < |args|
      invariant b
      invariant Chain(rel, args[start..]) == Chain(rel, args[i..])
    {
      assert args[i..][1..] == args[i + 1..];
      var holds := Related(rel, args[i], args[i + 1]);
      if holds.Err? {
        return Err(holds.error);
      }
      if !holds.value {
        b := false;
        break;
      }
      i := i + 1;
    }
    return Ok(args[..start] + [Bool(b)]);
  }

  method MemberOf(y: Expr, s: Expr) returns (r: Result<Expr>)
    ensures r == IsMember(y, s)
  {
    if !s.Seq? {
      return Err(InvalidType(s, "'member?' expects sequence as second argument"));
    }
    var b := false;
    var i := 0;
    while i < |s.elems|
      invariant 0 <= i <= |s.elems|
      invariant !b && Contains(y, s.elems) == Contains(y, s.elems[i..])
    {
      assert s.elems[i..][1..] == s.elems[i + 1..];
      var same := Equals(y, s.elems[i]);
      if same.Err? {
        return Err(same.error);
      }
      if same.value {
        b := true;
        break;
      }
      i := i + 1;
    }
    return Ok(Bool(b));
  }

  method AllExist(xs: seq<Expr>, env: Env) returns (r: Result<bool>)
    ensures r == Exist(xs, env)
  {
    var i := 0;
    while i < |xs|
      invariant 0 <= i <= |xs|
      invariant Exist(xs, env) == Exist(xs[i..], env)
    {
      assert xs[i..][1..] == xs[i + 1..];
      if !xs[i].Ident? {
        return Err(InvalidType(xs[i], "'exists?' expects identifiers as arguments"));
      }
      if xs[i].id !in env {
        return Ok(false);
      }
      i := i + 1;
    }
    return Ok(true);
  }

  /** The state an operation leaves behind, or the error it returns. */
  ghost predicate Moves(s: State, r: Result<()>, ctrl: seq<Op>, args: seq<Expr>) {
    s == if r.Ok? then Run(ctrl, args) else Halt(Err(r.error))
  }

  method VisitExpr(e: Expr, env: Env, ctrl0: seq<Op>, args0: seq<Expr>)
      returns (r: Result<()>, ctrl: seq<Op>, args: seq<Expr>)
    ensures Moves(StepVisit(e, ctrl0, args0, env), r, ctrl, args)
  {
    r, ctrl, args := Ok(()), ctrl0, args0;
    match e {
      case Ident(id) =>
        if id in env {
          ctrl := ctrl + [Visit(env[id])];
        } else {
          r := Err(Unbound(id));
        }
      case List(xs) => r, ctrl, args := VisitList(xs, env, ctrl, args);
      case Seq(xs) =>
        ctrl := ctrl + [Collect(|xs|)];
        ctrl := PushVisits(ctrl, xs);
      case _ => args := args + [e];
    }
  }

  method VisitList(xs: seq<Expr>, env: Env, ctrl0: seq<Op>, args0: seq<Expr>)
      returns (r: Result<()>, ctrl: seq<Op>, args: seq<Expr>)
    ensures Moves(StepVisit(List(xs), ctrl0, args0, env), r, ctrl, args)
  {
    r, ctrl, args := Ok(()), ctrl0, args0;
    if xs == [] {
      args := args + [List([])];
      return;
    }
    if !xs[0].Ident? {
      r := Err(InvalidType(xs[0], "expected (op ...)"));
      return;
    }
    r, ctrl, args := VisitCall(xs[0].id, xs[1..], env, ctrl0, args0);
  }

  method VisitCall(op: string, xs: seq<Expr>, env: Env, ctrl0: seq<Op>, args0: seq<Expr>)
      returns (r: Result<()>, ctrl: seq<Op>, args: seq<Expr>)
    ensures Moves(StepApply(op, xs, ctrl0, args0, env), r, ctrl, args)
  {
    r, ctrl, args := Ok(()), ctrl0, args0;
    match FormOf(op) {
      case Short(goOn) =>
        if xs == [] {
          args := args + [Bool(goOn)];
        } else {
          ctrl := PushVisits(ctrl, xs[1..]);
          ctrl := ctrl + [ShortOp(goOn, |xs| - 1), Visit(xs[0])];
        }
      case Conditional =>
        if |xs| != 3 {
          r := Err(IF_ARITY);
        } else {
          ctrl := ctrl + [Visit(xs[2]), Visit(xs[1]), If, Visit(xs[0])];
        }
      case Existence =>
        var b := AllExist(xs, env);
        if b.Ok? {
          args := args + [Bool(b.value)];
        } else {
          r := Err(b.error);
        }
      case Plain =>
        match CheckStrict(op, |xs|) {
          case Ok(strict) =>
            ctrl := ctrl + StrictOps(strict, |xs|);
            ctrl := PushVisits(ctrl, xs);
          case Err(e) => r := Err(e);
        }
    }
  }

  /** One turn of the loop for the operation popped off the control stack.  The requirement is
      what makes every pop below safe. */
  method Perform(op: Op, env: Env, ctrl0: seq<Op>, args0: seq<Expr>)
      returns (r: Result<()>, ctrl: seq<Op>, args: seq<Expr>)
    requires StepOp(op, ctrl0, args0, env) != Panic
    ensures Moves(StepOp(op, ctrl0, args0, env), r, ctrl, args)
  {
    r, ctrl, args := Ok(()), ctrl0, args0;
    match op {
      case Visit(e) => r, ctrl, args := VisitExpr(e, env, ctrl, args);
      case And(n) => r, ctrl, args := ShortCircuit(true, n, ctrl, args);
      case Or(n) => r, ctrl, args := ShortCircuit(false, n, ctrl, args);
      case If => r, ctrl, args := Branch(ctrl, args);
      case Collect(n) => args := args[..|args| - n] + [Seq(args[|args| - n..])];
      case _ => r, args := Compute(op, env, ctrl, args);
    }
  }

  /** The operations that replace arguments by one value. */
  method Compute(op: Op, env: Env, ghost ctrl: seq<Op>, args0: seq<Expr>)
      returns (r: Result<()>, args: seq<Expr>)
    requires op.Not? || op.Relate? || op.Member?
    requires StepOp(op, ctrl, args0, env) != Panic
    ensures Moves(StepOp(op, ctrl, args0, env), r, ctrl, args)
  {
    r, args := Ok(()), args0;
    match op {
      case Not =>
        var v := Last(args);
        args := Front(args);
        if v.Bool? {
          args := args + [Bool(!v.b)];
        } else {
          r := Err(InvalidType(v, "'not' expects boolean arguments"));
        }
      case Relate(rel, n) =>
        var p := EvalPredicate(rel, n, args);
        if p.Ok? {
          args := p.value;
        } else {
          r := Err(p.error);
        }
      case Member =>
        var s := Last(args);
        args := Front(args);
        var y := Last(args);
        args := Front(args);
        var b := MemberOf(y, s);
        if b.Ok? {
          args := args + [b.value];
        } else {
          r := Err(b.error);
        }
    }
  }

  method ShortCircuit(goOn: bool, n: nat, ctrl0: seq<Op>, args0: seq<Expr>)
      returns (r: Result<()>, ctrl: seq<Op>, args: seq<Expr>)
    requires StepShort(goOn, n, ctrl0, args0) != Panic
    ensures Moves(StepShort(goOn, n, ctrl0, args0), r, ctrl, args)
  {
    r, ctrl, args := Ok(()), ctrl0, args0;
    if n == 0 {
      return;
    }
    var v := Last(args);
    args := Front(args);
    if v == Bool(goOn) {
      var x := Last(ctrl);
      ctrl := Front(ctrl);
      ctrl := ctrl + [ShortOp(goOn, n - 1)];
      ctrl := ctrl + [x];
    } else if v == Bool(!goOn) {
      for i := 0 to n
        invariant ctrl == ctrl0[..|ctrl0| - i]
      {
        ctrl := Front(ctrl);
      }
      args := args + [Bool(!goOn)];
    } else {
      r := Err(InvalidType(v, ShortMessage(goOn)));
    }
  }

  method Branch(ctrl0: seq<Op>, args0: seq<Expr>)
      returns (r: Result<()>, ctrl: seq<Op>, args: seq<Expr>)
    requires StepIf(ctrl0, args0) != Panic
    ensures Moves(StepIf(ctrl0, args0), r, ctrl, args)
  {
    var t := Last(ctrl0);
    ctrl := Front(ctrl0);
    var f := Last(ctrl);
    ctrl := Front(ctrl);
    var v := Last(args0);
    r, args := Ok(()), Front(args0);
    if v == Bool(true) {
      ctrl := ctrl + [t];
    } else if v == Bool(false) {
      ctrl := ctrl + [f];
    } else {
      r := Err(InvalidType(v, "'if' expects test to evaluate to bool"));
    }
  }

  /** The loop.  It returns exactly the value or the first error of the recursive evaluator, for
      every expression that has one in the environment. */
  method Evaluate(expr: Expr, env: Env, ghost d: nat) returns (r: Result<Expr>)
    requires Eval(expr, env, d) != Deep
    ensures r == Answer(Eval(expr, env, d))
  {
    var ctrl: seq<Op> := [Visit(expr)];
    var args: seq<Expr> := [];
    ghost var total := Final(expr, env, d);
    ghost var k := 0;
    while ctrl != []
      invariant k <= total
      invariant Steps(k, Start(expr), env) == Run(ctrl, args)
      decreases total - k
    {
      NextState(expr, env, k, total);
      var x := Last(ctrl);
      ctrl := Front(ctrl);
      var e: Result<()>;
      e, ctrl, args := Perform(x, env, ctrl, args);
      k := k + 1;
      if e.Err? {
        HaltsOnce(k, total, Start(expr), env);
        return Err(e.error);
      }
    }
    NextState(expr, env, k, total);
    HaltsOnce(k + 1, total, Start(expr), env);
    return Ok(args[0]);
  }

  /** A running state is followed by a step that does not panic, and is not the last one. */
  lemma NextState(e: Expr, env: Env, k: nat, total: nat)
    requires k <= total && Steps(k, Start(e), env).Run? && Steps(total, Start(e), env).Halt?
    ensures k < total
    ensures Steps(k + 1, Start(e), env) == Step(Steps(k, Start(e), env), env) != Panic
  {
    NeverPanics(e, env, k + 1);
    StepsAdd(k, 1, Start(e), env);
    assert Steps(1, Steps(k, Start(e), env), env) == Steps(0, Step(Steps(k, Start(e), env), env), env);
  }
}
