/** The evaluator as it runs: a control stack of operations and a stack of argument values,
    both with their top at the end. */
module Machine {
  import opened Exprs
  import opened Semantics

  datatype Op =
    | Visit(expr: Expr)
    | And(n: nat)
    | Or(n: nat)
    | Not
    | If
    | Relate(rel: Relation, n: nat)
    | Member
    | Collect(n: nat)

  /** `Panic` is a pop from an empty stack or an operation that takes more than there is. */
  datatype State = Run(ctrl: seq<Op>, args: seq<Expr>) | Halt(result: Result<Expr>) | Panic

  function Start(e: Expr): State {
    Run([Visit(e)], [])
  }

  /** The control items that evaluate `xs`, first element on top. */
  function Visits(xs: seq<Expr>): (ops: seq<Op>)
    ensures |ops| == |xs|
  {
    if xs == [] then [] else Visits(xs[1..]) + [Visit(xs[0])]
  }

  function Step(s: State, env: Env): State {
    if !s.Run? then s
    else if s.ctrl == [] then
      if |s.args| == 1 then Halt(Ok(s.args[0])) else Panic
    else
      var n := |s.ctrl| - 1;
      StepOp(s.ctrl[n], s.ctrl[..n], s.args, env)
  }

  function StepOp(op: Op, ctrl: seq<Op>, args: seq<Expr>, env: Env): State {
    match op
    case Visit(e) => StepVisit(e, ctrl, args, env)
    case And(n) => StepShort(true, n, ctrl, args)
    case Or(n) => StepShort(false, n, ctrl, args)
    case Not =>
      if args == [] then Panic else Push(Negate(Last(args)), ctrl, Front(args))
    case If => StepIf(ctrl, args)
    case Relate(rel, n) =>
      if |args| < n then Panic
      else Push(Truth(Chain(rel, args[|args| - n..])), ctrl, args[..|args| - n])
    case Member =>
      if |args| < 2 then Panic
      else Push(IsMember(args[|args| - 2], args[|args| - 1]), ctrl, args[..|args| - 2])
    case Collect(n) =>
      if |args| < n then Panic
      else Run(ctrl, args[..|args| - n] + [Seq(args[|args| - n..])])
  }

  function Last<T>(s: seq<T>): T
    requires s != []
  {
    s[|s| - 1]
  }

  function Front<T>(s: seq<T>): seq<T>
    requires s != []
  {
    s[..|s| - 1]
  }

  function Push(r: Result<Expr>, ctrl: seq<Op>, args: seq<Expr>): State {
    match r case Ok(v) => Run(ctrl, args + [v]) case Err(e) => Halt(Err(e))
  }

  function StepVisit(e: Expr, ctrl: seq<Op>, args: seq<Expr>, env: Env): State {
    match e
    case Ident(id) =>
      if id in env then Run(ctrl + [Visit(env[id])], args) else Halt(Err(Unbound(id)))
    case List(xs) =>
      if xs == [] then Run(ctrl, args + [List([])])
      else if xs[0].Ident? then StepApply(xs[0].id, xs[1..], ctrl, args, env)
      else Halt(Err(InvalidType(xs[0], "expected (op ...)")))
    case Seq(xs) => Run(ctrl + [Collect(|xs|)] + Visits(xs), args)
    case _ => Run(ctrl, args + [e])
  }

  function StepApply(op: string, xs: seq<Expr>, ctrl: seq<Op>, args: seq<Expr>, env: Env): State {
    match FormOf(op)
    case Short(goOn) =>
      if xs == [] then Run(ctrl, args + [Bool(goOn)])
      else Run(ctrl + Visits(xs[1..]) + [ShortOp(goOn, |xs| - 1), Visit(xs[0])], args)
    case Conditional =>
      if |xs| != 3 then Halt(Err(IF_ARITY))
      else Run(ctrl + [Visit(xs[2]), Visit(xs[1]), If, Visit(xs[0])], args)
    case Existence => Push(Truth(Exist(xs, env)), ctrl, args)
    case Plain =>
      match CheckStrict(op, |xs|)
      case Ok(strict) => Run(ctrl + StrictOps(strict, |xs|) + Visits(xs), args)
      case Err(e) => Halt(Err(e))
  }

  function StrictOps(op: StrictOp, n: nat): seq<Op> {
    match op
    case OpNot => [Not]
    case OpNotEqual => [Not, Relate(Eq, n)]
    case OpRelation(rel) => [Relate(rel, n)]
    case OpMember => [Member]
  }

  /** `and` goes on with its next argument on true and `or` on false; otherwise the `n` pending
      arguments are discarded.  With none pending the value on the stack is the answer. */
  function StepShort(goOn: bool, n: nat, ctrl: seq<Op>, args: seq<Expr>): State {
    if n == 0 then Run(ctrl, args)
    else if args == [] then Panic
    else if Last(args) == Bool(goOn) then
      if ctrl == [] then Panic
      else Run(Front(ctrl) + [ShortOp(goOn, n - 1), Last(ctrl)], Front(args))
    else if Last(args) == Bool(!goOn) then
      if |ctrl| < n then Panic else Run(ctrl[..|ctrl| - n], args)
    else
      Halt(Err(InvalidType(Last(args), ShortMessage(goOn))))
  }

  function ShortOp(goOn: bool, n: nat): Op {
    if goOn then And(n) else Or(n)
  }

  function StepIf(ctrl: seq<Op>, args: seq<Expr>): State {
    if |ctrl| < 2 || args == [] then Panic
    else if Last(args) == Bool(true) then Run(ctrl[..|ctrl| - 2] + [Last(ctrl)], Front(args))
    else if Last(args) == Bool(false) then Run(ctrl[..|ctrl| - 1], Front(args))
    else Halt(Err(InvalidType(Last(args), "'if' expects test to evaluate to bool")))
  }
}
