/** What a policy expression means: a recursive, left-to-right, short-circuiting evaluator.

    Identifiers are looked up in the environment and their bindings are evaluated in turn, so an
    expression that looks up a cycle has no answer.  The parameter `d` bounds how many bindings may be nested
    inside one another; an evaluation that needs more is `Deep`. */
module Semantics {
  import opened Options
  import opened Exprs
  import opened Compare

  type Env = map<string, Expr>

  datatype Outcome<+T> = Done(value: T) | Failed(error: EvalError) | Deep {
    predicate IsFailure() { !Done? }
    function PropagateFailure<U>(): Outcome<U>
      requires IsFailure()
    {
      if Failed? then Failed(error) else Deep
    }
    function Extract(): T
      requires Done?
    {
      value
    }
  }

  function FromResult<T>(r: Result<T>): Outcome<T> {
    match r case Ok(v) => Done(v) case Err(e) => Failed(e)
  }

  datatype Relation = Eq | Lt | Gt

  function Holds(rel: Relation, x: Expr, y: Expr): Result<bool> {
    match rel
    case Eq => Same(x, y)
    case Lt => Is(Less, Order(x, y))
    case Gt => Is(Greater, Order(x, y))
  }

  function Is(o: Ordering, r: Cmp): Result<bool> {
    match r case Ok(v) => Ok(v == Some(o)) case Err(e) => Err(e)
  }

  /** Every adjacent pair is related; the first pair that is not, or that errs, decides. */
  function Chain(rel: Relation, vs: seq<Expr>): Result<bool> {
    if |vs| < 2 then Ok(true)
    else
      var first := Holds(rel, vs[0], vs[1]);
      if first == Ok(true) then Chain(rel, vs[1..]) else first
  }

  /** Some element equals `y`; the first that does, or that errs, decides. */
  function Contains(y: Expr, xs: seq<Expr>): Result<bool> {
    if xs == [] then Ok(false)
    else
      var first := Same(y, xs[0]);
      if first == Ok(false) then Contains(y, xs[1..]) else first
  }

  /** All arguments are bound identifiers; the first that is unbound, or no identifier, decides. */
  function Exist(xs: seq<Expr>, env: Env): Result<bool> {
    if xs == [] then Ok(true)
    else if !xs[0].Ident? then
      Err(InvalidType(xs[0], "'exists?' expects identifiers as arguments"))
    else if xs[0].id !in env then Ok(false)
    else Exist(xs[1..], env)
  }

  function Eval(e: Expr, env: Env, d: nat): Outcome<Expr>
    decreases d, e, 2
  {
    match e
    case Ident(id) =>
      if id !in env then Failed(Unbound(id))
      else if d == 0 then Deep
      else Eval(env[id], env, d - 1)
    case List(xs) =>
      if xs == [] then Done(List([]))
      else if xs[0].Ident? then Apply(xs[0].id, xs[1..], env, d)
      else Failed(InvalidType(xs[0], "expected (op ...)"))
    case Seq(xs) =>
      var vs :- EvalAll(xs, env, d);
      Done(Seq(vs))
    case _ => Done(e)
  }

  function EvalAll(xs: seq<Expr>, env: Env, d: nat): (r: Outcome<seq<Expr>>)
    ensures r.Done? ==> |r.value| == |xs|
    decreases d, xs, 0
  {
    if xs == [] then Done([])
    else
      var v :- Eval(xs[0], env, d);
      var vs :- EvalAll(xs[1..], env, d);
      Done([v] + vs)
  }

  /** The operators by how they treat their arguments. */
  datatype Form = Short(goOn: bool) | Conditional | Existence | Plain

  function FormOf(op: string): Form {
    if op == "and" then Short(true)
    else if op == "or" then Short(false)
    else if op == "if" then Conditional
    else if op == "exists?" then Existence
    else Plain
  }

  /** Apply the operator `op` to unevaluated arguments. */
  function Apply(op: string, xs: seq<Expr>, env: Env, d: nat): Outcome<Expr>
    decreases d, xs, 1
  {
    match FormOf(op)
    case Short(goOn) => if xs == [] then Done(Bool(goOn)) else EvalShort(goOn, xs, env, d)
    case Conditional => if |xs| != 3 then Failed(IF_ARITY) else EvalIf(xs, env, d)
    case Existence => FromResult(Truth(Exist(xs, env)))
    case Plain =>
      var strict :- FromResult(CheckStrict(op, |xs|));
      var vs :- EvalAll(xs, env, d);
      FromResult(Strict(strict, vs))
  }

  const IF_ARITY: EvalError := Malformed("'if' requires three arguments")

  /** The operators that evaluate all their arguments first. */
  datatype StrictOp = OpNot | OpNotEqual | OpRelation(rel: Relation) | OpMember

  function CheckStrict(op: string, n: nat): Result<StrictOp> {
    if op == "not" then
      if n != 1 then Err(Malformed("'not' requires one argument")) else Ok(OpNot)
    else if op == "<" then
      if n < 2 then Err(Malformed("'<' requires at least two arguments")) else Ok(OpRelation(Lt))
    else if op == ">" then
      if n < 2 then Err(Malformed("'>' requires at least two arguments")) else Ok(OpRelation(Gt))
    else if op == "=" then
      if n < 2 then Err(Malformed("'=' requires at least two arguments")) else Ok(OpRelation(Eq))
    else if op == "!=" then Ok(OpNotEqual)
    else if op == "member?" then
      if n != 2 then Err(Malformed("'member?' requires two arguments")) else Ok(OpMember)
    else Err(Unknown(op))
  }

  function Strict(op: StrictOp, vs: seq<Expr>): Result<Expr>
    requires op == OpNot ==> |vs| == 1
    requires op == OpMember ==> |vs| == 2
  {
    match op
    case OpNot => Negate(vs[0])
    case OpRelation(rel) => Truth(Chain(rel, vs))
    case OpNotEqual =>
      var r := Truth(Chain(Eq, vs));
      if r.Ok? then Negate(r.value) else r
    case OpMember => IsMember(vs[0], vs[1])
  }

  function Truth(r: Result<bool>): Result<Expr> {
    match r case Ok(b) => Ok(Bool(b)) case Err(e) => Err(e)
  }

  function Negate(v: Expr): Result<Expr> {
    if v.Bool? then Ok(Bool(!v.b)) else Err(InvalidType(v, "'not' expects boolean arguments"))
  }

  function IsMember(y: Expr, s: Expr): Result<Expr> {
    if s.Seq? then Truth(Contains(y, s.elems))
    else Err(InvalidType(s, "'member?' expects sequence as second argument"))
  }

  /** `and` goes on while its arguments are true and `or` while they are false.  The last argument
      is the answer, whatever its type; the earlier ones must be booleans. */
  function EvalShort(goOn: bool, xs: seq<Expr>, env: Env, d: nat): Outcome<Expr>
    requires xs != []
    decreases d, xs, 0
  {
    var v :- Eval(xs[0], env, d);
    if |xs| == 1 then Done(v)
    else if v == Bool(goOn) then EvalShort(goOn, xs[1..], env, d)
    else if v == Bool(!goOn) then Done(v)
    else Failed(InvalidType(v, ShortMessage(goOn)))
  }

  function ShortMessage(goOn: bool): string {
    if goOn then "'and' expects boolean arguments" else "'or' expects boolean arguments"
  }

  function EvalIf(xs: seq<Expr>, env: Env, d: nat): Outcome<Expr>
    requires |xs| == 3
    decreases d, xs, 0
  {
    var v :- Eval(xs[0], env, d);
    if v == Bool(true) then Eval(xs[1], env, d)
    else if v == Bool(false) then Eval(xs[2], env, d)
    else Failed(InvalidType(v, "'if' expects test to evaluate to bool"))
  }
}
