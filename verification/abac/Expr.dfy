/** Values shared by the policy language: expressions, orderings, results and errors. */
module Exprs {

  datatype Ordering = Less | Equal | Greater

  /** A signed 64-bit integer. */
  type i64 = x: int | -0x8000_0000_0000_0000 <= x < 0x8000_0000_0000_0000

  /** Double-precision values by how they compare: not-a-number compares with nothing. */
  datatype Float = NaN | NegInf | Finite(value: real) | PosInf

  datatype Expr =
    | Str(text: string)
    | Int(n: i64)
    | Float(x: Float)
    | Bool(b: bool)
    | Ident(id: string)
    | Seq(elems: seq<Expr>)
    | List(elems: seq<Expr>)

  datatype EvalError =
    | Unbound(id: string)
    | Unknown(id: string)
    | InvalidType(expr: Expr, msg: string)
    | TypeMismatch(left: Expr, right: Expr)
    | Malformed(msg: string)

  datatype Result<+T> = Ok(value: T) | Err(error: EvalError)

  /** No float anywhere inside the expression is not-a-number. */
  predicate NanFree(e: Expr)
  {
    match e
    case Float(f) => f != NaN
    case Seq(es) => forall i :: 0 <= i < |es| ==> NanFree(es[i])
    case List(es) => forall i :: 0 <= i < |es| ==> NanFree(es[i])
    case _ => true
  }

  /** The number of nodes of an expression. */
  ghost function Size(e: Expr): (n: nat)
    ensures n > 0
    decreases e, 1
  {
    if e.Seq? || e.List? then 1 + SizeAll(e.elems) else 1
  }

  ghost function SizeAll(es: seq<Expr>): nat
    decreases es, 0
  {
    if es == [] then 0 else Size(es[0]) + SizeAll(es[1..])
  }
}
