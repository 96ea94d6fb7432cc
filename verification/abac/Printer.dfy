/** The printer as it runs, `Display`: a control stack of expressions, brackets and blanks still to
    write. */
module Printer {
  import opened Options
  import opened Exprs
  import opened Grammar

  datatype ShowOp = ShowExpr(expr: Expr) | ListEnd | SeqEnd | Space

  /** The token as which the lexer reads the text of each identifier. */
  type Lexer = map<string, Token>

  /** The token as which the lexer reads the printed text of an expression without parts. */
  function Lex(e: Leaf, lex: Lexer): Token {
    match e
    case Str(s) => Text(Some(s))
    case Int(i) => Integer(i)
    case Float(x) => Number(Some(x))
    case Bool(b) => Keyword(if b then "true" else "false")
    case Ident(v) => if v in lex then lex[v] else Garbage
  }

  // ----- What is printed -----

  /** The output `out` with the tokens of `e` written after it. */
  function Print(e: Expr, lex: Lexer, out: seq<Token>): seq<Token>
    decreases e, 1
  {
    match e
    case List(xs) => PrintSpaced(xs, lex, out + [LParen]) + [RParen]
    case Seq(xs) => PrintSpaced(xs, lex, out + [Reserved("[")]) + [Reserved("]")]
    case _ => out + [Lex(e, lex)]
  }

  /** Elements are separated by blanks. */
  function PrintSpaced(xs: seq<Expr>, lex: Lexer, out: seq<Token>): seq<Token>
    decreases xs, 0
  {
    if xs == [] then out
    else
      var first := Print(xs[0], lex, out);
      PrintSpaced(xs[1..], lex, if |xs| > 1 then first + [Blank] else first)
  }

  // ----- The loop -----

  function PrintOp(op: ShowOp, lex: Lexer, out: seq<Token>): seq<Token> {
    match op
    case ShowExpr(e) => Print(e, lex, out)
    case ListEnd => out + [RParen]
    case SeqEnd => out + [Reserved("]")]
    case Space => out + [Blank]
  }

  /** The output once a control stack has been worked off, top first. */
  ghost function Finish(ctrl: seq<ShowOp>, lex: Lexer, out: seq<Token>): seq<Token> {
    if ctrl == [] then out
    else Finish(ctrl[..|ctrl| - 1], lex, PrintOp(ctrl[|ctrl| - 1], lex, out))
  }

  /** The number of operations that printing takes. */
  ghost function Work(e: Expr): nat
    decreases e, 1
  {
    if e.Seq? || e.List? then 2 + WorkAll(e.elems) else 1
  }

  ghost function WorkAll(xs: seq<Expr>): nat
    decreases xs, 0
  {
    if xs == [] then 0 else Work(xs[0]) + 1 + WorkAll(xs[1..])
  }

  ghost function OpWork(op: ShowOp): nat {
    if op.ShowExpr? then Work(op.expr) else 1
  }

  ghost function Weight(ctrl: seq<ShowOp>): nat {
    if ctrl == [] then 0 else OpWork(ctrl[|ctrl| - 1]) + Weight(ctrl[..|ctrl| - 1])
  }

  lemma PushOp(ctrl: seq<ShowOp>, op: ShowOp, lex: Lexer, out: seq<Token>)
    ensures Finish(ctrl + [op], lex, out) == Finish(ctrl, lex, PrintOp(op, lex, out))
    ensures Weight(ctrl + [op]) == OpWork(op) + Weight(ctrl)
  {
    assert (ctrl + [op])[..|ctrl|] == ctrl;
  }

  /** The control stack on which the elements from `i` on have been pushed, and the blank before
      them. */
  ghost function Spaced(ctrl: seq<ShowOp>, xs: seq<Expr>): seq<ShowOp> {
    if xs == [] then ctrl
    else
      var rest := Spaced(ctrl, xs[1..]);
      (if |xs| > 1 then rest + [Space] else rest) + [ShowExpr(xs[0])]
  }

  lemma {:induction false} SpacedPrints(ctrl: seq<ShowOp>, xs: seq<Expr>, lex: Lexer, out: seq<Token>)
    ensures Finish(Spaced(ctrl, xs), lex, out) == Finish(ctrl, lex, PrintSpaced(xs, lex, out))
    ensures Weight(Spaced(ctrl, xs)) <= WorkAll(xs) + Weight(ctrl)
  {
    if xs != [] {
      var first := Print(xs[0], lex, out);
      var rest := Spaced(ctrl, xs[1..]);
      PushOp(if |xs| > 1 then rest + [Space] else rest, ShowExpr(xs[0]), lex, out);
      PushOp(rest, Space, lex, first);
      SpacedPrints(ctrl, xs[1..], lex, if |xs| > 1 then first + [Blank] else first);
    }
  }

  method PushSpaced(ctrl: seq<ShowOp>, xs: seq<Expr>) returns (pushed: seq<ShowOp>)
    ensures pushed == Spaced(ctrl, xs)
  {
    pushed := ctrl;
    var n := |xs|;
    for i := |xs| downto 0
      invariant n == i
      invariant pushed == if 0 < i < |xs| then Spaced(ctrl, xs[i..]) + [Space] else Spaced(ctrl, xs[i..])
    {
      assert xs[i..][1..] == xs[i + 1..];
      pushed := pushed + [ShowExpr(xs[i])];
      if n > 1 {
        pushed := pushed + [Space];
      }
      n := n - 1;
    }
    assert xs[0..] == xs;
  }

  /** The printing loop writes the tokens of the expression. */
  method Display(e: Expr, lex: Lexer) returns (out: seq<Token>)
    ensures out == Print(e, lex, [])
  {
    var ctrl := [ShowExpr(e)];
    out := [];
    PushOp([], ShowExpr(e), lex, []);
    while ctrl != []
      invariant Finish(ctrl, lex, out) == Print(e, lex, [])
      decreases Weight(ctrl)
    {
      var op := ctrl[|ctrl| - 1];
      ctrl := ctrl[..|ctrl| - 1];
      match op {
        case ShowExpr(List(xs)) =>
          out := out + [LParen];
          PushOp(ctrl, ListEnd, lex, PrintSpaced(xs, lex, out));
          ctrl := ctrl + [ListEnd];
          SpacedPrints(ctrl, xs, lex, out);
          ctrl := PushSpaced(ctrl, xs);
        case ShowExpr(Seq(xs)) =>
          out := out + [Reserved("[")];
          PushOp(ctrl, SeqEnd, lex, PrintSpaced(xs, lex, out));
          ctrl := ctrl + [SeqEnd];
          SpacedPrints(ctrl, xs, lex, out);
          ctrl := PushSpaced(ctrl, xs);
        case ShowExpr(x) => out := out + [Lex(x, lex)];
        case ListEnd => out := out + [RParen];
        case SeqEnd => out := out + [Reserved("]")];
        case Space => out := out + [Blank];
      }
    }
  }
}
