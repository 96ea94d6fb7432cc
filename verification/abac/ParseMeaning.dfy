/** What tokens, brackets and several expressions at the top level are parsed as, and how expressions are
    laid out when printed. */
module ParseMeaning {
  import opened Options
  import opened Sequences
  import opened Exprs
  import opened Grammar
  import opened Printer

  // ----- Tokens -----

  /** Letters and ! $ % & * / < = > ? ^ _ ~, by code point. */
  predicate FirstCharacter(n: int) {
    65 <= n <= 90 || 97 <= n <= 122 || n in {33, 36, 37, 38, 42, 47, 60, 61, 62, 63, 94, 95, 126}
  }

  /** Digits and + , - . : ; @ besides. */
  predicate LaterCharacter(n: int) {
    FirstCharacter(n) || 48 <= n <= 57 || n in {43, 44, 45, 46, 58, 59, 64}
  }

  lemma IdentifierCharacters(c: char)
    ensures IdentStart(c) <==> FirstCharacter(c as int)
    ensures IdentRest(c) <==> LaterCharacter(c as int)
  {
    var t := "!$%&*/<=>?~_^";
    assert t[0] == '!' && t[1] == '$' && t[2] == '%' && t[3] == '&' && t[4] == '*' && t[5] == '/';
    assert t[6] == '<' && t[7] == '=' && t[8] == '>' && t[9] == '?' && t[10] == '~' && t[11] == '_' && t[12] == '^';
  }

  predicate Identifier(w: string) {
    w != "" && FirstCharacter(w[0] as int) && forall i :: 1 <= i < |w| ==> LaterCharacter(w[i] as int)
  }

  lemma PatternMeans(w: string)
    ensures IdentPattern(w) <==> Identifier(w)
  {
    forall i | 0 <= i < |w|
      ensures (IdentStart(w[i]) <==> FirstCharacter(w[i] as int)) && (IdentRest(w[i]) <==> LaterCharacter(w[i] as int))
    {
      IdentifierCharacters(w[i]);
    }
  }

  lemma TokensStandFor(i: int, w: string, f: Exprs.Float)
    ensures Read(Blank) == Skip && Read(LParen) == Sym(Open(Round)) && Read(RParen) == Sym(Close(Round))
    ensures Read(Reserved("[")) == Sym(Open(Square)) && Read(Reserved("]")) == Sym(Close(Square))
    ensures Read(Keyword("true")) == Sym(Atom(Bool(true))) && Read(Keyword("false")) == Sym(Atom(Bool(false)))
    ensures Read(Id(w)) == Sym(Atom(Ident(w)))
    ensures -9223372036854775808 <= i <= 9223372036854775807 ==> Read(Integer(i)) == Sym(Atom(Int(i)))
    ensures i < -9223372036854775808 || i > 9223372036854775807 ==> Read(Integer(i)) == Bad(IntRange)
    ensures Read(Text(Some(w))) == Sym(Atom(Str(w))) && Read(Number(Some(f))) == Sym(Atom(Expr.Float(f)))
    ensures Read(Garbage) == Bad(Lexical) && Read(Number(None)) == Bad(FloatSyntax) && Read(Text(None)) == Bad(Utf8)
  {
  }

  /** Other keywords and reserved words are identifiers if they have the characters for it. */
  lemma WordsStandFor(w: string)
    ensures var r := if Identifier(w) then Sym(Atom(Ident(w))) else Bad(InvalidWord(w));
            && (w != "true" && w != "false" ==> Read(Keyword(w)) == r)
            && (w != "[" && w != "]" ==> Read(Reserved(w)) == r)
  {
    PatternMeans(w);
  }

  /** A token that cannot be read is reported with its own error. */
  lemma BadTokenIsReported(t: Token, rest: seq<Token>, e: ParseError)
    requires Read(t) == Bad(e)
    ensures Parse([t] + rest) == Reject(e)
  {
  }

  // ----- Brackets -----

  /** Tokens that can all be read are parsed as their symbols, errors included. */
  lemma {:induction false} ReadableTokens(ts: seq<Token>, s: State)
    requires Readable(ts)
    ensures TokenValues(ts, s) == Values(Symbols(ts), s)
    decreases |ts|
  {
    if ts != [] {
      var rest := ts[1..];
      assert forall i :: 0 <= i < |rest| ==> rest[i] == ts[i + 1];
      if Read(ts[0]).Skip? {
        ReadableTokens(rest, s);
      } else {
        var sym := Read(ts[0]).sym;
        assert ([sym] + Symbols(rest))[1..] == Symbols(rest);
        if Shift(s, sym).Accept? {
          ReadableTokens(rest, Shift(s, sym).value);
        }
      }
    }
  }

  /** No expression gives nothing, one gives itself, and several make one list. */
  lemma SeveralMakeAList(ts: seq<Token>, vs: seq<Expr>)
    requires Readable(ts) && Symbols(ts) == ShowAll(vs) && AllWellTyped(vs)
    ensures |vs| == 0 ==> Parse(ts) == Accept(None)
    ensures |vs| == 1 ==> Parse(ts) == Accept(Some(vs[0]))
    ensures |vs| >= 2 ==> Parse(ts) == Accept(Some(List(vs)))
  {
    var start := State([], []);
    ReadableTokens(ts, start);
    ReadAllShown(vs, [], start);
    Empty(ShowAll(vs));
    Empty(vs);
  }

  /** A bracket that is not closed is reported by its kind. */
  lemma UnclosedIsReported(ts: seq<Token>, vs: seq<Expr>, k: Kind, ws: seq<Expr>)
    requires Readable(ts) && AllWellTyped(vs) && AllWellTyped(ws)
    requires Symbols(ts) == ShowAll(vs) + ([Open(k)] + (ShowAll(ws) + []))
    ensures Parse(ts) == Reject(Unclosed(k))
  {
    InsideBracket(ts, vs, k, ws, []);
  }

  /** A bracket that is closed by one of the other kind is reported by the kind of the opening one. */
  lemma MismatchIsReported(ts: seq<Token>, vs: seq<Expr>, k: Kind, ws: seq<Expr>, k': Kind, rest: seq<Symbol>)
    requires Readable(ts) && AllWellTyped(vs) && AllWellTyped(ws) && k' != k
    requires Symbols(ts) == ShowAll(vs) + ([Open(k)] + (ShowAll(ws) + ([Close(k')] + rest)))
    ensures Parse(ts) == Reject(Unmatched(k))
  {
    InsideBracket(ts, vs, k, ws, [Close(k')] + rest);
  }

  lemma InsideBracket(ts: seq<Token>, vs: seq<Expr>, k: Kind, ws: seq<Expr>, rest: seq<Symbol>)
    requires Readable(ts) && AllWellTyped(vs) && AllWellTyped(ws)
    requires Symbols(ts) == ShowAll(vs) + ([Open(k)] + (ShowAll(ws) + rest))
    ensures TokenValues(ts, State([], [])) == Values(rest, State([Frame(k, vs)], ws))
  {
    var start, inner := State([], []), [Open(k)] + (ShowAll(ws) + rest);
    ReadableTokens(ts, start);
    ReadAllShown(vs, inner, start);
    Empty(vs);
    Empty(ws);
    Empty([Frame(k, vs)]);
    assert inner[1..] == ShowAll(ws) + rest;
    ReadAllShown(ws, rest, State([Frame(k, vs)], []));
  }

  // ----- Layout -----

  /** The tokens of an expression, with one blank between elements and none elsewhere. */
  function Layout(e: Expr, lex: Lexer): seq<Token>
    decreases e, 1
  {
    match e
    case List(xs) => [LParen] + Joined(xs, lex) + [RParen]
    case Seq(xs) => [Reserved("[")] + Joined(xs, lex) + [Reserved("]")]
    case _ => [Lex(e, lex)]
  }

  function Joined(xs: seq<Expr>, lex: Lexer): seq<Token>
    decreases xs, 0
  {
    if xs == [] then []
    else if |xs| == 1 then Layout(xs[0], lex)
    else Layout(xs[0], lex) + ([Blank] + Joined(xs[1..], lex))
  }

  lemma {:induction false} PrintLaysOut(e: Expr, lex: Lexer, out: seq<Token>)
    ensures Print(e, lex, out) == out + Layout(e, lex)
    decreases e, 1
  {
    match e
    case List(xs) => GroupLaysOut(xs, lex, out, LParen, RParen);
    case Seq(xs) => GroupLaysOut(xs, lex, out, Reserved("["), Reserved("]"));
    case _ =>
  }

  lemma {:induction false} GroupLaysOut(xs: seq<Expr>, lex: Lexer, out: seq<Token>, open: Token, close: Token)
    ensures PrintSpaced(xs, lex, out + [open]) + [close] == out + ([open] + Joined(xs, lex) + [close])
    decreases xs, 1
  {
    SpacedLaysOut(xs, lex, out + [open]);
    Assoc(out, [open], Joined(xs, lex));
    Assoc(out, [open] + Joined(xs, lex), [close]);
  }

  lemma {:induction false} SpacedLaysOut(xs: seq<Expr>, lex: Lexer, out: seq<Token>)
    ensures PrintSpaced(xs, lex, out) == out + Joined(xs, lex)
    decreases xs, 0
  {
    if xs == [] {
      Empty(out);
    } else {
      PrintLaysOut(xs[0], lex, out);
      var first := out + Layout(xs[0], lex);
      if |xs| == 1 {
        assert PrintSpaced(xs[1..], lex, first) == first;
      } else {
        SpacedLaysOut(xs[1..], lex, first + [Blank]);
        Assoc(first, [Blank], Joined(xs[1..], lex));
        Assoc(out, Layout(xs[0], lex), [Blank] + Joined(xs[1..], lex));
      }
    }
  }

  /** Two leaves, as they are printed. */
  lemma TwoLeaves(a: Leaf, b: Leaf, lex: Lexer)
    ensures Print(List([a, b]), lex, []) == [LParen, Lex(a, lex), Blank, Lex(b, lex), RParen]
    ensures Print(Seq([a, b]), lex, []) == [Reserved("["), Lex(a, lex), Blank, Lex(b, lex), Reserved("]")]
  {
    PrintLaysOut(List([a, b]), lex, []);
    PrintLaysOut(Seq([a, b]), lex, []);
    assert [a, b][1..] == [b];
    assert Joined([b], lex) == Layout(b, lex) == [Lex(b, lex)];
    assert Joined([a, b], lex) == Layout(a, lex) + ([Blank] + Joined([a, b][1..], lex));
    assert Joined([a, b], lex) == [Lex(a, lex), Blank, Lex(b, lex)];
  }
}
