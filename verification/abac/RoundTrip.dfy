/** Printing and parsing undo each other. */
module RoundTrip {
  import opened Options
  import opened Sequences
  import opened Exprs
  import opened Grammar
  import opened Printer

  /** The lexer reads the text of every identifier in `e` back as that identifier. */
  predicate Lexes(e: Expr, lex: Lexer) {
    match e
    case Ident(v) => v in lex && Read(lex[v]) == Sym(Atom(e))
    case Seq(xs) => forall i :: 0 <= i < |xs| ==> Lexes(xs[i], lex)
    case List(xs) => forall i :: 0 <= i < |xs| ==> Lexes(xs[i], lex)
    case _ => true
  }

  // ----- What the printed text is read as -----

  /** The symbol as which a token is read, if it is one. */
  function SymbolOf(t: Token): seq<Symbol> {
    if Read(t).Sym? then [Read(t).sym] else []
  }

  /** The symbols as which the printed text of an expression is read, whatever the lexer makes of its
      identifiers. */
  function Printed(e: Expr, lex: Lexer): seq<Symbol>
    decreases e, 1
  {
    match e
    case List(xs) => [Open(Round)] + PrintedAll(xs, lex) + [Close(Round)]
    case Seq(xs) => [Open(Square)] + PrintedAll(xs, lex) + [Close(Square)]
    case _ => SymbolOf(Lex(e, lex))
  }

  function PrintedAll(xs: seq<Expr>, lex: Lexer): seq<Symbol>
    decreases xs, 0
  {
    if xs == [] then [] else Printed(xs[0], lex) + PrintedAll(xs[1..], lex)
  }

  /** The tokens are read as these symbols and, if so claimed, none of them is unreadable. */
  predicate Spells(ts: seq<Token>, syms: seq<Symbol>, clean: bool) {
    Symbols(ts) == syms && (clean ==> Readable(ts))
  }

  lemma {:induction false} SymbolsPush(ts: seq<Token>, t: Token)
    ensures Symbols(ts + [t]) == Symbols(ts) + SymbolOf(t)
  {
    if ts == [] {
      assert ts + [t] == [t] && [t][1..] == [];
    } else {
      SymbolsPush(ts[1..], t);
      assert (ts + [t])[1..] == ts[1..] + [t];
    }
  }

  lemma SpellsPush(ts: seq<Token>, syms: seq<Symbol>, t: Token, clean: bool)
    requires Spells(ts, syms, clean) && (clean ==> !Read(t).Bad?)
    ensures Spells(ts + [t], syms + SymbolOf(t), clean)
  {
    SymbolsPush(ts, t);
  }

  lemma LexReads(e: Leaf, lex: Lexer)
    ensures SymbolOf(Lex(e, lex)) == [Atom(e)] <==> Lexes(e, lex)
    ensures Lexes(e, lex) ==> Read(Lex(e, lex)) == Sym(Atom(e))
  {
  }

  lemma {:induction false} PrintSpells(e: Expr, lex: Lexer, out: seq<Token>, syms: seq<Symbol>, clean: bool)
    requires Spells(out, syms, clean) && (clean ==> Lexes(e, lex))
    ensures Spells(Print(e, lex, out), syms + Printed(e, lex), clean)
    decreases e, 1
  {
    match e
    case List(xs) => PrintGroupSpells(Round, xs, lex, out, syms, LParen, RParen, clean);
    case Seq(xs) => PrintGroupSpells(Square, xs, lex, out, syms, Reserved("["), Reserved("]"), clean);
    case _ =>
      LexReads(e, lex);
      SpellsPush(out, syms, Lex(e, lex), clean);
  }

  predicate AllLex(xs: seq<Expr>, lex: Lexer) {
    forall i :: 0 <= i < |xs| ==> Lexes(xs[i], lex)
  }

  lemma {:induction false} PrintGroupSpells(
      k: Kind, xs: seq<Expr>, lex: Lexer, out: seq<Token>, syms: seq<Symbol>, open: Token, close: Token, clean: bool)
    requires Spells(out, syms, clean) && (clean ==> AllLex(xs, lex))
    requires Read(open) == Sym(Open(k)) && Read(close) == Sym(Close(k))
    ensures Spells(PrintSpaced(xs, lex, out + [open]) + [close],
                   syms + ([Open(k)] + PrintedAll(xs, lex) + [Close(k)]), clean)
    decreases xs, 1
  {
    var inner := PrintedAll(xs, lex);
    SpellsPush(out, syms, open, clean);
    PrintSpacedSpells(xs, lex, out + [open], syms + [Open(k)], clean);
    SpellsPush(PrintSpaced(xs, lex, out + [open]), syms + [Open(k)] + inner, close, clean);
    Assoc(syms + [Open(k)], inner, [Close(k)]);
    Assoc(syms, [Open(k)], inner + [Close(k)]);
    Assoc([Open(k)], inner, [Close(k)]);
  }

  lemma {:induction false} PrintSpacedSpells(
      xs: seq<Expr>, lex: Lexer, out: seq<Token>, syms: seq<Symbol>, clean: bool)
    requires Spells(out, syms, clean) && (clean ==> AllLex(xs, lex))
    ensures Spells(PrintSpaced(xs, lex, out), syms + PrintedAll(xs, lex), clean)
    decreases xs, 0
  {
    if xs == [] {
      Empty(syms);
    } else {
      PrintSpells(xs[0], lex, out, syms, clean);
      var first, more := Print(xs[0], lex, out), syms + Printed(xs[0], lex);
      SpellsPush(first, more, Blank, clean);
      Empty(more);
      PrintSpacedSpells(xs[1..], lex, if |xs| > 1 then first + [Blank] else first, more, clean);
      Assoc(syms, Printed(xs[0], lex), PrintedAll(xs[1..], lex));
    }
  }

  /** Printed text has no more symbols than the expression, and the same ones exactly when the lexer
      reads its identifiers back. */
  lemma {:induction false} PrintedIsShown(e: Expr, lex: Lexer)
    ensures |Printed(e, lex)| <= |Show(e)|
    ensures Printed(e, lex) == Show(e) <==> Lexes(e, lex)
    decreases e, 1
  {
    if e.List? || e.Seq? {
      var k := if e.List? then Round else Square;
      AllPrintedIsShown(e.elems, lex);
      SameGroup(k, PrintedAll(e.elems, lex), ShowAll(e.elems));
    } else {
      LexReads(e, lex);
    }
  }

  lemma SameGroup(k: Kind, a: seq<Symbol>, b: seq<Symbol>)
    ensures [Open(k)] + a + [Close(k)] == [Open(k)] + b + [Close(k)] <==> a == b
  {
    if [Open(k)] + a + [Close(k)] == [Open(k)] + b + [Close(k)] {
      EqualParts([Open(k)] + a, [Close(k)], [Open(k)] + b, [Close(k)]);
      EqualParts([Open(k)], a, [Open(k)], b);
    }
  }

  lemma {:induction false} AllPrintedIsShown(xs: seq<Expr>, lex: Lexer)
    ensures |PrintedAll(xs, lex)| <= |ShowAll(xs)|
    ensures PrintedAll(xs, lex) == ShowAll(xs) <==> AllLex(xs, lex)
    decreases xs, 0
  {
    if xs != [] {
      var tail := xs[1..];
      PrintedIsShown(xs[0], lex);
      AllPrintedIsShown(tail, lex);
      ShowHead(xs);
      SameParts(Printed(xs[0], lex), PrintedAll(tail, lex), Show(xs[0]), ShowAll(tail));
      assert AllLex(xs, lex) <==> Lexes(xs[0], lex) && AllLex(tail, lex) by {
        assert forall i :: 1 <= i < |xs| ==> xs[i] == tail[i - 1];
        assert forall i :: 0 <= i < |tail| ==> tail[i] == xs[i + 1];
      }
    }
  }

  lemma SameParts(a: seq<Symbol>, b: seq<Symbol>, c: seq<Symbol>, d: seq<Symbol>)
    requires |a| <= |c| && |b| <= |d|
    ensures a + b == c + d <==> a == c && b == d
  {
    if a + b == c + d {
      assert |a + b| == |c + d|;
      EqualParts(a, b, c, d);
    }
  }

  // ----- Open brackets -----

  function Opens(syms: seq<Symbol>): nat {
    if syms == [] then 0 else (if syms[0].Open? then 1 else 0) + Opens(syms[1..])
  }

  lemma {:induction false} OpensAppend(a: seq<Symbol>, b: seq<Symbol>)
    ensures Opens(a + b) == Opens(a) + Opens(b)
  {
    if a == [] {
      Empty(b);
    } else {
      OpensAppend(a[1..], b);
      TailOfAppend(a, b);
    }
  }

  lemma {:induction false} OpensOfOpens(opens: seq<Symbol>)
    requires OnlyOpens(opens)
    ensures Opens(opens) == |opens|
  {
    if opens != [] {
      OpensOfOpens(opens[1..]);
    }
  }

  lemma OpensOfGroup(k: Kind, syms: seq<Symbol>)
    ensures Opens([Open(k)] + syms + [Close(k)]) == 1 + Opens(syms)
  {
    OpensAppend([Open(k)] + syms, [Close(k)]);
    OpensAppend([Open(k)], syms);
    assert [Open(k)][1..] == [] && [Close(k)][1..] == [];
  }

  /** Brackets are always read as such, so printed text opens at least as many as the expression. */
  lemma {:induction false} PrintedOpens(e: Expr, lex: Lexer)
    ensures Opens(Printed(e, lex)) >= Opens(Show(e))
    decreases e, 1
  {
    if e.List? || e.Seq? {
      var k := if e.List? then Round else Square;
      AllPrintedOpens(e.elems, lex);
      OpensOfGroup(k, PrintedAll(e.elems, lex));
      OpensOfGroup(k, ShowAll(e.elems));
    } else {
      assert Show(e)[1..] == [];
    }
  }

  lemma {:induction false} AllPrintedOpens(xs: seq<Expr>, lex: Lexer)
    ensures Opens(PrintedAll(xs, lex)) >= Opens(ShowAll(xs))
    decreases xs, 0
  {
    if xs != [] {
      PrintedOpens(xs[0], lex);
      AllPrintedOpens(xs[1..], lex);
      ShowHead(xs);
      OpensAppend(Printed(xs[0], lex), PrintedAll(xs[1..], lex));
      OpensAppend(Show(xs[0]), ShowAll(xs[1..]));
    }
  }

  // ----- The round trip -----

  lemma ShowSingle(e: Expr)
    ensures ShowAll([e]) == Show(e)
  {
    assert [e][1..] == [] && Show(e) + [] == Show(e);
  }

  /** Printing and then parsing gives the expression back exactly when its sequences are well-typed and
      the lexer reads its identifiers back as themselves. */
  lemma PrintThenParse(e: Expr, lex: Lexer)
    ensures Parse(Print(e, lex, [])) == Accept(Some(e)) <==> WellTyped(e) && Lexes(e, lex)
  {
    var ts := Print(e, lex, []);
    if WellTyped(e) && Lexes(e, lex) {
      PrintSpells(e, lex, [], [], true);
      PrintedIsShown(e, lex);
      Empty(Show(e));
      ShowSingle(e);
      AcceptedExactly(Show(e), [e]);
      TokensAreSymbols(ts, State([], []), [e]);
      assert ShowAll([e]) == [] + Show(e);
    }
    if Parse(ts) == Accept(Some(e)) {
      ComesBack(e, lex);
    }
  }

  lemma ComesBack(e: Expr, lex: Lexer)
    requires Parse(Print(e, lex, [])) == Accept(Some(e))
    ensures WellTyped(e) && Lexes(e, lex)
  {
    var ts, syms := Print(e, lex, []), Printed(e, lex);
    var vs := TokenValues(ts, State([], [])).value;
    PrintSpells(e, lex, [], [], false);
    Empty(syms);
    TokensAreSymbols(ts, State([], []), vs);
    AcceptedExactly(syms, vs);
    var opens :| OnlyOpens(opens) && ShowAll(vs) == opens + syms;
    OneValueCameBack(e, lex, vs, opens);
    ShowSingle(e);
    Empty(syms);
    PrintedIsShown(e, lex);
  }

  /** Counting open brackets: nothing was left out in front, and one value was read. */
  lemma OneValueCameBack(e: Expr, lex: Lexer, vs: seq<Expr>, opens: seq<Symbol>)
    requires Expression(vs) == Some(e) && OnlyOpens(opens) && ShowAll(vs) == opens + Printed(e, lex)
    ensures vs == [e] && opens == []
  {
    OpensAppend(opens, Printed(e, lex));
    OpensOfOpens(opens);
    PrintedOpens(e, lex);
    if |vs| == 1 {
      ShowSingle(e);
    } else {
      OpensOfGroup(Round, ShowAll(vs));
    }
  }

  /** One token in front of others. */
  lemma ReadFirst(t: Token, ts: seq<Token>, s: State)
    ensures Read(t).Skip? ==> TokenValues([t] + ts, s) == TokenValues(ts, s)
    ensures Read(t).Sym? ==>
              var r := Shift(s, Read(t).sym);
              TokenValues([t] + ts, s) == if r.Accept? then TokenValues(ts, r.value) else Reject(r.error)
  {
    assert ([t] + ts)[1..] == ts;
  }

  /** A sequence of a number and a text is printed but not parsed. */
  lemma MixedSequenceIsRefused(lex: Lexer)
    ensures Parse(Print(Seq([Int(1), Str("a")]), lex, [])) == Reject(Mixed(Int(1), Str("a")))
  {
    MixedPrinted(lex);
    MixedShifts();
    MixedRead([Reserved("]")]);
    assert [Reserved("["), Integer(1), Blank, Text(Some("a")), Reserved("]")] ==
           [Reserved("[")] + ([Integer(1)] + ([Blank] + ([Text(Some("a"))] + [Reserved("]")])));
    Empty([Reserved("]")]);
    ReadFirst(Reserved("]"), [], State([Frame(Square, [])], [Int(1), Str("a")]));
  }

  /** The tokens of the two elements. */
  lemma MixedRead(ts: seq<Token>)
    ensures TokenValues([Reserved("[")] + ([Integer(1)] + ([Blank] + ([Text(Some("a"))] + ts))), State([], [])) ==
            TokenValues(ts, State([Frame(Square, [])], [Int(1), Str("a")]))
  {
    var s1 := State([Frame(Square, [])], []);
    var s2 := s1.(vals := [Int(1)]);
    var t3 := [Text(Some("a"))] + ts;
    var t2 := [Blank] + t3;
    MixedShifts();
    ReadFirst(Reserved("["), [Integer(1)] + t2, State([], []));
    ReadFirst(Integer(1), t2, s1);
    ReadFirst(Blank, t3, s2);
    ReadFirst(Text(Some("a")), ts, s2);
  }

  lemma MixedShifts()
    ensures var s1 := State([Frame(Square, [])], []);
            var s2, s3 := s1.(vals := [Int(1)]), s1.(vals := [Int(1), Str("a")]);
            && Shift(State([], []), Open(Square)) == Accept(s1)
            && Shift(s1, Atom(Int(1))) == Accept(s2)
            && Shift(s2, Atom(Str("a"))) == Accept(s3)
            && Shift(s3, Close(Square)) == Reject(Mixed(Int(1), Str("a")))
  {
    Empty([Frame(Square, [])]);
    Empty([Int(1)]);
    assert [Int(1)] + [Str("a")] == [Int(1), Str("a")];
    assert CheckSeq([Int(1), Str("a")]) == Err(TypeMismatch(Int(1), Str("a")));
  }

  lemma MixedPrinted(lex: Lexer)
    ensures Print(Seq([Int(1), Str("a")]), lex, []) ==
            [Reserved("["), Integer(1), Blank, Text(Some("a")), Reserved("]")]
  {
    var xs := [Int(1), Str("a")];
    var o1 := [Reserved("[")];
    var o2 := o1 + [Integer(1)] + [Blank];
    assert xs[1..] == [Str("a")] && xs[1..][1..] == [];
    assert [] + o1 == o1;
    assert PrintSpaced([], lex, o2 + [Text(Some("a"))]) == o2 + [Text(Some("a"))];
    assert PrintSpaced(xs[1..], lex, o2) == o2 + [Text(Some("a"))];
    assert PrintSpaced(xs, lex, o1) == PrintSpaced(xs[1..], lex, o2);
  }

  /** What the parser returns, for any tokens at all, survives being printed and parsed exactly when the
      lexer reads its identifiers back as themselves. */
  lemma ParsedSurvives(ts: seq<Token>, e: Expr, lex: Lexer)
    requires Parse(ts) == Accept(Some(e))
    ensures Parse(Print(e, lex, [])) == Accept(Some(e)) <==> Lexes(e, lex)
  {
    var vs := TokenValues(ts, State([], [])).value;
    TokensAreSymbols(ts, State([], []), vs);
    AcceptedExactly(Symbols(ts), vs);
    PrintThenParse(e, lex);
  }

  /** It need not: any word of an identifier token becomes an identifier, but printed bare, "true" is
      read as a boolean. */
  lemma IdentifierComesBackAsBoolean(lex: Lexer)
    requires "true" in lex && lex["true"] == Keyword("true")
    ensures Parse([Id("true")]) == Accept(Some(Ident("true")))
    ensures Parse(Print(Ident("true"), lex, [])) == Accept(Some(Bool(true)))
  {
    ParseOne(Id("true"), Ident("true"));
    ParseOne(Keyword("true"), Bool(true));
    Empty([Keyword("true")]);
  }

  lemma ParseOne(t: Token, e: Leaf)
    requires Read(t) == Sym(Atom(e))
    ensures Parse([t]) == Accept(Some(e))
  {
    Empty([t]);
    Empty([e]);
    ReadFirst(t, [], State([], []));
    assert Shift(State([], []), Atom(e)) == Accept(State([], [e]));
  }

  /** Nothing is required of brackets at the top level: a stray closing bracket is accepted, and
      wraps what came before it. */
  lemma StrayCloserIsAccepted(e: Leaf, lex: Lexer)
    requires Lexes(e, lex)
    ensures Parse([Lex(e, lex), RParen]) == Accept(Some(List([e])))
  {
    LexReads(e, lex);
    var ts := [Lex(e, lex), RParen];
    assert ts[1..] == [RParen] && ts[1..][1..] == [];
    assert [] + [e] == [e];
    assert Shift(State([], [e]), Close(Round)) == Closed(Accept(List([e])), [], []);
    assert [] + [List([e])] == [List([e])];
    assert TokenValues([RParen], State([], [e])) == TokenValues([RParen][1..], State([], [List([e])]));
  }
}
