/** The written form of expressions: tokens, the symbols they stand for, and a parser over nested
    frames that says which symbol sequences are accepted and with what result. */
module Grammar {
  import opened Options
  import opened Sequences
  import opened Exprs
  import opened Compare

  // ----- Tokens and symbols -----

  /** What the lexer hands over.  `None` is a text that is not a float or not UTF-8, and `Garbage`
      is a position at which the lexer fails. */
  datatype Token =
    | Blank
    | Integer(value: int)
    | Number(float: Option<Float>)
    | Text(text: Option<string>)
    | LParen
    | RParen
    | Reserved(word: string)
    | Keyword(word: string)
    | Id(word: string)
    | Garbage

  datatype ParseError =
    | Lexical
    | IntRange
    | FloatSyntax
    | Utf8
    | InvalidWord(word: string)
    | Unmatched(kind: Kind)
    | Unclosed(kind: Kind)
    | Mixed(left: Expr, right: Expr)

  datatype Parsed<+T> = Accept(value: T) | Reject(error: ParseError)

  /** Round brackets make lists and square brackets make sequences. */
  datatype Kind = Round | Square

  /** An expression without parts. */
  type Leaf = e: Expr | !e.Seq? && !e.List? witness Bool(true)

  datatype Symbol = Open(kind: Kind) | Close(kind: Kind) | Atom(expr: Leaf)

  datatype Reading = Skip | Sym(sym: Symbol) | Bad(error: ParseError)

  predicate IdentStart(c: char) {
    'a' <= c <= 'z' || 'A' <= c <= 'Z' || c in "!$%&*/<=>?~_^"
  }

  /** The characters after the first also include everything from '+' to '@'. */
  predicate IdentRest(c: char) {
    IdentStart(c) || '+' <= c <= '@'
  }

  predicate IdentPattern(s: string) {
    s != [] && IdentStart(s[0]) && forall i :: 1 <= i < |s| ==> IdentRest(s[i])
  }

  function Read(t: Token): Reading {
    match t
    case Blank => Skip
    case Integer(i) => if -0x8000_0000_0000_0000 <= i < 0x8000_0000_0000_0000 then Sym(Atom(Int(i))) else Bad(IntRange)
    case Number(f) => if f.Some? then Sym(Atom(Float(f.value))) else Bad(FloatSyntax)
    case Text(s) => if s.Some? then Sym(Atom(Str(s.value))) else Bad(Utf8)
    case LParen => Sym(Open(Round))
    case RParen => Sym(Close(Round))
    case Reserved(w) =>
      if w == "]" then Sym(Close(Square))
      else if w == "[" then Sym(Open(Square))
      else Word(w)
    case Keyword(w) =>
      if w == "true" then Sym(Atom(Bool(true)))
      else if w == "false" then Sym(Atom(Bool(false)))
      else Word(w)
    case Id(w) => Sym(Atom(Ident(w)))
    case Garbage => Bad(Lexical)
  }

  function Word(w: string): Reading {
    if IdentPattern(w) then Sym(Atom(Ident(w))) else Bad(InvalidWord(w))
  }

  // ----- Writing -----

  function Wrap(k: Kind, vs: seq<Expr>): Expr {
    if k == Round then List(vs) else Seq(vs)
  }

  function Show(e: Expr): seq<Symbol>
    decreases e, 1
  {
    match e
    case List(xs) => [Open(Round)] + ShowAll(xs) + [Close(Round)]
    case Seq(xs) => [Open(Square)] + ShowAll(xs) + [Close(Square)]
    case _ => [Atom(e)]
  }

  function ShowAll(xs: seq<Expr>): seq<Symbol>
    decreases xs, 0
  {
    if xs == [] then [] else Show(xs[0]) + ShowAll(xs[1..])
  }

  // ----- Reading -----

  /** An open bracket and the values of the enclosing level that came before it. */
  datatype Frame = Frame(kind: Kind, before: seq<Expr>)

  /** The open brackets, outermost first, and the values read at the innermost level. */
  datatype State = State(frames: seq<Frame>, vals: seq<Expr>)

  /** The first adjacent pair that cannot be compared makes a sequence ill-typed. */
  function CheckSeq(vs: seq<Expr>): Result<()> {
    if |vs| < 2 then Ok(())
    else
      match Same(vs[0], vs[1])
      case Err(e) => Err(e)
      case Ok(_) => CheckSeq(vs[1..])
  }

  function Finish(k: Kind, vs: seq<Expr>): Parsed<Expr> {
    if k == Square && CheckSeq(vs).Err? && CheckSeq(vs).error.TypeMismatch?
    then Reject(Mixed(CheckSeq(vs).error.left, CheckSeq(vs).error.right))
    else Accept(Wrap(k, vs))
  }

  /** One symbol.  A closing bracket with nothing open wraps everything read so far. */
  function Shift(s: State, sym: Symbol): Parsed<State> {
    match sym
    case Atom(e) => Accept(s.(vals := s.vals + [e]))
    case Open(k) => Accept(State(s.frames + [Frame(k, s.vals)], []))
    case Close(k) =>
      if s.frames == [] then Closed(Finish(k, s.vals), [], [])
      else
        var n := |s.frames| - 1;
        if s.frames[n].kind != k then Reject(Unmatched(s.frames[n].kind))
        else Closed(Finish(k, s.vals), s.frames[..n], s.frames[n].before)
  }

  function Closed(r: Parsed<Expr>, frames: seq<Frame>, before: seq<Expr>): Parsed<State> {
    match r case Accept(e) => Accept(State(frames, before + [e])) case Reject(e) => Reject(e)
  }

  /** All values of a symbol sequence. */
  function Values(syms: seq<Symbol>, s: State): Parsed<seq<Expr>>
    decreases |syms|
  {
    if syms == [] then AtEnd(s)
    else
      match Shift(s, syms[0])
      case Accept(s') => Values(syms[1..], s')
      case Reject(e) => Reject(e)
  }

  function AtEnd(s: State): Parsed<seq<Expr>> {
    if s.frames == [] then Accept(s.vals) else Reject(Unclosed(s.frames[|s.frames| - 1].kind))
  }

  /** The same, over tokens: the first error in reading order is the one reported. */
  function TokenValues(ts: seq<Token>, s: State): Parsed<seq<Expr>>
    decreases |ts|
  {
    if ts == [] then AtEnd(s)
    else
      match Read(ts[0])
      case Skip => TokenValues(ts[1..], s)
      case Bad(e) => Reject(e)
      case Sym(sym) =>
        match Shift(s, sym)
        case Accept(s') => TokenValues(ts[1..], s')
        case Reject(e) => Reject(e)
  }

  function Expression(vs: seq<Expr>): Option<Expr> {
    if vs == [] then None else if |vs| == 1 then Some(vs[0]) else Some(List(vs))
  }

  function Parse(ts: seq<Token>): Parsed<Option<Expr>> {
    match TokenValues(ts, State([], []))
    case Accept(vs) => Accept(Expression(vs))
    case Reject(e) => Reject(e)
  }

  predicate Readable(ts: seq<Token>) {
    forall i :: 0 <= i < |ts| ==> !Read(ts[i]).Bad?
  }

  function Symbols(ts: seq<Token>): seq<Symbol> {
    if ts == [] then []
    else if Read(ts[0]).Sym? then [Read(ts[0]).sym] + Symbols(ts[1..])
    else Symbols(ts[1..])
  }

  /** Tokens are accepted exactly when each can be read and their symbols are accepted. */
  lemma {:induction false} TokensAreSymbols(ts: seq<Token>, s: State, vs: seq<Expr>)
    ensures TokenValues(ts, s) == Accept(vs) <==> Readable(ts) && Values(Symbols(ts), s) == Accept(vs)
    decreases |ts|
  {
    if ts != [] {
      var rest := ts[1..];
      assert Readable(ts) <==> !Read(ts[0]).Bad? && Readable(rest) by {
        assert forall i :: 1 <= i < |ts| ==> ts[i] == rest[i - 1];
        assert forall i :: 0 <= i < |rest| ==> rest[i] == ts[i + 1];
      }
      match Read(ts[0])
      case Skip => TokensAreSymbols(rest, s, vs);
      case Bad(_) =>
      case Sym(sym) =>
        assert ([sym] + Symbols(rest))[1..] == Symbols(rest);
        if Shift(s, sym).Accept? {
          TokensAreSymbols(rest, Shift(s, sym).value, vs);
        }
    }
  }

  // ----- Which symbol sequences are accepted -----

  /** Adjacent elements of every sequence can be compared. */
  predicate WellTyped(e: Expr) {
    match e
    case Seq(xs) =>
      && (forall i :: 0 <= i < |xs| ==> WellTyped(xs[i]))
      && forall i :: 0 <= i < |xs| - 1 ==> Same(xs[i], xs[i + 1]).Ok?
    case List(xs) => forall i :: 0 <= i < |xs| ==> WellTyped(xs[i])
    case _ => true
  }

  predicate AllWellTyped(vs: seq<Expr>) {
    forall i :: 0 <= i < |vs| ==> WellTyped(vs[i])
  }

  predicate OnlyOpens(syms: seq<Symbol>) {
    forall i :: 0 <= i < |syms| ==> syms[i].Open?
  }

  /** Comparison errors always name the two expressions that cannot be compared. */
  lemma {:induction false} ErrorsAreMismatches(a: Expr, b: Expr)
    ensures Order(a, b).Err? ==> Order(a, b).error.TypeMismatch?
    decreases a, 1
  {
    if ((a.Seq? && b.Seq?) || (a.List? && b.List?)) && |a.elems| == |b.elems| {
      AllErrorsAreMismatches(a.elems, b.elems);
    }
  }

  lemma {:induction false} AllErrorsAreMismatches(xs: seq<Expr>, ys: seq<Expr>)
    requires |xs| == |ys|
    ensures OrderAll(xs, ys).Err? ==> OrderAll(xs, ys).error.TypeMismatch?
    decreases xs, 0
  {
    if xs != [] {
      ErrorsAreMismatches(xs[0], ys[0]);
      AllErrorsAreMismatches(xs[1..], ys[1..]);
    }
  }

  lemma {:induction false} CheckSeqSound(vs: seq<Expr>)
    ensures CheckSeq(vs).Ok? <==> forall i :: 0 <= i < |vs| - 1 ==> Same(vs[i], vs[i + 1]).Ok?
    ensures CheckSeq(vs).Err? ==> CheckSeq(vs).error.TypeMismatch?
  {
    if |vs| >= 2 {
      ErrorsAreMismatches(vs[0], vs[1]);
      CheckSeqSound(vs[1..]);
      var tail := vs[1..];
      assert forall i :: 0 <= i < |tail| ==> tail[i] == vs[i + 1];
      assert forall i :: 1 <= i < |vs| ==> vs[i] == tail[i - 1];
    }
  }

  /** A closed bracket is accepted exactly when its contents make a well-typed expression. */
  lemma FinishSound(k: Kind, vs: seq<Expr>)
    requires AllWellTyped(vs)
    ensures Finish(k, vs) == Accept(Wrap(k, vs)) <==> WellTyped(Wrap(k, vs))
    ensures Finish(k, vs).Accept? ==> Finish(k, vs) == Accept(Wrap(k, vs))
  {
    CheckSeqSound(vs);
  }

  lemma {:induction false} ShowAppend(xs: seq<Expr>, ys: seq<Expr>)
    ensures ShowAll(xs + ys) == ShowAll(xs) + ShowAll(ys)
  {
    if xs == [] {
      Empty(ys);
      Empty(ShowAll(ys));
    } else {
      ShowAppend(xs[1..], ys);
      TailOfAppend(xs, ys);
      ShowHead(xs);
      ShowHead(xs + ys);
      Assoc(Show(xs[0]), ShowAll(xs[1..]), ShowAll(ys));
    }
  }

  lemma ShowHead(xs: seq<Expr>)
    requires xs != []
    ensures ShowAll(xs) == Show(xs[0]) + ShowAll(xs[1..])
  {
  }

  lemma ShowOne(xs: seq<Expr>, e: Expr)
    ensures ShowAll(xs + [e]) == ShowAll(xs) + Show(e)
  {
    ShowAppend(xs, [e]);
    assert ShowAll([e]) == Show(e) + ShowAll([e][1..]);
  }

  /** What has been read, written out again. */
  function Written(frames: seq<Frame>, vals: seq<Expr>): seq<Symbol>
    decreases |frames|
  {
    if frames == [] then ShowAll(vals)
    else
      var n := |frames| - 1;
      Written(frames[..n], frames[n].before) + [Open(frames[n].kind)] + ShowAll(vals)
  }

  ghost predicate StateTyped(s: State) {
    && AllWellTyped(s.vals)
    && forall i :: 0 <= i < |s.frames| ==> AllWellTyped(s.frames[i].before)
  }

  lemma WrittenPush(frames: seq<Frame>, vals: seq<Expr>, e: Expr)
    ensures Written(frames, vals + [e]) == Written(frames, vals) + Show(e)
  {
    ShowOne(vals, e);
  }

  /** Reading a symbol adds it to what is written; a stray closing bracket also supplies the
      opening bracket it lacks, in front. */
  lemma ShiftWrites(s: State, sym: Symbol) returns (opens: seq<Symbol>)
    requires StateTyped(s) && Shift(s, sym).Accept?
    ensures var s' := Shift(s, sym).value;
            && StateTyped(s')
            && OnlyOpens(opens)
            && Written(s'.frames, s'.vals) == opens + Written(s.frames, s.vals) + [sym]
  {
    opens := [];
    var s' := Shift(s, sym).value;
    match sym {
      case Atom(e) => WrittenPush(s.frames, s.vals, e);
      case Open(k) => assert s'.frames[..|s.frames|] == s.frames;
      case Close(k) => opens := CloseWrites(s, k);
    }
  }

  lemma CloseWrites(s: State, k: Kind) returns (opens: seq<Symbol>)
    requires StateTyped(s) && Shift(s, Close(k)).Accept?
    ensures var s' := Shift(s, Close(k)).value;
            && StateTyped(s')
            && OnlyOpens(opens)
            && Written(s'.frames, s'.vals) == opens + Written(s.frames, s.vals) + [Close(k)]
  {
    FinishSound(k, s.vals);
    var e := Wrap(k, s.vals);
    assert Show(e) == [Open(k)] + ShowAll(s.vals) + [Close(k)];
    if s.frames == [] {
      opens := [Open(k)];
      WrittenPush([], [], e);
      Empty(Show(e));
    } else {
      opens := [];
      var n := |s.frames| - 1;
      var w := Written(s.frames[..n], s.frames[n].before);
      WrittenPush(s.frames[..n], s.frames[n].before, e);
      Empty(Written(s.frames, s.vals));
      Assoc(w + [Open(k)], ShowAll(s.vals), [Close(k)]);
      Assoc(w, [Open(k)], ShowAll(s.vals) + [Close(k)]);
      Assoc([Open(k)], ShowAll(s.vals), [Close(k)]);
    }
  }

  lemma Regroup(a: seq<Symbol>, b: seq<Symbol>, c: seq<Symbol>, d: seq<Symbol>, e: seq<Symbol>)
    ensures a + ((b + c) + d) + e == (a + b) + c + (d + e)
  {
  }

  lemma {:induction false} ReadingWrites(syms: seq<Symbol>, s: State) returns (opens: seq<Symbol>)
    requires StateTyped(s) && Values(syms, s).Accept?
    ensures AllWellTyped(Values(syms, s).value)
    ensures OnlyOpens(opens)
    ensures ShowAll(Values(syms, s).value) == opens + Written(s.frames, s.vals) + syms
    decreases |syms|
  {
    if syms == [] {
      opens := [];
    } else {
      var first := ShiftWrites(s, syms[0]);
      var rest := ReadingWrites(syms[1..], Shift(s, syms[0]).value);
      opens := rest + first;
      HeadAndTail(syms);
      Regroup(rest, first, Written(s.frames, s.vals), [syms[0]], syms[1..]);
    }
  }

  /** Reading a written expression, wherever it stands, adds that expression. */
  lemma {:induction false} ReadShown(e: Expr, syms: seq<Symbol>, s: State)
    requires WellTyped(e)
    ensures Values(Show(e) + syms, s) == Values(syms, s.(vals := s.vals + [e]))
    decreases e, 1
  {
    if e.List? || e.Seq? {
      var k := if e.List? then Round else Square;
      var inner := State(s.frames + [Frame(k, s.vals)], []);
      assert Show(e) + syms == [Open(k)] + (ShowAll(e.elems) + ([Close(k)] + syms));
      assert (Show(e) + syms)[1..] == ShowAll(e.elems) + ([Close(k)] + syms);
      ReadAllShown(e.elems, [Close(k)] + syms, inner);
      assert [] + e.elems == e.elems;
      FinishSound(k, e.elems);
      assert inner.frames[..|s.frames|] == s.frames;
      assert ([Close(k)] + syms)[1..] == syms;
    } else {
      assert (Show(e) + syms)[1..] == syms;
    }
  }

  lemma {:induction false} ReadAllShown(xs: seq<Expr>, syms: seq<Symbol>, s: State)
    requires AllWellTyped(xs)
    ensures Values(ShowAll(xs) + syms, s) == Values(syms, s.(vals := s.vals + xs))
    decreases xs, 0
  {
    if xs == [] {
      assert ShowAll(xs) + syms == syms && s.vals + xs == s.vals;
    } else {
      assert ShowAll(xs) + syms == Show(xs[0]) + (ShowAll(xs[1..]) + syms);
      ReadShown(xs[0], ShowAll(xs[1..]) + syms, s);
      ReadAllShown(xs[1..], syms, s.(vals := s.vals + [xs[0]]));
      assert s.vals + [xs[0]] + xs[1..] == s.vals + xs;
    }
  }

  ghost predicate Bare(frames: seq<Frame>) {
    forall i :: 0 <= i < |frames| ==> frames[i].before == []
  }

  /** Leading open brackets may be left out: their closing brackets then stand alone and wrap the
      same values. */
  lemma {:induction false} DropFrames(syms: seq<Symbol>, lead: seq<Frame>, s: State)
    requires Bare(lead)
    requires Values(syms, State(lead + s.frames, s.vals)).Accept?
    ensures Values(syms, s) == Values(syms, State(lead + s.frames, s.vals))
    decreases |syms|
  {
    var long := State(lead + s.frames, s.vals);
    if syms == [] {
    } else if syms[0].Close? && s.frames == [] {
      if lead == [] {
        assert long == s;
      } else {
        var n := |lead| - 1;
        assert lead + s.frames == lead;
        var s' := Shift(s, syms[0]).value;
        assert lead[..n] + s'.frames == lead[..n];
        assert Shift(long, syms[0]) == Accept(State(lead[..n] + s'.frames, s'.vals));
        DropFrames(syms[1..], lead[..n], s');
      }
    } else {
      var s' := Shift(s, syms[0]).value;
      var n := |s.frames| - 1;
      if syms[0].Open? {
        assert lead + s'.frames == lead + s.frames + [Frame(syms[0].kind, s.vals)];
      } else if syms[0].Close? {
        assert (lead + s.frames)[..|lead| + n] == lead + s.frames[..n];
      }
      assert Shift(long, syms[0]) == Accept(State(lead + s'.frames, s'.vals));
      DropFrames(syms[1..], lead, s');
    }
  }

  lemma {:induction false} DropOpens(opens: seq<Symbol>, syms: seq<Symbol>, lead: seq<Frame>)
    requires OnlyOpens(opens) && Bare(lead)
    requires Values(opens + syms, State(lead, [])).Accept?
    ensures Values(syms, State([], [])) == Values(opens + syms, State(lead, []))
    decreases |opens|
  {
    if opens == [] {
      assert opens + syms == syms && lead + [] == lead;
      DropFrames(syms, lead, State([], []));
    } else {
      assert (opens + syms)[1..] == opens[1..] + syms;
      DropOpens(opens[1..], syms, lead + [Frame(opens[0].kind, [])]);
    }
  }

  /** The accepted symbol sequences, and their values, are exactly the written forms of well-typed
      expressions with any number of leading open brackets left out. */
  lemma AcceptedExactly(syms: seq<Symbol>, vs: seq<Expr>)
    ensures Values(syms, State([], [])) == Accept(vs) <==>
            AllWellTyped(vs) && exists opens :: OnlyOpens(opens) && ShowAll(vs) == opens + syms
  {
    var start := State([], []);
    if Values(syms, start) == Accept(vs) {
      var opens := ReadingWrites(syms, start);
      assert opens + ShowAll([]) + syms == opens + syms;
    }
    if AllWellTyped(vs) {
      if opens :| OnlyOpens(opens) && ShowAll(vs) == opens + syms {
        ReadAllShown(vs, [], start);
        assert ShowAll(vs) + [] == ShowAll(vs) && [] + vs == vs;
        DropOpens(opens, syms, []);
      }
    }
  }
}
