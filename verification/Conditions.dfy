/** Which conditions a CASE without a compared value accepts. */
module Conditions {
  import opened Tokens
  import opened ExprTrees
  import opened ExprGrammar
  import opened ExprPrinter

  /** The operators that make a condition. */
  const Connectives: set<Token> :=
    {AND, OR, EQ, NEQ, LT, LTE, GT, GTE, BETWEEN, NOTBETWEEN, IN, NOTIN, LIKE, NOTLIKE}

  function PrintCase(value: Option<Expr>, c: Expr, r: Expr): seq<Lexeme> {
    Key(CASE) + (PrintOption(value) + (PrintWhen(When(c, r)) + Key(END)))
  }

  /** `CASE WHEN c THEN r END` is an expression exactly when `c` is a boolean literal or its
      outermost operator is one of the connectives; with a compared value any condition will do. */
  lemma {:induction false} CaseTakesConditions(g: Env, value: Option<Expr>, c: Expr, r: Expr)
    requires Readable(g, c) && Readable(g, r) && (value.Some? ==> Readable(g, value.value))
    ensures ParseUnary(g, PrintCase(value, c, r), 0, false)
         == if value.Some? || c.BooleanLiteral? || (c.Binary? && c.op in Connectives)
            then Ok(Case(value, [When(c, r)], None), |PrintCase(value, c, r)|)
            else Err
  {
    hide Readable, PrintExpr, ParseExpr, HasAt, Mark, ParseWhen, ParseWhens, PrintWhen;
    var tape, text, clause := PrintCase(value, c, r), PrintOption(value), PrintWhen(When(c, r));
    Pieces(tape, text, clause);
    var q := 1 + |text|;
    ClauseAt(g, tape, q, value, c, r);
    if value.Some? {
      NotWhen(g, tape, 1, value.value);
      Stop(WHEN);
      ExprRoundTrip(g, tape, 1, value.value);
    }
    OneClause(g, tape, q, value, c, r, q + |clause|);
    UnaryCases(g, tape, 0, false);
    hide ParseUnary;
  }

  lemma Pieces(tape: seq<Lexeme>, text: seq<Lexeme>, clause: seq<Lexeme>)
    requires tape == Key(CASE) + (text + (clause + Key(END)))
    ensures var q := 1 + |text|;
            && At(tape, 0).tok.CASE? && HasAt(tape, 1, text) && HasAt(tape, q, clause)
            && At(tape, q + |clause|).tok.END? && |tape| == q + |clause| + 1
  {
    hide Mark;
    assert HasAt(tape, 0, tape);
    LexemeThen(tape, 0, Mark(CASE), text + (clause + Key(END)));
    SplitAt(tape, 1, text, clause + Key(END));
    SplitAt(tape, 1 + |text|, clause, Key(END));
    LexemeAt(tape, 1 + |text| + |clause|, Mark(END));
  }

  /** The clause with its WHEN. */
  lemma {:induction false} ClauseAt(g: Env, tape: seq<Lexeme>, q: nat, value: Option<Expr>, c: Expr, r: Expr)
    requires Readable(g, c) && Readable(g, r) && HasAt(tape, q, PrintWhen(When(c, r)))
    requires At(tape, q + |PrintWhen(When(c, r))|).tok.END?
    ensures At(tape, q).tok.WHEN?
    ensures ParseWhen(g, tape, q + 1, value)
         == if value.Some? || c.BooleanLiteral? || (c.Binary? && c.op in Connectives)
            then Ok(When(c, r), q + |PrintWhen(When(c, r))|) else Err
  {
    hide Readable, PrintExpr, HasAt, ParseWhen;
    LedParts(tape, q, WHEN, Parted(PrintExpr(c), THEN, PrintExpr(r)));
    ClauseRead(g, tape, q + 1, value, c, r);
  }

  lemma Stop(tok: Token)
    requires tok.WHEN? || tok.THEN? || tok.END?
    ensures Stops(tok)
  {
  }

  lemma {:induction false} NotWhen(g: Env, tape: seq<Lexeme>, p: nat, e: Expr)
    requires Readable(g, e) && HasAt(tape, p, PrintExpr(e))
    ensures !At(tape, p).tok.WHEN?
  {
    ReadableParts(g, e);
    TreeStarts(g, e);
    UnaryStarts(g, First(e));
    hide Readable, ReadableTree, PrintTree, ReadableUnary, PrintUnary;
    assert At(tape, p) == PrintExpr(e)[0] by { assert tape[p..p + |PrintExpr(e)|][0] == tape[p]; }
  }

  /** The clause after WHEN. */
  lemma {:induction false} ClauseRead(g: Env, tape: seq<Lexeme>, p: nat, value: Option<Expr>, c: Expr, r: Expr)
    requires Readable(g, c) && Readable(g, r) && HasAt(tape, p, Parted(PrintExpr(c), THEN, PrintExpr(r)))
    requires At(tape, p + |Parted(PrintExpr(c), THEN, PrintExpr(r))|).tok.END?
    ensures ParseWhen(g, tape, p, value)
         == if value.Some? || c.BooleanLiteral? || (c.Binary? && c.op in Connectives)
            then Ok(When(c, r), p + |Parted(PrintExpr(c), THEN, PrintExpr(r))|) else Err
  {
    hide Readable, PrintExpr, ParseExpr, HasAt, Mark;
    PartedParts(tape, p, PrintExpr(c), THEN, PrintExpr(r));
    Stop(THEN);
    Stop(END);
    ExprRoundTrip(g, tape, p, c);
    ExprRoundTrip(g, tape, p + |PrintExpr(c)| + 1, r);
  }

  lemma OneClause(g: Env, tape: seq<Lexeme>, q: nat, value: Option<Expr>, c: Expr, r: Expr, q2: nat)
    requires At(tape, q).tok.WHEN? && At(tape, q2).tok.END?
    requires ParseWhen(g, tape, q + 1, value).Err? || ParseWhen(g, tape, q + 1, value) == Ok(When(c, r), q2)
    ensures ParseWhens(g, tape, q, value, [], None)
         == if ParseWhen(g, tape, q + 1, value).Err? then Err else Ok(Case(value, [When(c, r)], None), q2 + 1)
  {
    hide ParseWhen, ParseExpr;
    assert [] + [When(c, r)] == [When(c, r)];
  }
}
