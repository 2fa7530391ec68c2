/** What the parser returns can be written out again and parses to the same tree. */
module Reparse {
  import opened Tokens
  import opened ExprTrees
  import opened ExprGrammar
  import opened ExprPrinter
  import opened ParsedTree

  /** The lexeme at `i` may stand where it stands: no token that the scanner never yields, no IN and
      no asterisk of a metadata call where only an odd reading could take it, and no
      EXCEPT or REPLACE but behind an asterisk. */
  predicate TidyAt(g: Env, tape: seq<Lexeme>, i: nat)
    requires i < |tape|
  {
    var x, before := tape[i].tok, if i > 0 then tape[i - 1].tok else EOF;
    && !x.MUL? && !x.SUBSET? && !x.NOTIN? && !x.NOTBETWEEN? && !x.NOTLIKE?
    && (x.IN? ==> !before.ARROW? && !before.DOT? && !before.LBRACKET? && !before.COLON?)
    && (x.ASTERISK? && g.inMeta ==> !before.ARROW? && !before.DOT?)
    && (x.EXCEPT? || x.REPLACE? ==> before.ASTERISK? && (i > 1 ==> !tape[i - 2].tok.DOT?))
  }

  predicate Tidy(g: Env, tape: seq<Lexeme>) {
    && g.sources == [] && g.intOk("0")
    && forall i: nat | i < |tape| :: TidyAt(g, tape, i)
  }

  predicate Starry(tok: Token) {
    tok.EXCEPT? || tok.REPLACE?
  }

  // ----- what an operand can be, from its first lexeme -----

  lemma {:induction false} UnaryKinds(g: Env, tape: seq<Lexeme>, p: nat, sub: bool)
    requires g.sources == [] && ParseUnary(g, tape, p, sub).Ok?
    ensures var e, x := ParseUnary(g, tape, p, sub).value, At(tape, p).tok;
            && !e.Binary? && !e.Between? && !e.Like?
            && (e.Paren? ==> x.LPAREN?)
            && (e.IntegerLiteral? ==> x.INTEGER? || x.IN?)
            && (e.FieldRef? || e.MetaRef? ==> (x.IDENT? && !sub) || x.IN? || (x.ASTERISK? && g.inMeta))
            && (e.JsonFieldRef? <==> x.IDENT? && sub)
            && (x.LBRACKET? ==> e.Index? || e.Colon?)
    decreases Left(tape, p)
  {
    hide ParseExpr, ParseCase, ParseElements, ParseBracket, ParseAsterisk;
    var x := At(tape, p).tok;
    if x.LBRACKET? {
      BracketKind(g, tape, p + 1);
    } else if x.IN? {
      if !At(tape, p + 1).tok.LPAREN? {
        UnaryKinds(g, tape, p + 1, false);
      } else {
        SetKind(g, tape, p + 2, []);
      }
    } else if x.CASE? {
      CaseKind(g, tape, p + 1);
    } else if x.ASTERISK? {
      StarKind(g, tape, p + 1, []);
    }
  }

  predicate IsIndex(r: Result<Expr>) {
    r.Ok? ==> r.value.Index? || r.value.Colon?
  }

  lemma ColonKind(g: Env, tape: seq<Lexeme>, p: nat, start: Expr)
    ensures IsIndex(ParseColon(g, tape, p, start)) && IsIndex(ParseBracketEnd(g, tape, p, start))
  {
    hide ParseExpr;
  }

  lemma BracketKind(g: Env, tape: seq<Lexeme>, p: nat)
    ensures IsIndex(ParseBracket(g, tape, p))
  {
    hide ParseExpr, ParseColon, ParseBracketEnd;
    var x := At(tape, p);
    ColonKind(g, tape, p + 1, IntegerLiteral("0"));
    ColonKind(g, tape, p + 1, IntegerLiteral(x.lit));
    if ParseExpr(g, tape, p).Ok? {
      ColonKind(g, tape, ParseExpr(g, tape, p).next, ParseExpr(g, tape, p).value);
    }
  }

  lemma {:induction false} SetKind(g: Env, tape: seq<Lexeme>, p: nat, acc: seq<Expr>)
    ensures ParseElements(g, tape, p, acc).Ok? ==> ParseElements(g, tape, p, acc).value.ValueSet?
    decreases Left(tape, p)
  {
    hide ParseExpr;
    var r := ParseExpr(g, tape, p);
    if r.Ok? && At(tape, r.next).tok.COMMA? {
      SetKind(g, tape, r.next + 1, acc + [r.value]);
    }
  }

  lemma CaseKind(g: Env, tape: seq<Lexeme>, p: nat)
    ensures ParseCase(g, tape, p).Ok? ==> ParseCase(g, tape, p).value.Case?
  {
    hide ParseExpr, ParseWhens;
    if At(tape, p).tok.WHEN? {
      WhensKind(g, tape, p, None, [], None);
    } else if ParseExpr(g, tape, p).Ok? {
      WhensKind(g, tape, ParseExpr(g, tape, p).next, Some(ParseExpr(g, tape, p).value), [], None);
    }
  }

  lemma {:induction false} WhensKind(g: Env, tape: seq<Lexeme>, p: nat, value: Option<Expr>, whens: seq<When>,
      els: Option<Expr>)
    ensures ParseWhens(g, tape, p, value, whens, els).Ok? ==> ParseWhens(g, tape, p, value, whens, els).value.Case?
    decreases Left(tape, p)
  {
    hide ParseExpr, ParseWhen;
    var x := At(tape, p).tok;
    if x.WHEN? {
      var r := ParseWhen(g, tape, p + 1, value);
      if r.Ok? {
        WhensKind(g, tape, r.next, value, whens + [r.value], els);
      }
    } else if whens != [] && x.ELSE? {
      var r := ParseExpr(g, tape, p + 1);
      if r.Ok? {
        WhensKind(g, tape, r.next, value, whens, Some(r.value));
      }
    }
  }

  /** What an asterisk starts, and that no other list of exceptions comes after it. */
  lemma {:induction false} StarKind(g: Env, tape: seq<Lexeme>, p: nat, except: seq<string>)
    requires p <= |tape| && ParseAsterisk(g, tape, p, except).Ok?
    ensures var (e, q) := (ParseAsterisk(g, tape, p, except).value, ParseAsterisk(g, tape, p, except).next);
            (if g.inMeta then e == MetaRef(DefaultStream, "*") else e.Wildcard?) && !Starry(At(tape, q).tok)
    decreases Left(tape, p)
  {
    hide ParseNames;
    var r := ParseNames(tape, p + 2, []);
    if At(tape, p).tok.EXCEPT? && !g.inMeta && At(tape, p + 1).tok.LPAREN? && r.Ok? {
      StarKind(g, tape, r.next, r.value);
    }
  }

  // ----- how the bracketed forms end -----

  lemma {:induction false} ElementsClose(g: Env, tape: seq<Lexeme>, p: nat, acc: seq<Expr>)
    requires ParseElements(g, tape, p, acc).Ok?
    ensures ClosedBy(tape, ParseElements(g, tape, p, acc).next, RPAREN)
    decreases Left(tape, p)
  {
    hide ParseExpr;
    var r := ParseExpr(g, tape, p);
    if At(tape, r.next).tok.COMMA? {
      ElementsClose(g, tape, r.next + 1, acc + [r.value]);
    }
  }

  lemma ColonCloses(g: Env, tape: seq<Lexeme>, p: nat, start: Expr)
    ensures ParseColon(g, tape, p, start).Ok? ==> ClosedBy(tape, ParseColon(g, tape, p, start).next, RBRACKET)
    ensures ParseBracketEnd(g, tape, p, start).Ok? ==> ClosedBy(tape, ParseBracketEnd(g, tape, p, start).next, RBRACKET)
  {
    hide ParseExpr;
  }

  lemma BracketCloses(g: Env, tape: seq<Lexeme>, p: nat)
    requires ParseBracket(g, tape, p).Ok?
    ensures ClosedBy(tape, ParseBracket(g, tape, p).next, RBRACKET)
  {
    hide ParseExpr, ParseColon, ParseBracketEnd;
    ColonCloses(g, tape, p + 1, IntegerLiteral("0"));
    ColonCloses(g, tape, p + 1, IntegerLiteral(At(tape, p).lit));
    if ParseExpr(g, tape, p).Ok? {
      ColonCloses(g, tape, ParseExpr(g, tape, p).next, ParseExpr(g, tape, p).value);
    }
  }

  lemma CaseCloses(g: Env, tape: seq<Lexeme>, p: nat)
    requires ParseCase(g, tape, p).Ok?
    ensures ClosedBy(tape, ParseCase(g, tape, p).next, END)
  {
    hide ParseExpr, ParseWhens;
    if At(tape, p).tok.WHEN? {
      WhensClose(g, tape, p, None, [], None);
    } else {
      WhensClose(g, tape, ParseExpr(g, tape, p).next, Some(ParseExpr(g, tape, p).value), [], None);
    }
  }

  lemma {:induction false} WhensClose(g: Env, tape: seq<Lexeme>, p: nat, value: Option<Expr>, whens: seq<When>, els: Option<Expr>)
    requires ParseWhens(g, tape, p, value, whens, els).Ok?
    ensures ClosedBy(tape, ParseWhens(g, tape, p, value, whens, els).next, END)
    decreases Left(tape, p)
  {
    hide ParseExpr, ParseWhen;
    var x := At(tape, p).tok;
    if x.WHEN? {
      var r := ParseWhen(g, tape, p + 1, value);
      WhensClose(g, tape, r.next, value, whens + [r.value], els);
    } else if x.ELSE? {
      var r := ParseExpr(g, tape, p + 1);
      WhensClose(g, tape, r.next, value, whens, Some(r.value));
    }
  }

  // ----- EXCEPT and REPLACE are never operators -----

  lemma NotStarry(g: Env, tape: seq<Lexeme>, q: nat)
    requires Tidy(g, tape) && q > 0 && (!At(tape, q - 1).tok.ASTERISK? || (q > 1 && At(tape, q - 2).tok.DOT?))
    ensures !Starry(At(tape, q).tok)
  {
    if q < |tape| {
      assert TidyAt(g, tape, q);
    }
  }

  lemma {:induction false} UnaryEnds(g: Env, tape: seq<Lexeme>, p: nat, sub: bool)
    requires Tidy(g, tape) && ParseUnary(g, tape, p, sub).Ok?
    ensures !Starry(At(tape, ParseUnary(g, tape, p, sub).next).tok)
    decreases Left(tape, p)
  {
    hide ParseExpr, ParseCase, ParseElements, ParseBracket, ParseAsterisk, Tidy;
    var x, q := At(tape, p).tok, ParseUnary(g, tape, p, sub).next;
    if x.IN? && !At(tape, p + 1).tok.LPAREN? {
      UnaryEnds(g, tape, p + 1, false);
    } else if x.ASTERISK? {
      StarKind(g, tape, p + 1, []);
    } else {
      if x.LBRACKET? {
        BracketCloses(g, tape, p + 1);
      } else if x.IN? {
        ElementsClose(g, tape, p + 2, []);
      } else if x.CASE? {
        CaseCloses(g, tape, p + 1);
      }
      NotStarry(g, tape, q);
    }
  }

  // ----- the tree is readable -----

  /** One insertion of a readable operand keeps a tree readable. */
  lemma {:induction false} InsertIsReadable(g: Env, t: Expr, op: Token, operand: Expr, prev: Option<Token>)
    requires ReadableTree(g, t, prev) && !operand.Binary? && ReadableOperand(g, op, operand)
    ensures ReadableTree(g, Insert(t, op, operand), prev)
    decreases t
  {
    hide ReadableOperand, ReadableUnary, Insert, Precedence;
    InsertStep(t, op, operand);
    if Below(t, op) {
      InsertIsReadable(g, t.rhs, op, operand, Some(t.op));
    } else {
      assert ReadableTree(g, operand, Some(op));
    }
  }

  lemma {:induction false} ExprIsReadable(g: Env, tape: seq<Lexeme>, p: nat)
    requires Tidy(g, tape) && ParseExpr(g, tape, p).Ok?
    ensures Readable(g, ParseExpr(g, tape, p).value)
    ensures First(ParseExpr(g, tape, p).value).IntegerLiteral? ==> At(tape, p).tok.INTEGER? || At(tape, p).tok.IN?
    decreases Left(tape, p), 4
  {
    hide ParseOperators, ParseUnary, Tidy, ReadableUnary, Ordered, First, TapeItems;
    assert g.sources == [] by { SourcesUnknown(g, tape); }
    var u := ParseUnary(g, tape, p, false);
    UnaryIsReadable(g, tape, p, false);
    UnaryKinds(g, tape, p, false);
    UnaryEnds(g, tape, p, false);
    OperatorsAreReadable(g, tape, u.next, u.value);
    ParsedReadsTape(g, tape, p);
  }

  lemma SourcesUnknown(g: Env, tape: seq<Lexeme>)
    requires Tidy(g, tape)
    ensures g.sources == []
  {
  }

  lemma {:induction false} OperatorsAreReadable(g: Env, tape: seq<Lexeme>, p: nat, tree: Expr)
    requires Tidy(g, tape) && p <= |tape| && ReadableTree(g, tree, None) && !Starry(At(tape, p).tok)
    requires ParseOperators(g, tape, p, tree).Ok?
    ensures ReadableTree(g, ParseOperators(g, tape, p, tree).value, None)
    decreases Left(tape, p), 3
  {
    hide ParseUnary, ParseRange, Tidy, ReadableTree, Insert, OperatorStep, OperandFor;
    if IsOperator(At(tape, p).tok) {
      match OperatorStep(tape, p)
      case Bad =>
      case Range(op, q) =>
        var r := ParseRange(g, tape, q);
        RangeIsReadable(g, tape, p);
        InsertIsReadable(g, tree, op, r.value, None);
        OperatorsAreReadable(g, tape, r.next, Insert(tree, op, r.value));
      case Rhs(op, q) =>
        var r := ParseUnary(g, tape, q, op.ARROW? || op.DOT?);
        var e := OperandFor(g, op, r.value).value;
        UnaryEnds(g, tape, q, op.ARROW? || op.DOT?);
        OperandIsReadable(g, tape, p);
        InsertIsReadable(g, tree, Canonical(op), e, None);
        OperatorsAreReadable(g, tape, r.next, Insert(tree, Canonical(op), e));
    }
  }

  lemma {:induction false} RangeIsReadable(g: Env, tape: seq<Lexeme>, p: nat)
    requires Tidy(g, tape) && IsOperator(At(tape, p).tok) && OperatorStep(tape, p).Range?
    requires ParseRange(g, tape, OperatorStep(tape, p).start).Ok?
    ensures var (op, r) := (OperatorStep(tape, p).op, ParseRange(g, tape, OperatorStep(tape, p).start));
            ReadableOperand(g, op, r.value) && !Starry(At(tape, r.next).tok)
    decreases Left(tape, p), 2
  {
    hide ParseUnary, Tidy, ReadableUnary;
    SourcesUnknown(g, tape);
    var q := OperatorStep(tape, p).start;
    var lo := ParseUnary(g, tape, q, false);
    UnaryIsReadable(g, tape, q, false);
    UnaryKinds(g, tape, q, false);
    UnaryIsReadable(g, tape, lo.next + 1, false);
    UnaryKinds(g, tape, lo.next + 1, false);
    UnaryEnds(g, tape, lo.next + 1, false);
  }

  /** The operand behind an operator, as the loop takes it. */
  function OperandRead(g: Env, tape: seq<Lexeme>, step: Step): Option<Expr>
    requires step.Rhs?
  {
    var r := ParseUnary(g, tape, step.start, step.op.ARROW? || step.op.DOT?);
    if r.Err? then None else OperandFor(g, step.op, r.value)
  }

  /** The operand of each operator is of the kind the operator takes. */
  lemma {:induction false} OperandIsReadable(g: Env, tape: seq<Lexeme>, p: nat)
    requires Tidy(g, tape) && IsOperator(At(tape, p).tok) && !Starry(At(tape, p).tok) && OperatorStep(tape, p).Rhs?
    requires OperandRead(g, tape, OperatorStep(tape, p)).Some?
    ensures var e := OperandRead(g, tape, OperatorStep(tape, p)).value;
            !e.Binary? && ReadableOperand(g, Canonical(OperatorStep(tape, p).op), e)
    decreases Left(tape, p), 2
  {
    hide ParseUnary, ReadableUnary;
    var (op, q) := (OperatorStep(tape, p).op, OperatorStep(tape, p).start);
    assert TidyAt(g, tape, p);
    if p + 1 < |tape| {
      assert TidyAt(g, tape, p + 1);
    }
    UnaryIsReadable(g, tape, q, op.ARROW? || op.DOT?);
    UnaryKinds(g, tape, q, op.ARROW? || op.DOT?);
  }

  /** An operand is readable, unless it is a name behind an arrow or a dot. */
  lemma {:induction false} UnaryIsReadable(g: Env, tape: seq<Lexeme>, p: nat, sub: bool)
    requires Tidy(g, tape) && ParseUnary(g, tape, p, sub).Ok?
    ensures !(At(tape, p).tok.IDENT? && sub) ==> ReadableUnary(g, ParseUnary(g, tape, p, sub).value)
    decreases Left(tape, p), 1
  {
    hide ParseExpr, ParseBracket, ParseCase, ParseElements, ParseAsterisk, Readable, Tidy;
    SourcesUnknown(g, tape);
    var x := At(tape, p).tok;
    if x.LPAREN? {
      ExprIsReadable(g, tape, p + 1);
    } else if x.LBRACKET? {
      BracketIsReadable(g, tape, p + 1);
    } else if x.IN? {
      if At(tape, p + 1).tok.LPAREN? {
        ElementsAreReadable(g, tape, p + 2, []);
      } else {
        UnaryIsReadable(g, tape, p + 1, false);
      }
    } else if x.CASE? {
      CaseIsReadable(g, tape, p + 1);
    } else if x.ASTERISK? {
      StarKind(g, tape, p + 1, []);
    }
  }

  lemma {:induction false} ElementsAreReadable(g: Env, tape: seq<Lexeme>, p: nat, acc: seq<Expr>)
    requires Tidy(g, tape) && ParseElements(g, tape, p, acc).Ok? && forall x | x in acc :: Readable(g, x)
    ensures ReadableUnary(g, ParseElements(g, tape, p, acc).value)
    decreases Left(tape, p), 5
  {
    hide ParseExpr, Readable, Tidy;
    var r := ParseExpr(g, tape, p);
    ExprIsReadable(g, tape, p);
    if At(tape, r.next).tok.COMMA? {
      ElementsAreReadable(g, tape, r.next + 1, acc + [r.value]);
    }
  }

  /** What a bracket or a colon stands before starts with no integer but one that stands alone. */
  lemma {:induction false} IndexIsReadable(g: Env, tape: seq<Lexeme>, p: nat)
    requires Tidy(g, tape) && p > 0 && (At(tape, p - 1).tok.LBRACKET? || At(tape, p - 1).tok.COLON?)
    requires !At(tape, p).tok.INTEGER? && ParseExpr(g, tape, p).Ok?
    ensures ReadableIndex(g, ParseExpr(g, tape, p).value)
    decreases Left(tape, p), 5
  {
    assert p < |tape| ==> TidyAt(g, tape, p);
    hide ParseExpr, Readable, Tidy, TidyAt;
    ExprIsReadable(g, tape, p);
  }

  lemma IntegerIsReadable(g: Env, text: string)
    requires g.intOk(text)
    ensures ReadableIndex(g, IntegerLiteral(text))
  {
    var e := IntegerLiteral(text);
    assert ReadableUnary(g, e) && ReadableTree(g, e, None) && Readable(g, e);
  }

  lemma TidyZero(g: Env, tape: seq<Lexeme>)
    requires Tidy(g, tape)
    ensures g.intOk("0")
  {
  }

  lemma {:induction false} BracketIsReadable(g: Env, tape: seq<Lexeme>, p: nat)
    requires Tidy(g, tape) && p > 0 && At(tape, p - 1).tok.LBRACKET? && ParseBracket(g, tape, p).Ok?
    ensures ReadableUnary(g, ParseBracket(g, tape, p).value)
    decreases Left(tape, p), 6
  {
    hide ParseExpr, ReadableIndex, Tidy, ParseColon, ParseBracketEnd;
    TidyZero(g, tape);
    IntegerIsReadable(g, "0");
    var x := At(tape, p);
    if x.tok.INTEGER? {
      IntegerIsReadable(g, x.lit);
      BracketEndIsReadable(g, tape, p + 1, IntegerLiteral(x.lit));
    } else if x.tok.COLON? {
      ColonIsReadable(g, tape, p + 1, IntegerLiteral("0"));
    } else if !x.tok.RBRACKET? {
      IndexIsReadable(g, tape, p);
      var r := ParseExpr(g, tape, p);
      BracketEndIsReadable(g, tape, r.next, r.value);
    }
  }

  lemma {:induction false} BracketEndIsReadable(g: Env, tape: seq<Lexeme>, p: nat, start: Expr)
    requires Tidy(g, tape) && ReadableIndex(g, start) && ParseBracketEnd(g, tape, p, start).Ok?
    ensures ReadableUnary(g, ParseBracketEnd(g, tape, p, start).value)
    decreases Left(tape, p), 7
  {
    hide ReadableIndex, Tidy, ParseColon;
    if At(tape, p).tok.COLON? {
      ColonIsReadable(g, tape, p + 1, start);
    }
  }

  lemma {:induction false} ColonIsReadable(g: Env, tape: seq<Lexeme>, p: nat, start: Expr)
    requires Tidy(g, tape) && p > 0 && At(tape, p - 1).tok.COLON?
    requires ReadableIndex(g, start) && ParseColon(g, tape, p, start).Ok?
    ensures ReadableUnary(g, ParseColon(g, tape, p, start).value)
    decreases Left(tape, p), 6
  {
    hide ParseExpr, ReadableIndex, Tidy;
    var x := At(tape, p);
    if x.tok.INTEGER? {
      IntegerIsReadable(g, x.lit);
    } else if !x.tok.RBRACKET? {
      IndexIsReadable(g, tape, p);
    }
  }

  lemma {:induction false} CaseIsReadable(g: Env, tape: seq<Lexeme>, p: nat)
    requires Tidy(g, tape) && ParseCase(g, tape, p).Ok?
    ensures ReadableUnary(g, ParseCase(g, tape, p).value)
    decreases Left(tape, p), 7
  {
    hide ParseExpr, ParseWhens, Readable, Tidy;
    if At(tape, p).tok.WHEN? {
      WhensAreReadable(g, tape, p, None, [], None);
    } else {
      ExprIsReadable(g, tape, p);
      var r := ParseExpr(g, tape, p);
      WhensAreReadable(g, tape, r.next, Some(r.value), [], None);
    }
  }

  predicate ReadableClause(g: Env, value: Option<Expr>, w: When) {
    Readable(g, w.cond) && Readable(g, w.result) && (value.None? ==> IsBooleanArg(w.cond))
  }

  lemma {:induction false} WhensAreReadable(g: Env, tape: seq<Lexeme>, p: nat, value: Option<Expr>, whens: seq<When>,
      els: Option<Expr>)
    requires Tidy(g, tape) && ParseWhens(g, tape, p, value, whens, els).Ok?
    requires (value.Some? ==> Readable(g, value.value)) && (els.Some? ==> Readable(g, els.value))
    requires forall w | w in whens :: ReadableClause(g, value, w)
    ensures ReadableUnary(g, ParseWhens(g, tape, p, value, whens, els).value)
    decreases Left(tape, p), 6
  {
    hide ParseExpr, ParseWhen, Readable, Tidy;
    var x := At(tape, p).tok;
    if x.WHEN? {
      WhenIsReadable(g, tape, p + 1, value);
      var r := ParseWhen(g, tape, p + 1, value);
      WhensAreReadable(g, tape, r.next, value, whens + [r.value], els);
    } else if x.ELSE? {
      ExprIsReadable(g, tape, p + 1);
      var r := ParseExpr(g, tape, p + 1);
      WhensAreReadable(g, tape, r.next, value, whens, Some(r.value));
    }
  }

  lemma {:induction false} WhenIsReadable(g: Env, tape: seq<Lexeme>, p: nat, value: Option<Expr>)
    requires Tidy(g, tape) && ParseWhen(g, tape, p, value).Ok?
    ensures ReadableClause(g, value, ParseWhen(g, tape, p, value).value)
    decreases Left(tape, p), 5
  {
    hide ParseExpr, Readable, Tidy;
    ExprIsReadable(g, tape, p);
    ExprIsReadable(g, tape, ParseExpr(g, tape, p).next + 1);
  }

  /** Whatever is accepted on a tidy tape can be written out, and its text parses to the same tree. */
  lemma {:induction false} ParsedReadsBack(g: Env, tape: seq<Lexeme>, p: nat)
    requires Tidy(g, tape) && ParseExpr(g, tape, p).Ok?
    ensures var e := ParseExpr(g, tape, p).value;
            Readable(g, e) && ParseExpr(g, PrintExpr(e), 0) == Ok(e, |PrintExpr(e)|)
  {
    hide ParseExpr, Readable, Tidy, PrintExpr;
    ExprIsReadable(g, tape, p);
    var e := ParseExpr(g, tape, p).value;
    ExprRoundTrip(g, PrintExpr(e), 0, e);
  }

  const OddArrow := [Lexeme(IDENT, "a"), Mark(ARROW), Mark(IN), Lexeme(IDENT, "x")]

  /** Not so on a tape that is not tidy: `a -> IN x` takes the column `x`, which no text without the
      IN can say; its tree is written as `a -> x`, and that takes the field `x`. */
  lemma ArrowBeforeIn(g: Env)
    requires g.sources == [] && !g.inMeta
    ensures var a, x := FieldRef(DefaultStream, "a"), FieldRef(DefaultStream, "x");
            var e := Binary(ARROW, a, x);
            && ParseExpr(g, OddArrow, 0) == Ok(e, 4)
            && PrintExpr(e) == [Lexeme(IDENT, "a"), Mark(ARROW), Lexeme(IDENT, "x")]
            && ParseExpr(g, PrintExpr(e), 0) == Ok(Binary(ARROW, a, JsonFieldRef("x")), 3)
  {
    var a, x := FieldRef(DefaultStream, "a"), FieldRef(DefaultStream, "x");
    var e := Binary(ARROW, a, x);
    hide PrintExpr, Spelling, ParseExpr, ParseUnary;
    ArrowPrinted();
    ArrowOperands(g);
    ArrowStep(g, OddArrow, x, 4);
    ArrowStep(g, PrintExpr(e), JsonFieldRef("x"), 3);
  }

  lemma ArrowPrinted()
    ensures PrintExpr(Binary(ARROW, FieldRef(DefaultStream, "a"), FieldRef(DefaultStream, "x")))
         == [Lexeme(IDENT, "a"), Mark(ARROW), Lexeme(IDENT, "x")]
  {
    hide Spelling;
    assert PrintTree(FieldRef(DefaultStream, "a"), None) == [Lexeme(IDENT, "a")];
    assert PrintTree(FieldRef(DefaultStream, "x"), Some(ARROW)) == [Mark(ARROW)] + [Lexeme(IDENT, "x")];
  }

  lemma ArrowOperands(g: Env)
    requires !g.inMeta
    ensures ParseUnary(g, OddArrow, 2, true) == Ok(FieldRef(DefaultStream, "x"), 4)
    ensures ParseUnary(g, [Lexeme(IDENT, "a"), Mark(ARROW), Lexeme(IDENT, "x")], 2, true) == Ok(JsonFieldRef("x"), 3)
  {
    hide Spelling, ParseUnary;
    var t := [Lexeme(IDENT, "a"), Mark(ARROW), Lexeme(IDENT, "x")];
    UnaryCases(g, OddArrow, 2, true);
    UnaryCases(g, OddArrow, 3, false);
    UnaryCases(g, t, 2, true);
  }

  /** `a ->` and an operand up to the end of the text. */
  lemma ArrowStep(g: Env, tape: seq<Lexeme>, e: Expr, q: nat)
    requires !g.inMeta && q == |tape| > 2 && tape[0] == Lexeme(IDENT, "a") && tape[1].tok.ARROW?
    requires ParseUnary(g, tape, 2, true) == Ok(e, q)
    ensures ParseExpr(g, tape, 0) == Ok(Binary(ARROW, FieldRef(DefaultStream, "a"), e), q)
  {
    NameReads(g, tape, 0);
    hide ParseUnary;
    var a := FieldRef(DefaultStream, "a");
    assert Insert(a, ARROW, e) == Binary(ARROW, a, e);
    Ended(g, tape, q, Binary(ARROW, a, e));
    assert ParseOperators(g, tape, 1, a) == ParseOperators(g, tape, q, Insert(a, ARROW, e));
    hide ParseOperators;
  }
}
