/** Resolving names while parsing or afterwards: when the two give the same tree. */
module EarlyLate {
  import opened Tokens
  import opened ExprTrees
  import opened ExprGrammar
  import opened Desugar

  function Late(r: Result<Expr>, s: seq<string>): Result<Expr> {
    match r
    case Err => Err
    case Ok(e, q) => Ok(Validate(e, s), q)
  }

  function Unaware(g: Env): Env {
    g.(sources := [])
  }

  // ----- where the reserved name stands as a qualifier -----

  /** A name qualified by the one reserved for "no qualifier". */
  predicate ReservedPair(tape: seq<Lexeme>, k: nat) {
    && At(tape, k) == Lexeme(IDENT, DefaultStream)
    && At(tape, k + 1).tok.DOT?
    && (At(tape, k + 2).tok.IDENT? || At(tape, k + 2).tok.ASTERISK?)
  }

  /** For one reference the two orders agree except when the qualifier is the reserved name. */
  lemma ReferenceAgrees(g: Env, n: seq<string>, sub: bool)
    requires g.sources != [] && 1 <= |n| <= 2
    ensures Reference(g, n, sub) == Validate(Reference(g.(sources := []), n, sub), g.sources)
       <==> (|n| == 1 || n[0] != DefaultStream || DefaultStream in g.sources)
  {
  }

  ghost predicate SomePair(tape: seq<Lexeme>) {
    exists k: nat :: ReservedPair(tape, k)
  }

  /** The expression at `p` keeps such a pair: it is read as a qualifier, not behind an arrow or a
      dot, and not in an ELSE that a later one replaces. */
  function ExprUses(g: Env, tape: seq<Lexeme>, p: nat): (r: bool)
    ensures r ==> SomePair(tape)
    decreases Left(tape, p), 4
  {
    var first := ParseUnary(g, tape, p, false);
    first.Ok? && (UnaryUses(g, tape, p, false) || OperatorsUse(g, tape, first.next))
  }

  function OperatorsUse(g: Env, tape: seq<Lexeme>, p: nat): (r: bool)
    requires p <= |tape|
    ensures r ==> SomePair(tape)
    decreases Left(tape, p), 3
  {
    IsOperator(At(tape, p).tok) &&
    match OperatorStep(tape, p)
    case Bad => false
    case Range(op, q) =>
      var r := ParseRange(g, tape, q);
      r.Ok? && (RangeUses(g, tape, q) || OperatorsUse(g, tape, r.next))
    case Rhs(op, q) =>
      var sub := op.ARROW? || op.DOT?;
      var r := ParseUnary(g, tape, q, sub);
      r.Ok? && (UnaryUses(g, tape, q, sub) || OperatorsUse(g, tape, r.next))
  }

  function RangeUses(g: Env, tape: seq<Lexeme>, p: nat): (r: bool)
    ensures r ==> SomePair(tape)
    decreases Left(tape, p), 3
  {
    var lo := ParseUnary(g, tape, p, false);
    lo.Ok? && (UnaryUses(g, tape, p, false) || UnaryUses(g, tape, lo.next + 1, false))
  }

  function UnaryUses(g: Env, tape: seq<Lexeme>, p: nat, sub: bool): (r: bool)
    ensures r ==> SomePair(tape)
    decreases Left(tape, p), 2
  {
    var x := At(tape, p).tok;
    if x.LPAREN? then ExprUses(g, tape, p + 1)
    else if x.LBRACKET? then BracketUses(g, tape, p + 1)
    else if x.IN? then ValueSetUses(g, tape, p + 1)
    else if x.CASE? then CaseUses(g, tape, p + 1)
    else !sub && ReservedPair(tape, p)
  }

  function ValueSetUses(g: Env, tape: seq<Lexeme>, p: nat): (r: bool)
    ensures r ==> SomePair(tape)
    decreases Left(tape, p), 3
  {
    if At(tape, p).tok.LPAREN? then ElementsUse(g, tape, p + 1) else UnaryUses(g, tape, p, false)
  }

  function ElementsUse(g: Env, tape: seq<Lexeme>, p: nat): (r: bool)
    ensures r ==> SomePair(tape)
    decreases Left(tape, p), 5
  {
    var e := ParseExpr(g, tape, p);
    e.Ok? && (ExprUses(g, tape, p) || (At(tape, e.next).tok.COMMA? && ElementsUse(g, tape, e.next + 1)))
  }

  function BracketUses(g: Env, tape: seq<Lexeme>, p: nat): (r: bool)
    ensures r ==> SomePair(tape)
    decreases Left(tape, p), 5
  {
    var x := At(tape, p).tok;
    if x.RBRACKET? then false
    else if x.INTEGER? then BracketEndUses(g, tape, p + 1)
    else if x.COLON? then ColonUses(g, tape, p + 1)
    else
      var e := ParseExpr(g, tape, p);
      e.Ok? && (ExprUses(g, tape, p) || BracketEndUses(g, tape, e.next))
  }

  function BracketEndUses(g: Env, tape: seq<Lexeme>, p: nat): (r: bool)
    ensures r ==> SomePair(tape)
    decreases Left(tape, p), 6
  {
    At(tape, p).tok.COLON? && ColonUses(g, tape, p + 1)
  }

  function ColonUses(g: Env, tape: seq<Lexeme>, p: nat): (r: bool)
    ensures r ==> SomePair(tape)
    decreases Left(tape, p), 5
  {
    !At(tape, p).tok.INTEGER? && !At(tape, p).tok.RBRACKET? && ExprUses(g, tape, p)
  }

  function CaseUses(g: Env, tape: seq<Lexeme>, p: nat): (r: bool)
    ensures r ==> SomePair(tape)
    decreases Left(tape, p), 6
  {
    if At(tape, p).tok.WHEN? then WhensUse(g, tape, p, None, false)
    else
      var e := ParseExpr(g, tape, p);
      e.Ok? && (ExprUses(g, tape, p) || WhensUse(g, tape, e.next, Some(e.value), false))
  }

  /** `kept` tells it of the ELSE read last. */
  function WhensUse(g: Env, tape: seq<Lexeme>, p: nat, value: Option<Expr>, kept: bool): (r: bool)
    ensures r ==> kept || SomePair(tape)
    decreases Left(tape, p), 5
  {
    var x := At(tape, p).tok;
    if x.WHEN? then
      var w := ParseWhen(g, tape, p + 1, value);
      w.Ok? && (WhenUses(g, tape, p + 1) || WhensUse(g, tape, w.next, value, kept))
    else if x.ELSE? then
      var e := ParseExpr(g, tape, p + 1);
      e.Ok? && WhensUse(g, tape, e.next, value, ExprUses(g, tape, p + 1))
    else kept
  }

  function WhenUses(g: Env, tape: seq<Lexeme>, p: nat): (r: bool)
    ensures r ==> SomePair(tape)
    decreases Left(tape, p), 5
  {
    var c := ParseExpr(g, tape, p);
    c.Ok? && (ExprUses(g, tape, p) || ExprUses(g, tape, c.next + 1))
  }

  // ----- trees that steer the parser alike -----

  /** Along the right spine the operators are the same, and the operands look alike to the
      checks the parser makes. */
  predicate Similar(a: Expr, b: Expr)
    decreases a
  {
    if Tight(a) && Tight(b)
    then IsBooleanArg(a) == IsBooleanArg(b) && (a.StringLiteral? || b.StringLiteral? ==> a == b)
    else a.Binary? && b.Binary? && a.op == b.op && Similar(a.rhs, b.rhs)
  }

  lemma SimilarNode(op: Token, a: Expr, b: Expr, e: Expr, f: Expr)
    requires Similar(e, f)
    ensures Similar(Binary(op, a, e), Binary(op, b, f))
  {
  }

  lemma SimilarBelow(a: Expr, b: Expr)
    requires Similar(a, b) && !(Tight(a) && Tight(b))
    ensures a.Binary? && b.Binary? && a.op == b.op && !a.op.ARROW? && Similar(a.rhs, b.rhs)
  {
  }

  lemma TightIsNotBelow(t: Expr, op: Token)
    requires Tight(t)
    ensures !Below(t, op)
  {
  }

  lemma {:induction false} InsertSimilar(a: Expr, b: Expr, op: Token, e: Expr, f: Expr)
    requires Similar(a, b) && Similar(e, f)
    ensures Similar(Insert(a, op, e), Insert(b, op, f))
    decreases a
  {
    InsertStep(a, op, e);
    InsertStep(b, op, f);
    if Tight(a) && Tight(b) {
      TightIsNotBelow(a, op);
      TightIsNotBelow(b, op);
      SimilarNode(op, a, b, e, f);
    } else {
      SimilarBelow(a, b);
      assert Below(a, op) <==> Below(b, op);
      hide Insert, Similar, Tight, Below;
      if Below(a, op) {
        InsertSimilar(a.rhs, b.rhs, op, e, f);
        SimilarNode(a.op, a.lhs, b.lhs, Insert(a.rhs, op, e), Insert(b.rhs, op, f));
      } else {
        SimilarNode(op, a, b, e, f);
      }
    }
  }

  /** With the operator fixed, the tree and the operand can be told from the insertion. */
  lemma {:induction false} InsertInjective(a: Expr, b: Expr, op: Token, e: Expr, f: Expr)
    ensures Insert(a, op, e) == Insert(b, op, f) <==> a == b && e == f
    decreases a
  {
    InsertStep(a, op, e);
    InsertStep(b, op, f);
    hide Insert, Tight, Precedence;
    if Below(a, op) && Below(b, op) {
      InsertInjective(a.rhs, b.rhs, op, e, f);
    }
  }

  // ----- the two orders, routine by routine -----

  /** With the names known the routine fails where it fails without them, ends where it ends, and
      gives the rewritten tree exactly when `differs` is false. */
  ghost predicate Agree(g: Env, r: Result<Expr>, r0: Result<Expr>, differs: bool) {
    match r0
    case Err => r.Err?
    case Ok(e0, q) =>
      r.Ok? && r.next == q && Similar(r.value, Validate(e0, g.sources)) && (r.value == Validate(e0, g.sources) <==> !differs)
  }

  /** The reserved name is no source, and the pair is kept. */
  predicate Bites(g: Env, uses: bool) {
    uses && DefaultStream !in g.sources
  }

  /** A reference may become an arrow, anything else stays what it is. */
  lemma TightStays(e: Expr, s: seq<string>)
    requires Tight(e)
    ensures Tight(Validate(e, s)) && (Validate(e, s).StringLiteral? || e.StringLiteral? ==> Validate(e, s) == e)
  {
  }

  lemma LikeIsSimilar(e: Expr, e0: Expr, s: seq<string>)
    ensures Similar(Like(e), Validate(Like(e0), s)) && Validate(Like(e0), s) == Like(Validate(e0, s))
  {
  }

  lemma SameOperand(g: Env, op: Token, e: Expr, e0: Expr)
    requires Tight(e) && Tight(e0) && Similar(e, Validate(e0, g.sources))
    ensures var o, o0 := OperandFor(g, op, e), OperandFor(Unaware(g), op, e0);
            && (o.Some? <==> o0.Some?)
            && (o.Some? ==> Similar(o.value, Validate(o0.value, g.sources)))
            && (o.Some? ==> (o.value == Validate(o0.value, g.sources) <==> e == Validate(e0, g.sources)))
  {
    var s := g.sources;
    TightStays(e0, s);
    LikeIsSimilar(e, e0, s);
    assert e.StringLiteral? || e0.StringLiteral? ==> e == e0;
    hide Validate, Similar, Tight;
  }

  /** Both trees grow by one operand. */
  lemma GrownAlike(t: Expr, t0: Expr, op: Token, e: Expr, e0: Expr, s: seq<string>)
    requires Similar(t, Validate(t0, s)) && Similar(e, Validate(e0, s)) && Canonical(op) == op
    ensures Similar(Insert(t, op, e), Validate(Insert(t0, op, e0), s))
    ensures Insert(t, op, e) == Validate(Insert(t0, op, e0), s) <==> t == Validate(t0, s) && e == Validate(e0, s)
  {
    InsertThenValidate(t0, op, e0, s);
    InsertSimilar(t, Validate(t0, s), op, e, Validate(e0, s));
    InsertInjective(t, Validate(t0, s), op, e, Validate(e0, s));
  }

  lemma {:induction false} OperatorsAgree(g: Env, tape: seq<Lexeme>, p: nat, t: Expr, t0: Expr)
    requires g.sources != [] && p <= |tape| && Similar(t, Validate(t0, g.sources))
    ensures Agree(g, ParseOperators(g, tape, p, t), ParseOperators(Unaware(g), tape, p, t0),
                  Bites(g, OperatorsUse(Unaware(g), tape, p)) || t != Validate(t0, g.sources))
    decreases Left(tape, p), 3
  {
    hide Validate, ParseUnary, ParseRange, OperatorStep, IsOperator, Insert, OperandFor, UnaryUses, RangeUses, Similar,
         Canonical;
    var g0, s := Unaware(g), g.sources;
    if IsOperator(At(tape, p).tok) {
      match OperatorStep(tape, p)
      case Bad =>
      case Range(op, q) =>
        RangeAgrees(g, tape, q);
        RangeIsCanonical(tape, p);
        var r, r0 := ParseRange(g, tape, q), ParseRange(g0, tape, q);
        if r0.Ok? {
          GrownAlike(t, t0, op, r.value, r0.value, s);
          OperatorsAgree(g, tape, r0.next, Insert(t, op, r.value), Insert(t0, op, r0.value));
        }
      case Rhs(op, q) =>
        var sub := op.ARROW? || op.DOT?;
        UnaryAgrees(g, tape, q, sub);
        var r, r0 := ParseUnary(g, tape, q, sub), ParseUnary(g0, tape, q, sub);
        if r0.Ok? {
          SameOperand(g, op, r.value, r0.value);
          var o, o0 := OperandFor(g, op, r.value), OperandFor(g0, op, r0.value);
          if o0.Some? {
            CanonicalTwice(op);
            GrownAlike(t, t0, Canonical(op), o.value, o0.value, s);
            OperatorsAgree(g, tape, r0.next, Insert(t, Canonical(op), o.value), Insert(t0, Canonical(op), o0.value));
          }
        }
    }
  }

  lemma RangeIsCanonical(tape: seq<Lexeme>, p: nat)
    requires IsOperator(At(tape, p).tok) && OperatorStep(tape, p).Range?
    ensures Canonical(OperatorStep(tape, p).op) == OperatorStep(tape, p).op
  {
  }

  lemma CanonicalTwice(op: Token)
    ensures Canonical(Canonical(op)) == Canonical(op)
  {
  }

  lemma {:induction false} ExprAgrees(g: Env, tape: seq<Lexeme>, p: nat)
    requires g.sources != []
    ensures Agree(g, ParseExpr(g, tape, p), ParseExpr(Unaware(g), tape, p), Bites(g, ExprUses(Unaware(g), tape, p)))
    decreases Left(tape, p), 4
  {
    hide Validate, ParseUnary, ParseOperators, UnaryUses, OperatorsUse, Similar;
    UnaryAgrees(g, tape, p, false);
    var r, r0 := ParseUnary(g, tape, p, false), ParseUnary(Unaware(g), tape, p, false);
    if r0.Ok? {
      OperatorsAgree(g, tape, r0.next, r.value, r0.value);
    }
  }

  lemma {:induction false} RangeAgrees(g: Env, tape: seq<Lexeme>, p: nat)
    requires g.sources != []
    ensures Agree(g, ParseRange(g, tape, p), ParseRange(Unaware(g), tape, p), Bites(g, RangeUses(Unaware(g), tape, p)))
    ensures ParseRange(Unaware(g), tape, p).Ok? ==> ParseRange(Unaware(g), tape, p).value.Between?
    decreases Left(tape, p), 3
  {
    hide ParseUnary, UnaryUses;
    var g0 := Unaware(g);
    UnaryAgrees(g, tape, p, false);
    var r0 := ParseUnary(g0, tape, p, false);
    if r0.Ok? {
      UnaryAgrees(g, tape, r0.next + 1, false);
    }
  }

  lemma {:induction false} UnaryAgrees(g: Env, tape: seq<Lexeme>, p: nat, sub: bool)
    requires g.sources != []
    ensures Agree(g, ParseUnary(g, tape, p, sub), ParseUnary(Unaware(g), tape, p, sub), Bites(g, UnaryUses(Unaware(g), tape, p, sub)))
    decreases Left(tape, p), 2
  {
    hide ParseExpr, ParseBracket, ParseValueSet, ParseCase, ParseAsterisk, Reference, ExprUses, BracketUses,
         ValueSetUses, CaseUses;
    var x := At(tape, p).tok;
    if x.LPAREN? {
      ExprAgrees(g, tape, p + 1);
    } else if x.LBRACKET? {
      BracketAgrees(g, tape, p + 1);
    } else if x.IN? {
      ValueSetAgrees(g, tape, p + 1);
    } else if x.CASE? {
      CaseAgrees(g, tape, p + 1);
    } else if x.IDENT? {
      ReferencesAgree(g, tape, p, sub);
    } else if x.ASTERISK? {
      EarlyAsterisk(g, tape, p + 1, []);
      SameIsSimilar(ParseAsterisk(g, tape, p + 1, []));
    } else {
      match LiteralOf(g, At(tape, p))
      case None =>
      case Some(e) => assert Validate(e, g.sources) == e;
    }
  }

  lemma SameIsSimilar(r: Result<Expr>)
    ensures r.Ok? ==> Similar(r.value, r.value)
  {
    if r.Ok? { Alike(r.value); }
  }

  lemma {:induction false} Alike(e: Expr)
    ensures Similar(e, e)
    decreases e
  {
    if e.Binary? { Alike(e.rhs); }
  }

  lemma ReferencesAgree(g: Env, tape: seq<Lexeme>, p: nat, sub: bool)
    requires g.sources != [] && At(tape, p).tok.IDENT?
    ensures Agree(g, ReadReference(g, tape, p, sub), ReadReference(Unaware(g), tape, p, sub), Bites(g, !sub && ReservedPair(tape, p)))
  {
    match Sections(tape, p, sub)
    case Err =>
    case Ok(n, q) => ReferenceAgrees(g, n, sub);
  }

  lemma {:induction false} EarlyAsterisk(g: Env, tape: seq<Lexeme>, p: nat, except: seq<string>)
    requires p <= |tape|
    ensures ParseAsterisk(g, tape, p, except) == Late(ParseAsterisk(Unaware(g), tape, p, except), g.sources)
    decreases Left(tape, p)
  {
    hide ParseNames;
    if At(tape, p).tok.EXCEPT? && !g.inMeta && At(tape, p + 1).tok.LPAREN? {
      match ParseNames(tape, p + 2, [])
      case Err =>
      case Ok(names, q) => EarlyAsterisk(g, tape, q, names);
    }
  }

  lemma {:induction false} ValueSetAgrees(g: Env, tape: seq<Lexeme>, p: nat)
    requires g.sources != []
    ensures Agree(g, ParseValueSet(g, tape, p), ParseValueSet(Unaware(g), tape, p), Bites(g, ValueSetUses(Unaware(g), tape, p)))
    decreases Left(tape, p), 3
  {
    hide ParseUnary, ParseElements, UnaryUses, ElementsUse;
    if At(tape, p).tok.LPAREN? {
      ElementsAgree(g, tape, p + 1, [], []);
    } else {
      UnaryAgrees(g, tape, p, false);
    }
  }

  lemma {:induction false} ElementsAgree(g: Env, tape: seq<Lexeme>, p: nat, acc: seq<Expr>, acc0: seq<Expr>)
    requires g.sources != [] && |acc| == |acc0|
    ensures Agree(g, ParseElements(g, tape, p, acc), ParseElements(Unaware(g), tape, p, acc0),
                  Bites(g, ElementsUse(Unaware(g), tape, p)) || acc != ValidateAll(acc0, g.sources))
    decreases Left(tape, p), 5
  {
    hide ParseExpr, ExprUses, Similar, Validate, ValidateAll;
    var g0, s := Unaware(g), g.sources;
    ExprAgrees(g, tape, p);
    var r, r0 := ParseExpr(g, tape, p), ParseExpr(g0, tape, p);
    if r0.Ok? {
      OneElementMore(acc, acc0, r.value, r0.value, s);
      SetsAreSimilar(acc + [r.value], acc0 + [r0.value], s);
      if At(tape, r0.next).tok.COMMA? {
        ElementsAgree(g, tape, r0.next + 1, acc + [r.value], acc0 + [r0.value]);
      }
    }
  }

  lemma OneElementMore(acc: seq<Expr>, acc0: seq<Expr>, e: Expr, e0: Expr, s: seq<string>)
    requires |acc| == |acc0|
    ensures acc + [e] == ValidateAll(acc0 + [e0], s) <==> acc == ValidateAll(acc0, s) && e == Validate(e0, s)
  {
    assert (acc0 + [e0])[..|acc0|] == acc0;
    assert ValidateAll(acc0 + [e0], s) == ValidateAll(acc0, s) + [Validate(e0, s)];
    assert (acc + [e])[..|acc|] == acc && (acc + [e])[|acc|] == e;
    var v := ValidateAll(acc0, s) + [Validate(e0, s)];
    assert v[..|acc|] == ValidateAll(acc0, s) && v[|acc|] == Validate(e0, s);
  }

  lemma SetsAreSimilar(es: seq<Expr>, es0: seq<Expr>, s: seq<string>)
    ensures Similar(ValueSet(es), Validate(ValueSet(es0), s))
    ensures Validate(ValueSet(es0), s) == ValueSet(ValidateAll(es0, s))
  {
  }

  lemma {:induction false} BracketAgrees(g: Env, tape: seq<Lexeme>, p: nat)
    requires g.sources != []
    ensures Agree(g, ParseBracket(g, tape, p), ParseBracket(Unaware(g), tape, p), Bites(g, BracketUses(Unaware(g), tape, p)))
    decreases Left(tape, p), 5
  {
    hide ParseExpr, ParseColon, ParseBracketEnd, ExprUses, ColonUses, BracketEndUses;
    var x := At(tape, p);
    if x.tok.INTEGER? {
      BracketEndAgrees(g, tape, p + 1, IntegerLiteral(x.lit), IntegerLiteral(x.lit));
    } else if x.tok.COLON? {
      ColonAgrees(g, tape, p + 1, IntegerLiteral("0"), IntegerLiteral("0"));
    } else if !x.tok.RBRACKET? {
      ExprAgrees(g, tape, p);
      var r, r0 := ParseExpr(g, tape, p), ParseExpr(Unaware(g), tape, p);
      if r0.Ok? {
        BracketEndAgrees(g, tape, r0.next, r.value, r0.value);
      }
    }
  }

  lemma {:induction false} BracketEndAgrees(g: Env, tape: seq<Lexeme>, p: nat, start: Expr, start0: Expr)
    requires g.sources != []
    ensures Agree(g, ParseBracketEnd(g, tape, p, start), ParseBracketEnd(Unaware(g), tape, p, start0),
                  Bites(g, BracketEndUses(Unaware(g), tape, p)) || start != Validate(start0, g.sources))
    decreases Left(tape, p), 6
  {
    hide ParseColon, ColonUses;
    if At(tape, p).tok.COLON? {
      ColonAgrees(g, tape, p + 1, start, start0);
    }
  }

  /** A slice differs exactly if its start or its end does. */
  lemma SliceAgrees(g: Env, x: Expr, x0: Expr, y: Result<Expr>, y0: Result<Expr>, q: nat, differs: bool)
    requires Agree(g, y, y0, differs) && y0.Ok?
    ensures y.Ok?
    ensures Agree(g, Ok(Colon(x, y.value), q), Ok(Colon(x0, y0.value), q), differs || x != Validate(x0, g.sources))
  {
    assert Validate(Colon(x0, y0.value), g.sources) == Colon(Validate(x0, g.sources), Validate(y0.value, g.sources));
  }

  lemma LiteralAgrees(g: Env, text: string)
    ensures Agree(g, Ok(IntegerLiteral(text), 0), Ok(IntegerLiteral(text), 0), false)
  {
  }

  lemma {:induction false} ColonAgrees(g: Env, tape: seq<Lexeme>, p: nat, start: Expr, start0: Expr)
    requires g.sources != []
    ensures Agree(g, ParseColon(g, tape, p, start), ParseColon(Unaware(g), tape, p, start0),
                  Bites(g, ColonUses(Unaware(g), tape, p)) || start != Validate(start0, g.sources))
    decreases Left(tape, p), 5
  {
    hide ParseExpr, ExprUses, Similar, Validate;
    var x := At(tape, p);
    if x.tok.INTEGER? {
      LiteralAgrees(g, x.lit);
      SliceAgrees(g, start, start0, Ok(IntegerLiteral(x.lit), 0), Ok(IntegerLiteral(x.lit), 0), p + 2, false);
    } else if x.tok.RBRACKET? {
      LiteralAgrees(g, MinInt32);
      SliceAgrees(g, start, start0, Ok(IntegerLiteral(MinInt32), 0), Ok(IntegerLiteral(MinInt32), 0), p + 1, false);
    } else {
      ExprAgrees(g, tape, p);
      var r, r0 := ParseExpr(g, tape, p), ParseExpr(Unaware(g), tape, p);
      if r0.Ok? {
        SliceAgrees(g, start, start0, r, r0, r0.next + 1, Bites(g, ExprUses(Unaware(g), tape, p)));
      }
    }
  }

  lemma {:induction false} CaseAgrees(g: Env, tape: seq<Lexeme>, p: nat)
    requires g.sources != []
    ensures Agree(g, ParseCase(g, tape, p), ParseCase(Unaware(g), tape, p), Bites(g, CaseUses(Unaware(g), tape, p)))
    decreases Left(tape, p), 6
  {
    hide ParseExpr, ParseWhens, ExprUses, WhensUse;
    if At(tape, p).tok.WHEN? {
      WhensAgree(g, tape, p, None, None, [], [], None, None);
    } else {
      ExprAgrees(g, tape, p);
      var r, r0 := ParseExpr(g, tape, p), ParseExpr(Unaware(g), tape, p);
      if r0.Ok? {
        WhensAgree(g, tape, r0.next, Some(r.value), Some(r0.value), [], [], None, None);
      }
    }
  }

  /** What was read of a CASE so far differs, apart from its ELSE. */
  predicate Differ(value: Option<Expr>, value0: Option<Expr>, whens: seq<When>, whens0: seq<When>, s: seq<string>) {
    value != ValidateOption(value0, s) || whens != ValidateWhens(whens0, s)
  }

  lemma {:induction false} WhensAgree(g: Env, tape: seq<Lexeme>, p: nat, value: Option<Expr>, value0: Option<Expr>,
      whens: seq<When>, whens0: seq<When>, els: Option<Expr>, els0: Option<Expr>)
    requires g.sources != [] && (value.Some? <==> value0.Some?) && |whens| == |whens0| && (els.Some? <==> els0.Some?)
    requires DefaultStream in g.sources ==> els == ValidateOption(els0, g.sources)
    ensures Agree(g, ParseWhens(g, tape, p, value, whens, els), ParseWhens(Unaware(g), tape, p, value0, whens0, els0),
                  Bites(g, WhensUse(Unaware(g), tape, p, value0, els != ValidateOption(els0, g.sources))) || Differ(value, value0, whens, whens0, g.sources))
    decreases Left(tape, p), 5
  {
    hide ParseExpr, ParseWhen, ExprUses, WhenUses, Similar, Validate;
    var g0, s, x := Unaware(g), g.sources, At(tape, p).tok;
    if x.WHEN? {
      WhenAgrees(g, tape, p + 1, value, value0);
      var r, r0 := ParseWhen(g, tape, p + 1, value), ParseWhen(g0, tape, p + 1, value0);
      if r0.Ok? {
        OneWhenMore(whens, whens0, r.value, r0.value, s);
        WhensAgree(g, tape, r0.next, value, value0, whens + [r.value], whens0 + [r0.value], els, els0);
      }
    } else if whens != [] && x.ELSE? {
      ExprAgrees(g, tape, p + 1);
      var r, r0 := ParseExpr(g, tape, p + 1), ParseExpr(g0, tape, p + 1);
      if r0.Ok? {
        WhensAgree(g, tape, r0.next, value, value0, whens, whens0, Some(r.value), Some(r0.value));
      }
    } else if whens != [] && x.END? {
      CasesAreSimilar(value, value0, whens, whens0, els, els0, s);
    }
  }

  lemma CasesAreSimilar(value: Option<Expr>, value0: Option<Expr>, whens: seq<When>, whens0: seq<When>,
      els: Option<Expr>, els0: Option<Expr>, s: seq<string>)
    ensures Similar(Case(value, whens, els), Validate(Case(value0, whens0, els0), s))
    ensures Case(value, whens, els) == Validate(Case(value0, whens0, els0), s)
       <==> !Differ(value, value0, whens, whens0, s) && els == ValidateOption(els0, s)
  {
  }

  lemma OneWhenMore(ws: seq<When>, ws0: seq<When>, w: When, w0: When, s: seq<string>)
    requires |ws| == |ws0|
    ensures ws + [w] == ValidateWhens(ws0 + [w0], s) <==> ws == ValidateWhens(ws0, s) && w == ValidateWhen(w0, s)
  {
    assert (ws0 + [w0])[..|ws0|] == ws0;
    var v := ValidateWhens(ws0, s) + [ValidateWhen(w0, s)];
    assert ValidateWhens(ws0 + [w0], s) == v;
    assert (ws + [w])[..|ws|] == ws && (ws + [w])[|ws|] == w;
    assert v[..|ws|] == ValidateWhens(ws0, s) && v[|ws|] == ValidateWhen(w0, s);
  }

  lemma {:induction false} WhenAgrees(g: Env, tape: seq<Lexeme>, p: nat, value: Option<Expr>, value0: Option<Expr>)
    requires g.sources != [] && (value.Some? <==> value0.Some?)
    ensures var r, r0 := ParseWhen(g, tape, p, value), ParseWhen(Unaware(g), tape, p, value0);
            match r0
            case Err => r.Err?
            case Ok(w0, q) => r.Ok? && r.next == q && (r.value == ValidateWhen(w0, g.sources) <==> !Bites(g, WhenUses(Unaware(g), tape, p)))
    decreases Left(tape, p), 5
  {
    hide ParseExpr, ExprUses;
    ExprAgrees(g, tape, p);
    var r0 := ParseExpr(Unaware(g), tape, p);
    if r0.Ok? && At(tape, r0.next).tok.THEN? {
      SimilarIsBoolean(ParseExpr(g, tape, p).value, r0.value, g.sources);
      ExprAgrees(g, tape, r0.next + 1);
    }
  }

  lemma SimilarIsBoolean(e: Expr, e0: Expr, s: seq<string>)
    requires Similar(e, Validate(e0, s))
    ensures IsBooleanArg(e) == IsBooleanArg(e0)
  {
  }

  // ----- the whole expression -----

  /** Exactly: the two orders give the same result unless the reserved name is no source and the
      expression that is read keeps it as a qualifier. */
  lemma EarlyIsLateExactly(g: Env, tape: seq<Lexeme>, p: nat)
    requires g.sources != []
    ensures var r0 := ParseExpr(Unaware(g), tape, p);
            ParseExpr(g, tape, p) == Late(r0, g.sources) <==> r0.Err? || DefaultStream in g.sources || !ExprUses(Unaware(g), tape, p)
  {
    ExprAgrees(g, tape, p);
  }

  /** They never differ in whether they fail, nor in where they end. */
  lemma EarlyEndsLikeLate(g: Env, tape: seq<Lexeme>, p: nat)
    requires g.sources != []
    ensures var r, r0 := ParseExpr(g, tape, p), ParseExpr(Unaware(g), tape, p);
            (r.Ok? <==> r0.Ok?) && (r.Ok? ==> r.next == r0.next)
  {
    ExprAgrees(g, tape, p);
  }

  /** So they agree on every text that nowhere qualifies a name by the reserved one. */
  lemma EarlyIsLate(g: Env, tape: seq<Lexeme>, p: nat)
    requires g.sources != [] && (DefaultStream in g.sources || !SomePair(tape))
    ensures ParseExpr(g, tape, p) == Late(ParseExpr(Unaware(g), tape, p), g.sources)
  {
    EarlyIsLateExactly(g, tape, p);
  }

  const Pair := [Lexeme(IDENT, DefaultStream), Lexeme(DOT, "."), Lexeme(IDENT, "b")]

  /** A pair at the start of the text is kept: there the late form has a reference to `b`, and the
      early form reads a column named by the reserved word. */
  lemma ReservedNameDiffers(g: Env)
    requires g.sources != [] && DefaultStream !in g.sources && !g.inMeta
    ensures ParseExpr(g, Pair, 0) == Ok(Binary(ARROW, FieldRef(DefaultStream, DefaultStream), JsonFieldRef("b")), 3)
    ensures Late(ParseExpr(Unaware(g), Pair, 0), g.sources) == Ok(FieldRef(DefaultStream, "b"), 3)
  {
    assert Sections(Pair, 0, false) == Ok([DefaultStream, "b"], 3);
    assert !IsOperator(At(Pair, 3).tok);
  }

  const Behind := [Lexeme(IDENT, "a"), Lexeme(ARROW, "->")] + Pair

  lemma BehindReads(g: Env)
    requires g.sources == [] && !g.inMeta
    ensures ParseUnary(g, Behind, 0, false) == Ok(FieldRef(DefaultStream, "a"), 1)
    ensures OperatorStep(Behind, 1) == Rhs(ARROW, 2)
    ensures ParseUnary(g, Behind, 2, true) == Ok(JsonFieldRef(DefaultStream), 3)
    ensures OperatorStep(Behind, 3) == Rhs(DOT, 4)
    ensures ParseUnary(g, Behind, 4, true) == Ok(JsonFieldRef("b"), 5)
  {
  }

  lemma BehindGoesOn(g: Env, p: nat, t: Expr)
    requires g.sources == [] && !g.inMeta && (p == 1 || p == 3 || p == 5)
    ensures ParseOperators(g, Behind, p, t).Ok? && !OperatorsUse(g, Behind, p)
    decreases 5 - p
  {
    BehindReads(g);
    hide ParseUnary, OperatorStep;
    if p == 1 {
      BehindGoesOn(g, 3, Insert(t, ARROW, JsonFieldRef(DefaultStream)));
    } else if p == 3 {
      BehindGoesOn(g, 5, Insert(t, ARROW, JsonFieldRef("b")));
    }
  }

  /** Behind an arrow it is not: the two orders agree though the text has such a pair. */
  lemma PairBehindArrow(g: Env)
    requires g.sources != [] && DefaultStream !in g.sources && !g.inMeta
    ensures ReservedPair(Behind, 2) && ParseExpr(g, Behind, 0).Ok?
    ensures ParseExpr(g, Behind, 0) == Late(ParseExpr(Unaware(g), Behind, 0), g.sources)
  {
    BehindReads(Unaware(g));
    BehindGoesOn(Unaware(g), 1, FieldRef(DefaultStream, "a"));
    assert !UnaryUses(Unaware(g), Behind, 0, false);
    hide ParseUnary, ParseOperators, OperatorsUse, UnaryUses;
    EarlyIsLateExactly(g, Behind, 0);
    EarlyEndsLikeLate(g, Behind, 0);
  }
}
