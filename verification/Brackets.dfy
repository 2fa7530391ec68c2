/** The parser accepts only text whose brackets match: round and square ones, CASE with END, WHEN
    with THEN and BETWEEN with its AND, properly nested in each other. */
module Brackets {
  import opened Tokens
  import opened ExprTrees
  import opened ExprGrammar

  /** What is open at a place in the text. */
  datatype Frame = Round | Square | Cases | Clause | Bounds

  datatype Stack = Empty | Push(top: Frame, rest: Stack)

  predicate Top(s: Stack, f: Frame) {
    s.Push? && s.top == f
  }

  function Close(s: Stack, f: Frame): Option<Stack> {
    if Top(s, f) then Some(s.rest) else None
  }

  /** One lexeme opens, closes, needs what is open, or has no part in it. An AND closes a BETWEEN
      that is open, and joins two conditions otherwise. */
  function Next(s: Stack, tok: Token): Option<Stack> {
    if tok.LPAREN? then Some(Push(Round, s))
    else if tok.RPAREN? then Close(s, Round)
    else if tok.LBRACKET? then Some(Push(Square, s))
    else if tok.RBRACKET? then Close(s, Square)
    else if tok.CASE? then Some(Push(Cases, s))
    else if tok.WHEN? then if Top(s, Cases) then Some(Push(Clause, s)) else None
    else if tok.THEN? then Close(s, Clause)
    else if tok.ELSE? then if Top(s, Cases) then Some(s) else None
    else if tok.END? then Close(s, Cases)
    else if tok.BETWEEN? then Some(Push(Bounds, s))
    else if tok.AND? && Top(s, Bounds) then Some(s.rest)
    else Some(s)
  }

  /** Reading from `p` up to `q` with `s` open leaves `t` open. */
  predicate Leads(tape: seq<Lexeme>, p: nat, q: nat, s: Stack, t: Stack)
    decreases q - p
  {
    && p <= q <= |tape|
    && if p == q then s == t
       else
         var n := Next(s, tape[p].tok);
         n.Some? && Leads(tape, p + 1, q, n.value, t)
  }

  lemma {:induction false} Joined(tape: seq<Lexeme>, p: nat, q: nat, r: nat, s: Stack, t: Stack, u: Stack)
    requires Leads(tape, p, q, s, t) && Leads(tape, q, r, t, u)
    ensures Leads(tape, p, r, s, u)
    decreases q - p
  {
    hide Next;
    if p < q {
      Joined(tape, p + 1, q, r, Next(s, tape[p].tok).value, t, u);
    }
  }

  /** One lexeme more on the left. */
  lemma Before(tape: seq<Lexeme>, p: nat, q: nat, s: Stack, t: Stack)
    requires p < |tape| && Next(s, tape[p].tok).Some? && Leads(tape, p + 1, q, Next(s, tape[p].tok).value, t)
    ensures Leads(tape, p, q, s, t)
  {
  }

  /** One lexeme more on the right. */
  lemma After(tape: seq<Lexeme>, p: nat, q: nat, s: Stack, t: Stack, u: Stack)
    requires Leads(tape, p, q, s, t) && q < |tape| && Next(t, tape[q].tok) == Some(u)
    ensures Leads(tape, p, q + 1, s, u)
  {
    hide Next;
    assert Leads(tape, q + 1, q + 1, u, u);
    assert Leads(tape, q, q + 1, t, u);
    Joined(tape, p, q, q + 1, s, t, u);
  }

  /** No part in the bracketing. */
  predicate Neutral(tok: Token) {
    !tok.LPAREN? && !tok.RPAREN? && !tok.LBRACKET? && !tok.RBRACKET? && !tok.CASE? && !tok.WHEN? && !tok.THEN? &&
    !tok.ELSE? && !tok.END? && !tok.BETWEEN? && !tok.AND?
  }

  lemma {:induction false} NeutralLeads(tape: seq<Lexeme>, p: nat, q: nat, s: Stack)
    requires p <= q <= |tape| && forall i | p <= i < q :: Neutral(tape[i].tok)
    ensures Leads(tape, p, q, s, s)
    decreases q - p
  {
    if p < q {
      NeutralLeads(tape, p + 1, q, s);
    }
  }

  // ----- every routine leaves open what it found open -----

  lemma {:induction false} ExprMatches(g: Env, tape: seq<Lexeme>, p: nat, s: Stack)
    requires ParseExpr(g, tape, p).Ok? && !Top(s, Bounds)
    ensures Leads(tape, p, ParseExpr(g, tape, p).next, s, s)
    decreases Left(tape, p), 4
  {
    hide ParseOperators, ParseUnary, Leads;
    var r := ParseUnary(g, tape, p, false);
    UnaryMatches(g, tape, p, false, s);
    OperatorsMatch(g, tape, r.next, r.value, s);
    Joined(tape, p, r.next, ParseExpr(g, tape, p).next, s, s, s);
  }

  lemma {:induction false} OperatorsMatch(g: Env, tape: seq<Lexeme>, p: nat, tree: Expr, s: Stack)
    requires p <= |tape| && ParseOperators(g, tape, p, tree).Ok? && !Top(s, Bounds)
    ensures Leads(tape, p, ParseOperators(g, tape, p, tree).next, s, s)
    decreases Left(tape, p), 3
  {
    hide ParseUnary, ParseRange, Leads, Next, Insert, OperandFor, Canonical, OperatorStep, IsOperator;
    var end := ParseOperators(g, tape, p, tree).next;
    if !IsOperator(At(tape, p).tok) {
      NeutralLeads(tape, p, p, s);
    } else {
      match OperatorStep(tape, p)
      case Bad =>
      case Range(op, q) =>
        var r := ParseRange(g, tape, q);
        RangeStarts(tape, p, s);
        RangeMatches(g, tape, q, s);
        OperatorsMatch(g, tape, r.next, Insert(tree, op, r.value), s);
        Joined(tape, p, q, r.next, s, Push(Bounds, s), s);
        Joined(tape, p, r.next, end, s, s, s);
      case Rhs(op, q) =>
        var r := ParseUnary(g, tape, q, op.ARROW? || op.DOT?);
        StepStarts(tape, p, s);
        UnaryMatches(g, tape, q, op.ARROW? || op.DOT?, s);
        OperatorsMatch(g, tape, r.next, Insert(tree, Canonical(op), OperandFor(g, op, r.value).value), s);
        Joined(tape, p, q, r.next, s, s, s);
        Joined(tape, p, r.next, end, s, s, s);
    }
  }

  lemma RangeStarts(tape: seq<Lexeme>, p: nat, s: Stack)
    requires IsOperator(At(tape, p).tok) && OperatorStep(tape, p).Range?
    ensures Leads(tape, p, OperatorStep(tape, p).start, s, Push(Bounds, s))
  {
    var q := OperatorStep(tape, p).start;
    assert Leads(tape, q, q, Push(Bounds, s), Push(Bounds, s));
    Before(tape, q - 1, q, s, Push(Bounds, s));
    if q == p + 2 {
      Before(tape, p, q, s, Push(Bounds, s));
    }
    hide Next, Leads;
  }

  lemma StepStarts(tape: seq<Lexeme>, p: nat, s: Stack)
    requires IsOperator(At(tape, p).tok) && OperatorStep(tape, p).Rhs? && !Top(s, Bounds)
    ensures Leads(tape, p, OperatorStep(tape, p).start, s, s)
  {
    var q := OperatorStep(tape, p).start;
    assert Leads(tape, q, q, s, s);
    if q > p {
      Before(tape, q - 1, q, s, s);
    }
    if q == p + 2 {
      Before(tape, p, q, s, s);
    }
    hide Next, Leads;
  }

  lemma {:induction false} RangeMatches(g: Env, tape: seq<Lexeme>, p: nat, s: Stack)
    requires ParseRange(g, tape, p).Ok?
    ensures Leads(tape, p, ParseRange(g, tape, p).next, Push(Bounds, s), s)
    decreases Left(tape, p), 3
  {
    hide ParseUnary, Leads;
    var lo := ParseUnary(g, tape, p, false);
    var q := lo.next;
    var end := ParseRange(g, tape, p).next;
    UnaryMatches(g, tape, p, false, Push(Bounds, s));
    After(tape, p, q, Push(Bounds, s), Push(Bounds, s), s);
    UnaryMatches(g, tape, q + 1, false, s);
    Joined(tape, p, q + 1, end, Push(Bounds, s), s, s);
  }

  lemma {:induction false} UnaryMatches(g: Env, tape: seq<Lexeme>, p: nat, sub: bool, s: Stack)
    requires ParseUnary(g, tape, p, sub).Ok?
    ensures Leads(tape, p, ParseUnary(g, tape, p, sub).next, s, s)
    decreases Left(tape, p), 2
  {
    hide ParseExpr, ParseBracket, ParseCase, ParseElements, ParseAsterisk, Leads;
    var x, end := At(tape, p).tok, ParseUnary(g, tape, p, sub).next;
    if x.LPAREN? {
      var r := ParseExpr(g, tape, p + 1);
      ExprMatches(g, tape, p + 1, Push(Round, s));
      After(tape, p + 1, r.next, Push(Round, s), Push(Round, s), s);
      Before(tape, p, end, s, s);
    } else if x.LBRACKET? {
      BracketMatches(g, tape, p + 1, s);
      Before(tape, p, end, s, s);
    } else if x.IN? {
      if At(tape, p + 1).tok.LPAREN? {
        ElementsMatch(g, tape, p + 2, [], s);
        Before(tape, p + 1, end, s, s);
      } else {
        UnaryMatches(g, tape, p + 1, false, s);
      }
      Before(tape, p, end, s, s);
    } else if x.CASE? {
      CaseMatches(g, tape, p + 1, s);
      Before(tape, p, end, s, s);
    } else if x.ASTERISK? {
      StarMatches(g, tape, p + 1, [], s);
      Before(tape, p, end, s, s);
    } else {
      NeutralLeads(tape, p, end, s);
    }
  }

  lemma {:induction false} StarMatches(g: Env, tape: seq<Lexeme>, p: nat, except: seq<string>, s: Stack)
    requires p <= |tape| && ParseAsterisk(g, tape, p, except).Ok?
    ensures Leads(tape, p, ParseAsterisk(g, tape, p, except).next, s, s)
    decreases Left(tape, p), 1
  {
    hide ParseNames, Leads;
    var end := ParseAsterisk(g, tape, p, except).next;
    if At(tape, p).tok.EXCEPT? {
      var r := ParseNames(tape, p + 2, []);
      NamesMatch(tape, p + 2, [], s);
      Before(tape, p + 1, r.next, s, s);
      Before(tape, p, r.next, s, s);
      StarMatches(g, tape, r.next, r.value, s);
      Joined(tape, p, r.next, end, s, s, s);
    } else {
      NeutralLeads(tape, p, p, s);
    }
  }

  lemma {:induction false} NamesMatch(tape: seq<Lexeme>, p: nat, names: seq<string>, s: Stack)
    requires ParseNames(tape, p, names).Ok?
    ensures Leads(tape, p, ParseNames(tape, p, names).next, Push(Round, s), s)
    decreases Left(tape, p)
  {
    hide Leads;
    var x, end := At(tape, p), ParseNames(tape, p, names).next;
    if x.tok.IDENT? {
      NamesMatch(tape, p + 1, names + [x.lit], s);
    } else if x.tok.COMMA? {
      NamesMatch(tape, p + 1, names, s);
    } else {
      NeutralLeads(tape, end, end, s);
    }
    Before(tape, p, end, Push(Round, s), s);
  }

  lemma {:induction false} ElementsMatch(g: Env, tape: seq<Lexeme>, p: nat, acc: seq<Expr>, s: Stack)
    requires ParseElements(g, tape, p, acc).Ok?
    ensures Leads(tape, p, ParseElements(g, tape, p, acc).next, Push(Round, s), s)
    decreases Left(tape, p), 5
  {
    hide ParseExpr, Leads;
    var open := Push(Round, s);
    var r, end := ParseExpr(g, tape, p), ParseElements(g, tape, p, acc).next;
    ExprMatches(g, tape, p, open);
    if At(tape, r.next).tok.COMMA? {
      ElementsMatch(g, tape, r.next + 1, acc + [r.value], s);
      After(tape, p, r.next, open, open, open);
      Joined(tape, p, r.next + 1, end, open, open, s);
    } else {
      After(tape, p, r.next, open, open, s);
    }
  }

  lemma {:induction false} BracketMatches(g: Env, tape: seq<Lexeme>, p: nat, s: Stack)
    requires ParseBracket(g, tape, p).Ok?
    ensures Leads(tape, p, ParseBracket(g, tape, p).next, Push(Square, s), s)
    decreases Left(tape, p), 6
  {
    hide ParseExpr, ParseColon, ParseBracketEnd, Leads;
    var open := Push(Square, s);
    var x, end := At(tape, p), ParseBracket(g, tape, p).next;
    if x.tok.RBRACKET? {
      NeutralLeads(tape, end, end, s);
      Before(tape, p, end, open, s);
    } else if x.tok.INTEGER? {
      BracketEndMatches(g, tape, p + 1, IntegerLiteral(x.lit), s);
      Before(tape, p, end, open, s);
    } else if x.tok.COLON? {
      ColonMatches(g, tape, p + 1, IntegerLiteral("0"), s);
      Before(tape, p, end, open, s);
    } else {
      var r := ParseExpr(g, tape, p);
      ExprMatches(g, tape, p, open);
      BracketEndMatches(g, tape, r.next, r.value, s);
      Joined(tape, p, r.next, end, open, open, s);
    }
  }

  lemma {:induction false} BracketEndMatches(g: Env, tape: seq<Lexeme>, p: nat, start: Expr, s: Stack)
    requires ParseBracketEnd(g, tape, p, start).Ok?
    ensures Leads(tape, p, ParseBracketEnd(g, tape, p, start).next, Push(Square, s), s)
    decreases Left(tape, p), 7
  {
    hide ParseColon, Leads;
    var end := ParseBracketEnd(g, tape, p, start).next;
    if At(tape, p).tok.RBRACKET? {
      NeutralLeads(tape, end, end, s);
    } else {
      ColonMatches(g, tape, p + 1, start, s);
    }
    Before(tape, p, end, Push(Square, s), s);
  }

  lemma {:induction false} ColonMatches(g: Env, tape: seq<Lexeme>, p: nat, start: Expr, s: Stack)
    requires ParseColon(g, tape, p, start).Ok?
    ensures Leads(tape, p, ParseColon(g, tape, p, start).next, Push(Square, s), s)
    decreases Left(tape, p), 6
  {
    hide ParseExpr, Leads;
    var open := Push(Square, s);
    var x, end := At(tape, p), ParseColon(g, tape, p, start).next;
    NeutralLeads(tape, end, end, s);
    if x.tok.INTEGER? {
      Before(tape, p + 1, end, open, s);
      Before(tape, p, end, open, s);
    } else if x.tok.RBRACKET? {
      Before(tape, p, end, open, s);
    } else {
      ExprMatches(g, tape, p, open);
      After(tape, p, end - 1, open, open, s);
    }
  }

  lemma {:induction false} CaseMatches(g: Env, tape: seq<Lexeme>, p: nat, s: Stack)
    requires ParseCase(g, tape, p).Ok?
    ensures Leads(tape, p, ParseCase(g, tape, p).next, Push(Cases, s), s)
    decreases Left(tape, p), 7
  {
    hide ParseExpr, ParseWhens, Leads;
    if At(tape, p).tok.WHEN? {
      WhensMatch(g, tape, p, None, [], None, s);
    } else {
      var r := ParseExpr(g, tape, p);
      ExprMatches(g, tape, p, Push(Cases, s));
      WhensMatch(g, tape, r.next, Some(r.value), [], None, s);
      Joined(tape, p, r.next, ParseCase(g, tape, p).next, Push(Cases, s), Push(Cases, s), s);
    }
  }

  lemma {:induction false} WhensMatch(g: Env, tape: seq<Lexeme>, p: nat, value: Option<Expr>, whens: seq<When>, els: Option<Expr>,
      s: Stack)
    requires ParseWhens(g, tape, p, value, whens, els).Ok?
    ensures Leads(tape, p, ParseWhens(g, tape, p, value, whens, els).next, Push(Cases, s), s)
    decreases Left(tape, p), 6
  {
    hide ParseExpr, ParseWhen, Leads;
    var open := Push(Cases, s);
    var x, end := At(tape, p).tok, ParseWhens(g, tape, p, value, whens, els).next;
    if x.WHEN? {
      var r := ParseWhen(g, tape, p + 1, value);
      WhenMatches(g, tape, p + 1, value, open);
      Before(tape, p, r.next, open, open);
      WhensMatch(g, tape, r.next, value, whens + [r.value], els, s);
      Joined(tape, p, r.next, end, open, open, s);
    } else if x.ELSE? {
      var r := ParseExpr(g, tape, p + 1);
      ExprMatches(g, tape, p + 1, open);
      Before(tape, p, r.next, open, open);
      WhensMatch(g, tape, r.next, value, whens, Some(r.value), s);
      Joined(tape, p, r.next, end, open, open, s);
    } else {
      NeutralLeads(tape, end, end, s);
      Before(tape, p, end, open, s);
    }
  }

  lemma {:induction false} WhenMatches(g: Env, tape: seq<Lexeme>, p: nat, value: Option<Expr>, s: Stack)
    requires ParseWhen(g, tape, p, value).Ok? && !Top(s, Bounds)
    ensures Leads(tape, p, ParseWhen(g, tape, p, value).next, Push(Clause, s), s)
    decreases Left(tape, p), 5
  {
    hide ParseExpr, Leads;
    var open := Push(Clause, s);
    var c := ParseExpr(g, tape, p);
    ExprMatches(g, tape, p, open);
    After(tape, p, c.next, open, open, s);
    ExprMatches(g, tape, c.next + 1, s);
    Joined(tape, p, c.next + 1, ParseWhen(g, tape, p, value).next, open, s, s);
  }
}
