/** Writing an expression tree out as tokens, and reading the same tree back. */
module ExprPrinter {
  import opened Tokens
  import opened ExprTrees
  import opened ExprGrammar

  function Key(tok: Token): seq<Lexeme> {
    [Mark(tok)]
  }

  function Ident(name: string): seq<Lexeme> {
    [Lexeme(IDENT, name)]
  }

  /** A keyword or symbol before the rest of a text. */
  function Led(tok: Token, rest: seq<Lexeme>): (s: seq<Lexeme>)
    ensures |s| == 1 + |rest|
  {
    Key(tok) + rest
  }

  lemma LedParts(tape: seq<Lexeme>, p: nat, tok: Token, rest: seq<Lexeme>)
    requires HasAt(tape, p, Led(tok, rest))
    ensures At(tape, p).tok == tok && HasAt(tape, p + 1, rest)
  {
    LexemeThen(tape, p, Mark(tok), rest);
  }

  /** A text, a keyword or symbol after it, and the rest. */
  function Parted(text: seq<Lexeme>, tok: Token, rest: seq<Lexeme>): (s: seq<Lexeme>)
    ensures |s| == |text| + 1 + |rest|
  {
    text + Led(tok, rest)
  }

  lemma PartedParts(tape: seq<Lexeme>, p: nat, text: seq<Lexeme>, tok: Token, rest: seq<Lexeme>)
    requires HasAt(tape, p, Parted(text, tok, rest))
    ensures HasAt(tape, p, text) && At(tape, p + |text|).tok == tok && HasAt(tape, p + |text| + 1, rest)
  {
    hide HasAt, Led;
    SplitAt(tape, p, text, Led(tok, rest));
    LedParts(tape, p + |text|, tok, rest);
  }

  function PrintRef(stream: string, name: string): seq<Lexeme> {
    if stream == DefaultStream then Ident(name) else Ident(stream) + (Key(DOT) + Ident(name))
  }

  function PrintExcept(names: seq<string>): seq<Lexeme> {
    if names == [] then Key(RPAREN) else Ident(names[0]) + PrintExcept(names[1..])
  }

  function PrintStarTail(except: seq<string>): seq<Lexeme> {
    if except == [] then [] else PrintExcepts(except)
  }

  function PrintExcepts(except: seq<string>): (s: seq<Lexeme>)
    ensures |s| == |PrintExcept(except)| + 2
  {
    Key(EXCEPT) + (Key(LPAREN) + PrintExcept(except))
  }

  function PrintExpr(e: Expr): seq<Lexeme>
    decreases e, 4
  {
    PrintTree(e, None)
  }

  /** The in-order text: an operand stands alone or behind its operator. */
  function PrintTree(e: Expr, prev: Option<Token>): seq<Lexeme>
    decreases e, 3
  {
    if e.Binary? then PrintTree(e.lhs, prev) + PrintTree(e.rhs, Some(e.op))
    else if prev.None? then PrintUnary(e)
    else PrintOperand(prev.value, e)
  }

  function PrintOperand(op: Token, e: Expr): seq<Lexeme>
    requires !e.Binary?
    decreases e, 2
  {
    if op.ARROW? && e.JsonFieldRef? then Key(ARROW) + Ident(e.name)
    else if op.LIKE? && e.Like? then Led(LIKE, PrintUnary(e.pattern))
    else if op.NOTLIKE? && e.Like? then Led(NOT, Led(LIKE, PrintUnary(e.pattern)))
    else if op.BETWEEN? && e.Between? then Key(BETWEEN) + PrintBounds(e)
    else if op.NOTBETWEEN? && e.Between? then Key(NOT) + (Key(BETWEEN) + PrintBounds(e))
    else if op.IN? then PrintMember(e)
    else if op.NOTIN? then Key(NOT) + PrintMember(e)
    else if op.SUBSET? then PrintUnary(e)
    else if op.MUL? then Key(ASTERISK) + PrintUnary(e)
    else Key(op) + PrintUnary(e)
  }

  function PrintBounds(e: Expr): seq<Lexeme>
    requires e.Between?
    decreases e, 1
  {
    PrintUnary(e.lower) + (Key(AND) + PrintUnary(e.higher))
  }

  /** A value set carries its IN, another operand needs one. */
  function PrintMember(e: Expr): seq<Lexeme>
    decreases e, 1
  {
    if e.ValueSet? then PrintUnary(e) else Key(IN) + PrintUnary(e)
  }

  function PrintUnary(e: Expr): seq<Lexeme>
    decreases e, 0
  {
    match e
    case Paren(x) => Key(LPAREN) + PrintExpr(x) + Key(RPAREN)
    case FieldRef(stream, name) => PrintRef(stream, name)
    case MetaRef(stream, name) => PrintRef(stream, name)
    case StringLiteral(s) => [Lexeme(STRING, s)]
    case IntegerLiteral(s) => [Lexeme(INTEGER, s)]
    case NumberLiteral(s) => [Lexeme(NUMBER, s)]
    case BooleanLiteral(b) => Key(if b then TRUE else FALSE)
    case TimeLiteral(unit) => Key(unit)
    case Wildcard(except) => Led(ASTERISK, PrintStarTail(except))
    case Case(value, whens, els) => Key(CASE) + PrintOption(value) + PrintWhens(whens) + PrintElse(els) + Key(END)
    case ValueSet(elems) => Key(IN) + Key(LPAREN) + PrintElements(elems)
    case Index(x) => Key(LBRACKET) + PrintExpr(x) + Key(RBRACKET)
    case Colon(x, y) => Key(LBRACKET) + PrintExpr(x) + Key(COLON) + PrintEnd(y) + Key(RBRACKET)
    case _ => []
  }

  function PrintEnd(e: Expr): seq<Lexeme>
    decreases e, 5
  {
    if e == IntegerLiteral(MinInt32) then [] else PrintExpr(e)
  }

  function PrintOption(e: Option<Expr>): seq<Lexeme>
    decreases e
  {
    if e.None? then [] else PrintExpr(e.value)
  }

  function PrintElse(e: Option<Expr>): seq<Lexeme>
    decreases e
  {
    if e.None? then [] else Key(ELSE) + PrintExpr(e.value)
  }

  function PrintElements(es: seq<Expr>): seq<Lexeme>
    decreases es
  {
    if es == [] then []
    else Parted(PrintExpr(es[0]), if |es| == 1 then RPAREN else COMMA, PrintElements(es[1..]))
  }

  function PrintWhens(ws: seq<When>): seq<Lexeme>
    decreases ws
  {
    if ws == [] then [] else PrintWhen(ws[0]) + PrintWhens(ws[1..])
  }

  function PrintWhen(w: When): seq<Lexeme>
    decreases w
  {
    Led(WHEN, Parted(PrintExpr(w.cond), THEN, PrintExpr(w.result)))
  }

  // ----- which trees are written as they read -----

  predicate Readable(g: Env, e: Expr)
    decreases e, 3
  {
    Ordered(e) && ReadableTree(g, e, None)
  }

  predicate ReadableTree(g: Env, e: Expr, prev: Option<Token>)
    decreases e, 2
  {
    if e.Binary? then ReadableTree(g, e.lhs, prev) && ReadableTree(g, e.rhs, Some(e.op))
    else if prev.None? then ReadableUnary(g, e)
    else ReadableOperand(g, prev.value, e)
  }

  predicate PlainOperator(op: Token) {
    op.ADD? || op.SUB? || op.MUL? || op.DIV? || op.MOD? || op.BITWISE_AND? || op.BITWISE_OR? || op.BITWISE_XOR? ||
    op.AND? || op.OR? || op.EQ? || op.NEQ? || op.LT? || op.LTE? || op.GT? || op.GTE?
  }

  /** Each operator has its own kind of operand. */
  predicate ReadableOperand(g: Env, op: Token, e: Expr)
    requires !e.Binary?
    decreases e, 1
  {
    if op.ARROW? then e.JsonFieldRef? || (ReadableUnary(g, e) && !e.FieldRef? && !e.MetaRef?)
    else if op.LIKE? || op.NOTLIKE? then e.Like? && ReadableUnary(g, e.pattern) && (e.pattern.StringLiteral? ==> g.likeOk(e.pattern.val))
    else if op.BETWEEN? || op.NOTBETWEEN? then e.Between? && ReadableUnary(g, e.lower) && ReadableUnary(g, e.higher)
    else if op.IN? || op.NOTIN? then ReadableUnary(g, e) && !e.Paren?
    else if op.SUBSET? then ReadableUnary(g, e) && (e.Index? || e.Colon?)
    else PlainOperator(op) && ReadableUnary(g, e)
  }

  predicate ReadableRef(g: Env, stream: string) {
    stream == DefaultStream || g.sources == [] || stream in g.sources
  }

  predicate ReadableUnary(g: Env, e: Expr)
    decreases e, 0
  {
    match e
    case Paren(x) => Readable(g, x)
    case FieldRef(stream, _) => !g.inMeta && ReadableRef(g, stream)
    case MetaRef(stream, _) => g.inMeta && ReadableRef(g, stream)
    case StringLiteral(_) => true
    case IntegerLiteral(_) => true
    case NumberLiteral(s) => g.floatOk(s)
    case BooleanLiteral(_) => true
    case TimeLiteral(unit) => IsTimeLiteral(unit)
    case Wildcard(_) => !g.inMeta
    case Case(value, whens, els) =>
      && whens != []
      && (value.Some? ==> Readable(g, value.value))
      && (els.Some? ==> Readable(g, els.value))
      && (forall w | w in whens :: Readable(g, w.cond) && Readable(g, w.result) && (value.None? ==> IsBooleanArg(w.cond)))
    case ValueSet(elems) => elems != [] && forall x | x in elems :: Readable(g, x)
    case Index(x) => ReadableIndex(g, x)
    case Colon(x, y) => ReadableIndex(g, x) && (y == IntegerLiteral(MinInt32) || ReadableIndex(g, y))
    case _ => false
  }

  /** Inside brackets an integer must stand alone. */
  predicate ReadableIndex(g: Env, e: Expr)
    decreases e, 4
  {
    Readable(g, e) && (First(e).IntegerLiteral? ==> e.IntegerLiteral? && g.intOk(e.text))
  }

  /** What may follow an operand without being taken for a part of it. */
  predicate Ends(tok: Token) {
    !tok.LPAREN? && !tok.DOT? && !tok.EXCEPT? && !tok.REPLACE?
  }

  predicate Stops(tok: Token) {
    !IsOperator(tok) && Ends(tok)
  }

  /** What may follow a reading must not be decided inside it: the first lexeme of each kind. */
  lemma {:induction false} UnaryStarts(g: Env, e: Expr)
    requires ReadableUnary(g, e)
    ensures PrintUnary(e) != []
    ensures var x := PrintUnary(e)[0].tok;
            (x.INTEGER? <==> e.IntegerLiteral?) && (x.LPAREN? <==> e.Paren?) && (x.LBRACKET? <==> e.Index? || e.Colon?)
            && (x.IN? <==> e.ValueSet?) && !x.WHEN? && !x.RBRACKET? && !x.COLON? && !x.DOT?
  {
    match e
    case Paren(x) => assert PrintUnary(e)[0] == Mark(LPAREN);
    case FieldRef(_, _) =>
    case MetaRef(_, _) =>
    case Wildcard(_) => assert PrintUnary(e)[0] == Mark(ASTERISK);
    case Case(value, whens, els) => assert PrintUnary(e)[0] == Mark(CASE);
    case ValueSet(elems) => assert PrintUnary(e)[0] == Mark(IN);
    case Index(x) => assert PrintUnary(e)[0] == Mark(LBRACKET);
    case Colon(x, y) => assert PrintUnary(e)[0] == Mark(LBRACKET);
    case _ =>
  }

  lemma {:induction false} TreeStarts(g: Env, e: Expr)
    requires ReadableTree(g, e, None)
    ensures ReadableUnary(g, First(e)) && PrintUnary(First(e)) <= PrintTree(e, None)
  {
    if e.Binary? {
      TreeStarts(g, e.lhs);
    }
  }

  lemma {:induction false} TailStarts(g: Env, e: Expr, op: Token)
    requires ReadableTree(g, e, Some(op))
    ensures PrintTree(e, Some(op)) != [] && Ends(PrintTree(e, Some(op))[0].tok)
  {
    hide Mark, ReadableOperand, PrintOperand;
    if e.Binary? {
      TailStarts(g, e.lhs, op);
    } else {
      OperandStarts(g, op, e);
    }
  }

  lemma OperandStarts(g: Env, op: Token, e: Expr)
    requires !e.Binary? && ReadableOperand(g, op, e)
    ensures PrintOperand(op, e) != [] && Ends(PrintOperand(op, e)[0].tok)
  {
    hide Spelling;
    KindOf(g, op, e);
    if op.SUBSET? || op.IN? || op.NOTIN? {
      hide PrintOperand, ReadableOperand, Ends;
      MemberStarts(g, op, e);
    } else {
      LeadingStarts(g, op, e);
      hide PrintOperand, ReadableOperand;
    }
  }

  lemma LeadingStarts(g: Env, op: Token, e: Expr)
    requires !e.Binary? && ReadableOperand(g, op, e) && PlainKind(op) && !op.SUBSET? && !op.IN? && !op.NOTIN?
    ensures PrintOperand(op, e) != []
    ensures PrintOperand(op, e)[0].tok == if op.NOTLIKE? || op.NOTBETWEEN? then NOT else if op.MUL? then ASTERISK else op
  {
    hide Mark, PrintUnary, PrintBounds, ReadableUnary;
  }

  lemma MemberStarts(g: Env, op: Token, e: Expr)
    requires !e.Binary? && ReadableOperand(g, op, e) && (op.SUBSET? || op.IN? || op.NOTIN?)
    ensures PrintOperand(op, e) != [] && Ends(PrintOperand(op, e)[0].tok)
  {
    hide Mark, PrintUnary, ReadableUnary, PrintMember;
    if op.SUBSET? {
      UnaryStarts(g, e);
    } else {
      SetOperandStarts(g, e);
    }
  }

  lemma SetOperandStarts(g: Env, e: Expr)
    requires ReadableUnary(g, e)
    ensures PrintMember(e) != [] && PrintMember(e)[0].tok.IN?
  {
    hide Mark, PrintUnary, ReadableUnary;
    UnaryStarts(g, e);
  }

  // ----- reading it back -----

  /** The round trip: a readable tree is what its own text parses to, and the lexeme after the
      text stays unread. */
  lemma {:induction false} ExprRoundTrip(g: Env, tape: seq<Lexeme>, p: nat, e: Expr)
    requires Readable(g, e) && HasAt(tape, p, PrintExpr(e)) && Stops(At(tape, p + |PrintExpr(e)|).tok)
    ensures ParseExpr(g, tape, p) == Ok(e, p + |PrintExpr(e)|)
    decreases e, 6
  {
    hide Mark, Readable, ReadableTree, PrintTree, HasAt, Ordered, InsertAll;
    assert Ordered(e) && ReadableTree(g, e, None) by { ReadableParts(g, e); }
    HeadRoundTrip(g, tape, p, e);
    RebuildOrdered(e);
  }

  lemma ReadableParts(g: Env, e: Expr)
    requires Readable(g, e)
    ensures Ordered(e) && ReadableTree(g, e, None)
  {
  }

  /** Reading the text of a tree that starts an expression leaves the parser as if it had
      inserted the tree's own reading. */
  lemma {:induction false} HeadRoundTrip(g: Env, tape: seq<Lexeme>, p: nat, e: Expr)
    requires ReadableTree(g, e, None) && HasAt(tape, p, PrintTree(e, None))
    requires Ends(At(tape, p + |PrintTree(e, None)|).tok)
    ensures p + |PrintTree(e, None)| <= |tape|
    ensures ParseExpr(g, tape, p) == ParseOperators(g, tape, p + |PrintTree(e, None)|, InsertAll(First(e), Items(e)))
    decreases e, 5
  {
    hide Mark, ParseOperators, ParseUnary, Insert, ReadableUnary, PrintUnary;
    if e.Binary? {
      var l, r := PrintTree(e.lhs, None), PrintTree(e.rhs, Some(e.op));
      SplitAt(tape, p, l, r);
      TailStarts(g, e.rhs, e.op);
      assert At(tape, p + |l|) == r[0] by { assert tape[p + |l|..p + |l| + |r|][0] == tape[p + |l|]; }
      HeadRoundTrip(g, tape, p, e.lhs);
      var t := InsertAll(First(e.lhs), Items(e.lhs));
      TailRoundTrip(g, tape, p + |l|, t, e.op, e.rhs);
      AppendItems(First(e.lhs), Items(e.lhs), e.op, e.rhs);
    } else {
      UnaryRoundTrip(g, tape, p, e, false);
    }
  }

  lemma {:induction false} TailRoundTrip(g: Env, tape: seq<Lexeme>, p: nat, t: Expr, op: Token, e: Expr)
    requires ReadableTree(g, e, Some(op)) && HasAt(tape, p, PrintTree(e, Some(op)))
    requires Ends(At(tape, p + |PrintTree(e, Some(op))|).tok)
    ensures p + |PrintTree(e, Some(op))| <= |tape|
    ensures ParseOperators(g, tape, p, t)
         == ParseOperators(g, tape, p + |PrintTree(e, Some(op))|, InsertAll(Insert(t, op, First(e)), Items(e)))
    decreases e, 5
  {
    hide Mark, ParseOperators, Insert, ReadableOperand, PrintOperand;
    if e.Binary? {
      var l, r := PrintTree(e.lhs, Some(op)), PrintTree(e.rhs, Some(e.op));
      SplitAt(tape, p, l, r);
      TailStarts(g, e.rhs, e.op);
      assert At(tape, p + |l|) == r[0] by { assert tape[p + |l|..p + |l| + |r|][0] == tape[p + |l|]; }
      TailRoundTrip(g, tape, p, t, op, e.lhs);
      var t1 := Insert(t, op, First(e.lhs));
      TailRoundTrip(g, tape, p + |l|, InsertAll(t1, Items(e.lhs)), e.op, e.rhs);
      AppendItems(t1, Items(e.lhs), e.op, e.rhs);
    } else {
      OperandRoundTrip(g, tape, p, t, op, e);
    }
  }

  lemma AppendItems(t: Expr, items: seq<Item>, op: Token, e: Expr)
    ensures InsertAll(Insert(InsertAll(t, items), op, First(e)), Items(e)) == InsertAll(t, items + [Item(op, First(e))] + Items(e))
  {
    InsertAllAppends(t, items, [Item(op, First(e))] + Items(e));
    assert items + [Item(op, First(e))] + Items(e) == items + ([Item(op, First(e))] + Items(e));
    assert ([Item(op, First(e))] + Items(e))[1..] == Items(e);
  }

  /** One operator with its operand, for every kind of operator. */
  lemma {:induction false} OperandRoundTrip(g: Env, tape: seq<Lexeme>, p: nat, t: Expr, op: Token, e: Expr)
    requires !e.Binary? && ReadableOperand(g, op, e)
    requires HasAt(tape, p, PrintOperand(op, e)) && Ends(At(tape, p + |PrintOperand(op, e)|).tok)
    ensures p + |PrintOperand(op, e)| <= |tape|
    ensures ParseOperators(g, tape, p, t) == ParseOperators(g, tape, p + |PrintOperand(op, e)|, Insert(t, op, e))
    decreases e, 4
  {
    hide Mark, Insert, PrintOperand, ReadableOperand, ParseOperators, ReadsOperand, HasAt;
    var q := p + |PrintOperand(op, e)|;
    assert PlainKind(op) by { KindOf(g, op, e); }
    if op.BETWEEN? || op.NOTBETWEEN? {
      RangeRoundTrip(g, tape, p, op, e);
      RangeIsRead(g, tape, p, t, op, e, q);
    } else {
      if op.LIKE? || op.NOTLIKE? {
        LikeRoundTrip(g, tape, p, op, e);
      } else if op.IN? || op.NOTIN? {
        MemberRoundTrip(g, tape, p, op, e);
      } else {
        SingleRoundTrip(g, tape, p, op, e);
      }
      OperandIsRead(g, tape, p, t, op, e, q);
    }
  }

  predicate PlainKind(op: Token) {
    op.LIKE? || op.NOTLIKE? || op.BETWEEN? || op.NOTBETWEEN? || op.IN? || op.NOTIN? || op.ARROW? || op.SUBSET? || PlainOperator(op)
  }

  lemma KindOf(g: Env, op: Token, e: Expr)
    requires !e.Binary? && ReadableOperand(g, op, e)
    ensures PlainKind(op)
  {
    hide ReadableUnary;
  }

  lemma OperandIsRead(g: Env, tape: seq<Lexeme>, p: nat, t: Expr, op: Token, e: Expr, q: nat)
    requires ReadsOperand(g, tape, p, op, e, q)
    ensures p <= q <= |tape| && ParseOperators(g, tape, p, t) == ParseOperators(g, tape, q, Insert(t, op, e))
  {
    hide Insert, ParseUnary, ParseRange, OperatorStep, OperandFor, Canonical;
  }

  lemma RangeIsRead(g: Env, tape: seq<Lexeme>, p: nat, t: Expr, op: Token, e: Expr, q: nat)
    requires IsOperator(At(tape, p).tok) && OperatorStep(tape, p).Range? && OperatorStep(tape, p).op == op
    requires ParseRange(g, tape, OperatorStep(tape, p).start) == Ok(e, q)
    ensures p <= q <= |tape| && ParseOperators(g, tape, p, t) == ParseOperators(g, tape, q, Insert(t, op, e))
  {
    hide Insert, ParseUnary, ParseRange, OperatorStep, OperandFor, Canonical;
  }

  /** The operator at `p` takes one operand, which reads as `e` and ends at `q`. */
  predicate ReadsOperand(g: Env, tape: seq<Lexeme>, p: nat, op: Token, e: Expr, q: nat) {
    && IsOperator(At(tape, p).tok)
    && var s := OperatorStep(tape, p);
       s.Rhs? && Canonical(s.op) == op &&
       var r := ParseUnary(g, tape, s.start, s.op.ARROW? || s.op.DOT?);
       r.Ok? && r.next == q && OperandFor(g, s.op, r.value) == Some(e)
  }

  lemma {:induction false} SingleRoundTrip(g: Env, tape: seq<Lexeme>, p: nat, op: Token, e: Expr)
    requires !e.Binary? && ReadableOperand(g, op, e)
    requires op.ARROW? || op.SUBSET? || PlainOperator(op)
    requires HasAt(tape, p, PrintOperand(op, e)) && Ends(At(tape, p + |PrintOperand(op, e)|).tok)
    ensures ReadsOperand(g, tape, p, op, e, p + |PrintOperand(op, e)|)
    decreases e, 3
  {
    hide Mark, PrintUnary, ReadableUnary, ParseUnary, HasAt;
    if op.SUBSET? {
      UnaryStarts(g, e);
      FirstAt(tape, p, PrintUnary(e));
      UnaryRoundTrip(g, tape, p, e, false);
    } else {
      var json := op.ARROW? && e.JsonFieldRef?;
      var text := if json then Ident(e.name) else PrintUnary(e);
      assert PrintOperand(op, e) == Key(if op.MUL? then ASTERISK else op) + text;
      PlainRoundTrip(g, tape, p, op, e, json, text);
    }
  }

  lemma {:induction false} PlainRoundTrip(g: Env, tape: seq<Lexeme>, p: nat, op: Token, e: Expr, json: bool,
      text: seq<Lexeme>)
    requires op.ARROW? || PlainOperator(op)
    requires if json then op.ARROW? && e.JsonFieldRef? else ReadableUnary(g, e) && (op.ARROW? ==> !e.FieldRef? && !e.MetaRef?)
    requires text == if json then Ident(e.name) else PrintUnary(e)
    requires HasAt(tape, p, Key(if op.MUL? then ASTERISK else op) + text) && Ends(At(tape, p + 1 + |text|).tok)
    ensures ReadsOperand(g, tape, p, op, e, p + 1 + |text|)
    decreases e, 2
  {
    hide Mark, PrintUnary, ReadableUnary, ParseUnary, HasAt, OperatorStep, IsOperator, PlainOperator, OperandFor;
    LexemeThen(tape, p, Mark(if op.MUL? then ASTERISK else op), text);
    PlainStep(g, tape, p, op, e);
    if json {
      JsonRoundTrip(g, tape, p + 1, e);
    } else {
      UnaryRoundTrip(g, tape, p + 1, e, op.ARROW?);
    }
  }

  lemma PlainStep(g: Env, tape: seq<Lexeme>, p: nat, op: Token, e: Expr)
    requires (op.ARROW? || PlainOperator(op)) && At(tape, p).tok == (if op.MUL? then ASTERISK else op) && p < |tape|
    ensures IsOperator(At(tape, p).tok) && OperatorStep(tape, p) == Rhs(op, p + 1)
    ensures Canonical(op) == op && !op.DOT? && OperandFor(g, op, e) == Some(e)
  {
  }

  lemma JsonRoundTrip(g: Env, tape: seq<Lexeme>, p: nat, e: Expr)
    requires e.JsonFieldRef? && HasAt(tape, p, Ident(e.name)) && Ends(At(tape, p + 1).tok)
    ensures ParseUnary(g, tape, p, true) == Ok(e, p + 1)
  {
    LexemeAt(tape, p, Lexeme(IDENT, e.name));
  }

  lemma {:induction false} LikeRoundTrip(g: Env, tape: seq<Lexeme>, p: nat, op: Token, e: Expr)
    requires !e.Binary? && ReadableOperand(g, op, e) && (op.LIKE? || op.NOTLIKE?)
    requires HasAt(tape, p, PrintOperand(op, e)) && Ends(At(tape, p + |PrintOperand(op, e)|).tok)
    ensures ReadsOperand(g, tape, p, op, e, p + |PrintOperand(op, e)|)
    decreases e, 2
  {
    hide PrintUnary, ReadableUnary, ParseUnary, HasAt, PrintOperand, Ends;
    LikeParts(tape, p, op, e);
    UnaryRoundTrip(g, tape, if op.LIKE? then p + 1 else p + 2, e.pattern, false);
  }

  lemma LikeParts(tape: seq<Lexeme>, p: nat, op: Token, e: Expr)
    requires e.Like? && (op.LIKE? || op.NOTLIKE?) && HasAt(tape, p, PrintOperand(op, e))
    ensures var q := if op.LIKE? then p + 1 else p + 2;
            && p + |PrintOperand(op, e)| == q + |PrintUnary(e.pattern)| && HasAt(tape, q, PrintUnary(e.pattern))
            && At(tape, p).tok == (if op.LIKE? then LIKE else NOT) && (op.NOTLIKE? ==> At(tape, p + 1).tok.LIKE?)
  {
    hide PrintUnary, HasAt, Led;
    var text := PrintUnary(e.pattern);
    if op.LIKE? {
      LedParts(tape, p, LIKE, text);
    } else {
      LedParts(tape, p, NOT, Led(LIKE, text));
      LedParts(tape, p + 1, LIKE, text);
    }
  }

  lemma {:induction false} MemberRoundTrip(g: Env, tape: seq<Lexeme>, p: nat, op: Token, e: Expr)
    requires !e.Binary? && ReadableOperand(g, op, e) && (op.IN? || op.NOTIN?)
    requires HasAt(tape, p, PrintOperand(op, e)) && Ends(At(tape, p + |PrintOperand(op, e)|).tok)
    ensures ReadsOperand(g, tape, p, op, e, p + |PrintOperand(op, e)|)
    decreases e, 3
  {
    hide Mark, PrintUnary, ReadableUnary, HasAt, ParseUnary, PrintMember;
    var q := p;
    if op.NOTIN? {
      LexemeThen(tape, p, Mark(NOT), PrintMember(e));
      q := p + 1;
    }
    MemberReads(g, tape, q, e);
  }

  /** From its IN on, a member operand reads back, whether or not it is a written-out set. */
  lemma {:induction false} MemberReads(g: Env, tape: seq<Lexeme>, p: nat, e: Expr)
    requires ReadableUnary(g, e) && !e.Paren?
    requires HasAt(tape, p, PrintMember(e)) && Ends(At(tape, p + |PrintMember(e)|).tok)
    ensures At(tape, p).tok.IN? && ParseUnary(g, tape, p, false) == Ok(e, p + |PrintMember(e)|)
    decreases e, 2
  {
    hide Mark, PrintUnary, ReadableUnary, HasAt, ParseExpr, ParseBracket, ParseCase, ParseAsterisk, LiteralOf, Sections,
         ParseElements;
    UnaryStarts(g, e);
    var text := PrintUnary(e);
    if e.ValueSet? {
      FirstAt(tape, p, text);
      UnaryRoundTrip(g, tape, p, e, false);
    } else {
      LexemeThen(tape, p, Mark(IN), text);
      FirstAt(tape, p + 1, text);
      UnaryRoundTrip(g, tape, p + 1, e, false);
      assert ParseUnary(g, tape, p, false) == ParseValueSet(g, tape, p + 1) == ParseUnary(g, tape, p + 1, false);
    }
  }

  /** BETWEEN: the step is a range, whose bounds read back. */
  lemma {:induction false} RangeRoundTrip(g: Env, tape: seq<Lexeme>, p: nat, op: Token, e: Expr)
    requires !e.Binary? && ReadableOperand(g, op, e) && (op.BETWEEN? || op.NOTBETWEEN?)
    requires HasAt(tape, p, PrintOperand(op, e)) && Ends(At(tape, p + |PrintOperand(op, e)|).tok)
    ensures IsOperator(At(tape, p).tok) && OperatorStep(tape, p).Range? && OperatorStep(tape, p).op == op
    ensures ParseRange(g, tape, OperatorStep(tape, p).start) == Ok(e, p + |PrintOperand(op, e)|)
    decreases e, 2
  {
    hide Mark, PrintUnary, PrintBounds, ReadableUnary, ParseUnary, HasAt;
    var bounds := PrintBounds(e);
    var q := p;
    if op.NOTBETWEEN? {
      LexemeThen(tape, p, Mark(NOT), Key(BETWEEN) + bounds);
      q := p + 1;
    }
    LexemeThen(tape, q, Mark(BETWEEN), bounds);
    BoundsRoundTrip(g, tape, q + 1, e);
  }

  lemma {:induction false} BoundsRoundTrip(g: Env, tape: seq<Lexeme>, p: nat, e: Expr)
    requires e.Between? && ReadableUnary(g, e.lower) && ReadableUnary(g, e.higher)
    requires HasAt(tape, p, PrintBounds(e)) && Ends(At(tape, p + |PrintBounds(e)|).tok)
    ensures ParseRange(g, tape, p) == Ok(e, p + |PrintBounds(e)|)
    decreases e, 1
  {
    hide Mark, PrintUnary, ReadableUnary, ParseUnary, HasAt;
    var lo, hi := PrintUnary(e.lower), PrintUnary(e.higher);
    TextThen(tape, p, lo, Mark(AND), hi);
    UnaryRoundTrip(g, tape, p, e.lower, false);
    UnaryRoundTrip(g, tape, p + |lo| + 1, e.higher, false);
  }

  lemma {:induction false} UnaryRoundTrip(g: Env, tape: seq<Lexeme>, p: nat, e: Expr, sub: bool)
    requires ReadableUnary(g, e) && (sub ==> !e.FieldRef? && !e.MetaRef?)
    requires HasAt(tape, p, PrintUnary(e)) && Ends(At(tape, p + |PrintUnary(e)|).tok)
    ensures ParseUnary(g, tape, p, sub) == Ok(e, p + |PrintUnary(e)|)
    decreases e, 1
  {
    hide Mark, HasAt, ParseUnary, ParenText, SetText, IndexText, SliceText, CaseText;
    match e
    case Paren(_) => ParenIsPrinted(e); ParenRoundTrip(g, tape, p, e, sub);
    case FieldRef(stream, name) => RefRoundTrip(g, tape, p, stream, name);
    case MetaRef(stream, name) => RefRoundTrip(g, tape, p, stream, name);
    case Wildcard(except) => StarIsPrinted(e); WildcardRoundTrip(g, tape, p, except, sub);
    case Case(_, _, _) => CaseIsPrinted(e); CaseRoundTrip(g, tape, p, e, sub);
    case ValueSet(_) => SetIsPrinted(e); SetRoundTrip(g, tape, p, e, sub);
    case Index(_) => IndexIsPrinted(e); IndexRoundTrip(g, tape, p, e, sub);
    case Colon(_, _) => SliceIsPrinted(e); SliceRoundTrip(g, tape, p, e, sub);
    case _ => LiteralRoundTrip(g, tape, p, e, sub);
  }

  lemma LiteralRoundTrip(g: Env, tape: seq<Lexeme>, p: nat, e: Expr, sub: bool)
    requires e.StringLiteral? || e.IntegerLiteral? || e.NumberLiteral? || e.BooleanLiteral? || e.TimeLiteral?
    requires ReadableUnary(g, e) && HasAt(tape, p, PrintUnary(e))
    ensures ParseUnary(g, tape, p, sub) == Ok(e, p + |PrintUnary(e)|)
  {
    hide Mark, HasAt, ParseExpr, ParseBracket, ParseCase, ParseAsterisk, ParseValueSet, Sections;
    LexemeAt(tape, p, PrintUnary(e)[0]);
  }

  function ParenText(e: Expr): seq<Lexeme>
    requires e.Paren?
  {
    Key(LPAREN) + (PrintExpr(e.e) + Key(RPAREN))
  }

  lemma ParenIsPrinted(e: Expr)
    requires e.Paren?
    ensures PrintUnary(e) == ParenText(e)
  {
    hide PrintTree;
  }

  lemma {:induction false} ParenRoundTrip(g: Env, tape: seq<Lexeme>, p: nat, e: Expr, sub: bool)
    requires e.Paren? && ReadableUnary(g, e) && HasAt(tape, p, ParenText(e))
    ensures ParseUnary(g, tape, p, sub) == Ok(e, p + |ParenText(e)|)
    decreases e, 0
  {
    hide Mark, HasAt, ParseExpr, PrintTree, ReadableTree, Ordered;
    var text := PrintExpr(e.e);
    LexemeThen(tape, p, Mark(LPAREN), text + Key(RPAREN));
    SplitAt(tape, p + 1, text, Key(RPAREN));
    LexemeAt(tape, p + 1 + |text|, Mark(RPAREN));
    ExprRoundTrip(g, tape, p + 1, e.e);
  }

  function SetText(e: Expr): seq<Lexeme>
    requires e.ValueSet?
  {
    Key(IN) + (Key(LPAREN) + PrintElements(e.elems))
  }

  lemma SetIsPrinted(e: Expr)
    requires e.ValueSet?
    ensures PrintUnary(e) == SetText(e)
  {
    hide PrintElements;
  }

  lemma {:induction false} SetRoundTrip(g: Env, tape: seq<Lexeme>, p: nat, e: Expr, sub: bool)
    requires e.ValueSet? && ReadableUnary(g, e) && HasAt(tape, p, SetText(e))
    ensures ParseUnary(g, tape, p, sub) == Ok(e, p + |SetText(e)|)
    decreases e, 0
  {
    hide Mark, HasAt, ParseElements, PrintElements, Readable;
    var text := PrintElements(e.elems);
    LexemeThen(tape, p, Mark(IN), Key(LPAREN) + text);
    LexemeThen(tape, p + 1, Mark(LPAREN), text);
    ElementsRoundTrip(g, tape, p + 2, [], e.elems);
    assert [] + e.elems == e.elems;
  }

  function IndexText(e: Expr): seq<Lexeme>
    requires e.Index?
  {
    Key(LBRACKET) + (PrintExpr(e.index) + (Key(RBRACKET) + []))
  }

  lemma IndexIsPrinted(e: Expr)
    requires e.Index?
    ensures PrintUnary(e) == IndexText(e)
  {
    hide PrintExpr;
  }

  lemma {:induction false} IndexRoundTrip(g: Env, tape: seq<Lexeme>, p: nat, e: Expr, sub: bool)
    requires e.Index? && ReadableUnary(g, e) && HasAt(tape, p, IndexText(e))
    ensures ParseUnary(g, tape, p, sub) == Ok(e, p + |IndexText(e)|)
    decreases e, 0
  {
    hide Mark, HasAt, ParseBracket, PrintExpr, ReadableIndex;
    var rest := PrintExpr(e.index) + (Key(RBRACKET) + []);
    LexemeThen(tape, p, Mark(LBRACKET), rest);
    BracketRoundTrip(g, tape, p + 1, e.index, RBRACKET, []);
  }

  function SliceText(e: Expr): seq<Lexeme>
    requires e.Colon?
  {
    Key(LBRACKET) + (PrintExpr(e.start) + (Key(COLON) + (PrintEnd(e.end) + Key(RBRACKET))))
  }

  lemma SliceIsPrinted(e: Expr)
    requires e.Colon?
    ensures PrintUnary(e) == SliceText(e)
  {
    hide PrintExpr, PrintEnd;
  }

  lemma {:induction false} SliceRoundTrip(g: Env, tape: seq<Lexeme>, p: nat, e: Expr, sub: bool)
    requires e.Colon? && ReadableUnary(g, e) && HasAt(tape, p, SliceText(e))
    ensures ParseUnary(g, tape, p, sub) == Ok(e, p + |SliceText(e)|)
    decreases e, 0
  {
    hide Mark, HasAt, ParseBracket, PrintExpr, PrintEnd, ReadableIndex, ParseColon;
    var end := PrintEnd(e.end) + Key(RBRACKET);
    LexemeThen(tape, p, Mark(LBRACKET), PrintExpr(e.start) + (Key(COLON) + end));
    BracketRoundTrip(g, tape, p + 1, e.start, COLON, end);
    ColonRoundTrip(g, tape, p + 2 + |PrintExpr(e.start)|, e.start, e.end);
  }

  lemma RefRoundTrip(g: Env, tape: seq<Lexeme>, p: nat, stream: string, name: string)
    requires ReadableRef(g, stream) && HasAt(tape, p, PrintRef(stream, name))
    requires Ends(At(tape, p + |PrintRef(stream, name)|).tok)
    ensures ParseUnary(g, tape, p, false)
         == Ok(if g.inMeta then MetaRef(stream, name) else FieldRef(stream, name), p + |PrintRef(stream, name)|)
  {
    UnaryCases(g, tape, p, false);
    hide Mark, HasAt, ParseUnary;
    if stream == DefaultStream {
      LexemeAt(tape, p, Lexeme(IDENT, name));
    } else {
      LexemeThen(tape, p, Lexeme(IDENT, stream), Key(DOT) + Ident(name));
      LexemeThen(tape, p + 1, Mark(DOT), Ident(name));
      LexemeAt(tape, p + 2, Lexeme(IDENT, name));
      assert Sections(tape, p, false) == Ok([stream, name], p + 3);
    }
  }

  function StarText(names: seq<string>): seq<Lexeme> {
    Led(ASTERISK, PrintStarTail(names))
  }

  lemma StarIsPrinted(e: Expr)
    requires e.Wildcard?
    ensures PrintUnary(e) == StarText(e.except)
  {
    hide PrintStarTail;
  }

  lemma {:induction false} WildcardRoundTrip(g: Env, tape: seq<Lexeme>, p: nat, names: seq<string>, sub: bool)
    requires !g.inMeta && HasAt(tape, p, StarText(names)) && Ends(At(tape, p + 1 + |PrintStarTail(names)|).tok)
    ensures ParseUnary(g, tape, p, sub) == Ok(Wildcard(names), p + |StarText(names)|)
  {
    hide HasAt, ParseUnary, PrintStarTail, Ends, Led, ParseAsterisk;
    LedParts(tape, p, ASTERISK, PrintStarTail(names));
    StarTailReads(g, tape, p + 1, names);
    AsteriskIsRead(g, tape, p, sub);
  }

  lemma AsteriskIsRead(g: Env, tape: seq<Lexeme>, p: nat, sub: bool)
    requires At(tape, p).tok.ASTERISK?
    ensures p < |tape| && ParseUnary(g, tape, p, sub) == ParseAsterisk(g, tape, p + 1, [])
  {
    UnaryCases(g, tape, p, sub);
  }

  lemma Fits(tape: seq<Lexeme>, p: nat, s: seq<Lexeme>)
    requires HasAt(tape, p, s)
    ensures p + |s| <= |tape|
  {
  }

  lemma StarTailReads(g: Env, tape: seq<Lexeme>, p: nat, names: seq<string>)
    requires HasAt(tape, p, PrintStarTail(names)) && !g.inMeta && Ends(At(tape, p + |PrintStarTail(names)|).tok)
    ensures p + |PrintStarTail(names)| <= |tape|
    ensures ParseAsterisk(g, tape, p, []) == Ok(Wildcard(names), p + |PrintStarTail(names)|)
  {
    hide HasAt, ParseAsterisk, PrintExcepts, PrintExcept, Ends;
    Fits(tape, p, PrintStarTail(names));
    if names == [] {
      StarEnds(g, tape, p, []);
    } else {
      ExceptRoundTrip(g, tape, p, names);
    }
  }

  lemma ExceptRoundTrip(g: Env, tape: seq<Lexeme>, p: nat, names: seq<string>)
    requires HasAt(tape, p, PrintExcepts(names)) && !g.inMeta && Ends(At(tape, p + |PrintExcepts(names)|).tok)
    ensures ParseAsterisk(g, tape, p, []) == Ok(Wildcard(names), p + |PrintExcepts(names)|)
  {
    hide HasAt, ParseAsterisk, ParseNames, PrintExcepts, PrintExcept, Ends;
    ExceptReads(tape, p, names);
    StarGoesOn(g, tape, p);
    StarEnds(g, tape, p + |PrintExcepts(names)|, names);
  }

  lemma ExceptReads(tape: seq<Lexeme>, p: nat, names: seq<string>)
    requires HasAt(tape, p, PrintExcepts(names))
    ensures At(tape, p).tok.EXCEPT? && At(tape, p + 1).tok.LPAREN?
    ensures ParseNames(tape, p + 2, []) == Ok(names, p + 2 + |PrintExcept(names)|)
  {
    hide Mark, HasAt, ParseNames, PrintExcept;
    LexemeThen(tape, p, Mark(EXCEPT), Key(LPAREN) + PrintExcept(names));
    LexemeThen(tape, p + 1, Mark(LPAREN), PrintExcept(names));
    NamesRoundTrip(tape, p + 2, [], names);
    assert [] + names == names;
  }

  lemma StarEnds(g: Env, tape: seq<Lexeme>, p: nat, names: seq<string>)
    requires p <= |tape| && !g.inMeta && Ends(At(tape, p).tok)
    ensures ParseAsterisk(g, tape, p, names) == Ok(Wildcard(names), p)
  {
    AsteriskStep(g, tape, p, names);
  }

  lemma StarGoesOn(g: Env, tape: seq<Lexeme>, p: nat)
    requires !g.inMeta && At(tape, p).tok.EXCEPT? && At(tape, p + 1).tok.LPAREN? && ParseNames(tape, p + 2, []).Ok?
    ensures p <= |tape| && ParseNames(tape, p + 2, []).next <= |tape|
    ensures var n := ParseNames(tape, p + 2, []); ParseAsterisk(g, tape, p, []) == ParseAsterisk(g, tape, n.next, n.value)
  {
  }

  lemma {:induction false} NamesRoundTrip(tape: seq<Lexeme>, p: nat, acc: seq<string>, names: seq<string>)
    requires HasAt(tape, p, PrintExcept(names))
    ensures ParseNames(tape, p, acc) == Ok(acc + names, p + |PrintExcept(names)|)
    decreases names
  {
    if names == [] {
      LexemeAt(tape, p, Mark(RPAREN));
      assert acc + names == acc;
    } else {
      LexemeThen(tape, p, Lexeme(IDENT, names[0]), PrintExcept(names[1..]));
      NamesRoundTrip(tape, p + 1, acc + [names[0]], names[1..]);
      assert acc + [names[0]] + names[1..] == acc + names;
    }
  }

  lemma {:induction false} ElementsRoundTrip(g: Env, tape: seq<Lexeme>, p: nat, acc: seq<Expr>, es: seq<Expr>)
    requires es != [] && (forall x | x in es :: Readable(g, x)) && HasAt(tape, p, PrintElements(es))
    ensures ParseElements(g, tape, p, acc) == Ok(ValueSet(acc + es), p + |PrintElements(es)|)
    decreases es
  {
    hide Readable, PrintExpr, HasAt, ParseExpr, PrintElements;
    var text := PrintExpr(es[0]);
    ElementsParts(tape, p, es);
    ExprRoundTrip(g, tape, p, es[0]);
    if |es| > 1 {
      ElementsRoundTrip(g, tape, p + |text| + 1, acc + [es[0]], es[1..]);
      assert acc + [es[0]] + es[1..] == acc + es;
    } else {
      assert acc + [es[0]] == acc + es;
    }
  }

  lemma ElementsParts(tape: seq<Lexeme>, p: nat, es: seq<Expr>)
    requires es != [] && HasAt(tape, p, PrintElements(es))
    ensures var text := PrintExpr(es[0]);
            && HasAt(tape, p, text) && At(tape, p + |text|).tok == (if |es| == 1 then RPAREN else COMMA)
            && HasAt(tape, p + |text| + 1, PrintElements(es[1..]))
            && |PrintElements(es)| == |text| + 1 + |PrintElements(es[1..])| && (|es| == 1 ==> PrintElements(es[1..]) == [])
  {
    hide PrintExpr, HasAt, Parted, PrintElements;
    ElementsStep(es);
    PartedParts(tape, p, PrintExpr(es[0]), if |es| == 1 then RPAREN else COMMA, PrintElements(es[1..]));
  }

  lemma ElementsStep(es: seq<Expr>)
    requires es != []
    ensures PrintElements(es) == Parted(PrintExpr(es[0]), if |es| == 1 then RPAREN else COMMA, PrintElements(es[1..]))
    ensures |es| == 1 ==> PrintElements(es[1..]) == []
  {
    hide PrintExpr, Parted;
  }

  /** The start of an index or slice, up to the lexeme that tells which it is. */
  lemma {:induction false} BracketRoundTrip(g: Env, tape: seq<Lexeme>, p: nat, e: Expr, sep: Token, rest: seq<Lexeme>)
    requires ReadableIndex(g, e) && (sep.RBRACKET? || sep.COLON?)
    requires HasAt(tape, p, PrintExpr(e) + (Key(sep) + rest))
    ensures ParseBracket(g, tape, p) == ParseBracketEnd(g, tape, p + |PrintExpr(e)|, e)
    ensures At(tape, p + |PrintExpr(e)|).tok == sep && HasAt(tape, p + |PrintExpr(e)| + 1, rest)
    decreases e, 7
  {
    hide Mark, HasAt, ParseExpr, ParseBracketEnd, ReadableTree, ReadableUnary, Ordered, PrintUnary;
    var text := PrintExpr(e);
    TextThen(tape, p, text, Mark(sep), rest);
    ExprFirst(g, tape, p, e);
    if e.IntegerLiteral? {
      assert text == [Lexeme(INTEGER, e.text)] by { IntegerText(e); }
      LexemeAt(tape, p, Lexeme(INTEGER, e.text));
    } else {
      ExprRoundTrip(g, tape, p, e);
    }
  }

  lemma IntegerText(e: Expr)
    requires e.IntegerLiteral?
    ensures PrintExpr(e) == [Lexeme(INTEGER, e.text)]
  {
    assert PrintTree(e, None) == PrintUnary(e);
  }

  lemma ExprFirst(g: Env, tape: seq<Lexeme>, p: nat, e: Expr)
    requires Readable(g, e) && HasAt(tape, p, PrintExpr(e))
    ensures PrintExpr(e) != []
    ensures var x := At(tape, p).tok; (x.INTEGER? <==> First(e).IntegerLiteral?) && !x.RBRACKET? && !x.COLON? && !x.WHEN?
  {
    hide Mark, ReadableUnary, PrintUnary, PrintTree, ReadableTree, Ordered;
    ReadableParts(g, e);
    TreeStarts(g, e);
    UnaryStarts(g, First(e));
    assert tape[p..p + |PrintExpr(e)|][0] == tape[p];
  }

  lemma {:induction false} ColonRoundTrip(g: Env, tape: seq<Lexeme>, p: nat, start: Expr, e: Expr)
    requires e == IntegerLiteral(MinInt32) || ReadableIndex(g, e)
    requires HasAt(tape, p, PrintEnd(e) + Key(RBRACKET))
    ensures ParseColon(g, tape, p, start) == Ok(Colon(start, e), p + |PrintEnd(e)| + 1)
    decreases e, 7
  {
    hide Mark, HasAt, ParseExpr, ReadableTree, ReadableUnary, Ordered, PrintUnary, Readable;
    SplitAt(tape, p, PrintEnd(e), Key(RBRACKET));
    LexemeAt(tape, p + |PrintEnd(e)|, Mark(RBRACKET));
    if e != IntegerLiteral(MinInt32) {
      ExprFirst(g, tape, p, e);
      if e.IntegerLiteral? {
        IntegerText(e);
        LexemeAt(tape, p, Lexeme(INTEGER, e.text));
      } else {
        ExprRoundTrip(g, tape, p, e);
      }
    }
  }

  function CaseText(e: Expr): seq<Lexeme>
    requires e.Case?
  {
    Key(CASE) + (PrintOption(e.value) + PrintClauses(e))
  }

  lemma CaseIsPrinted(e: Expr)
    requires e.Case?
    ensures PrintUnary(e) == CaseText(e)
  {
    hide PrintExpr, PrintOption, PrintWhens, PrintElse;
  }

  lemma {:induction false} CaseRoundTrip(g: Env, tape: seq<Lexeme>, p: nat, e: Expr, sub: bool)
    requires e.Case? && ReadableUnary(g, e) && HasAt(tape, p, CaseText(e))
    ensures ParseUnary(g, tape, p, sub) == Ok(e, p + |CaseText(e)|)
    decreases e, 0
  {
    hide Mark, HasAt, ParseExpr, ParseWhens, Readable, PrintExpr, PrintOption, PrintWhens, PrintElse;
    LexemeThen(tape, p, Mark(CASE), PrintOption(e.value) + PrintClauses(e));
    CaseValueRoundTrip(g, tape, p + 1, e);
  }

  function PrintClauses(e: Expr): seq<Lexeme>
    requires e.Case?
  {
    PrintWhens(e.whens) + (PrintElse(e.els) + Key(END))
  }

  lemma {:induction false} CaseValueRoundTrip(g: Env, tape: seq<Lexeme>, p: nat, e: Expr)
    requires e.Case? && ReadableUnary(g, e) && HasAt(tape, p, PrintOption(e.value) + PrintClauses(e))
    ensures ParseCase(g, tape, p) == Ok(e, p + |PrintOption(e.value)| + |PrintClauses(e)|)
    decreases e, 0, 1
  {
    hide Mark, HasAt, ParseExpr, ParseWhens, Readable, PrintExpr, PrintOption, PrintClauses;
    var text := PrintOption(e.value);
    SplitAt(tape, p, text, PrintClauses(e));
    ClausesRoundTrip(g, tape, p + |text|, e);
    if e.value.Some? {
      ValueRoundTrip(g, tape, p, e.value);
    } else {
      assert text == [] by { NoValue(); }
    }
  }

  lemma {:induction false} ClausesRoundTrip(g: Env, tape: seq<Lexeme>, p: nat, e: Expr)
    requires e.Case? && ReadableUnary(g, e) && HasAt(tape, p, PrintClauses(e))
    ensures At(tape, p).tok.WHEN?
    ensures ParseWhens(g, tape, p, e.value, [], None) == Ok(e, p + |PrintClauses(e)|)
    decreases e, 0, 0
  {
    hide Mark, HasAt, ParseExpr, ParseWhens, Readable, PrintExpr, PrintWhens, PrintElse;
    var clauses := PrintWhens(e.whens);
    SplitAt(tape, p, clauses, PrintElse(e.els) + Key(END));
    WhensFirst(tape, p, e.whens);
    TailFirst(tape, p + |clauses|, e.els);
    WhensRoundTrip(g, tape, p, e.value, [], e.whens);
    assert [] + e.whens == e.whens;
    ElseRoundTrip(g, tape, p + |clauses|, e.value, e.whens, e.els);
  }

  lemma NoValue()
    ensures PrintOption(None) == []
  {
  }

  lemma {:induction false} ValueRoundTrip(g: Env, tape: seq<Lexeme>, p: nat, e: Option<Expr>)
    requires e.Some? && Readable(g, e.value) && HasAt(tape, p, PrintOption(e))
    requires At(tape, p + |PrintOption(e)|).tok.WHEN?
    ensures ParseExpr(g, tape, p) == Ok(e.value, p + |PrintOption(e)|)
    ensures !At(tape, p).tok.WHEN?
    decreases e
  {
    hide Mark, HasAt, ParseExpr, Readable, PrintExpr;
    ExprFirst(g, tape, p, e.value);
    ExprRoundTrip(g, tape, p, e.value);
  }

  lemma FirstAt(tape: seq<Lexeme>, p: nat, s: seq<Lexeme>)
    requires s != [] && HasAt(tape, p, s)
    ensures At(tape, p) == s[0]
  {
    assert tape[p..p + |s|][0] == tape[p];
  }

  lemma WhensFirst(tape: seq<Lexeme>, p: nat, ws: seq<When>)
    requires ws != [] && HasAt(tape, p, PrintWhens(ws))
    ensures At(tape, p).tok.WHEN?
  {
    hide Mark, HasAt, PrintExpr;
    assert PrintWhens(ws) != [] && PrintWhens(ws)[0] == PrintWhen(ws[0])[0] == Mark(WHEN);
    FirstAt(tape, p, PrintWhens(ws));
  }

  lemma TailFirst(tape: seq<Lexeme>, p: nat, els: Option<Expr>)
    requires HasAt(tape, p, PrintElse(els) + Key(END))
    ensures At(tape, p).tok.ELSE? || At(tape, p).tok.END?
  {
    hide Mark, HasAt, PrintExpr;
    var s := PrintElse(els) + Key(END);
    assert s[0].tok == if els.Some? then ELSE else END;
    FirstAt(tape, p, s);
  }

  lemma {:induction false} WhensRoundTrip(g: Env, tape: seq<Lexeme>, p: nat, value: Option<Expr>, acc: seq<When>,
      ws: seq<When>)
    requires forall w | w in ws :: Readable(g, w.cond) && Readable(g, w.result) && (value.None? ==> IsBooleanArg(w.cond))
    requires HasAt(tape, p, PrintWhens(ws)) && Stops(At(tape, p + |PrintWhens(ws)|).tok)
    ensures ParseWhens(g, tape, p, value, acc, None) == ParseWhens(g, tape, p + |PrintWhens(ws)|, value, acc + ws, None)
    decreases ws
  {
    hide Mark, HasAt, ParseExpr, Readable, PrintExpr, ParseWhen, PrintWhen, IsBooleanArg;
    if ws == [] {
      assert acc + ws == acc;
    } else {
      var text, rest := PrintWhen(ws[0]), PrintWhens(ws[1..]);
      SplitAt(tape, p, text, rest);
      if |ws| > 1 {
        WhensFirst(tape, p + |text|, ws[1..]);
      }
      WhenRoundTrip(g, tape, p, value, ws[0]);
      WhensRoundTrip(g, tape, p + |text|, value, acc + [ws[0]], ws[1..]);
      assert acc + [ws[0]] + ws[1..] == acc + ws;
    }
  }

  lemma {:induction false} WhenRoundTrip(g: Env, tape: seq<Lexeme>, p: nat, value: Option<Expr>, w: When)
    requires Readable(g, w.cond) && Readable(g, w.result) && (value.None? ==> IsBooleanArg(w.cond))
    requires HasAt(tape, p, PrintWhen(w)) && Stops(At(tape, p + |PrintWhen(w)|).tok)
    ensures At(tape, p).tok.WHEN? && ParseWhen(g, tape, p + 1, value) == Ok(w, p + |PrintWhen(w)|)
    decreases w
  {
    hide HasAt, ParseExpr, Readable, PrintExpr, PrintWhen;
    var c := PrintExpr(w.cond);
    WhenParts(tape, p, w);
    ExprRoundTrip(g, tape, p + 1, w.cond);
    ExprRoundTrip(g, tape, p + 2 + |c|, w.result);
  }

  lemma WhenParts(tape: seq<Lexeme>, p: nat, w: When)
    requires HasAt(tape, p, PrintWhen(w))
    ensures var c, r := PrintExpr(w.cond), PrintExpr(w.result);
            && |PrintWhen(w)| == |c| + |r| + 2
            && At(tape, p).tok.WHEN? && HasAt(tape, p + 1, c)
            && At(tape, p + 1 + |c|).tok.THEN? && HasAt(tape, p + 2 + |c|, r)
  {
    hide HasAt, PrintExpr, Led, Parted;
    var c, r := PrintExpr(w.cond), PrintExpr(w.result);
    LedParts(tape, p, WHEN, Parted(c, THEN, r));
    PartedParts(tape, p + 1, c, THEN, r);
  }

  lemma {:induction false} ElseRoundTrip(g: Env, tape: seq<Lexeme>, p: nat, value: Option<Expr>, acc: seq<When>,
      els: Option<Expr>)
    requires acc != [] && (els.Some? ==> Readable(g, els.value))
    requires HasAt(tape, p, PrintElse(els) + Key(END))
    ensures ParseWhens(g, tape, p, value, acc, None) == Ok(Case(value, acc, els), p + |PrintElse(els)| + 1)
    decreases els
  {
    hide Mark, HasAt, ParseExpr, Readable, PrintExpr, ParseWhen;
    if els.None? {
      assert PrintElse(els) + Key(END) == Key(END);
      LexemeAt(tape, p, Mark(END));
    } else {
      var text := PrintExpr(els.value);
      assert PrintElse(els) + Key(END) == Key(ELSE) + (text + Key(END));
      LexemeThen(tape, p, Mark(ELSE), text + Key(END));
      SplitAt(tape, p + 1, text, Key(END));
      LexemeAt(tape, p + 1 + |text|, Mark(END));
      ExprRoundTrip(g, tape, p + 1, els.value);
    }
  }
}
