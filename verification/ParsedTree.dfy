/** What the parser returns: the one tree that the operators and operands on the tape allow. */
module ParsedTree {
  import opened Tokens
  import opened ExprTrees
  import opened ExprGrammar

  // ----- what stands on the tape -----

  function Prepend(x: Item, r: Result<seq<Item>>): Result<seq<Item>> {
    match r
    case Err => Err
    case Ok(items, q) => Ok([x] + items, q)
  }

  /** The operators with their operands from `p` on, up to the first lexeme that is no operator. */
  function TapeItems(g: Env, tape: seq<Lexeme>, p: nat): Result<seq<Item>>
    decreases Left(tape, p)
  {
    if !IsOperator(At(tape, p).tok) then Ok([], p)
    else
      match OperatorStep(tape, p)
      case Bad => Err
      case Range(op, q) =>
        (match ParseRange(g, tape, q)
         case Err => Err
         case Ok(e, q2) => Prepend(Item(op, e), TapeItems(g, tape, q2)))
      case Rhs(op, q) =>
        match ParseUnary(g, tape, q, op.ARROW? || op.DOT?)
        case Err => Err
        case Ok(e, q2) =>
          match OperandFor(g, op, e)
          case None => Err
          case Some(e2) => Prepend(Item(Canonical(op), e2), TapeItems(g, tape, q2))
  }

  /** The tree that `build` makes of the items, if there are any. */
  function Built(build: seq<Item> -> Expr, r: Result<seq<Item>>): Result<Expr> {
    match r
    case Err => Err
    case Ok(items, q) => Ok(build(items), q)
  }

  /** The operator loop inserts exactly those, in order. */
  lemma {:induction false} LoopInsertsItems(g: Env, tape: seq<Lexeme>, p: nat, tree: Expr)
    requires p <= |tape|
    ensures ParseOperators(g, tape, p, tree) == Built(items => InsertAll(tree, items), TapeItems(g, tape, p))
    decreases Left(tape, p)
  {
    hide ParseUnary, ParseRange, OperatorStep, IsOperator, Insert, OperandFor, Canonical;
    if IsOperator(At(tape, p).tok) {
      match OperatorStep(tape, p)
      case Bad =>
      case Range(op, q) =>
        var r := ParseRange(g, tape, q);
        if r.Ok? {
          LoopInsertsItems(g, tape, r.next, Insert(tree, op, r.value));
          OneItemFirst(tree, Item(op, r.value), TapeItems(g, tape, r.next));
        }
      case Rhs(op, q) =>
        var r := ParseUnary(g, tape, q, op.ARROW? || op.DOT?);
        if r.Ok? && OperandFor(g, op, r.value).Some? {
          var e := OperandFor(g, op, r.value).value;
          LoopInsertsItems(g, tape, r.next, Insert(tree, Canonical(op), e));
          OneItemFirst(tree, Item(Canonical(op), e), TapeItems(g, tape, r.next));
        }
    }
  }

  lemma OneItemFirst(tree: Expr, x: Item, r: Result<seq<Item>>)
    ensures Built(items => InsertAll(Insert(tree, x.op, x.operand), items), r) == Built(items => InsertAll(tree, items), Prepend(x, r))
  {
    if r.Ok? {
      assert ([x] + r.value)[1..] == r.value;
    }
  }

  // ----- the reference parse, with arrows as operands -----

  predicate AllTight(items: seq<Item>) {
    forall k :: 0 <= k < |items| ==> Tight(items[k].operand)
  }

  lemma {:induction false} ItemsAreTight(g: Env, tape: seq<Lexeme>, p: nat)
    ensures TapeItems(g, tape, p).Ok? ==> AllTight(TapeItems(g, tape, p).value) && p <= TapeItems(g, tape, p).next
    decreases Left(tape, p)
  {
    hide ParseUnary, ParseRange, IsOperator, Canonical;
    if IsOperator(At(tape, p).tok) {
      match OperatorStep(tape, p)
      case Bad =>
      case Range(op, q) =>
        var r := ParseRange(g, tape, q);
        if r.Ok? { ItemsAreTight(g, tape, r.next); }
      case Rhs(op, q) =>
        var r := ParseUnary(g, tape, q, op.ARROW? || op.DOT?);
        if r.Ok? { ItemsAreTight(g, tape, r.next); }
    }
  }

  predicate AtLeast(t: Expr, c: nat) {
    t.Binary? ==> Precedence(t.op) >= c
  }

  /** No operator on top binds less tightly than all that were put in. */
  lemma {:induction false} TopAtLeast(t: Expr, items: seq<Item>, c: nat)
    requires AtLeast(t, c) && forall k :: 0 <= k < |items| ==> Precedence(items[k].op) >= c
    ensures AtLeast(InsertAll(t, items), c)
    decreases items
  {
    if items != [] {
      TopAtLeast(Insert(t, items[0].op, items[0].operand), items[1..], c);
    }
  }

  /** Operators that bind more tightly than the root go below it. */
  lemma {:induction false} InsertBelow(op: Token, l: Expr, r: Expr, items: seq<Item>)
    requires forall k :: 0 <= k < |items| ==> Precedence(items[k].op) > Precedence(op)
    ensures InsertAll(Binary(op, l, r), items) == Binary(op, l, InsertAll(r, items))
    decreases items
  {
    if items != [] {
      InsertBelow(op, l, Insert(r, items[0].op, items[0].operand), items[1..]);
    }
  }

  /** Right-spine insertion is the reference parse for all operands the parser can read, also
      references that were already turned into an arrow. */
  lemma {:induction false} TightIsSplitParse(first: Expr, items: seq<Item>)
    requires Tight(first) && AllTight(items)
    ensures InsertAll(first, items) == SplitParse(first, items)
    decreases |items|
  {
    hide SplitParse, InsertAll, LastLowest, FindLastLowest, Tight, AllTight;
    if items == [] {
      NoItems(first);
    } else {
      var k := FindLastLowest(items);
      TightParts(items, k);
      SplitStep(first, items);
      JoinAtLowest(first, items, k);
      TightIsSplitParse(first, items[..k]);
      TightIsSplitParse(items[k].operand, items[k + 1..]);
    }
  }

  lemma NoItems(first: Expr)
    ensures InsertAll(first, []) == SplitParse(first, []) == first
  {
  }

  lemma TightParts(items: seq<Item>, k: nat)
    requires LastLowest(items, k) && AllTight(items)
    ensures k < |items| && Tight(items[k].operand) && AllTight(items[..k]) && AllTight(items[k + 1..])
  {
  }

  lemma InsertFirst(t: Expr, x: Item, items: seq<Item>)
    ensures InsertAll(t, [x] + items) == InsertAll(Insert(t, x.op, x.operand), items)
  {
    assert ([x] + items)[1..] == items;
  }

  /** The last lowest operator stays on top, with all before it on its left. */
  lemma JoinAtLowest(first: Expr, items: seq<Item>, k: nat)
    requires Tight(first) && LastLowest(items, k)
    ensures InsertAll(first, items) == Binary(items[k].op, InsertAll(first, items[..k]), InsertAll(items[k].operand, items[k + 1..]))
  {
    var x, before, after := items[k], items[..k], items[k + 1..];
    var l := InsertAll(first, before);
    TopAtLeast(first, before, Precedence(x.op));
    assert Insert(l, x.op, x.operand) == Binary(x.op, l, x.operand);
    InsertBelow(x.op, l, x.operand, after);
    hide InsertAll, Insert, Precedence;
    assert items == before + ([x] + after);
    InsertAllAppends(first, before, [x] + after);
    InsertFirst(l, x, after);
  }

  lemma SplitStep(first: Expr, items: seq<Item>)
    requires items != []
    ensures var k := FindLastLowest(items);
            SplitParse(first, items) == Binary(items[k].op, SplitParse(first, items[..k]), SplitParse(items[k].operand, items[k + 1..]))
  {
  }

  /** Every expression the parser reads, with the source names known or not: it returns the
      reference parse of the first operand and the items on the tape, and ends after them. */
  lemma {:induction false} ParsedIsSplitParse(g: Env, tape: seq<Lexeme>, p: nat)
    ensures var first := ParseUnary(g, tape, p, false);
            ParseExpr(g, tape, p) == if first.Err? then Err else Built(items => SplitParse(first.value, items), TapeItems(g, tape, first.next))
  {
    hide ParseOperators, ParseUnary, SplitParse, InsertAll, TapeItems;
    var first := ParseUnary(g, tape, p, false);
    if first.Ok? {
      LoopInsertsItems(g, tape, first.next, first.value);
      ItemsAreTight(g, tape, first.next);
      var r := TapeItems(g, tape, first.next);
      if r.Ok? {
        TightIsSplitParse(first.value, r.value);
      }
    }
  }

  // ----- the reading of the tree -----

  /** While the source names are not known, an operand is never an operator node. */
  lemma {:induction false} UnaryIsOperand(g: Env, tape: seq<Lexeme>, p: nat, sub: bool)
    requires g.sources == []
    ensures ParseUnary(g, tape, p, sub).Ok? ==> !ParseUnary(g, tape, p, sub).value.Binary?
    decreases Left(tape, p)
  {
    hide ParseExpr, ParseBracket, ParseCase, ParseAsterisk, LiteralOf, ParseElements;
    if At(tape, p).tok.IN? {
      UnaryIsOperand(g, tape, p + 1, false);
    }
  }

  lemma {:induction false} ItemsAreOperandsThen(g: Env, tape: seq<Lexeme>, p: nat)
    requires g.sources == []
    ensures TapeItems(g, tape, p).Ok? ==> Operands(TapeItems(g, tape, p).value)
    decreases Left(tape, p)
  {
    hide ParseUnary, ParseRange, IsOperator, Canonical;
    if IsOperator(At(tape, p).tok) {
      match OperatorStep(tape, p)
      case Bad =>
      case Range(op, q) =>
        var r := ParseRange(g, tape, q);
        if r.Ok? { ItemsAreOperandsThen(g, tape, r.next); }
      case Rhs(op, q) =>
        var r := ParseUnary(g, tape, q, op.ARROW? || op.DOT?);
        UnaryIsOperand(g, tape, q, op.ARROW? || op.DOT?);
        if r.Ok? { ItemsAreOperandsThen(g, tape, r.next); }
    }
  }

  /** Then the tree is ordered and reads, in order, as exactly what stands on the tape. */
  lemma {:induction false} ParsedReadsTape(g: Env, tape: seq<Lexeme>, p: nat)
    requires g.sources == [] && ParseExpr(g, tape, p).Ok?
    ensures var e, first := ParseExpr(g, tape, p).value, ParseUnary(g, tape, p, false);
            first.Ok? && Ordered(e) && First(e) == first.value && TapeItems(g, tape, first.next) == Ok(Items(e), ParseExpr(g, tape, p).next)
  {
    hide ParseOperators, ParseUnary, SplitParse, TapeItems, Ordered, First, Items;
    ParsedIsSplitParse(g, tape, p);
    UnaryIsOperand(g, tape, p, false);
    var first := ParseUnary(g, tape, p, false);
    ItemsAreOperandsThen(g, tape, first.next);
    var r := TapeItems(g, tape, first.next);
    SplitParseReads(first.value, r.value);
  }

  // ----- how operators group -----

  /** The operators from the loosest to the tightest. */
  predicate OnRung(op: Token, k: nat) {
    || (k == 0 && op.OR?)
    || (k == 1 && op.AND?)
    || (k == 2 && (op.EQ? || op.NEQ? || op.LT? || op.LTE? || op.GT? || op.GTE? || op.IN? || op.NOTIN? ||
                   op.BETWEEN? || op.NOTBETWEEN? || op.LIKE? || op.NOTLIKE?))
    || (k == 3 && (op.ADD? || op.SUB? || op.BITWISE_OR? || op.BITWISE_XOR?))
    || (k == 4 && (op.MUL? || op.DIV? || op.MOD? || op.BITWISE_AND? || op.SUBSET? || op.ARROW?))
  }

  /** The rungs are the precedences, and the dot is as tight as the arrow. NOT, REPLACE, EXCEPT, an
      asterisk and a bracket are read as operators, too. */
  lemma OperatorsOnRungs(op: Token)
    ensures forall k: nat | OnRung(op, k) :: Precedence(op) == k + 1
    ensures Precedence(op) > 0 && !op.DOT? ==> OnRung(op, Precedence(op) - 1)
    ensures IsOperator(op)
       <==> Precedence(op) > 0 || op.NOT? || op.REPLACE? || op.EXCEPT? || op.ASTERISK? || op.LBRACKET?
  {
  }

  /** Two operators in a row: the tighter one takes the operand between them, and the first one if
      they stand on the same rung. */
  lemma Grouping(op1: Token, op2: Token, i: nat, k: nat, x: Expr, y: Expr, z: Expr)
    requires OnRung(op1, i) && OnRung(op2, k) && !x.Binary? && !y.Binary?
    ensures Insert(Insert(x, op1, y), op2, z) == Grouped(op1, op2, i < k, x, y, z)
  {
    assert Insert(x, op1, y) == Binary(op1, x, y) && Insert(y, op2, z) == Binary(op2, y, z);
  }

  function Grouped(op1: Token, op2: Token, secondFirst: bool, x: Expr, y: Expr, z: Expr): Expr {
    if secondFirst then Binary(op1, x, Binary(op2, y, z)) else Binary(op2, Binary(op1, x, y), z)
  }

  predicate Simple(op: Token) {
    op.OR? || op.AND? || op.EQ? || op.NEQ? || op.LT? || op.LTE? || op.GT? || op.GTE? || op.ADD? || op.SUB? ||
    op.BITWISE_OR? || op.BITWISE_XOR? || op.MUL? || op.DIV? || op.MOD? || op.BITWISE_AND?
  }

  /** The lexemes of `x op1 y op2 z`. */
  function ThreeOperands(op1: Token, op2: Token): seq<Lexeme> {
    [Lexeme(IDENT, "x"), Mark(if op1.MUL? then ASTERISK else op1), Lexeme(IDENT, "y"),
     Mark(if op2.MUL? then ASTERISK else op2), Lexeme(IDENT, "z")]
  }

  lemma ThreeOperandsStand(op1: Token, op2: Token)
    ensures var t := ThreeOperands(op1, op2);
            && |t| == 5 && At(t, 0) == Lexeme(IDENT, "x") && At(t, 2) == Lexeme(IDENT, "y") && At(t, 4) == Lexeme(IDENT, "z")
            && At(t, 1).tok == (if op1.MUL? then ASTERISK else op1) && At(t, 3).tok == (if op2.MUL? then ASTERISK else op2)
  {
    hide Spelling;
  }

  /** They parse in the groups that the rungs say. */
  lemma ThreeOperandsGroup(g: Env, op1: Token, op2: Token, i: nat, k: nat)
    requires Simple(op1) && Simple(op2) && !g.inMeta && OnRung(op1, i) && OnRung(op2, k)
    ensures ParseExpr(g, ThreeOperands(op1, op2), 0)
         == Ok(Grouped(op1, op2, i < k, FieldRef(DefaultStream, "x"), FieldRef(DefaultStream, "y"), FieldRef(DefaultStream, "z")), 5)
  {
    hide ThreeOperands, Grouped, OnRung, ParseExpr;
    ThreeOperandsStand(op1, op2);
    FiveLexemes(g, ThreeOperands(op1, op2), op1, op2);
    Grouping(op1, op2, i, k, FieldRef(DefaultStream, "x"), FieldRef(DefaultStream, "y"), FieldRef(DefaultStream, "z"));
  }

  lemma SimpleIsPlain(op: Token)
    requires Simple(op)
    ensures !op.LPAREN? && !op.DOT? && !op.ASTERISK?
  {
  }

  lemma FiveLexemes(g: Env, t: seq<Lexeme>, op1: Token, op2: Token)
    requires Simple(op1) && Simple(op2) && !g.inMeta && |t| == 5
    requires At(t, 0) == Lexeme(IDENT, "x") && At(t, 2) == Lexeme(IDENT, "y") && At(t, 4) == Lexeme(IDENT, "z")
    requires At(t, 1).tok == (if op1.MUL? then ASTERISK else op1) && At(t, 3).tok == if op2.MUL? then ASTERISK else op2
    ensures var x, y, z := FieldRef(DefaultStream, "x"), FieldRef(DefaultStream, "y"), FieldRef(DefaultStream, "z");
            ParseExpr(g, t, 0) == Ok(Insert(Insert(x, op1, y), op2, z), 5)
  {
    hide Insert, IsOperator, ParseUnary, ParseOperators, Simple;
    SimpleIsPlain(op1);
    SimpleIsPlain(op2);
    var x, y, z := FieldRef(DefaultStream, "x"), FieldRef(DefaultStream, "y"), FieldRef(DefaultStream, "z");
    SimpleStep(g, t, 1, op1, x);
    SimpleStep(g, t, 3, op2, Insert(x, op1, y));
    NameReads(g, t, 0);
    assert At(t, 5).tok.EOF?;
    Ended(g, t, 5, Insert(Insert(x, op1, y), op2, z));
  }

  lemma Ended(g: Env, tape: seq<Lexeme>, p: nat, e: Expr)
    requires p <= |tape| && At(tape, p).tok.EOF?
    ensures ParseOperators(g, tape, p, e) == Ok(e, p)
  {
  }

  /** A simple operator and a plain name after it make one insertion. */
  lemma SimpleStep(g: Env, tape: seq<Lexeme>, p: nat, op: Token, e: Expr)
    requires Simple(op) && At(tape, p).tok == (if op.MUL? then ASTERISK else op) && !g.inMeta
    requires At(tape, p + 1).tok.IDENT? && !At(tape, p + 2).tok.LPAREN? && !At(tape, p + 2).tok.DOT?
    ensures p + 2 <= |tape|
    ensures ParseOperators(g, tape, p, e)
         == ParseOperators(g, tape, p + 2, Insert(e, op, FieldRef(DefaultStream, At(tape, p + 1).lit)))
  {
    NameReads(g, tape, p + 1);
    SimpleRhs(tape, p, op);
    hide ParseUnary, Insert, Simple, IsOperator, OperatorStep;
  }

  lemma SimpleRhs(tape: seq<Lexeme>, p: nat, op: Token)
    requires Simple(op) && At(tape, p).tok == if op.MUL? then ASTERISK else op
    ensures IsOperator(At(tape, p).tok) && OperatorStep(tape, p) == Rhs(op, p + 1)
    ensures !op.ARROW? && !op.DOT? && Canonical(op) == op && forall g, e :: OperandFor(g, op, e) == Some(e)
  {
  }

  // ----- BETWEEN -----

  const SumAfterRange := [Lexeme(IDENT, "x"), Lexeme(BETWEEN, "BETWEEN"), Lexeme(INTEGER, "1"), Lexeme(AND, "AND"),
                          Lexeme(INTEGER, "2"), Lexeme(ADD, "+"), Lexeme(INTEGER, "3")]

  /** `x BETWEEN 1 AND 2 + 3` adds to the range: the bounds are operands only. */
  lemma SumAfterBetween(g: Env)
    requires !g.inMeta
    ensures var range := Between(IntegerLiteral("1"), IntegerLiteral("2"));
            ParseExpr(g, SumAfterRange, 0) == Ok(Binary(BETWEEN, FieldRef(DefaultStream, "x"), Binary(ADD, range, IntegerLiteral("3"))), 7)
  {
    var t := SumAfterRange;
    var x, range, three := FieldRef(DefaultStream, "x"), Between(IntegerLiteral("1"), IntegerLiteral("2")), IntegerLiteral("3");
    var e1, e2 := Binary(BETWEEN, x, range), Binary(BETWEEN, x, Binary(ADD, range, three));
    SumOperands(g);
    SumInserts(x, range, three);
    hide ParseUnary, ParseRange, OperatorStep, Insert;
    assert ParseOperators(g, t, 7, e2) == Ok(e2, 7);
    assert ParseOperators(g, t, 5, e1) == ParseOperators(g, t, 7, e2);
    assert ParseOperators(g, t, 1, x) == ParseOperators(g, t, 5, e1);
  }

  lemma SumOperands(g: Env)
    requires !g.inMeta
    ensures var t := SumAfterRange;
            && ParseUnary(g, t, 0, false) == Ok(FieldRef(DefaultStream, "x"), 1)
            && OperatorStep(t, 1) == Range(BETWEEN, 2) && OperatorStep(t, 5) == Rhs(ADD, 6)
            && ParseRange(g, t, 2) == Ok(Between(IntegerLiteral("1"), IntegerLiteral("2")), 5)
            && ParseUnary(g, t, 6, false) == Ok(IntegerLiteral("3"), 7)
  {
    hide ParseUnary;
    NameReads(g, SumAfterRange, 0);
    IntegerReads(g, SumAfterRange, 2);
    IntegerReads(g, SumAfterRange, 4);
    IntegerReads(g, SumAfterRange, 6);
  }

  lemma NameReads(g: Env, tape: seq<Lexeme>, p: nat)
    requires !g.inMeta && At(tape, p).tok.IDENT? && !At(tape, p + 1).tok.LPAREN? && !At(tape, p + 1).tok.DOT?
    ensures ParseUnary(g, tape, p, false) == Ok(FieldRef(DefaultStream, At(tape, p).lit), p + 1)
  {
  }

  lemma IntegerReads(g: Env, tape: seq<Lexeme>, p: nat)
    requires At(tape, p).tok.INTEGER?
    ensures ParseUnary(g, tape, p, false) == Ok(IntegerLiteral(At(tape, p).lit), p + 1)
  {
  }

  lemma SumInserts(x: Expr, range: Expr, three: Expr)
    requires !x.Binary? && !range.Binary?
    ensures Insert(x, BETWEEN, range) == Binary(BETWEEN, x, range)
    ensures Insert(Binary(BETWEEN, x, range), ADD, three) == Binary(BETWEEN, x, Binary(ADD, range, three))
  {
    assert Insert(range, ADD, three) == Binary(ADD, range, three);
  }
}
