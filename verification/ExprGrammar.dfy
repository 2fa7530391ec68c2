/** The expression grammar as functions on a token tape: what every parse routine returns
    and where it leaves the cursor. */
module ExprGrammar {
  import opened Tokens
  import opened ExprTrees

  /** What the grammar takes from outside: the source names known so far, whether it is inside
      a metadata call, and which texts the number and pattern converters accept. */
  datatype Env = Env(
    sources: seq<string>,
    inMeta: bool,
    intOk: string -> bool,
    floatOk: string -> bool,
    likeOk: string -> bool)

  /** A parsed value with the position after it, or an error. */
  datatype Result<+A> = Ok(value: A, next: nat) | Err

  /** What is left of the tape: the measure of every routine. */
  function Left(tape: seq<Lexeme>, p: nat): nat {
    if p <= |tape| then |tape| - p else 0
  }

  /** The lexeme before `q`. */
  predicate ClosedBy(tape: seq<Lexeme>, q: nat, tok: Token) {
    q > 0 && At(tape, q - 1).tok == tok
  }

  const MinInt32 := "-2147483648"

  predicate IsBooleanArg(e: Expr) {
    e.BooleanLiteral? ||
    (e.Binary? &&
     (e.op.AND? || e.op.OR? || e.op.EQ? || e.op.NEQ? || e.op.LT? || e.op.LTE? || e.op.GT? || e.op.GTE? ||
      e.op.BETWEEN? || e.op.NOTBETWEEN? || e.op.IN? || e.op.NOTIN? || e.op.LIKE? || e.op.NOTLIKE?))
  }

  /** One or two name sections; a dot after the first is consumed even when no name follows it. */
  function Sections(tape: seq<Lexeme>, p: nat, sub: bool): (r: Result<seq<string>>)
    ensures r.Ok? ==> p < r.next <= |tape| && 1 <= |r.value| <= 2
  {
    var x, y, z := At(tape, p), At(tape, p + 1), At(tape, p + 2);
    if !x.tok.IDENT? && !x.tok.ASTERISK? then Err
    else if sub || !y.tok.DOT? then Ok([x.lit], p + 1)
    else if !z.tok.IDENT? && !z.tok.ASTERISK? then Ok([x.lit], p + 2)
    else Ok([x.lit, z.lit], p + 3)
  }

  /** The reference a name denotes. A qualifier known not to be a source is a column holding
      a document, so `a.b` becomes `a -> b`. */
  function Reference(g: Env, n: seq<string>, sub: bool): Expr
    requires 1 <= |n| <= 2
  {
    if |n| == 2 then
      if g.sources != [] && n[0] !in g.sources then
        Binary(ARROW, if g.inMeta then MetaRef(DefaultStream, n[0]) else FieldRef(DefaultStream, n[0]), JsonFieldRef(n[1]))
      else if g.inMeta then MetaRef(n[0], n[1])
      else FieldRef(n[0], n[1])
    else if sub then JsonFieldRef(n[0])
    else if g.inMeta then MetaRef(DefaultStream, n[0])
    else FieldRef(DefaultStream, n[0])
  }

  function ReadReference(g: Env, tape: seq<Lexeme>, p: nat, sub: bool): (r: Result<Expr>)
    ensures r.Ok? ==> p < r.next <= |tape| && Tight(r.value)
  {
    match Sections(tape, p, sub)
    case Err => Err
    case Ok(n, q) => Ok(Reference(g, n, sub), q)
  }

  /** An operand is never an operator node, except a reference already turned into `a -> b`. */
  predicate Tight(e: Expr) {
    e.Binary? ==> e.op.ARROW?
  }

  /** How the loop reads the operator at `p`: the operator meant, and where its operand starts. */
  datatype Step = Rhs(op: Token, start: nat) | Range(op: Token, start: nat) | Bad

  function OperatorStep(tape: seq<Lexeme>, p: nat): (s: Step)
    requires IsOperator(At(tape, p).tok)
    ensures !s.Bad? ==> p <= s.start <= |tape|
    ensures s.Range? ==> p < s.start
  {
    var op, after := At(tape, p).tok, At(tape, p + 1).tok;
    if op.ASTERISK? then Rhs(MUL, p + 1)
    else if op.LBRACKET? then Rhs(SUBSET, p)
    else if op.IN? then Rhs(IN, p)
    else if op.BETWEEN? then Range(BETWEEN, p + 1)
    else if !op.NOT? then Rhs(op, p + 1)
    else if after.IN? then Rhs(NOTIN, p + 1)
    else if after.BETWEEN? then Range(NOTBETWEEN, p + 2)
    else if after.LIKE? then Rhs(NOTLIKE, p + 2)
    else Bad
  }

  /** What the loop does to an operand once it is parsed. */
  function OperandFor(g: Env, op: Token, e: Expr): (r: Option<Expr>)
    ensures r.Some? && Tight(e) ==> Tight(r.value)
  {
    if op.LIKE? || op.NOTLIKE? then
      if e.StringLiteral? && !g.likeOk(e.val) then None else Some(Like(e))
    else Some(e)
  }

  function Canonical(op: Token): Token {
    if op.DOT? then ARROW else op
  }

  function ParseExpr(g: Env, tape: seq<Lexeme>, p: nat): (r: Result<Expr>)
    ensures r.Ok? ==> p < r.next <= |tape|
    decreases Left(tape, p), 4
  {
    match ParseUnary(g, tape, p, false)
    case Err => Err
    case Ok(e, q) => ParseOperators(g, tape, q, e)
  }

  function ParseOperators(g: Env, tape: seq<Lexeme>, p: nat, tree: Expr): (r: Result<Expr>)
    requires p <= |tape|
    ensures r.Ok? ==> p <= r.next <= |tape|
    decreases Left(tape, p), 3
  {
    if !IsOperator(At(tape, p).tok) then Ok(tree, p)
    else
      match OperatorStep(tape, p)
      case Bad => Err
      case Range(op, q) =>
        (match ParseRange(g, tape, q)
         case Err => Err
         case Ok(e, q2) => ParseOperators(g, tape, q2, Insert(tree, op, e)))
      case Rhs(op, q) =>
        (match ParseUnary(g, tape, q, op.ARROW? || op.DOT?)
         case Err => Err
         case Ok(e, q2) =>
           match OperandFor(g, op, e)
           case None => Err
           case Some(e2) => ParseOperators(g, tape, q2, Insert(tree, Canonical(op), e2)))
  }

  function ParseRange(g: Env, tape: seq<Lexeme>, p: nat): (r: Result<Expr>)
    ensures r.Ok? ==> p < r.next <= |tape|
    ensures r.Ok? ==> !r.value.Binary?
    decreases Left(tape, p), 3
  {
    match ParseUnary(g, tape, p, false)
    case Err => Err
    case Ok(lo, q) =>
      if !At(tape, q).tok.AND? then Err
      else
        match ParseUnary(g, tape, q + 1, false)
        case Err => Err
        case Ok(hi, q2) => Ok(Between(lo, hi), q2)
  }

  function ParseUnary(g: Env, tape: seq<Lexeme>, p: nat, sub: bool): (r: Result<Expr>)
    ensures r.Ok? ==> p < r.next <= |tape|
    ensures r.Ok? ==> Tight(r.value)
    decreases Left(tape, p), 2
  {
    var x := At(tape, p);
    if x.tok.LPAREN? then
      match ParseExpr(g, tape, p + 1)
      case Err => Err
      case Ok(e, q) => if At(tape, q).tok.RPAREN? then Ok(Paren(e), q + 1) else Err
    else if x.tok.LBRACKET? then ParseBracket(g, tape, p + 1)
    else if x.tok.IN? then ParseValueSet(g, tape, p + 1)
    else if x.tok.CASE? then ParseCase(g, tape, p + 1)
    else if x.tok.IDENT? then
      if At(tape, p + 1).tok.LPAREN? then Err
      else ReadReference(g, tape, p, sub)
    else if x.tok.ASTERISK? then ParseAsterisk(g, tape, p + 1, [])
    else ReadLiteral(g, tape, p)
  }

  predicate OpensUnary(tok: Token) {
    tok.LPAREN? || tok.LBRACKET? || tok.IN? || tok.CASE? || tok.IDENT? || tok.ASTERISK?
  }

  function ReadLiteral(g: Env, tape: seq<Lexeme>, p: nat): (r: Result<Expr>)
    ensures r.Ok? ==> p < r.next <= |tape| && !r.value.Binary?
  {
    match LiteralOf(g, At(tape, p))
    case None => Err
    case Some(e) => Ok(e, p + 1)
  }

  /** The operands whose form is settled by their first lexeme. */
  lemma UnaryCases(g: Env, tape: seq<Lexeme>, p: nat, sub: bool)
    ensures At(tape, p).tok.LBRACKET? ==> ParseUnary(g, tape, p, sub) == ParseBracket(g, tape, p + 1)
    ensures At(tape, p).tok.IN? ==> ParseUnary(g, tape, p, sub) == ParseValueSet(g, tape, p + 1)
    ensures At(tape, p).tok.CASE? ==> ParseUnary(g, tape, p, sub) == ParseCase(g, tape, p + 1)
    ensures At(tape, p).tok.ASTERISK? ==> p < |tape| && ParseUnary(g, tape, p, sub) == ParseAsterisk(g, tape, p + 1, [])
    ensures At(tape, p).tok.IDENT? && !At(tape, p + 1).tok.LPAREN? ==> ParseUnary(g, tape, p, sub) == ReadReference(g, tape, p, sub)
    ensures At(tape, p).tok.IDENT? && At(tape, p + 1).tok.LPAREN? ==> ParseUnary(g, tape, p, sub) == Err
    ensures !OpensUnary(At(tape, p).tok) ==> ParseUnary(g, tape, p, sub) == ReadLiteral(g, tape, p)
  {
    hide ParseExpr, ParseBracket, ParseValueSet, ParseCase, ParseAsterisk, ReadLiteral, ReadReference;
  }

  function LiteralOf(g: Env, x: Lexeme): (r: Option<Expr>)
    ensures r.Some? ==> !x.tok.EOF? && !r.value.Binary?
  {
    if x.tok.STRING? || x.tok.SINGLEQUOTE? then Some(StringLiteral(x.lit))
    else if x.tok.INTEGER? then Some(IntegerLiteral(x.lit))
    else if x.tok.NUMBER? then if g.floatOk(x.lit) then Some(NumberLiteral(x.lit)) else None
    else if x.tok.TRUE? || x.tok.FALSE? then Some(BooleanLiteral(x.tok.TRUE?))
    else if IsTimeLiteral(x.tok) then Some(TimeLiteral(x.tok))
    else None
  }

  /** After `*`: any number of EXCEPT lists, the last of which counts. */
  function ParseAsterisk(g: Env, tape: seq<Lexeme>, p: nat, except: seq<string>): (r: Result<Expr>)
    requires p <= |tape|
    ensures r.Ok? ==> p <= r.next <= |tape|
    ensures r.Ok? ==> !r.value.Binary?
    decreases Left(tape, p), 1
  {
    if At(tape, p).tok.EXCEPT? then
      if g.inMeta || !At(tape, p + 1).tok.LPAREN? then Err
      else
        match ParseNames(tape, p + 2, [])
        case Err => Err
        case Ok(names, q) => ParseAsterisk(g, tape, q, names)
    else if At(tape, p).tok.REPLACE? then Err
    else if g.inMeta then Ok(MetaRef(DefaultStream, "*"), p)
    else Ok(Wildcard(except), p)
  }

  lemma AsteriskStep(g: Env, tape: seq<Lexeme>, p: nat, except: seq<string>)
    requires p <= |tape| && !g.inMeta
    ensures var x, names := At(tape, p).tok, ParseNames(tape, p + 2, []);
            ParseAsterisk(g, tape, p, except) ==
            if x.REPLACE? then Err
            else if !x.EXCEPT? then Ok(Wildcard(except), p)
            else if !At(tape, p + 1).tok.LPAREN? || names.Err? then Err
            else ParseAsterisk(g, tape, names.next, names.value)
  {
    hide ParseNames;
  }

  function ParseNames(tape: seq<Lexeme>, p: nat, names: seq<string>): (r: Result<seq<string>>)
    ensures r.Ok? ==> p < r.next <= |tape|
    decreases Left(tape, p), 0
  {
    var x := At(tape, p);
    if x.tok.IDENT? then ParseNames(tape, p + 1, names + [x.lit])
    else if x.tok.COMMA? then ParseNames(tape, p + 1, names)
    else if x.tok.RPAREN? then Ok(names, p + 1)
    else Err
  }

  function ParseValueSet(g: Env, tape: seq<Lexeme>, p: nat): (r: Result<Expr>)
    ensures r.Ok? ==> p < r.next <= |tape|
    ensures r.Ok? ==> Tight(r.value)
    decreases Left(tape, p), 3
  {
    if At(tape, p).tok.LPAREN? then ParseElements(g, tape, p + 1, [])
    else ParseUnary(g, tape, p, false)
  }

  function ParseElements(g: Env, tape: seq<Lexeme>, p: nat, acc: seq<Expr>): (r: Result<Expr>)
    ensures r.Ok? ==> p < r.next <= |tape|
    ensures r.Ok? ==> !r.value.Binary?
    decreases Left(tape, p), 5
  {
    match ParseExpr(g, tape, p)
    case Err => Err
    case Ok(e, q) =>
      if At(tape, q).tok.COMMA? then ParseElements(g, tape, q + 1, acc + [e])
      else if At(tape, q).tok.RPAREN? then Ok(ValueSet(acc + [e]), q + 1)
      else Err
  }

  function ParseBracket(g: Env, tape: seq<Lexeme>, p: nat): (r: Result<Expr>)
    ensures r.Ok? ==> p < r.next <= |tape|
    ensures r.Ok? ==> !r.value.Binary?
    decreases Left(tape, p), 5
  {
    var x := At(tape, p);
    if x.tok.RBRACKET? then Ok(Colon(IntegerLiteral("0"), IntegerLiteral(MinInt32)), p + 1)
    else if x.tok.INTEGER? then
      if g.intOk(x.lit) then ParseBracketEnd(g, tape, p + 1, IntegerLiteral(x.lit)) else Err
    else if x.tok.COLON? then ParseColon(g, tape, p + 1, IntegerLiteral("0"))
    else
      match ParseExpr(g, tape, p)
      case Err => Err
      case Ok(e, q) => ParseBracketEnd(g, tape, q, e)
  }

  /** After the start of an index or a slice. */
  function ParseBracketEnd(g: Env, tape: seq<Lexeme>, p: nat, start: Expr): (r: Result<Expr>)
    ensures r.Ok? ==> p < r.next <= |tape|
    ensures r.Ok? ==> !r.value.Binary?
    decreases Left(tape, p), 6
  {
    if At(tape, p).tok.RBRACKET? then Ok(Index(start), p + 1)
    else if At(tape, p).tok.COLON? then ParseColon(g, tape, p + 1, start)
    else Err
  }

  function ParseColon(g: Env, tape: seq<Lexeme>, p: nat, start: Expr): (r: Result<Expr>)
    ensures r.Ok? ==> p < r.next <= |tape|
    ensures r.Ok? ==> !r.value.Binary?
    decreases Left(tape, p), 5
  {
    var x := At(tape, p);
    if x.tok.INTEGER? then
      if g.intOk(x.lit) && At(tape, p + 1).tok.RBRACKET? then Ok(Colon(start, IntegerLiteral(x.lit)), p + 2) else Err
    else if x.tok.RBRACKET? then Ok(Colon(start, IntegerLiteral(MinInt32)), p + 1)
    else
      match ParseExpr(g, tape, p)
      case Err => Err
      case Ok(e, q) => if At(tape, q).tok.RBRACKET? then Ok(Colon(start, e), q + 1) else Err
  }

  function ParseCase(g: Env, tape: seq<Lexeme>, p: nat): (r: Result<Expr>)
    ensures r.Ok? ==> p < r.next <= |tape|
    ensures r.Ok? ==> !r.value.Binary?
    decreases Left(tape, p), 6
  {
    if At(tape, p).tok.WHEN? then ParseWhens(g, tape, p, None, [], None)
    else
      match ParseExpr(g, tape, p)
      case Err => Err
      case Ok(e, q) => ParseWhens(g, tape, q, Some(e), [], None)
  }

  /** The clauses of a CASE up to END; an ELSE may come anywhere after the first WHEN and the
      last one counts. */
  function ParseWhens(g: Env, tape: seq<Lexeme>, p: nat, value: Option<Expr>, whens: seq<When>, els: Option<Expr>): (r: Result<Expr>)
    ensures r.Ok? ==> p < r.next <= |tape|
    ensures r.Ok? ==> !r.value.Binary?
    decreases Left(tape, p), 5
  {
    var x := At(tape, p).tok;
    if x.WHEN? then
      match ParseWhen(g, tape, p + 1, value)
      case Err => Err
      case Ok(w, q) => ParseWhens(g, tape, q, value, whens + [w], els)
    else if whens == [] then Err
    else if x.ELSE? then
      match ParseExpr(g, tape, p + 1)
      case Err => Err
      case Ok(e, q) => ParseWhens(g, tape, q, value, whens, Some(e))
    else if x.END? then Ok(Case(value, whens, els), p + 1)
    else Err
  }

  /** One clause after WHEN; without a compared value its condition must be boolean. */
  function ParseWhen(g: Env, tape: seq<Lexeme>, p: nat, value: Option<Expr>): (r: Result<When>)
    ensures r.Ok? ==> p < r.next <= |tape|
    decreases Left(tape, p), 5
  {
    match ParseExpr(g, tape, p)
    case Err => Err
    case Ok(c, q) =>
      if (value.None? && !IsBooleanArg(c)) || !At(tape, q).tok.THEN? then Err
      else
        match ParseExpr(g, tape, q + 1)
        case Err => Err
        case Ok(e, q2) => Ok(When(c, e), q2)
  }

  datatype SortField = SortField(names: seq<string>, ascending: bool, e: Expr)

  /** ORDER BY: fields with an optional direction; commas between them may be missing. */
  function ParseSorts(g: Env, tape: seq<Lexeme>, p: nat): (r: Result<seq<SortField>>)
    ensures r.Ok? && At(tape, p).tok.ORDER? ==> At(tape, p + 1).tok.BY?
    ensures !At(tape, p).tok.ORDER? ==> r == Ok([], p)
  {
    if !At(tape, p).tok.ORDER? then Ok([], p)
    else if !At(tape, p + 1).tok.BY? then Err
    else ParseSortList(g, tape, p + 2, [])
  }

  function ParseSortList(g: Env, tape: seq<Lexeme>, p: nat, acc: seq<SortField>): (r: Result<seq<SortField>>)
    ensures r.Ok? ==> p <= r.next && acc <= r.value
    decreases Left(tape, p), 1
  {
    var x := At(tape, p).tok;
    if x.COMMA? then ParseSortList(g, tape, p + 1, acc)
    else if !x.IDENT? then Ok(acc, p)
    else
      match ParseSortField(g, tape, p)
      case Err => Err
      case Ok(f, q) => ParseSortList(g, tape, q, acc + [f])
  }

  /** One field: its name sections are read first, and then the expression from the same place.
      A lone dot after the name is lost to the first reading but not to the second. */
  function ParseSortField(g: Env, tape: seq<Lexeme>, p: nat): (r: Result<SortField>)
    requires At(tape, p).tok.IDENT?
    ensures r.Ok? ==> p < r.next <= |tape|
  {
    var Ok(n, q) := Sections(tape, p, false);
    match ParseExpr(g, tape, if |n| == 2 then q - 3 else q - 1)
    case Err => Err
    case Ok(e, q2) =>
      var dir := At(tape, q2).tok;
      Ok(SortField(n, !dir.DESC?, e), if dir.DESC? || dir.ASC? then q2 + 1 else q2)
  }
}
