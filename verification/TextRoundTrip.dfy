/** From tree to text and back: printing, spelling, scanning and parsing together. */
module TextRoundTrip {
  import opened Tokens
  import opened ExprTrees
  import opened ExprGrammar
  import opened ExprPrinter
  import opened Lexer
  import opened StringTexts
  import LexerPrinter

  function TextOf(e: Expr): string {
    LexerPrinter.Print(PrintExpr(e))
  }

  predicate IsName(n: string) {
    All(n, InQuotes)
  }

  /** The names, numbers and strings in the tree can be written: no name has a back quote or a NUL
      in it, numbers are unsigned, and no string has a NUL or a line break in it. */
  predicate Writable(e: Expr)
    decreases e
  {
    match e
    case Paren(x) => Writable(x)
    case Binary(_, l, r) => Writable(l) && Writable(r)
    case FieldRef(stream, name) => IsName(stream) && IsName(name)
    case MetaRef(stream, name) => IsName(stream) && IsName(name)
    case JsonFieldRef(name) => IsName(name)
    case StringLiteral(v) => All(v, InString)
    case IntegerLiteral(t) => LexerPrinter.IsInteger(t)
    case NumberLiteral(t) => LexerPrinter.IsNumber(t)
    case BooleanLiteral(_) => true
    case TimeLiteral(_) => true
    case Wildcard(except) => forall n | n in except :: IsName(n)
    case Case(value, whens, els) =>
      && (value.Some? ==> Writable(value.value)) && (els.Some? ==> Writable(els.value))
      && (forall w | w in whens :: Writable(w.cond) && Writable(w.result))
    case ValueSet(elems) => forall x | x in elems :: Writable(x)
    case Between(lo, hi) => Writable(lo) && Writable(hi)
    case Like(x) => Writable(x)
    case Index(x) => Writable(x)
    case Colon(x, y) => Writable(x) && (y == IntegerLiteral(MinInt32) || Writable(y))
  }

  /** The keywords and symbols that the printer uses. */
  predicate Written(tok: Token) {
    WrittenWord(tok) || WrittenOperator(tok) || WrittenBracket(tok) || IsTimeLiteral(tok)
  }

  predicate WrittenWord(tok: Token) {
    tok.NOT? || tok.IN? || tok.LIKE? || tok.BETWEEN? || tok.EXCEPT? || tok.AND? || tok.OR? ||
    tok.CASE? || tok.WHEN? || tok.THEN? || tok.ELSE? || tok.END? || tok.TRUE? || tok.FALSE?
  }

  predicate WrittenOperator(tok: Token) {
    (PlainOperator(tok) && !tok.MUL? && !tok.AND? && !tok.OR?) || tok.ARROW? || tok.ASTERISK?
  }

  predicate WrittenBracket(tok: Token) {
    tok.DOT? || tok.LPAREN? || tok.RPAREN? || tok.LBRACKET? || tok.RBRACKET? || tok.COLON? || tok.COMMA?
  }

  lemma WrittenIsSpelled(tok: Token)
    requires Written(tok)
    ensures |Spelling(tok)| > 0
  {
    if WrittenWord(tok) {
      WordIsSpelled(tok);
    } else if IsTimeLiteral(tok) {
      UnitIsSpelled(tok);
    } else if WrittenOperator(tok) {
      OperatorIsSpelled(tok);
    } else {
      BracketIsSpelled(tok);
    }
    hide KeywordSpelling;
  }

  lemma WordIsSpelled(tok: Token)
    requires WrittenWord(tok)
    ensures |KeywordSpelling(tok)| > 0
  {
  }

  lemma OperatorIsSpelled(tok: Token)
    requires WrittenOperator(tok)
    ensures |Spelling(tok)| > 0
  {
    hide KeywordSpelling;
  }

  lemma BracketIsSpelled(tok: Token)
    requires WrittenBracket(tok)
    ensures |Spelling(tok)| > 0
  {
    hide KeywordSpelling;
  }

  lemma UnitIsSpelled(tok: Token)
    requires IsTimeLiteral(tok)
    ensures |KeywordSpelling(tok)| > 0
  {
  }

  lemma KeyIsPrintable(tok: Token)
    requires Written(tok)
    ensures LexerPrinter.AllPrintable(Key(tok))
  {
    WrittenIsSpelled(tok);
    hide Spelling;
  }

  lemma LedIsPrintable(tok: Token, rest: seq<Lexeme>)
    requires Written(tok) && LexerPrinter.AllPrintable(rest)
    ensures LexerPrinter.AllPrintable(Key(tok) + rest) && LexerPrinter.AllPrintable(Led(tok, rest))
  {
    KeyIsPrintable(tok);
    hide Spelling, LexerPrinter.Printable, Mark;
  }

  lemma BothPrintable(a: seq<Lexeme>, b: seq<Lexeme>)
    requires LexerPrinter.AllPrintable(a) && LexerPrinter.AllPrintable(b)
    ensures LexerPrinter.AllPrintable(a + b)
  {
    hide LexerPrinter.Printable;
  }

  lemma PartedIsPrintable(text: seq<Lexeme>, tok: Token, rest: seq<Lexeme>)
    requires LexerPrinter.AllPrintable(text) && Written(tok) && LexerPrinter.AllPrintable(rest)
    ensures LexerPrinter.AllPrintable(Parted(text, tok, rest)) && LexerPrinter.AllPrintable(text + (Key(tok) + rest))
  {
    hide LexerPrinter.AllPrintable;
    LedIsPrintable(tok, rest);
    BothPrintable(text, Led(tok, rest));
  }

  /** Every lexeme of a readable, writable tree can be printed. */
  lemma {:induction false} TreeIsPrintable(g: Env, e: Expr, prev: Option<Token>)
    requires ReadableTree(g, e, prev) && Writable(e)
    ensures LexerPrinter.AllPrintable(PrintTree(e, prev))
    decreases e, 2
  {
    hide LexerPrinter.AllPrintable;
    if e.Binary? {
      TreeIsPrintable(g, e.lhs, prev);
      TreeIsPrintable(g, e.rhs, Some(e.op));
      BothPrintable(PrintTree(e.lhs, prev), PrintTree(e.rhs, Some(e.op)));
    } else if prev.None? {
      UnaryIsPrintable(g, e);
    } else {
      OperandIsPrintable(g, prev.value, e);
    }
  }

  lemma {:induction false} OperandIsPrintable(g: Env, op: Token, e: Expr)
    requires !e.Binary? && ReadableOperand(g, op, e) && Writable(e)
    ensures LexerPrinter.AllPrintable(PrintOperand(op, e))
    decreases e, 1
  {
    hide LexerPrinter.AllPrintable, ReadableUnary, Key, Led, PrintUnary;
    if op.LIKE? || op.NOTLIKE? {
      UnaryIsPrintable(g, e.pattern);
      LedIsPrintable(LIKE, PrintUnary(e.pattern));
      LedIsPrintable(NOT, Led(LIKE, PrintUnary(e.pattern)));
    } else if op.BETWEEN? || op.NOTBETWEEN? {
      UnaryIsPrintable(g, e.lower);
      UnaryIsPrintable(g, e.higher);
      PartedIsPrintable(PrintUnary(e.lower), AND, PrintUnary(e.higher));
      LedIsPrintable(BETWEEN, PrintBounds(e));
      LedIsPrintable(NOT, Key(BETWEEN) + PrintBounds(e));
    } else if op.ARROW? && e.JsonFieldRef? {
      NameIsPrintable(e.name);
      LedIsPrintable(ARROW, Ident(e.name));
    } else {
      UnaryIsPrintable(g, e);
      LedIsPrintable(IN, PrintUnary(e));
      if op.NOTIN? {
        LedIsPrintable(NOT, PrintMember(e));
      }
      if op.ARROW? || PlainOperator(op) {
        LedIsPrintable(if op.MUL? then ASTERISK else op, PrintUnary(e));
      }
    }
  }

  lemma NameIsPrintable(n: string)
    requires IsName(n)
    ensures LexerPrinter.AllPrintable(Ident(n))
  {
  }

  lemma {:induction false} UnaryIsPrintable(g: Env, e: Expr)
    requires ReadableUnary(g, e) && Writable(e)
    ensures LexerPrinter.AllPrintable(PrintUnary(e))
    decreases e, 0
  {
    match e
    case Paren(x) =>
      TreeIsPrintable(g, x, None);
      EnclosedIsPrintable(LPAREN, PrintExpr(x), RPAREN);
    case FieldRef(stream, name) => RefIsPrintable(stream, name);
    case MetaRef(stream, name) => RefIsPrintable(stream, name);
    case Wildcard(except) => StarIsPrintable(except);
    case Case(value, whens, els) =>
      if value.Some? { TreeIsPrintable(g, value.value, None); }
      if els.Some? { TreeIsPrintable(g, els.value, None); }
      WhensArePrintable(g, whens);
      CaseIsPrintable(value, whens, els);
    case ValueSet(elems) =>
      ElementsArePrintable(g, elems);
      SetIsPrintable(elems);
    case Index(x) =>
      assert ReadableIndex(g, x) && Readable(g, x);
      TreeIsPrintable(g, x, None);
      EnclosedIsPrintable(LBRACKET, PrintExpr(x), RBRACKET);
    case Colon(x, y) =>
      assert ReadableIndex(g, x) && Readable(g, x);
      TreeIsPrintable(g, x, None);
      if y != IntegerLiteral(MinInt32) {
        assert ReadableIndex(g, y) && Readable(g, y);
        TreeIsPrintable(g, y, None);
      }
      SliceIsPrintable(x, y);
    case _ => LiteralIsPrintable(g, e);
  }

  lemma LiteralIsPrintable(g: Env, e: Expr)
    requires ReadableUnary(g, e) && Writable(e)
    requires e.StringLiteral? || e.IntegerLiteral? || e.NumberLiteral? || e.BooleanLiteral? || e.TimeLiteral?
    ensures LexerPrinter.AllPrintable(PrintUnary(e))
  {
    if e.BooleanLiteral? {
      KeyIsPrintable(if e.b then TRUE else FALSE);
      hide LexerPrinter.AllPrintable;
    } else if e.TimeLiteral? {
      KeyIsPrintable(e.unit);
      hide LexerPrinter.AllPrintable;
    } else {
      hide LexerPrinter.IsMark;
    }
  }

  lemma EnclosedIsPrintable(open: Token, text: seq<Lexeme>, close: Token)
    requires Written(open) && LexerPrinter.AllPrintable(text) && Written(close)
    ensures LexerPrinter.AllPrintable(Key(open) + text + Key(close))
  {
    hide LexerPrinter.AllPrintable;
    KeyIsPrintable(open);
    KeyIsPrintable(close);
    BothPrintable(Key(open), text);
    BothPrintable(Key(open) + text, Key(close));
  }

  lemma RefIsPrintable(stream: string, name: string)
    requires IsName(stream) && IsName(name)
    ensures LexerPrinter.AllPrintable(PrintRef(stream, name))
  {
    hide LexerPrinter.AllPrintable;
    NameIsPrintable(stream);
    NameIsPrintable(name);
    PartedIsPrintable(Ident(stream), DOT, Ident(name));
  }

  lemma {:induction false} StarIsPrintable(except: seq<string>)
    requires forall n | n in except :: IsName(n)
    ensures LexerPrinter.AllPrintable(PrintUnary(Wildcard(except)))
  {
    hide LexerPrinter.AllPrintable, IsName;
    NamesArePrintable(except);
    NothingIsPrintable();
    LedIsPrintable(LPAREN, PrintExcept(except));
    LedIsPrintable(EXCEPT, Key(LPAREN) + PrintExcept(except));
    LedIsPrintable(ASTERISK, PrintStarTail(except));
  }

  lemma NothingIsPrintable()
    ensures LexerPrinter.AllPrintable([])
  {
  }

  lemma {:induction false} NamesArePrintable(names: seq<string>)
    requires forall n | n in names :: IsName(n)
    ensures LexerPrinter.AllPrintable(PrintExcept(names))
  {
    hide LexerPrinter.AllPrintable, IsName;
    KeyIsPrintable(RPAREN);
    if names != [] {
      NameIsPrintable(names[0]);
      NamesArePrintable(names[1..]);
      BothPrintable(Ident(names[0]), PrintExcept(names[1..]));
    }
  }

  lemma CaseIsPrintable(value: Option<Expr>, whens: seq<When>, els: Option<Expr>)
    requires value.Some? ==> LexerPrinter.AllPrintable(PrintExpr(value.value))
    requires els.Some? ==> LexerPrinter.AllPrintable(PrintExpr(els.value))
    requires LexerPrinter.AllPrintable(PrintWhens(whens))
    ensures LexerPrinter.AllPrintable(PrintUnary(Case(value, whens, els)))
  {
    hide LexerPrinter.AllPrintable, PrintExpr, PrintWhens;
    NothingIsPrintable();
    if els.Some? { LedIsPrintable(ELSE, PrintExpr(els.value)); }
    LedIsPrintable(CASE, PrintOption(value));
    BothPrintable(Key(CASE) + PrintOption(value), PrintWhens(whens));
    BothPrintable(Key(CASE) + PrintOption(value) + PrintWhens(whens), PrintElse(els));
    KeyIsPrintable(END);
    BothPrintable(Key(CASE) + PrintOption(value) + PrintWhens(whens) + PrintElse(els), Key(END));
  }

  lemma SetIsPrintable(elems: seq<Expr>)
    requires LexerPrinter.AllPrintable(PrintElements(elems))
    ensures LexerPrinter.AllPrintable(PrintUnary(ValueSet(elems)))
  {
    hide LexerPrinter.AllPrintable, PrintElements;
    KeyIsPrintable(IN);
    KeyIsPrintable(LPAREN);
    BothPrintable(Key(IN), Key(LPAREN));
    BothPrintable(Key(IN) + Key(LPAREN), PrintElements(elems));
  }

  lemma SliceIsPrintable(x: Expr, y: Expr)
    requires LexerPrinter.AllPrintable(PrintExpr(x))
    requires y != IntegerLiteral(MinInt32) ==> LexerPrinter.AllPrintable(PrintExpr(y))
    ensures LexerPrinter.AllPrintable(PrintUnary(Colon(x, y)))
  {
    hide LexerPrinter.AllPrintable, PrintExpr, Key;
    NothingIsPrintable();
    EnclosedIsPrintable(LBRACKET, PrintExpr(x), COLON);
    BothPrintable(Key(LBRACKET) + PrintExpr(x) + Key(COLON), PrintEnd(y));
    KeyIsPrintable(RBRACKET);
    BothPrintable(Key(LBRACKET) + PrintExpr(x) + Key(COLON) + PrintEnd(y), Key(RBRACKET));
  }

  lemma {:induction false} ElementsArePrintable(g: Env, es: seq<Expr>)
    requires forall x | x in es :: Readable(g, x) && Writable(x)
    ensures LexerPrinter.AllPrintable(PrintElements(es))
    decreases es
  {
    hide LexerPrinter.AllPrintable, ReadableTree, Writable, PrintTree;
    NothingIsPrintable();
    if es != [] {
      assert es[0] in es && forall x | x in es[1..] :: x in es;
      TreeIsPrintable(g, es[0], None);
      ElementsArePrintable(g, es[1..]);
      PartedIsPrintable(PrintExpr(es[0]), if |es| == 1 then RPAREN else COMMA, PrintElements(es[1..]));
    }
  }

  lemma {:induction false} WhensArePrintable(g: Env, ws: seq<When>)
    requires forall w | w in ws :: Readable(g, w.cond) && Readable(g, w.result) && Writable(w.cond) && Writable(w.result)
    ensures LexerPrinter.AllPrintable(PrintWhens(ws))
    decreases ws
  {
    hide LexerPrinter.AllPrintable, Readable, Writable, PrintWhen;
    NothingIsPrintable();
    if ws != [] {
      WhenIsPrintable(g, ws[0]);
      WhensArePrintable(g, ws[1..]);
      BothPrintable(PrintWhen(ws[0]), PrintWhens(ws[1..]));
    }
  }

  lemma {:induction false} WhenIsPrintable(g: Env, w: When)
    requires Readable(g, w.cond) && Readable(g, w.result) && Writable(w.cond) && Writable(w.result)
    ensures LexerPrinter.AllPrintable(PrintWhen(w))
    decreases w
  {
    hide LexerPrinter.AllPrintable, ReadableTree, Writable, PrintTree;
    TreeIsPrintable(g, w.cond, None);
    TreeIsPrintable(g, w.result, None);
    PartedIsPrintable(PrintExpr(w.cond), THEN, PrintExpr(w.result));
    LedIsPrintable(WHEN, Parted(PrintExpr(w.cond), THEN, PrintExpr(w.result)));
  }

  /** A readable and writable tree, written as text with one space between its lexemes, is scanned
      and parsed back to itself, to the end of the text, unless two neighbours merge. */
  lemma {:induction false} TreeToTextAndBack(g: Env, u: Unquote, e: Expr)
    requires Readable(g, e) && Writable(e)
    requires LexerPrinter.Unquotes(u) && LexerPrinter.Apart(PrintExpr(e))
    ensures ParseExpr(g, Significant(ScanAll(u, TextOf(e), 0)), 0) == Ok(e, |PrintExpr(e)|)
  {
    hide Readable, ParseExpr, PrintExpr, ScanAll, Significant, LexerPrinter.AllPrintable, LexerPrinter.Apart,
         LexerPrinter.Unquotes, Writable;
    var tape := PrintExpr(e);
    ReadableIsPrintable(g, e);
    LexerPrinter.PrintThenScan(u, tape);
    ExprRoundTrip(g, tape, 0, e);
  }

  lemma ReadableIsPrintable(g: Env, e: Expr)
    requires Readable(g, e) && Writable(e)
    ensures LexerPrinter.AllPrintable(PrintExpr(e))
  {
    TreeIsPrintable(g, e, None);
  }
}
