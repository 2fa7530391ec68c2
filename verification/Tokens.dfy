/** Tokens of the SQL dialect, with the tests and the precedence table the parser uses. */
module Tokens {

  datatype Option<+T> = None | Some(value: T)

  datatype Token =
    | ILLEGAL | EOF | WS | COMMENT | AS
    | IDENT | INTEGER | NUMBER | STRING | SINGLEQUOTE | BADSTRING
    | ADD | SUB | MUL | DIV | MOD | BITWISE_AND | BITWISE_OR | BITWISE_XOR
    | AND | OR | EQ | NEQ | LT | LTE | GT | GTE
    | SUBSET | ARROW | IN | NOT | NOTIN | BETWEEN | NOTBETWEEN | LIKE | NOTLIKE | REPLACE | EXCEPT
    | ASTERISK | COMMA | LPAREN | RPAREN | LBRACKET | RBRACKET | HASH | DOT | COLON | SEMICOLON
    | SELECT | FROM | JOIN | INNER | LEFT | RIGHT | FULL | CROSS | ON | WHERE | LIMIT
    | GROUP | ORDER | HAVING | BY | ASC | DESC | FILTER | CASE | WHEN | THEN | ELSE | END
    | OVER | PARTITION | INVISIBLE | DEFAULT | TRUE | FALSE
    | DD | HH | MI | SS | MS

  datatype Lexeme = Lexeme(tok: Token, lit: string)

  predicate IsOperator(tok: Token) {
    tok.ADD? || tok.SUB? || tok.MUL? || tok.DIV? || tok.MOD? ||
    tok.BITWISE_AND? || tok.BITWISE_OR? || tok.BITWISE_XOR? || tok.AND? || tok.OR? ||
    tok.EQ? || tok.NEQ? || tok.LT? || tok.LTE? || tok.GT? || tok.GTE? ||
    tok.SUBSET? || tok.ARROW? || tok.IN? || tok.NOT? || tok.NOTIN? || tok.BETWEEN? ||
    tok.NOTBETWEEN? || tok.LIKE? || tok.NOTLIKE? || tok.REPLACE? || tok.EXCEPT? ||
    tok.ASTERISK? || tok.LBRACKET? || tok.DOT?
  }

  predicate IsTimeLiteral(tok: Token) {
    tok.DD? || tok.HH? || tok.MI? || tok.SS? || tok.MS?
  }

  function Precedence(tok: Token): (r: nat)
    ensures r <= 5
    ensures tok.ARROW? ==> r == 5
  {
    match tok
    case OR => 1
    case AND => 2
    case EQ | NEQ | LT | LTE | GT | GTE | IN | NOTIN | BETWEEN | NOTBETWEEN | LIKE | NOTLIKE => 3
    case ADD | SUB | BITWISE_OR | BITWISE_XOR => 4
    case MUL | DIV | MOD | BITWISE_AND | SUBSET | ARROW | DOT => 5
    case _ => 0
  }

  /** The name that stands for "no qualifier". */
  const DefaultStream := "$$default"

  /** How keywords and symbols are written: one text for one token. */
  function Spelling(tok: Token): string {
    match tok
    case ADD => "+" case SUB => "-" case DIV => "/" case MOD => "%"
    case BITWISE_AND => "&" case BITWISE_OR => "|" case BITWISE_XOR => "^"
    case EQ => "=" case NEQ => "!=" case LT => "<" case LTE => "<=" case GT => ">" case GTE => ">="
    case ARROW => "->" case ASTERISK => "*" case COMMA => "," case DOT => "." case COLON => ":"
    case LPAREN => "(" case RPAREN => ")" case LBRACKET => "[" case RBRACKET => "]"
    case HASH => "#" case SEMICOLON => ";"
    case _ => KeywordSpelling(tok)
  }

  function KeywordSpelling(tok: Token): string {
    match tok
    case AND => "AND" case OR => "OR" case IN => "IN" case NOT => "NOT" case BETWEEN => "BETWEEN"
    case LIKE => "LIKE" case REPLACE => "REPLACE" case EXCEPT => "EXCEPT"
    case SELECT => "SELECT" case AS => "AS" case FROM => "FROM" case JOIN => "JOIN" case INNER => "INNER"
    case LEFT => "LEFT" case RIGHT => "RIGHT" case FULL => "FULL" case CROSS => "CROSS" case ON => "ON"
    case WHERE => "WHERE" case LIMIT => "LIMIT" case GROUP => "GROUP" case ORDER => "ORDER"
    case HAVING => "HAVING" case BY => "BY" case ASC => "ASC" case DESC => "DESC" case FILTER => "FILTER"
    case CASE => "CASE" case WHEN => "WHEN" case THEN => "THEN" case ELSE => "ELSE" case END => "END"
    case OVER => "OVER" case PARTITION => "PARTITION" case INVISIBLE => "INVISIBLE" case DEFAULT => "DEFAULT"
    case TRUE => "TRUE" case FALSE => "FALSE"
    case DD => "DD" case HH => "HH" case MI => "MI" case SS => "SS" case MS => "MS"
    case _ => ""
  }

  function Mark(tok: Token): (x: Lexeme)
    ensures x.tok == tok
  {
    Lexeme(tok, Spelling(tok))
  }

  predicate IsBlank(x: Lexeme) {
    x.tok.WS? || x.tok.COMMENT?
  }

  /** The lexemes the grammar sees: blanks and comments are dropped. */
  function Significant(s: seq<Lexeme>): seq<Lexeme> {
    if s == [] then []
    else if IsBlank(s[0]) then Significant(s[1..])
    else [s[0]] + Significant(s[1..])
  }

  /** What is left has no blank and no comment in it, and text without them is left as it is. */
  lemma {:induction false} SignificantKeeps(s: seq<Lexeme>)
    ensures forall x | x in Significant(s) :: x in s && !x.tok.WS? && !x.tok.COMMENT?
    ensures (forall x | x in s :: !x.tok.WS? && !x.tok.COMMENT?) ==> Significant(s) == s
    decreases s
  {
    if s != [] {
      SignificantKeeps(s[1..]);
    }
  }

  lemma {:induction false} SignificantJoins(a: seq<Lexeme>, b: seq<Lexeme>)
    ensures Significant(a + b) == Significant(a) + Significant(b)
    decreases a
  {
    hide IsBlank;
    if a == [] {
      assert a + b == b;
    } else {
      SignificantJoins(a[1..], b);
      assert (a + b)[1..] == a[1..] + b;
    }
  }

  const EndOfInput := Lexeme(EOF, "EOF")

  /** A tape is read by position; past its end the scanner keeps returning the end token. */
  function At(tape: seq<Lexeme>, p: nat): (x: Lexeme)
    ensures x.tok != EOF ==> p < |tape|
  {
    if p < |tape| then tape[p] else EndOfInput
  }

  /** The lexemes `s` stand on the tape from `p` on. */
  predicate HasAt(tape: seq<Lexeme>, p: nat, s: seq<Lexeme>) {
    p + |s| <= |tape| && tape[p..p + |s|] == s
  }

  lemma SplitAt(tape: seq<Lexeme>, p: nat, a: seq<Lexeme>, b: seq<Lexeme>)
    requires HasAt(tape, p, a + b)
    ensures HasAt(tape, p, a) && HasAt(tape, p + |a|, b)
  {
    assert a == (a + b)[..|a|] && b == (a + b)[|a|..];
  }

  lemma LexemeAt(tape: seq<Lexeme>, p: nat, x: Lexeme)
    requires HasAt(tape, p, [x])
    ensures At(tape, p) == x && p < |tape|
  {
    assert tape[p..p + 1][0] == tape[p];
  }

  lemma LexemeThen(tape: seq<Lexeme>, p: nat, x: Lexeme, rest: seq<Lexeme>)
    requires HasAt(tape, p, [x] + rest)
    ensures At(tape, p) == x && HasAt(tape, p + 1, rest)
  {
    SplitAt(tape, p, [x], rest);
    LexemeAt(tape, p, x);
  }

  lemma TextThen(tape: seq<Lexeme>, p: nat, text: seq<Lexeme>, x: Lexeme, rest: seq<Lexeme>)
    requires HasAt(tape, p, text + ([x] + rest))
    ensures HasAt(tape, p, text) && At(tape, p + |text|) == x && HasAt(tape, p + |text| + 1, rest)
  {
    SplitAt(tape, p, text, [x] + rest);
    LexemeThen(tape, p + |text|, x, rest);
  }
}
