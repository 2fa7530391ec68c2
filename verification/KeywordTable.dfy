/** The words with a token of their own. */
module KeywordTable {
  import opened Tokens

  function QueryWord(lit: string): Option<Token> {
    if lit == "SELECT" then Some(SELECT)
    else if lit == "AS" then Some(AS)
    else if lit == "FROM" then Some(FROM)
    else if lit == "WHERE" then Some(WHERE)
    else if lit == "LIMIT" then Some(LIMIT)
    else None
  }

  function OrderWord(lit: string): Option<Token> {
    if lit == "GROUP" then Some(GROUP)
    else if lit == "HAVING" then Some(HAVING)
    else if lit == "ORDER" then Some(ORDER)
    else if lit == "BY" then Some(BY)
    else if lit == "DESC" then Some(DESC)
    else if lit == "ASC" then Some(ASC)
    else None
  }

  function SideWord(lit: string): Option<Token> {
    if lit == "INNER" then Some(INNER)
    else if lit == "LEFT" then Some(LEFT)
    else if lit == "RIGHT" then Some(RIGHT)
    else if lit == "FULL" then Some(FULL)
    else if lit == "CROSS" then Some(CROSS)
    else None
  }

  function JoinWord(lit: string): Option<Token> {
    if lit == "JOIN" then Some(JOIN)
    else if lit == "ON" then Some(ON)
    else if lit == "FILTER" then Some(FILTER)
    else if lit == "OVER" then Some(OVER)
    else if lit == "PARTITION" then Some(PARTITION)
    else None
  }

  function CaseWord(lit: string): Option<Token> {
    if lit == "CASE" then Some(CASE)
    else if lit == "WHEN" then Some(WHEN)
    else if lit == "THEN" then Some(THEN)
    else if lit == "ELSE" then Some(ELSE)
    else if lit == "END" then Some(END)
    else None
  }

  function LogicWord(lit: string): Option<Token> {
    if lit == "AND" then Some(AND)
    else if lit == "OR" then Some(OR)
    else if lit == "NOT" then Some(NOT)
    else if lit == "TRUE" then Some(TRUE)
    else if lit == "FALSE" then Some(FALSE)
    else None
  }

  function RangeWord(lit: string): Option<Token> {
    if lit == "IN" then Some(IN)
    else if lit == "BETWEEN" then Some(BETWEEN)
    else if lit == "LIKE" then Some(LIKE)
    else if lit == "DEFAULT" then Some(DEFAULT)
    else None
  }

  function StarWord(lit: string): Option<Token> {
    if lit == "REPLACE" then Some(REPLACE)
    else if lit == "EXCEPT" then Some(EXCEPT)
    else if lit == "INVISIBLE" then Some(INVISIBLE)
    else None
  }

  function UnitWord(lit: string): Option<Token> {
    if lit == "DD" then Some(DD)
    else if lit == "HH" then Some(HH)
    else if lit == "MI" then Some(MI)
    else if lit == "SS" then Some(SS)
    else if lit == "MS" then Some(MS)
    else None
  }

  /** The token of a word in upper case. */
  function KeywordOf(lit: string): Option<Token> {
    Or(QueryWord(lit), Or(OrderWord(lit), Or(SideWord(lit), Or(JoinWord(lit), Or(CaseWord(lit),
      Or(LogicWord(lit), Or(RangeWord(lit), Or(StarWord(lit), UnitWord(lit)))))))))
  }

  function Or(a: Option<Token>, b: Option<Token>): Option<Token> {
    if a.Some? then a else b
  }

  /** The spelling read backwards: length and first two letters tell the tokens apart. */
  function Unspelled(n: nat, c: char, d: char): Token {
    if c == 'A' then
      if d == 'N' then AND else if d == 'S' && n == 2 then AS else ASC
    else if c == 'B' then
      if d == 'E' then BETWEEN else BY
    else if c == 'C' then
      if d == 'A' then CASE else CROSS
    else if c == 'D' then
      if d == 'D' then DD else if d == 'E' && n == 4 then DESC else DEFAULT
    else if c == 'E' then
      if d == 'L' then ELSE else if d == 'N' then END else EXCEPT
    else if c == 'F' then
      if d == 'A' then FALSE else if d == 'I' then FILTER else if d == 'R' then FROM else FULL
    else if c == 'G' then
      GROUP
    else if c == 'H' then
      if d == 'A' then HAVING else HH
    else if c == 'I' then
      if d == 'N' && n == 2 then IN else if d == 'N' && n == 5 then INNER else INVISIBLE
    else if c == 'J' then
      JOIN
    else if c == 'L' then
      if d == 'E' then LEFT else if d == 'I' && n == 4 then LIKE else LIMIT
    else if c == 'M' then
      if d == 'I' then MI else MS
    else if c == 'N' then
      NOT
    else if c == 'O' then
      if d == 'N' then ON else if d == 'R' && n == 2 then OR else if d == 'R' && n == 5 then ORDER else OVER
    else if c == 'P' then
      PARTITION
    else if c == 'R' then
      if d == 'E' then REPLACE else RIGHT
    else if c == 'S' then
      if d == 'E' then SELECT else SS
    else if c == 'T' then
      if d == 'H' then THEN else TRUE
    else if c == 'W' then
      if d == 'H' && n == 4 then WHEN else WHERE
    else EOF
  }

  lemma SpellingTells(t: Token)
    requires KeywordSpelling(t) != ""
    ensures var s := KeywordSpelling(t); |s| > 1 && Unspelled(|s|, s[0], s[1]) == t
  {
  }

  /** Different tokens are spelled differently. */
  lemma SpellingIsInjective(t: Token, t': Token)
    requires KeywordSpelling(t) == KeywordSpelling(t') != ""
    ensures t == t'
  {
    SpellingTells(t);
    SpellingTells(t');
  }

  /** A word has a token of its own exactly when it is the spelling of that token. */
  lemma KeywordExactly(lit: string, t: Token)
    ensures KeywordOf(lit) == Some(t) <==> KeywordSpelling(t) == lit != ""
  {
    if KeywordOf(lit) == Some(t) {
      KeywordIsSpelled(lit, t);
    }
    if KeywordSpelling(t) == lit != "" {
      KeywordIsSpelled(lit, t);
      KeywordIsSpelled(lit, KeywordOf(lit).value);
      SpellingIsInjective(t, KeywordOf(lit).value);
    }
  }

  lemma QueryWordIsSpelled(lit: string, t: Token)
    ensures QueryWord(lit) == Some(t) ==> KeywordSpelling(t) == lit != ""
    ensures KeywordSpelling(t) == lit && (t.SELECT? || t.AS? || t.FROM? || t.WHERE? || t.LIMIT?) ==> QueryWord(lit).Some?
  {
    match t
    case SELECT => assert KeywordSpelling(t) == "SELECT";
    case AS => assert KeywordSpelling(t) == "AS";
    case FROM => assert KeywordSpelling(t) == "FROM";
    case WHERE => assert KeywordSpelling(t) == "WHERE";
    case LIMIT => assert KeywordSpelling(t) == "LIMIT";
    case _ =>
  }

  lemma OrderWordIsSpelled(lit: string, t: Token)
    ensures OrderWord(lit) == Some(t) ==> KeywordSpelling(t) == lit != ""
    ensures KeywordSpelling(t) == lit && (t.GROUP? || t.HAVING? || t.ORDER? || t.BY? || t.DESC? || t.ASC?) ==> OrderWord(lit).Some?
  {
    match t
    case GROUP => assert KeywordSpelling(t) == "GROUP";
    case HAVING => assert KeywordSpelling(t) == "HAVING";
    case ORDER => assert KeywordSpelling(t) == "ORDER";
    case BY => assert KeywordSpelling(t) == "BY";
    case DESC => assert KeywordSpelling(t) == "DESC";
    case ASC => assert KeywordSpelling(t) == "ASC";
    case _ =>
  }

  lemma SideWordIsSpelled(lit: string, t: Token)
    ensures SideWord(lit) == Some(t) ==> KeywordSpelling(t) == lit != ""
    ensures KeywordSpelling(t) == lit && (t.INNER? || t.LEFT? || t.RIGHT? || t.FULL? || t.CROSS?) ==> SideWord(lit).Some?
  {
    match t
    case INNER => assert KeywordSpelling(t) == "INNER";
    case LEFT => assert KeywordSpelling(t) == "LEFT";
    case RIGHT => assert KeywordSpelling(t) == "RIGHT";
    case FULL => assert KeywordSpelling(t) == "FULL";
    case CROSS => assert KeywordSpelling(t) == "CROSS";
    case _ =>
  }

  lemma JoinWordIsSpelled(lit: string, t: Token)
    ensures JoinWord(lit) == Some(t) ==> KeywordSpelling(t) == lit != ""
    ensures KeywordSpelling(t) == lit && (t.JOIN? || t.ON? || t.FILTER? || t.OVER? || t.PARTITION?) ==> JoinWord(lit).Some?
  {
    match t
    case JOIN => assert KeywordSpelling(t) == "JOIN";
    case ON => assert KeywordSpelling(t) == "ON";
    case FILTER => assert KeywordSpelling(t) == "FILTER";
    case OVER => assert KeywordSpelling(t) == "OVER";
    case PARTITION => assert KeywordSpelling(t) == "PARTITION";
    case _ =>
  }

  lemma CaseWordIsSpelled(lit: string, t: Token)
    ensures CaseWord(lit) == Some(t) ==> KeywordSpelling(t) == lit != ""
    ensures KeywordSpelling(t) == lit && (t.CASE? || t.WHEN? || t.THEN? || t.ELSE? || t.END?) ==> CaseWord(lit).Some?
  {
    match t
    case CASE => assert KeywordSpelling(t) == "CASE";
    case WHEN => assert KeywordSpelling(t) == "WHEN";
    case THEN => assert KeywordSpelling(t) == "THEN";
    case ELSE => assert KeywordSpelling(t) == "ELSE";
    case END => assert KeywordSpelling(t) == "END";
    case _ =>
  }

  lemma LogicWordIsSpelled(lit: string, t: Token)
    ensures LogicWord(lit) == Some(t) ==> KeywordSpelling(t) == lit != ""
    ensures KeywordSpelling(t) == lit && (t.AND? || t.OR? || t.NOT? || t.TRUE? || t.FALSE?) ==> LogicWord(lit).Some?
  {
    match t
    case AND => assert KeywordSpelling(t) == "AND";
    case OR => assert KeywordSpelling(t) == "OR";
    case NOT => assert KeywordSpelling(t) == "NOT";
    case TRUE => assert KeywordSpelling(t) == "TRUE";
    case FALSE => assert KeywordSpelling(t) == "FALSE";
    case _ =>
  }

  lemma RangeWordIsSpelled(lit: string, t: Token)
    ensures RangeWord(lit) == Some(t) ==> KeywordSpelling(t) == lit != ""
    ensures KeywordSpelling(t) == lit && (t.IN? || t.BETWEEN? || t.LIKE? || t.DEFAULT?) ==> RangeWord(lit).Some?
  {
    match t
    case IN => assert KeywordSpelling(t) == "IN";
    case BETWEEN => assert KeywordSpelling(t) == "BETWEEN";
    case LIKE => assert KeywordSpelling(t) == "LIKE";
    case DEFAULT => assert KeywordSpelling(t) == "DEFAULT";
    case _ =>
  }

  lemma StarWordIsSpelled(lit: string, t: Token)
    ensures StarWord(lit) == Some(t) ==> KeywordSpelling(t) == lit != ""
    ensures KeywordSpelling(t) == lit && (t.REPLACE? || t.EXCEPT? || t.INVISIBLE?) ==> StarWord(lit).Some?
  {
    match t
    case REPLACE => assert KeywordSpelling(t) == "REPLACE";
    case EXCEPT => assert KeywordSpelling(t) == "EXCEPT";
    case INVISIBLE => assert KeywordSpelling(t) == "INVISIBLE";
    case _ =>
  }

  lemma UnitWordIsSpelled(lit: string, t: Token)
    ensures UnitWord(lit) == Some(t) ==> KeywordSpelling(t) == lit != ""
    ensures KeywordSpelling(t) == lit && (t.DD? || t.HH? || t.MI? || t.SS? || t.MS?) ==> UnitWord(lit).Some?
  {
    match t
    case DD => assert KeywordSpelling(t) == "DD";
    case HH => assert KeywordSpelling(t) == "HH";
    case MI => assert KeywordSpelling(t) == "MI";
    case SS => assert KeywordSpelling(t) == "SS";
    case MS => assert KeywordSpelling(t) == "MS";
    case _ =>
  }

  lemma KeywordIsSpelled(lit: string, t: Token)
    ensures KeywordOf(lit) == Some(t) ==> KeywordSpelling(t) == lit != ""
    ensures KeywordSpelling(t) == lit != "" ==> KeywordOf(lit).Some?
  {
    QueryWordIsSpelled(lit, t);
    OrderWordIsSpelled(lit, t);
    SideWordIsSpelled(lit, t);
    JoinWordIsSpelled(lit, t);
    CaseWordIsSpelled(lit, t);
    LogicWordIsSpelled(lit, t);
    RangeWordIsSpelled(lit, t);
    StarWordIsSpelled(lit, t);
    UnitWordIsSpelled(lit, t);
    hide QueryWord, OrderWord, SideWord, JoinWord, CaseWord, LogicWord, RangeWord, StarWord, UnitWord;
  }
}
