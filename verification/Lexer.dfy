/** The scanner: from text to lexemes. */
module Lexer {
  import opened Tokens
  import opened TypeGrammar
  import opened KeywordTable

  const NUL := '\0'

  predicate IsWhite(c: char) {
    c == ' ' || c == '\t' || c == '\r' || c == '\n'
  }

  predicate IsLetter(c: char) {
    'a' <= c <= 'z' || 'A' <= c <= 'Z'
  }

  predicate IsDigit(c: char) {
    '0' <= c <= '9'
  }

  predicate IsWordChar(c: char) {
    IsLetter(c) || IsDigit(c) || c == '_'
  }

  predicate IsNumberChar(c: char) {
    IsDigit(c) || c == '.'
  }

  predicate InQuotes(c: char) {
    c != '`' && c != NUL
  }

  predicate InLine(c: char) {
    c != '\n' && c != NUL
  }

  /** The end of the run of characters that satisfy `ok`. */
  function RunEnd(s: string, p: nat, ok: char -> bool): (q: nat)
    requires p <= |s|
    ensures p <= q <= |s|
    ensures forall i :: p <= i < q ==> ok(s[i])
    ensures q < |s| ==> !ok(s[q])
    decreases |s| - p
  {
    if p < |s| && ok(s[p]) then RunEnd(s, p + 1, ok) else p
  }

  /** The reader gives NUL at the end, and moves only while there is something to read. */
  function Peek(s: string, p: nat): char {
    if p < |s| then s[p] else NUL
  }

  function Past(s: string, p: nat): (q: nat)
    requires p <= |s|
    ensures p <= q <= |s|
  {
    if p < |s| then p + 1 else p
  }

  /** A NUL that ends a run is taken with it. */
  function PastNul(s: string, p: nat): (q: nat)
    requires p <= |s|
    ensures p <= q <= |s|
  {
    if Peek(s, p) == NUL then Past(s, p) else p
  }

  function SkipWhite(s: string, p: nat): (q: nat)
    requires p <= |s|
    ensures p <= q <= |s|
  {
    PastNul(s, RunEnd(s, p, IsWhite))
  }

  datatype Scanned = Scanned(lex: Lexeme, next: nat)

  /** Undoes the quoting of a string literal, which may fail. */
  type Unquote = string -> Option<string>

  /** The text of a string literal, rewritten with double quotes, and whether it was closed. */
  datatype Quoted = Quoted(word: string, next: nat, closed: bool)

  function StringRun(s: string, p: nat, single: bool, escape: bool, word: string): (r: Quoted)
    requires p <= |s|
    ensures p <= r.next <= |s|
    decreases |s| - p
  {
    var c := Peek(s, p);
    if c == '"' && !escape then
      if single then StringRun(s, p + 1, single, false, word + ['\\', c]) else Quoted(word + [c], p + 1, true)
    else if c == '\'' && !escape && single then Quoted(word + ['"'], p + 1, true)
    else if c == NUL then Quoted(word, Past(s, p), false)
    else if c == '\\' && !escape then
      if Peek(s, p + 1) == '\'' && single then StringRun(s, p + 2, single, true, word + ['\''])
      else StringRun(s, p + 1, single, true, word + [c])
    else StringRun(s, p + 1, single, false, word + [c])
  }

  function ScanString(u: Unquote, s: string, p: nat, single: bool): (r: Scanned)
    requires p < |s|
    ensures p < r.next <= |s|
  {
    var q := StringRun(s, p + 1, single, false, ['"']);
    if !q.closed then Scanned(Lexeme(BADSTRING, q.word), q.next)
    else
      match u(q.word)
      case None => Scanned(Lexeme(ILLEGAL, "invalid string: " + q.word), q.next)
      case Some(v) => Scanned(Lexeme(if single then SINGLEQUOTE else STRING, v), q.next)
  }

  function ScanIdent(s: string, p: nat): (r: Scanned)
    requires p < |s|
    ensures p < r.next <= |s|
  {
    var e := RunEnd(s, p + 1, IsWordChar);
    Scanned(WordLexeme(s[p..e]), PastNul(s, e))
  }

  function WordLexeme(word: string): Lexeme {
    var lit := Upper(word);
    if KeywordOf(lit).Some? then Lexeme(KeywordOf(lit).value, lit) else Lexeme(IDENT, word)
  }

  /** A number whose digits start at `p`, with what was read of it before. */
  function ScanNumber(s: string, p: nat, before: string): (r: Scanned)
    requires p < |s|
    ensures p < r.next <= |s|
  {
    var e := RunEnd(s, p + 1, IsNumberChar);
    var isNumber := before != "" || exists i :: p + 1 <= i < e && s[i] == '.';
    Scanned(Lexeme(if isNumber then NUMBER else INTEGER, before + s[p..e]), e)
  }

  function ScanBackquoted(s: string, p: nat): (r: Scanned)
    requires p < |s|
    ensures p < r.next <= |s|
  {
    var e := RunEnd(s, p + 1, InQuotes);
    Scanned(Lexeme(IDENT, s[p + 1..e]), Past(s, e))
  }

  /** After `/` and `*`: the position past the end of the comment, if it ends. */
  function CommentEnd(s: string, p: nat): (r: Option<nat>)
    requires p <= |s|
    ensures r.Some? ==> p < r.value <= |s|
    decreases |s| - p
  {
    var c := Peek(s, p);
    if c == '*' then StarEnd(s, p + 1) else if c == NUL then None else CommentEnd(s, p + 1)
  }

  function StarEnd(s: string, p: nat): (r: Option<nat>)
    requires p <= |s|
    ensures r.Some? ==> p < r.value <= |s|
    decreases |s| - p
  {
    var c := Peek(s, p);
    if c == '/' then Some(p + 1)
    else if c == '*' then StarEnd(s, p + 1)
    else if c == NUL then None
    else CommentEnd(s, p + 1)
  }

  function CommentNul(s: string, p: nat): (q: nat)
    requires p <= |s|
    ensures p <= q <= |s|
  {
    Past(s, RunEnd(s, p, NotNul))
  }

  predicate NotNul(c: char) {
    c != NUL
  }

  /** The symbols that do not look ahead. */
  function Symbol(c: char): Option<Token> {
    if c == '=' then Some(EQ)
    else if c == '+' then Some(ADD)
    else if c == '%' then Some(MOD)
    else if c == '&' then Some(BITWISE_AND)
    else if c == '|' then Some(BITWISE_OR)
    else if c == '^' then Some(BITWISE_XOR)
    else if c == '*' then Some(ASTERISK)
    else if c == ',' then Some(COMMA)
    else if c == '(' then Some(LPAREN)
    else if c == ')' then Some(RPAREN)
    else if c == '[' then Some(LBRACKET)
    else if c == ']' then Some(RBRACKET)
    else if c == ':' then Some(COLON)
    else if c == '#' then Some(HASH)
    else if c == ';' then Some(SEMICOLON)
    else None
  }

  /** The symbols that look past blanks for a second character. */
  function ScanPair(s: string, p: nat): (r: Scanned)
    requires p < |s|
    ensures p < r.next <= |s|
  {
    var c := s[p];
    var q := SkipWhite(s, p + 1);
    var d := Peek(s, q);
    if c == '!' then if d == '=' then Scanned(Lexeme(NEQ, "!="), q + 1) else Scanned(Lexeme(EQ, "="), q)
    else if c == '<' then if d == '=' then Scanned(Lexeme(LTE, "<="), q + 1) else Scanned(Lexeme(LT, "<"), q)
    else if c == '>' then if d == '=' then Scanned(Lexeme(GTE, ">="), q + 1) else Scanned(Lexeme(GT, ">"), q)
    else if c == '-' then ScanMinus(s, q)
    else if c == '/' then
      if d != '*' then Scanned(Lexeme(DIV, "/"), q)
      else
        match CommentEnd(s, q + 1)
        case Some(e) => Scanned(Lexeme(COMMENT, ""), e)
        case None => Scanned(Lexeme(ILLEGAL, ""), CommentNul(s, q + 1))
    else Scanned(Lexeme(ILLEGAL, ""), p + 1)
  }

  /** After a minus and its blanks. A dot that starts no number is dropped. */
  function ScanMinus(s: string, q: nat): (r: Scanned)
    requires q <= |s|
    ensures q <= r.next <= |s|
  {
    var d := Peek(s, q);
    if d == '-' then Scanned(Lexeme(COMMENT, ""), Past(s, RunEnd(s, q + 1, InLine)))
    else if d == '>' then Scanned(Lexeme(ARROW, "->"), q + 1)
    else if d == '.' then
      var q2 := SkipWhite(s, q + 1);
      if IsDigit(Peek(s, q2)) then ScanNumber(s, q2, "-.") else Scanned(Lexeme(SUB, "-"), q2)
    else Scanned(Lexeme(SUB, "-"), q)
  }

  function ScanDot(s: string, p: nat): (r: Scanned)
    requires p < |s|
    ensures p < r.next <= |s|
  {
    if IsDigit(Peek(s, p + 1)) then ScanNumber(s, p + 1, ".") else Scanned(Lexeme(DOT, "."), p + 1)
  }

  function Scan(u: Unquote, s: string, p: nat): (r: Scanned)
    requires p <= |s|
    ensures p <= r.next <= |s|
    ensures p < |s| ==> p < r.next
  {
    var c := Peek(s, p);
    if IsWhite(c) then
      Scanned(Lexeme(WS, s[p + 1..RunEnd(s, p + 1, IsWhite)]), SkipWhite(s, p + 1))
    else if IsLetter(c) then ScanIdent(s, p)
    else if c == '"' || c == '\'' then ScanString(u, s, p, c == '\'')
    else if IsDigit(c) then ScanNumber(s, p, "")
    else if c == '`' then ScanBackquoted(s, p)
    else if c == NUL then Scanned(EndOfInput, Past(s, p))
    else if c == '.' then ScanDot(s, p)
    else
      match Symbol(c)
      case Some(tok) => Scanned(Lexeme(tok, [c]), p + 1)
      case None => ScanPair(s, p)
  }

  /** Everything the scanner yields before the end of the text. */
  function ScanAll(u: Unquote, s: string, p: nat): seq<Lexeme>
    requires p <= |s|
    decreases |s| - p
  {
    if p == |s| then [] else [Scan(u, s, p).lex] + ScanAll(u, s, Scan(u, s, p).next)
  }

  // ----- comments -----

  predicate Closes(s: string, i: nat) {
    i + 1 < |s| && s[i] == '*' && s[i + 1] == '/'
  }

  /** The text up to `q` ends with the first star and slash from `p` on, and has no NUL. */
  ghost predicate FirstClose(s: string, p: nat, q: nat) {
    && p + 2 <= q <= |s| && Closes(s, q - 2)
    && (forall i: nat | p <= i < q - 2 :: !Closes(s, i))
    && (forall i | p <= i < q :: s[i] != NUL)
  }

  /** A block comment ends just after the first star and slash. */
  lemma {:induction false} CommentEndsAtFirst(s: string, p: nat, q: nat)
    requires p <= |s|
    ensures CommentEnd(s, p) == Some(q) <==> FirstClose(s, p, q)
    decreases |s| - p
  {
    if p < |s| && s[p] == '*' {
      StarEndsAtFirst(s, p + 1, q);
    } else if p < |s| && s[p] != NUL {
      CommentEndsAtFirst(s, p + 1, q);
      assert !Closes(s, p);
    }
  }

  lemma {:induction false} StarEndsAtFirst(s: string, p: nat, q: nat)
    requires 0 < p <= |s| && s[p - 1] == '*'
    ensures StarEnd(s, p) == Some(q) <==> FirstClose(s, p - 1, q)
    decreases |s| - p
  {
    if p < |s| && s[p] == '/' {
      assert Closes(s, p - 1);
    } else if p < |s| && s[p] == '*' {
      StarEndsAtFirst(s, p + 1, q);
      assert !Closes(s, p - 1);
    } else if p < |s| && s[p] != NUL {
      CommentEndsAtFirst(s, p + 1, q);
      assert !Closes(s, p - 1) && !Closes(s, p);
    }
  }

  // ----- two oddities -----

  /** An exclamation mark before anything but an equals sign scans as an equals sign. */
  lemma BangScansAsEquals(u: Unquote, s: string, p: nat)
    requires p < |s| && s[p] == '!' && Peek(s, SkipWhite(s, p + 1)) != '='
    ensures Scan(u, s, p).lex == Lexeme(EQ, "=")
  {
    hide SkipWhite;
  }

  /** After a minus, a dot that starts no number is dropped, with the blanks around it. */
  lemma MinusDropsDot(u: Unquote, s: string, p: nat)
    requires p < |s| && s[p] == '-' && Peek(s, SkipWhite(s, p + 1)) == '.'
    requires !IsDigit(Peek(s, SkipWhite(s, SkipWhite(s, p + 1) + 1)))
    ensures Scan(u, s, p) == Scanned(Lexeme(SUB, "-"), SkipWhite(s, SkipWhite(s, p + 1) + 1))
  {
    hide SkipWhite;
  }

  /** At the shortest texts, as the parser sees them. */
  lemma BangText(u: Unquote)
    ensures Significant(ScanAll(u, "!b", 0)) == [Lexeme(EQ, "="), Lexeme(IDENT, "b")]
  {
    assert SkipWhite("!b", 1) == 1;
    BangScansAsEquals(u, "!b", 0);
    assert Scan(u, "!b", 0).next == 1;
    LetterScans(u, "!b", 1);
    TwoLexemes(u, "!b", 1);
  }

  lemma MinusDotText(u: Unquote)
    ensures Significant(ScanAll(u, "-.b", 0)) == [Lexeme(SUB, "-"), Lexeme(IDENT, "b")]
  {
    assert SkipWhite("-.b", 1) == 1 && SkipWhite("-.b", 2) == 2;
    MinusDropsDot(u, "-.b", 0);
    LetterScans(u, "-.b", 2);
    TwoLexemes(u, "-.b", 2);
  }

  lemma TwoLexemes(u: Unquote, s: string, p: nat)
    requires 0 < p < |s| && Scan(u, s, 0).next == p && Scan(u, s, p).next == |s|
    requires !IsBlank(Scan(u, s, 0).lex) && !IsBlank(Scan(u, s, p).lex)
    ensures Significant(ScanAll(u, s, 0)) == [Scan(u, s, 0).lex, Scan(u, s, p).lex]
  {
    hide Scan;
    var x, y := Scan(u, s, 0).lex, Scan(u, s, p).lex;
    assert ScanAll(u, s, p) == [y] + [];
    assert ScanAll(u, s, 0) == [x] + [y];
    assert ([x] + [y])[1..] == [y] && [y][1..] == [];
    assert Significant([y]) == [y] + [];
  }

  lemma LetterScans(u: Unquote, s: string, p: nat)
    requires p + 1 == |s| && s[p] == 'b'
    ensures Scan(u, s, p) == Scanned(Lexeme(IDENT, "b"), |s|)
  {
    assert Upper("b") == "B";
    hide KeywordOf;
    if KeywordOf("B").Some? {
      KeywordExactly("B", KeywordOf("B").value);
      SpellingTells(KeywordOf("B").value);
    }
    assert s[p..p + 1] == "b";
  }
}
