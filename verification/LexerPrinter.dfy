/** Writing lexemes as text, with one space between them, and scanning the text back. */
module LexerPrinter {
  import opened Tokens
  import opened TypeGrammar
  import opened KeywordTable
  import opened Lexer
  import opened StringTexts

  predicate IsWord(s: string) {
    s != "" && IsLetter(s[0]) && All(s, IsWordChar)
  }

  predicate IsPlainName(s: string) {
    IsWord(s) && KeywordOf(Upper(s)).None?
  }

  /** A name that is not a plain word stands between back quotes, a string literal between quotes
      of its kind. */
  function Text(x: Lexeme): string {
    if x.tok.IDENT? && !IsPlainName(x.lit) then "`" + x.lit + "`"
    else if x.tok.STRING? then DoubleQuoted(x.lit)
    else if x.tok.SINGLEQUOTE? then SingleQuoted(x.lit)
    else x.lit
  }

  predicate IsInteger(s: string) {
    s != "" && All(s, IsDigit)
  }

  predicate IsNumber(s: string) {
    |s| > 1 && (IsDigit(s[0]) || (s[0] == '.' && IsDigit(s[1]))) && All(s, IsNumberChar) && exists i :: 0 <= i < |s| && s[i] == '.'
  }

  /** A keyword or a symbol, as it is spelled. */
  predicate IsMark(x: Lexeme) {
    x == Mark(x.tok) && x.lit != ""
  }

  predicate IsLiteral(x: Lexeme) {
    || (x.tok.INTEGER? && IsInteger(x.lit))
    || (x.tok.NUMBER? && IsNumber(x.lit))
    || (x.tok.STRING? && All(x.lit, InString))
    || (x.tok.SINGLEQUOTE? && All(x.lit, InString) && Settled(x.lit, false))
  }

  /** The lexemes that have a text: names without back quotes and NUL in them, keywords, symbols,
      unsigned numbers and string literals. */
  predicate Printable(x: Lexeme) {
    (x.tok.IDENT? && All(x.lit, InQuotes)) || IsLiteral(x) || IsMark(x)
  }

  /** Undoing the quoting of a literal gives back what was quoted. */
  ghost predicate Unquotes(u: Unquote) {
    forall v :: All(v, InString) ==> u(DoubleQuoted(v)) == Some(v)
  }

  function Print(xs: seq<Lexeme>): string {
    if xs == [] then "" else if |xs| == 1 then Text(xs[0]) else Text(xs[0]) + " " + Print(xs[1..])
  }

  /** The scanner takes `y` for a part of `x`, or drops it, though a blank stands between. */
  predicate Merges(x: Lexeme, y: Lexeme) {
    Text(y) != "" && MergesWith(x, Text(y)[0])
  }

  predicate MergesWith(x: Lexeme, c: char) {
    || ((x.tok.LT? || x.tok.GT?) && c == '=')
    || (x.tok.SUB? && (c == '-' || c == '>' || c == '.'))
    || (x.tok.DIV? && c == '*')
  }

  predicate Apart(xs: seq<Lexeme>) {
    forall i | 0 < i < |xs| :: !Merges(xs[i - 1], xs[i])
  }

  lemma RunIs(s: string, p: nat, q: nat, ok: char -> bool)
    requires p <= q <= |s| && (forall i | p <= i < q :: ok(s[i])) && (q < |s| ==> !ok(s[q]))
    ensures RunEnd(s, p, ok) == q
  {
  }

  // ----- what is spelled is what is scanned -----

  /** Symbols of two characters, or that look for a second one. */
  predicate LooksAhead(tok: Token) {
    tok.NEQ? || tok.LT? || tok.LTE? || tok.GT? || tok.GTE? || tok.SUB? || tok.ARROW? || tok.DIV? || tok.DOT?
  }

  lemma SymbolIsSpelled(t: Token)
    requires Spelling(t) != "" && KeywordSpelling(t) == "" && !LooksAhead(t)
    ensures |Spelling(t)| == 1 && Symbol(Spelling(t)[0]) == Some(t)
  {
    hide KeywordSpelling;
  }

  predicate IsCapital(c: char) {
    'A' <= c <= 'Z'
  }

  lemma KeywordIsCapital(t: Token)
    ensures forall i | 0 <= i < |KeywordSpelling(t)| :: IsCapital(KeywordSpelling(t)[i])
  {
    ShortIsCapital(t);
    LongIsCapital(t);
    hide KeywordSpelling;
  }

  lemma ShortIsCapital(t: Token)
    ensures forall i | 0 <= i < |KeywordSpelling(t)| && i < 3 :: IsCapital(KeywordSpelling(t)[i])
  {
  }

  lemma LongIsCapital(t: Token)
    ensures forall i | 3 <= i < |KeywordSpelling(t)| :: IsCapital(KeywordSpelling(t)[i])
  {
  }

  lemma CapitalWord(s: string)
    requires s != "" && forall i | 0 <= i < |s| :: IsCapital(s[i])
    ensures IsWord(s) && Upper(s) == s
  {
  }

  lemma KeywordReads(t: Token)
    requires KeywordSpelling(t) != ""
    ensures IsWord(KeywordSpelling(t)) && WordLexeme(KeywordSpelling(t)) == Lexeme(t, KeywordSpelling(t))
  {
    KeywordIsCapital(t);
    CapitalWord(KeywordSpelling(t));
    KeywordExactly(KeywordSpelling(t), t);
    hide KeywordSpelling, KeywordOf, Upper;
  }

  /** A word in whatever case is a keyword exactly when its capitals spell one, and a name
      otherwise. */
  lemma WordExactly(word: string, t: Token)
    ensures KeywordSpelling(t) != "" ==> (WordLexeme(word) == Lexeme(t, Upper(word)) <==> KeywordSpelling(t) == Upper(word))
    ensures (forall k :: KeywordSpelling(k) == "" || KeywordSpelling(k) != Upper(word)) ==> WordLexeme(word) == Lexeme(IDENT, word)
  {
    KeywordExactly(Upper(word), t);
    if KeywordOf(Upper(word)).Some? {
      KeywordExactly(Upper(word), KeywordOf(Upper(word)).value);
    }
    IdentIsNoKeyword();
    hide KeywordOf, Upper, KeywordSpelling;
  }

  lemma IdentIsNoKeyword()
    ensures KeywordSpelling(IDENT) == ""
  {
  }

  /** Some tokens come only from the parser. */
  predicate FromParser(t: Token) {
    t.MUL? || t.SUBSET? || t.NOTIN? || t.NOTBETWEEN? || t.NOTLIKE?
  }

  lemma NeverScanned(u: Unquote, s: string, p: nat)
    requires p <= |s|
    ensures !FromParser(Scan(u, s, p).lex.tok)
  {
    if p < |s| && IsLetter(s[p]) {
      var word := Upper(s[p..RunEnd(s, p + 1, IsWordChar)]);
      if KeywordOf(word).Some? {
        KeywordExactly(word, KeywordOf(word).value);
        SpellingOfParsers(KeywordOf(word).value);
      }
    }
    hide KeywordOf, Upper, KeywordSpelling, StringRun, RunEnd;
  }

  lemma SpellingOfParsers(t: Token)
    ensures FromParser(t) ==> KeywordSpelling(t) == ""
  {
  }

  lemma KeywordHasNoSymbol(t: Token)
    requires KeywordSpelling(t) != ""
    ensures Spelling(t) == KeywordSpelling(t) && !LooksAhead(t) && !IsBlank(Mark(t)) && !IsOperand(t)
  {
  }

  predicate IsOperand(t: Token) {
    t.IDENT? || t.INTEGER? || t.NUMBER? || t.STRING? || t.SINGLEQUOTE?
  }

  lemma MarkStarts(x: Lexeme)
    requires IsMark(x)
    ensures !IsWhite(x.lit[0]) && x.lit[0] != NUL && !IsBlank(x) && !IsOperand(x.tok) && Text(x) == x.lit
  {
    if KeywordSpelling(x.tok) != "" {
      KeywordReads(x.tok);
      KeywordHasNoSymbol(x.tok);
      hide KeywordSpelling;
    } else {
      hide KeywordSpelling;
    }
  }

  lemma TextStarts(x: Lexeme)
    requires Printable(x)
    ensures Text(x) != "" && !IsWhite(Text(x)[0]) && Text(x)[0] != NUL
  {
    if IsMark(x) {
      MarkStarts(x);
    }
    hide Spelling, Upper;
  }

  /** A lexeme's text at `p`, then the end or one space and a character that does not merge. */
  predicate Stands(s: string, p: nat, x: Lexeme) {
    var e := p + |Text(x)|;
    && e <= |s| && s[p..e] == Text(x)
    && (e < |s| ==> s[e] == ' ' && e + 1 < |s| && !IsWhite(s[e + 1]) && s[e + 1] != NUL)
  }

  /** Where the text of the next lexeme starts, or the end. */
  function After(s: string, p: nat, x: Lexeme): nat {
    var e := p + |Text(x)|;
    if e < |s| then e + 1 else e
  }

  lemma SpaceSkipped(s: string, p: nat, x: Lexeme)
    requires Stands(s, p, x)
    ensures SkipWhite(s, p + |Text(x)|) == After(s, p, x)
  {
    RunIs(s, p + |Text(x)|, After(s, p, x), IsWhite);
  }

  /** The scanner reads the lexeme and stops after it or after the space. */
  lemma {:induction false} ScansBack(u: Unquote, s: string, p: nat, x: Lexeme)
    requires Printable(x) && Stands(s, p, x) && Unquotes(u)
    requires After(s, p, x) < |s| ==> !MergesWith(x, s[After(s, p, x)])
    ensures Scan(u, s, p).lex == x
    ensures Scan(u, s, p).next == p + |Text(x)| || Scan(u, s, p).next == After(s, p, x)
  {
    hide KeywordOf, Upper, Spelling, Scan;
    if IsMark(x) {
      MarkStarts(x);
      MarkScans(u, s, p, x);
    } else if x.tok.IDENT? && !IsPlainName(x.lit) {
      QuotedScans(u, s, p, x);
    } else if x.tok.IDENT? {
      WordScans(u, s, p, x);
    } else if x.tok.INTEGER? || x.tok.NUMBER? {
      NumberScans(u, s, p, x);
    } else {
      StringScans(u, s, p, x);
    }
  }

  lemma MarkScans(u: Unquote, s: string, p: nat, x: Lexeme)
    requires IsMark(x) && Stands(s, p, x) && Text(x) == x.lit
    requires After(s, p, x) < |s| ==> !MergesWith(x, s[After(s, p, x)])
    ensures Scan(u, s, p).lex == x
    ensures Scan(u, s, p).next == p + |Text(x)| || Scan(u, s, p).next == After(s, p, x)
  {
    hide KeywordSpelling, KeywordOf, Upper;
    if KeywordSpelling(x.tok) != "" {
      KeywordReads(x.tok);
      KeywordHasNoSymbol(x.tok);
      WordScans(u, s, p, x);
    } else if LooksAhead(x.tok) {
      PairScans(u, s, p, x);
    } else {
      SymbolIsSpelled(x.tok);
      SymbolScans(u, s, p, x);
    }
  }

  lemma SymbolScans(u: Unquote, s: string, p: nat, x: Lexeme)
    requires |x.lit| == 1 && Symbol(x.lit[0]) == Some(x.tok) && Stands(s, p, x) && Text(x) == x.lit
    ensures Scan(u, s, p) == Scanned(x, p + |Text(x)|)
  {
    assert s[p] == s[p..p + 1][0] == x.lit[0] && [s[p]] == x.lit;
    hide ScanPair, ScanIdent, ScanNumber, ScanString, ScanBackquoted, ScanDot;
  }

  lemma StringScans(u: Unquote, s: string, p: nat, x: Lexeme)
    requires IsLiteral(x) && (x.tok.STRING? || x.tok.SINGLEQUOTE?) && Stands(s, p, x) && Unquotes(u)
    ensures Scan(u, s, p) == Scanned(x, p + |Text(x)|)
  {
    var v := x.lit;
    var mark := if x.tok.STRING? then '"' else '\'';
    var body := if x.tok.STRING? then Escaped(v) else SingleEscaped(v);
    assert Text(x) == [mark] + (body + [mark]) && HasText(s, p, Text(x));
    TextParts(s, p, [mark], body + [mark]);
    CharAt(s, p, mark);
    if x.tok.STRING? {
      DoubleRun(s, p + 1, v, ['"']);
    } else {
      SingleRun(s, p + 1, v, ['"'], false);
    }
    assert u(DoubleQuoted(v)) == Some(v);
    hide StringRun, Escaped, SingleEscaped, Settled, ScanPair, ScanIdent, ScanNumber, ScanBackquoted, ScanDot, Text;
  }

  lemma QuotedScans(u: Unquote, s: string, p: nat, x: Lexeme)
    requires x.tok.IDENT? && !IsPlainName(x.lit) && All(x.lit, InQuotes) && Stands(s, p, x)
    ensures Scan(u, s, p) == Scanned(x, p + |Text(x)|)
  {
    var e := p + |Text(x)| - 1;
    assert forall i | 0 <= i < |Text(x)| :: s[p + i] == Text(x)[i];
    assert |Text(x)| == |x.lit| + 2 && forall i | 0 <= i < |x.lit| :: Text(x)[i + 1] == x.lit[i];
    assert s[p + 1..e] == x.lit;
    RunIs(s, p + 1, e, InQuotes);
  }

  lemma WordScans(u: Unquote, s: string, p: nat, x: Lexeme)
    requires IsWord(x.lit) && p + |x.lit| <= |s| && s[p..p + |x.lit|] == x.lit
    requires p + |x.lit| < |s| ==> s[p + |x.lit|] == ' '
    ensures WordLexeme(x.lit) == x ==> Scan(u, s, p) == Scanned(x, p + |x.lit|)
  {
    hide Upper, WordLexeme;
    var e := p + |x.lit|;
    assert forall i | 0 <= i < |x.lit| :: s[p + i] == x.lit[i];
    RunIs(s, p + 1, e, IsWordChar);
  }

  lemma RunOfText(s: string, p: nat, t: string, ok: char -> bool)
    requires t != "" && p + |t| <= |s| && s[p..p + |t|] == t && All(t, ok)
    requires p + |t| < |s| ==> !ok(s[p + |t|])
    ensures s[p] == t[0] && RunEnd(s, p + 1, ok) == p + |t|
  {
    forall i | p <= i < p + |t| ensures ok(s[i]) {
      assert s[p..p + |t|][i - p] == t[i - p];
    }
    RunIs(s, p + 1, p + |t|, ok);
  }

  lemma StandsAt(s: string, p: nat, x: Lexeme)
    requires Stands(s, p, x) && !x.tok.IDENT? && !x.tok.STRING? && !x.tok.SINGLEQUOTE?
    ensures Text(x) == x.lit && p + |x.lit| <= |s| && s[p..p + |x.lit|] == x.lit
    ensures p + |x.lit| < |s| ==> s[p + |x.lit|] == ' '
    ensures x.lit != "" ==> s[p] == x.lit[0]
    ensures |x.lit| > 1 ==> s[p + 1] == x.lit[1]
  {
  }

  lemma NumberScans(u: Unquote, s: string, p: nat, x: Lexeme)
    requires (x.tok.INTEGER? && IsInteger(x.lit)) || (x.tok.NUMBER? && IsNumber(x.lit))
    requires Stands(s, p, x)
    ensures Scan(u, s, p) == Scanned(x, p + |Text(x)|)
  {
    StandsAt(s, p, x);
    hide Symbol, ScanPair, ScanIdent, ScanString, ScanBackquoted, SkipWhite, Text, ScanNumber, ScanDot, Stands;
    if s[p] == '.' {
      DotScans(s, p, x);
    } else {
      DigitsScan(s, p, x);
    }
  }

  lemma DotScans(s: string, p: nat, x: Lexeme)
    requires x.tok.NUMBER? && IsNumber(x.lit) && x.lit[0] == '.'
    requires p + |x.lit| <= |s| && s[p..p + |x.lit|] == x.lit && (p + |x.lit| < |s| ==> s[p + |x.lit|] == ' ')
    ensures ScanDot(s, p) == Scanned(x, p + |x.lit|)
  {
    hide RunEnd;
    assert s[p + 1..p + |x.lit|] == x.lit[1..];
    RunOfText(s, p + 1, x.lit[1..], IsNumberChar);
    assert "." + x.lit[1..] == x.lit;
  }

  lemma DigitsScan(s: string, p: nat, x: Lexeme)
    requires (x.tok.INTEGER? && IsInteger(x.lit)) || (x.tok.NUMBER? && IsNumber(x.lit) && x.lit[0] != '.')
    requires p + |x.lit| <= |s| && s[p..p + |x.lit|] == x.lit && (p + |x.lit| < |s| ==> s[p + |x.lit|] == ' ')
    ensures ScanNumber(s, p, "") == Scanned(x, p + |x.lit|)
  {
    hide RunEnd;
    RunOfText(s, p, x.lit, IsNumberChar);
    DotInside(s, p, x.lit);
    assert x.tok.NUMBER? <==> exists i :: 0 <= i < |x.lit| && x.lit[i] == '.';
    hide IsInteger, IsNumber;
    assert "" + s[p..p + |x.lit|] == x.lit;
  }

  lemma DotInside(s: string, p: nat, t: string)
    requires t != "" && t[0] != '.' && p + |t| <= |s| && s[p..p + |t|] == t
    ensures (exists i :: p + 1 <= i < p + |t| && s[i] == '.') <==> (exists i :: 0 <= i < |t| && t[i] == '.')
  {
    forall i | 0 <= i < |t| ensures s[p + i] == t[i] {
      assert s[p..p + |t|][i] == t[i];
    }
    if i :| 0 <= i < |t| && t[i] == '.' {
      assert s[p + i] == '.';
    }
    if i :| p + 1 <= i < p + |t| && s[i] == '.' {
      assert t[i - p] == s[p + (i - p)];
    }
  }

  lemma PairScans(u: Unquote, s: string, p: nat, x: Lexeme)
    requires LooksAhead(x.tok) && x.lit == Spelling(x.tok) && Stands(s, p, x)
    requires After(s, p, x) < |s| ==> !MergesWith(x, s[After(s, p, x)])
    ensures Scan(u, s, p).lex == x
    ensures Scan(u, s, p).next == p + |Text(x)| || Scan(u, s, p).next == After(s, p, x)
  {
    hide KeywordSpelling, ScanIdent, ScanNumber, ScanString, ScanBackquoted, CommentEnd, CommentNul, Text;
    StandsAt(s, p, x);
    SpaceSkipped(s, p, x);
    if |x.lit| == 2 {
      RunIs(s, p + 1, p + 1, IsWhite);
    }
    hide RunEnd, Stands;
  }

  ghost predicate AllPrintable(xs: seq<Lexeme>) {
    forall x | x in xs :: Printable(x)
  }

  lemma NotBlank(x: Lexeme)
    requires Printable(x)
    ensures !IsBlank(x)
  {
    if IsMark(x) {
      MarkStarts(x);
    }
    hide Spelling;
  }

  /** Text of lexemes that stand apart scans back to them, wherever it starts. */
  lemma {:induction false} TextScansBack(u: Unquote, s: string, p: nat, xs: seq<Lexeme>)
    requires p <= |s| && s[p..] == Print(xs) && AllPrintable(xs) && Apart(xs) && Unquotes(u)
    ensures Significant(ScanAll(u, s, p)) == xs
    decreases |xs|
  {
    hide AllPrintable, Printable, MergesWith, Text, Scan, ScanAll, Significant, Stands, After, Merges, Apart, IsBlank,
         Unquotes;
    if xs == [] {
      assert p == |s|;
      ScanEnd(u, s);
    } else {
      hide Print;
      var x := xs[0];
      HeadStands(s, p, xs);
      HeadAndTail(xs);
      if |xs| > 1 {
        TextScansBack(u, s, p + |Text(x)| + 1, xs[1..]);
      }
      ScanEnd(u, s);
      FirstThenRest(u, s, p, x);
      assert xs == [x] + xs[1..];
    }
  }

  /** A lexeme that stands at `p` is scanned, and then whatever stands after it. */
  lemma FirstThenRest(u: Unquote, s: string, p: nat, x: Lexeme)
    requires Printable(x) && !IsBlank(x) && Text(x) != "" && Stands(s, p, x) && Unquotes(u)
    requires After(s, p, x) < |s| ==> !MergesWith(x, s[After(s, p, x)])
    ensures Significant(ScanAll(u, s, p)) == [x] + Significant(ScanAll(u, s, After(s, p, x)))
  {
    hide Printable, MergesWith, Text, Scan, ScanAll, Significant, IsBlank, Unquotes;
    ScansBack(u, s, p, x);
    ScanStep(u, s, p);
    if Scan(u, s, p).next < After(s, p, x) {
      SpaceScans(u, s, p, x);
    }
  }

  lemma ScanEnd(u: Unquote, s: string)
    ensures Significant(ScanAll(u, s, |s|)) == []
  {
  }

  /** The next lexeme, if it is neither blank nor comment, comes before the rest. */
  lemma ScanStep(u: Unquote, s: string, p: nat)
    requires p < |s|
    ensures var r := Scan(u, s, p);
            Significant(ScanAll(u, s, p)) == (if IsBlank(r.lex) then [] else [r.lex]) + Significant(ScanAll(u, s, r.next))
  {
    hide Scan;
    assert ScanAll(u, s, p)[1..] == ScanAll(u, s, Scan(u, s, p).next);
  }

  lemma SpaceScans(u: Unquote, s: string, p: nat, x: Lexeme)
    requires Stands(s, p, x) && p + |Text(x)| < |s|
    ensures Significant(ScanAll(u, s, p + |Text(x)|)) == Significant(ScanAll(u, s, p + |Text(x)| + 1))
  {
    var e := p + |Text(x)|;
    RunIs(s, e + 1, e + 1, IsWhite);
    assert Scan(u, s, e).lex.tok.WS? && Scan(u, s, e).next == e + 1;
    hide Scan;
    assert ScanAll(u, s, e)[1..] == ScanAll(u, s, e + 1);
  }

  lemma HeadAndTail(xs: seq<Lexeme>)
    requires xs != [] && AllPrintable(xs) && Apart(xs)
    ensures Printable(xs[0]) && !IsBlank(xs[0]) && Text(xs[0]) != ""
    ensures AllPrintable(xs[1..]) && Apart(xs[1..])
  {
    NotBlank(xs[0]);
    TextStarts(xs[0]);
    hide Printable, Merges, Text, IsBlank;
    forall i | 0 < i < |xs[1..]| ensures !Merges(xs[1..][i - 1], xs[1..][i]) {
      assert !Merges(xs[i + 1 - 1], xs[i + 1]);
    }
  }

  lemma HeadStands(s: string, p: nat, xs: seq<Lexeme>)
    requires p <= |s| && xs != [] && s[p..] == Print(xs) && AllPrintable(xs) && Apart(xs)
    ensures Stands(s, p, xs[0])
    ensures After(s, p, xs[0]) < |s| ==> !MergesWith(xs[0], s[After(s, p, xs[0])])
    ensures |xs| == 1 ==> p + |Text(xs[0])| == After(s, p, xs[0]) == |s|
    ensures |xs| > 1 ==> After(s, p, xs[0]) == p + |Text(xs[0])| + 1 < |s| && s[p + |Text(xs[0])| + 1..] == Print(xs[1..])
  {
    hide Printable, Text, MergesWith;
    var t := Text(xs[0]);
    var e := p + |t|;
    TextStarts(xs[0]);
    if |xs| == 1 {
      assert s[p..e] == s[p..];
    } else {
      assert s[p..] == t + ([' '] + Print(xs[1..]));
      assert s[p..e] == s[p..][..|t|] && s[e..] == s[p..][|t|..] && s[e + 1..] == s[p..][|t| + 1..];
      TextStarts(xs[1]);
      assert !Merges(xs[0], xs[1]);
      assert s[e + 1..][0] == Print(xs[1..])[0] == Text(xs[1])[0];
    }
  }

  /** Scanning undoes printing for every list in which no two neighbours merge. */
  lemma {:induction false} PrintThenScan(u: Unquote, xs: seq<Lexeme>)
    requires AllPrintable(xs) && Apart(xs) && Unquotes(u)
    ensures Significant(ScanAll(u, Print(xs), 0)) == xs
  {
    assert Print(xs)[0..] == Print(xs);
    TextScansBack(u, Print(xs), 0, xs);
  }

  /** For two lexemes it does so exactly when they do not merge. */
  lemma {:induction false} PairExactly(u: Unquote, x: Lexeme, y: Lexeme)
    requires Printable(x) && Printable(y) && Unquotes(u)
    ensures Significant(ScanAll(u, Print([x, y]), 0)) == [x, y] <==> !Merges(x, y)
  {
    if !Merges(x, y) {
      PrintThenScan(u, [x, y]);
    } else {
      PairMerges(u, x, y);
    }
  }

  lemma {:induction false} PairMerges(u: Unquote, x: Lexeme, y: Lexeme)
    requires Printable(x) && Printable(y) && Merges(x, y)
    ensures Significant(ScanAll(u, Print([x, y]), 0)) != [x, y]
  {
    var s := Print([x, y]);
    assert [x, y][1..] == [y];
    assert Print([y]) == Text(y) && s == Text(x) + " " + Text(y);
    MergedScan(u, s, x, y);
    ScanStep(u, s, 0);
    ScanEnd(u, s);
    hide Scan, Printable, Merges, Text, ScanAll, Significant;
    var r := Scan(u, s, 0);
    var rest := Significant(ScanAll(u, s, r.next));
    if r.next == |s| {
      assert |Significant(ScanAll(u, s, 0))| <= 1;
    } else {
      assert Significant(ScanAll(u, s, 0))[0] == r.lex;
    }
  }

  /** The first lexeme scanned is another one, or the dot is dropped, or the rest is a comment. */
  lemma MergedScan(u: Unquote, s: string, x: Lexeme, y: Lexeme)
    requires Printable(x) && Printable(y) && Merges(x, y) && s == Text(x) + " " + Text(y)
    ensures var r := Scan(u, s, 0); r.next == |s| || (r.lex != x && !IsBlank(r.lex))
  {
    MergingTexts(x, y);
    hide Printable, Text;
    assert |s| == 2 + |Text(y)| && s[0] == Text(x)[0] && s[1] == ' ' && s[2] == Text(y)[0];
    assert |Text(y)| > 1 ==> s[3] == Text(y)[1];
    PairFirst(u, s);
    RunIs(s, 1, 2, IsWhite);
    if x.tok.SUB? {
      MinusMerges(s, x);
    } else if x.tok.DIV? {
      assert |s| == 3 && CommentEnd(s, 3) == None;
    }
  }

  lemma MinusMerges(s: string, x: Lexeme)
    requires x.tok.SUB? && |s| > 2 && (s[2] == '-' || s[2] == '>' || s[2] == '.')
    requires s[2] == '-' ==> |s| == 3 || (|s| == 4 && s[3] == '>')
    requires s[2] == '.' ==> |s| == 3 || IsDigit(s[3])
    ensures var r := ScanMinus(s, 2); r.next == |s| || (r.lex != x && !IsBlank(r.lex))
  {
    if s[2] == '-' {
      RunIs(s, 3, |s|, InLine);
    } else if s[2] == '.' {
      RunIs(s, 3, 3, IsWhite);
    }
  }

  lemma PairFirst(u: Unquote, s: string)
    requires s != "" && (s[0] == '<' || s[0] == '>' || s[0] == '-' || s[0] == '/')
    ensures Scan(u, s, 0) == ScanPair(s, 0)
  {
    hide ScanPair, SkipWhite, ScanIdent, ScanNumber, ScanString, ScanBackquoted, ScanDot, RunEnd;
  }

  lemma MergingMark(x: Lexeme)
    requires Printable(x) && (x.tok.LT? || x.tok.GT? || x.tok.SUB? || x.tok.DIV?)
    ensures Text(x) == if x.tok.LT? then "<" else if x.tok.GT? then ">" else if x.tok.SUB? then "-" else "/"
  {
  }

  lemma MergedTo(y: Lexeme)
    requires Printable(y)
    ensures Text(y)[0] == '-' ==> Text(y) == "-" || Text(y) == "->"
    ensures Text(y)[0] == '.' ==> Text(y) == "." || (|Text(y)| > 1 && IsDigit(Text(y)[1]))
    ensures Text(y)[0] == '*' ==> Text(y) == "*"
  {
    if IsMark(y) {
      MarkStarts(y);
      if KeywordSpelling(y.tok) != "" {
        KeywordIsCapital(y.tok);
        KeywordHasNoSymbol(y.tok);
      } else {
        hide KeywordSpelling;
      }
    }
    hide Upper;
  }

  /** The texts of two lexemes that merge. */
  lemma MergingTexts(x: Lexeme, y: Lexeme)
    requires Printable(x) && Printable(y) && Merges(x, y)
    ensures Text(x) == if x.tok.LT? then "<" else if x.tok.GT? then ">" else if x.tok.SUB? then "-" else "/"
    ensures x.tok.LT? || x.tok.GT? || x.tok.SUB? || x.tok.DIV?
    ensures Text(y)[0] == '-' ==> Text(y) == "-" || Text(y) == "->"
    ensures Text(y)[0] == '.' ==> Text(y) == "." || (|Text(y)| > 1 && IsDigit(Text(y)[1]))
    ensures Text(y)[0] == '*' ==> Text(y) == "*"
  {
    MergingMark(x);
    MergedTo(y);
    hide Spelling, Upper;
  }
}
