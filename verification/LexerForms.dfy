/** What the scanner does with blanks, comments, fractions and characters that start nothing. */
module LexerForms {
  import opened Tokens
  import opened Lexer

  predicate Blank(c: char) {
    c == ' ' || c == '\t' || c == '\r' || c == '\n'
  }

  /** Blanks are one lexeme, up to the first character that is none; a NUL there goes with them. */
  lemma BlanksScan(u: Unquote, s: string, p: nat, q: nat)
    requires p < q <= |s| && (forall i | p <= i < q :: Blank(s[i])) && (q < |s| ==> !Blank(s[q]))
    ensures Scan(u, s, p).lex.tok.WS?
    ensures Scan(u, s, p).next == if q < |s| && s[q] == NUL then q + 1 else q
  {
    RunStops(s, p + 1, q, IsWhite);
  }

  lemma {:induction false} RunStops(s: string, p: nat, q: nat, ok: char -> bool)
    requires p <= q <= |s| && (forall i | p <= i < q :: ok(s[i])) && (q < |s| ==> !ok(s[q]))
    ensures RunEnd(s, p, ok) == q
    decreases q - p
  {
    if p < q {
      RunStops(s, p + 1, q, ok);
    }
  }

  /** A comment from two minus signs to the end of the line is one lexeme, with the line break. */
  lemma LineCommentScans(u: Unquote, s: string, p: nat, q: nat)
    requires p + 1 < q <= |s| && s[p] == '-' && s[p + 1] == '-'
    requires (forall i | p + 2 <= i < q :: s[i] != '\n' && s[i] != NUL) && (q < |s| ==> s[q] == '\n')
    ensures Scan(u, s, p) == Scanned(Lexeme(COMMENT, ""), if q < |s| then q + 1 else q)
  {
    RunStops(s, p + 1, p + 1, IsWhite);
    RunStops(s, p + 2, q, InLine);
  }

  /** A block comment is one lexeme that ends just after the first star and slash; one that is not
      closed is an error. */
  lemma BlockCommentScans(u: Unquote, s: string, p: nat, body: nat)
    requires p + 1 < |s| && s[p] == '/' && s[p + 1] == '*' && body == p + 2
    ensures forall q: nat | FirstClose(s, body, q) :: Scan(u, s, p) == Scanned(Lexeme(COMMENT, ""), q)
    ensures (forall q: nat :: !FirstClose(s, body, q)) ==> Scan(u, s, p).lex == Lexeme(ILLEGAL, "")
  {
    hide CommentEnd, FirstClose;
    RunStops(s, p + 1, p + 1, IsWhite);
    forall q: nat
      ensures CommentEnd(s, body) == Some(q) <==> FirstClose(s, body, q)
    {
      CommentEndsAtFirst(s, body, q);
    }
    hide IsWhite, ScanIdent, ScanNumber, ScanString, ScanBackquoted, ScanDot, RunEnd;
  }

  /** A minus and a dot before digits are one negative number, blanks in between left out. */
  lemma NegativeFractionScans(u: Unquote, s: string, p: nat, d: nat, q: nat, e: nat)
    requires p < d < q < e <= |s| && s[p] == '-' && s[d] == '.'
    requires (forall i | p < i < d || d < i < q :: Blank(s[i])) && '0' <= s[q] <= '9'
    requires (forall i | q < i < e :: IsNumberChar(s[i])) && (e < |s| ==> !IsNumberChar(s[e]))
    ensures Scan(u, s, p) == Scanned(Lexeme(NUMBER, "-." + s[q..e]), e)
  {
    hide RunEnd;
    RunStops(s, p + 1, d, IsWhite);
    RunStops(s, d + 1, q, IsWhite);
    FractionScans(s, q, e);
    assert SkipWhite(s, p + 1) == d && SkipWhite(s, d + 1) == q;
    hide SkipWhite, ScanIdent, ScanNumber, ScanString, ScanBackquoted, ScanDot, CommentEnd, StringRun;
  }

  lemma FractionScans(s: string, q: nat, e: nat)
    requires q < e <= |s| && (forall i | q < i < e :: IsNumberChar(s[i])) && (e < |s| ==> !IsNumberChar(s[e]))
    ensures Lexer.ScanNumber(s, q, "-.") == Scanned(Lexeme(NUMBER, "-." + s[q..e]), e)
  {
    RunStops(s, q + 1, e, IsNumberChar);
  }

  /** A character that starts nothing is an error by itself: no letter, digit, blank, quote, NUL,
      dot or symbol. */
  lemma StrayCharacter(u: Unquote, s: string, p: nat)
    requires p < |s| && !('a' <= s[p] <= 'z') && !('A' <= s[p] <= 'Z') && !('0' <= s[p] <= '9') && !Blank(s[p])
    requires s[p] !in ['"', '\'', '`', '\0', '.', '=', '!', '<', '>', '+', '-', '*', '/', '%', '&', '|', '^', ',', '(', ')',
                       '[', ']', ':', '#', ';']
    ensures Scan(u, s, p) == Scanned(Lexeme(ILLEGAL, ""), p + 1)
  {
    hide ScanIdent, ScanNumber, ScanString, ScanBackquoted, ScanDot, SkipWhite, CommentEnd;
  }

  /** A letter starts a word: the longest run of letters, digits and underscores. */
  lemma WordScans(u: Unquote, s: string, p: nat, q: nat)
    requires p < q <= |s| && ('a' <= s[p] <= 'z' || 'A' <= s[p] <= 'Z')
    requires forall i | p < i < q :: 'a' <= s[i] <= 'z' || 'A' <= s[i] <= 'Z' || '0' <= s[i] <= '9' || s[i] == '_'
    requires q < |s| ==> !IsWordChar(s[q])
    ensures Scan(u, s, p) == Scanned(WordLexeme(s[p..q]), if q < |s| && s[q] == NUL then q + 1 else q)
  {
    hide WordLexeme;
    RunStops(s, p + 1, q, IsWordChar);
  }

  /** A NUL reads as the end of the text, wherever it stands, and what follows it is read on. */
  lemma NulScans(u: Unquote, s: string, p: nat)
    requires p < |s| && s[p] == NUL
    ensures Scan(u, s, p) == Scanned(EndOfInput, p + 1)
  {
  }

  /** A literal that is not closed, or whose quoting cannot be undone, is no literal. */
  lemma BadLiterals(u: Unquote, s: string, p: nat, single: bool)
    requires p < |s| && s[p] == if single then '\'' else '"'
    ensures var r, x := StringRun(s, p + 1, single, false, ['"']), Scan(u, s, p).lex.tok;
            && (x.STRING? || x.SINGLEQUOTE? <==> r.closed && u(r.word).Some?)
            && (!r.closed <==> x.BADSTRING?)
  {
    hide StringRun;
  }
}
