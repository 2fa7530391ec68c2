/** String literals: how they are written between double and single quotes, and what the scanner
    makes of the text. */
module StringTexts {
  import opened Tokens
  import opened Lexer

  predicate All(s: string, ok: char -> bool) {
    forall i | 0 <= i < |s| :: ok(s[i])
  }

  /** A NUL ends the text, and a literal may not contain a line break. */
  predicate InString(c: char) {
    c != NUL && c != '\n'
  }

  function Escape(c: char): string {
    if c == '"' || c == '\\' then ['\\', c] else [c]
  }

  function Escaped(v: string): string {
    if v == "" then "" else Escape(v[0]) + Escaped(v[1..])
  }

  function DoubleQuoted(v: string): string {
    ['"'] + Escaped(v) + ['"']
  }

  /** Between single quotes the single quote is escaped instead of the double one. */
  function SingleEscape(c: char): string {
    if c == '\'' || c == '\\' then ['\\', c] else [c]
  }

  function SingleEscaped(v: string): string {
    if v == "" then "" else SingleEscape(v[0]) + SingleEscaped(v[1..])
  }

  function SingleQuoted(v: string): string {
    ['\''] + SingleEscaped(v) + ['\'']
  }

  predicate HasText(s: string, p: nat, t: string) {
    p + |t| <= |s| && s[p..p + |t|] == t
  }

  lemma AllParts(v: string, ok: char -> bool)
    requires v != "" && All(v, ok)
    ensures ok(v[0]) && All(v[1..], ok)
  {
  }

  lemma TextParts(s: string, p: nat, a: string, b: string)
    requires HasText(s, p, a + b)
    ensures HasText(s, p, a) && HasText(s, p + |a|, b)
  {
    assert a == (a + b)[..|a|] && b == (a + b)[|a|..];
  }

  lemma CharAt(s: string, p: nat, c: char)
    requires HasText(s, p, [c])
    ensures p < |s| && s[p] == c == Peek(s, p)
  {
    assert s[p..p + 1][0] == s[p];
  }

  lemma PairAt(s: string, p: nat, c: char, d: char)
    requires HasText(s, p, [c, d])
    ensures p + 1 < |s| && Peek(s, p) == c && Peek(s, p + 1) == d
  {
    assert s[p..p + 2][0] == s[p] && s[p..p + 2][1] == s[p + 1];
  }

  lemma FirstChar(s: string, p: nat, t: string)
    requires HasText(s, p, t) && t != ""
    ensures p < |s| && Peek(s, p) == t[0]
  {
    assert s[p..p + |t|][0] == s[p];
  }

  lemma DoubleStep(s: string, p: nat, c: char, word: string)
    requires InString(c) && HasText(s, p, Escape(c))
    ensures StringRun(s, p, false, false, word) == StringRun(s, p + |Escape(c)|, false, false, word + Escape(c))
  {
    if |Escape(c)| == 2 {
      PairAt(s, p, '\\', c);
      assert word + ['\\'] + [c] == word + Escape(c);
    } else {
      CharAt(s, p, c);
    }
  }

  lemma DoubleEnd(s: string, p: nat, word: string)
    requires HasText(s, p, Escaped("") + ['"'])
    ensures StringRun(s, p, false, false, word) == Quoted(word + ['"'], p + 1, true)
  {
    assert Escaped("") + ['"'] == ['"'];
    CharAt(s, p, '"');
  }

  /** The double-quoted text of `v` is kept as it is, up to the quote that closes it. */
  lemma {:induction false} DoubleRun(s: string, p: nat, v: string, word: string)
    requires All(v, InString) && HasText(s, p, Escaped(v) + ['"'])
    ensures StringRun(s, p, false, false, word) == Quoted(word + Escaped(v) + ['"'], p + |Escaped(v)| + 1, true)
    decreases v
  {
    hide HasText, All, StringRun, Escape;
    if v == "" {
      DoubleEnd(s, p, word);
      assert Escaped(v) + ['"'] == ['"'];
      assert word + Escaped(v) + ['"'] == word + ['"'];
    } else {
      var e, rest := Escape(v[0]), Escaped(v[1..]) + ['"'];
      assert Escaped(v) + ['"'] == e + rest;
      TextParts(s, p, e, rest);
      AllParts(v, InString);
      DoubleStep(s, p, v[0], word);
      DoubleRun(s, p + |e|, v[1..], word + e);
      assert word + e + Escaped(v[1..]) + ['"'] == word + Escaped(v) + ['"'];
    }
  }

  /** Behind an escaped quote the scanner takes the next character as it is, too: a literal goes
      wrong if that is a quote of either kind or the end, backslashes in between not counted. */
  predicate Settled(v: string, afterQuote: bool) {
    if v == "" then !afterQuote
    else if v[0] == '\'' then !afterQuote && Settled(v[1..], true)
    else if v[0] == '"' then !afterQuote && Settled(v[1..], false)
    else if v[0] == '\\' then Settled(v[1..], afterQuote)
    else Settled(v[1..], false)
  }

  /** What the scanner should make of the rest `v` of a literal from `p` on. */
  function Goal(p: nat, v: string, word: string): Quoted {
    Quoted(word + Escaped(v) + ['"'], p + |SingleEscaped(v)| + 1, true)
  }

  lemma GoalStep(p: nat, v: string, word: string)
    requires v != ""
    ensures Goal(p, v, word) == Goal(p + |SingleEscape(v[0])|, v[1..], word + Escape(v[0]))
  {
    assert word + Escape(v[0]) + Escaped(v[1..]) + ['"'] == word + Escaped(v) + ['"'];
  }

  /** The single-quoted text of `v` becomes its double-quoted text exactly when it is settled. */
  lemma {:induction false} SingleRun(s: string, p: nat, v: string, word: string, escape: bool)
    requires All(v, InString) && HasText(s, p, SingleEscaped(v) + ['\''])
    ensures StringRun(s, p, true, escape, word) == Goal(p, v, word) <==> Settled(v, escape)
    decreases v
  {
    hide StringRun, HasText, All, Goal;
    if v == "" {
      assert SingleEscaped(v) + ['\''] == ['\''];
      CharAt(s, p, '\'');
      SingleEnd(s, p, word, escape);
    } else {
      var e, rest := SingleEscape(v[0]), SingleEscaped(v[1..]) + ['\''];
      assert SingleEscaped(v) + ['\''] == e + rest;
      TextParts(s, p, e, rest);
      GoalStep(p, v, word);
      AllParts(v, InString);
      FirstChar(s, p + |e|, rest);
      if v[0] == '\'' {
        PairAt(s, p, '\\', '\'');
        QuoteStep(s, p, v, word, escape);
        SingleRun(s, p + 2, v[1..], word + Escape(v[0]), true);
      } else if v[0] == '\\' {
        PairAt(s, p, '\\', '\\');
        BackslashStep(s, p, v, word, escape);
        SingleRun(s, p + 2, v[1..], word + Escape(v[0]), escape);
      } else {
        CharAt(s, p, v[0]);
        PlainStep(s, p, v, word, escape);
        SingleRun(s, p + 1, v[1..], word + Escape(v[0]), false);
      }
    }
  }

  /** A quote that is escaped at the end of a single-quoted literal leaves it open. */
  lemma EscapedQuoteAtEnd(u: Unquote)
    ensures Scan(u, ['\'', 'a', '\\', '\'', '\''], 0).lex.tok == BADSTRING
    ensures SingleQuoted(['a', '\'']) == ['\'', 'a', '\\', '\'', '\'']
  {
    assert SingleEscaped(['a', '\'']) == ['a', '\\', '\''] by {
      assert ['a', '\''][1..] == ['\''] && ['\''][1..] == "";
      assert SingleEscaped(['\'']) == ['\\', '\''];
    }
    assert StringRun(['\'', 'a', '\\', '\'', '\''], 5, true, false, ['"', 'a', '\'', '\'']).closed == false;
  }

  /** The closing quote closes unless a quote was escaped just before. */
  lemma SingleEnd(s: string, p: nat, word: string, escape: bool)
    requires p < |s| && s[p] == '\''
    ensures StringRun(s, p, true, escape, word) == Goal(p, "", word) <==> !escape
  {
    assert Goal(p, "", word) == Quoted(word + ['"'], p + 1, true);
    if escape {
      RunKeeps(s, p + 1, true, false, word + ['\'']);
    }
  }

  lemma QuoteStep(s: string, p: nat, v: string, word: string, escape: bool)
    requires v != "" && v[0] == '\'' && p + 1 < |s| && s[p] == '\\' && s[p + 1] == '\''
    ensures if escape then StringRun(s, p, true, escape, word) != Goal(p, v, word)
            else StringRun(s, p, true, escape, word) == StringRun(s, p + 2, true, true, word + Escape(v[0]))
  {
  }

  lemma BackslashStep(s: string, p: nat, v: string, word: string, escape: bool)
    requires v != "" && v[0] == '\\' && p + 2 < |s| && s[p] == '\\' && s[p + 1] == '\\'
    requires s[p + 2] == (SingleEscaped(v[1..]) + ['\''])[0]
    ensures !(escape && v[1..] == "") ==> StringRun(s, p, true, escape, word) == StringRun(s, p + 2, true, escape, word + Escape(v[0]))
    ensures escape && v[1..] == "" ==> StringRun(s, p, true, escape, word) != Goal(p, v, word)
  {
    assert word + ['\\'] + ['\\'] == word + Escape(v[0]);
    if v[1..] == "" {
      if escape {
        RunKeeps(s, p + 3, true, true, word + ['\\'] + ['\'']);
        assert Goal(p, v, word).word[|word| + 1] == '\\' && (word + ['\\'] + ['\''])[|word| + 1] == '\'';
      }
    } else {
      assert s[p + 2] == SingleEscape(v[1])[0] != '\'';
    }
  }

  lemma PlainStep(s: string, p: nat, v: string, word: string, escape: bool)
    requires v != "" && v[0] != '\'' && v[0] != '\\' && p < |s| && s[p] == v[0] && v[0] != NUL
    ensures !(escape && v[0] == '"') ==> StringRun(s, p, true, escape, word) == StringRun(s, p + 1, true, false, word + Escape(v[0]))
    ensures escape && v[0] == '"' ==> StringRun(s, p, true, escape, word) != Goal(p, v, word)
  {
    if v[0] == '"' {
      if escape {
        RunKeeps(s, p + 1, true, false, word + ['"']);
        assert Goal(p, v, word).word[|word|] == '\\' && (word + ['"'])[|word|] == '"';
      }
    }
  }

  /** What has been written stays, and a literal that was closed ends further on. */
  lemma {:induction false} RunKeeps(s: string, p: nat, single: bool, escape: bool, word: string)
    requires p <= |s|
    ensures var r := StringRun(s, p, single, escape, word);
            |word| <= |r.word| && r.word[..|word|] == word && (r.closed ==> p < r.next)
    decreases |s| - p
  {
    var c := Peek(s, p);
    if c == '"' && !escape {
      if single { RunKeeps(s, p + 1, single, false, word + ['\\', c]); }
    } else if c == '\'' && !escape && single {
    } else if c == NUL {
    } else if c == '\\' && !escape {
      if Peek(s, p + 1) == '\'' && single { RunKeeps(s, p + 2, single, true, word + ['\'']); }
      else { RunKeeps(s, p + 1, single, true, word + [c]); }
    } else {
      RunKeeps(s, p + 1, single, false, word + [c]);
    }
  }
}
