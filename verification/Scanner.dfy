/** The scanner over a reader that can step back once. */
module Scanners {
  import opened Tokens
  import opened TypeGrammar
  import opened KeywordTable
  import opened Lexer

  class Scanner {
    const input: string
    var pos: nat
    var canUnread: bool  // the last step was a successful read

    predicate Valid()
      reads this
    {
      pos <= |input| && (canUnread ==> pos > 0)
    }

    constructor (input: string)
      ensures Valid() && this.input == input && pos == 0
    {
      this.input := input;
      pos, canUnread := 0, false;
    }

    method Read() returns (c: char)
      requires Valid()
      modifies this
      ensures Valid() && c == Peek(input, old(pos)) && pos == Past(input, old(pos)) && canUnread == (old(pos) < |input|)
    {
      if pos == |input| {
        canUnread := false;
        return NUL;
      }
      c := input[pos];
      pos, canUnread := pos + 1, true;
    }

    /** Steps back over the last character, if the last step read one. */
    method Unread()
      requires Valid()
      modifies this
      ensures Valid() && !canUnread && pos == if old(canUnread) then old(pos) - 1 else old(pos)
    {
      if canUnread {
        pos, canUnread := pos - 1, false;
      }
    }

    method ScanWhiteSpace() returns (x: Lexeme)
      requires Valid()
      modifies this
      ensures Valid() && pos == SkipWhite(input, old(pos))
      ensures x == Lexeme(WS, input[old(pos)..RunEnd(input, old(pos), IsWhite)])
    {
      ghost var start, e := pos, RunEnd(input, pos, IsWhite);
      var text := "";
      while true
        invariant Valid() && start <= pos && text == input[start..pos]
        invariant RunEnd(input, pos, IsWhite) == e
        decreases |input| - pos
      {
        ghost var p := pos;
        var c := Read();
        if c == NUL {
          assert p == e;
          return Lexeme(WS, text);
        } else if !IsWhite(c) {
          Unread();
          assert p == e;
          return Lexeme(WS, text);
        }
        text := text + [c];
      }
    }

    method ScanIdent() returns (x: Lexeme)
      requires Valid() && pos < |input|
      modifies this
      ensures Valid() && Scanned(x, pos) == Lexer.ScanIdent(input, old(pos))
    {
      var c := Read();
      var word := [c];
      while true
        invariant Valid() && old(pos) < pos && word == input[old(pos)..pos]
        invariant RunEnd(input, pos, IsWordChar) == RunEnd(input, old(pos) + 1, IsWordChar)
        decreases |input| - pos
      {
        c := Read();
        if c == NUL {
          break;
        } else if !IsLetter(c) && !IsDigit(c) && c != '_' {
          Unread();
          break;
        }
        word := word + [c];
      }
      var lit := Upper(word);
      x := if KeywordOf(lit).Some? then Lexeme(KeywordOf(lit).value, lit) else Lexeme(IDENT, word);
    }

    method ScanNumber(before: string) returns (x: Lexeme)
      requires Valid() && pos < |input|
      modifies this
      ensures Valid() && Scanned(x, pos) == Lexer.ScanNumber(input, old(pos), before)
    {
      var c := Read();
      var text := before + [c];
      var isNum := false;
      while true
        invariant Valid() && old(pos) < pos && text == before + input[old(pos)..pos]
        invariant RunEnd(input, pos, IsNumberChar) == RunEnd(input, old(pos) + 1, IsNumberChar)
        invariant isNum <==> exists i :: old(pos) + 1 <= i < pos && input[i] == '.'
        decreases |input| - pos
      {
        c := Read();
        if IsDigit(c) {
          text := text + [c];
        } else if c == '.' {
          isNum := true;
          text := text + [c];
        } else {
          Unread();
          break;
        }
      }
      x := Lexeme(if isNum || before != "" then NUMBER else INTEGER, text);
    }

    method ScanBackquoteIdent() returns (x: Lexeme)
      requires Valid() && 0 < pos
      modifies this
      ensures Valid() && Scanned(x, pos) == ScanBackquoted(input, old(pos) - 1)
    {
      var text := "";
      while true
        invariant Valid() && old(pos) <= pos && text == input[old(pos)..pos]
        invariant RunEnd(input, pos, InQuotes) == RunEnd(input, old(pos), InQuotes)
        decreases |input| - pos
      {
        var c := Read();
        if c == '`' || c == NUL {
          return Lexeme(IDENT, text);
        }
        text := text + [c];
      }
    }

    method SkipUntilNewline()
      requires Valid()
      modifies this
      ensures Valid() && pos == Past(input, RunEnd(input, old(pos), InLine))
    {
      while true
        invariant Valid() && old(pos) <= pos
        invariant RunEnd(input, pos, InLine) == RunEnd(input, old(pos), InLine)
        decreases |input| - pos
      {
        var c := Read();
        if c == '\n' || c == NUL {
          return;
        }
      }
    }

    method SkipUntilEndComment() returns (ended: bool)
      requires Valid()
      modifies this
      ensures Valid()
      ensures CommentEnd(input, old(pos)) == if ended then Some(pos) else None
      ensures !ended ==> pos == CommentNul(input, old(pos))
    {
      while true
        invariant Valid() && old(pos) <= pos
        invariant CommentEnd(input, pos) == CommentEnd(input, old(pos))
        invariant RunEnd(input, pos, NotNul) == RunEnd(input, old(pos), NotNul)
        decreases |input| - pos
      {
        var c := Read();
        if c == '*' {
          var after := SkipStars();
          if after == '/' {
            return true;
          } else if after == NUL {
            return false;
          }
        } else if c == NUL {
          return false;
        }
      }
    }

    /** After a star: the first character that is not one. */
    method SkipStars() returns (c: char)
      requires Valid()
      modifies this
      ensures Valid() && old(pos) <= pos && c != '*'
      ensures StarEnd(input, old(pos)) == if c == '/' then Some(pos) else if c == NUL then None else CommentEnd(input, pos)
      ensures c == NUL ==> pos == CommentNul(input, old(pos))
      ensures c != NUL ==> old(pos) < pos && RunEnd(input, pos, NotNul) == RunEnd(input, old(pos), NotNul)
    {
      c := Read();
      while c == '*'
        invariant Valid() && old(pos) <= pos
        invariant c == '*' ==> old(pos) < pos && StarEnd(input, pos) == StarEnd(input, old(pos))
        invariant c == '/' ==> StarEnd(input, old(pos)) == Some(pos)
        invariant c == NUL ==> StarEnd(input, old(pos)) == None && pos == CommentNul(input, old(pos))
        invariant c != '*' && c != '/' && c != NUL ==> StarEnd(input, old(pos)) == CommentEnd(input, pos)
        invariant c != NUL ==> old(pos) < pos && RunEnd(input, pos, NotNul) == RunEnd(input, old(pos), NotNul)
        decreases |input| - pos, c == '*'
      {
        c := Read();
      }
    }

    method ScanString(u: Unquote, single: bool) returns (x: Lexeme)
      requires Valid() && 0 < pos
      modifies this
      ensures Valid() && Scanned(x, pos) == Lexer.ScanString(u, input, old(pos) - 1, single)
    {
      var word, closed := ReadQuoted(single);
      if !closed {
        return Lexeme(BADSTRING, word);
      }
      var r := u(word);
      if r.None? {
        return Lexeme(ILLEGAL, "invalid string: " + word);
      }
      return Lexeme(if single then SINGLEQUOTE else STRING, r.value);
    }

    method ReadQuoted(single: bool) returns (word: string, closed: bool)
      requires Valid()
      modifies this
      ensures Valid() && Quoted(word, pos, closed) == StringRun(input, old(pos), single, false, ['"'])
    {
      word := ['"'];
      var escape := false;
      while true
        invariant Valid() && old(pos) <= pos
        invariant StringRun(input, pos, single, escape, word) == StringRun(input, old(pos), single, false, ['"'])
        decreases |input| - pos
      {
        var c := Read();
        if c == '"' && !escape {
          if !single {
            return word + [c], true;
          }
          word := word + ['\\', c];
        } else if c == '\'' && !escape && single {
          return word + ['"'], true;
        } else if c == NUL {
          return word, false;
        } else if c == '\\' && !escape {
          escape := true;
          var next := Read();
          if next == '\'' && single {
            word := word + [next];
          } else {
            word := word + [c];
            Unread();
          }
        } else {
          escape := false;
          word := word + [c];
        }
      }
    }

    /** One lexeme. */
    method Scan(u: Unquote) returns (x: Lexeme)
      requires Valid()
      modifies this
      ensures Valid() && Scanned(x, pos) == Lexer.Scan(u, input, old(pos))
    {
      var c := Read();
      if IsWhite(c) {
        x := ScanWhiteSpace();
      } else if IsLetter(c) {
        Unread();
        x := ScanIdent();
      } else if c == '"' || c == '\'' {
        x := ScanString(u, c == '\'');
      } else if IsDigit(c) {
        Unread();
        x := ScanNumber("");
      } else if c == '`' {
        x := ScanBackquoteIdent();
      } else if c == NUL {
        x := EndOfInput;
      } else if c == '.' {
        var d := Read();
        Unread();
        if IsDigit(d) {
          x := ScanNumber(".");
        } else {
          x := Lexeme(DOT, ".");
        }
      } else if Symbol(c).Some? {
        x := Lexeme(Symbol(c).value, [c]);
      } else if c == '-' {
        x := ScanAfterMinus();
      } else {
        x := ScanAfter(c);
      }
    }

    method ScanAfter(c: char) returns (x: Lexeme)
      requires Valid() && 0 < pos && input[pos - 1] == c && c != '-'
      modifies this
      ensures Valid() && Scanned(x, pos) == ScanPair(input, old(pos) - 1)
    {
      if c != '!' && c != '<' && c != '>' && c != '/' {
        return Lexeme(ILLEGAL, "");
      }
      var _ := ScanWhiteSpace();
      var d := Read();
      if c == '/' && d == '*' {
        var ended := SkipUntilEndComment();
        return Lexeme(if ended then COMMENT else ILLEGAL, "");
      }
      if c != '/' && d == '=' {
        return if c == '!' then Lexeme(NEQ, "!=") else if c == '<' then Lexeme(LTE, "<=") else Lexeme(GTE, ">=");
      }
      Unread();
      return if c == '!' then Lexeme(EQ, "=") else if c == '<' then Lexeme(LT, "<") else if c == '>' then Lexeme(GT, ">") else Lexeme(DIV, "/");
    }

    method ScanAfterMinus() returns (x: Lexeme)
      requires Valid() && 0 < pos && input[pos - 1] == '-'
      modifies this
      ensures Valid() && Scanned(x, pos) == ScanPair(input, old(pos) - 1)
    {
      hide RunEnd, Lexer.ScanNumber;
      var _ := ScanWhiteSpace();
      var d := Read();
      if d == '-' {
        SkipUntilNewline();
        return Lexeme(COMMENT, "");
      } else if d == '>' {
        return Lexeme(ARROW, "->");
      } else if d == '.' {
        var _ := ScanWhiteSpace();
        d := Read();
        Unread();
        if IsDigit(d) {
          x := ScanNumber("-.");
          return;
        }
        Unread();
        return Lexeme(SUB, "-");
      }
      Unread();
      return Lexeme(SUB, "-");
    }
  }
}
