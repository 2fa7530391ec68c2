/** Reading the types of stream fields from the parser's ring. */
module TypeParser {
  import opened Tokens
  import opened TokenBuffers
  import opened ExprGrammar
  import opened TypeGrammar

  /** A routine ended as the grammar says, with at most one lexeme looked at beyond where it
      stands (`before` is how many had been fetched when it began). */
  ghost predicate Ends<T>(b: TokenBuffer, before: nat, r: Option<T>, s: Result<T>)
    reads b, b.buf
  {
    && b.Valid()
    && (s.Ok? ==> r == Some(s.value) && b.Cursor() == s.next && (b.fetched == before || b.fetched <= b.Cursor() + 1))
    && (s.Err? ==> r.None?)
  }

  method ParseStreamFields(b: TokenBuffer, a: Accepts) returns (r: Option<seq<StreamField>>)
    requires b.Valid()
    modifies b, b.buf
    ensures Ends(b, old(b.fetched), r, ParseFields(a, b.Tape(), old(b.Cursor())))
    decreases Left(b.Tape(), b.Cursor()), 3
  {
    hide TokenBuffer.Valid, Significant, GetDataType, ParseField, IsWith, CloseList;
    ghost var t, start := b.Tape(), b.Cursor();
    var open := b.ScanIgnoreWhitespace();
    if !open.tok.LPAREN? {
      return None;
    }
    hide ParseFieldList;
    ghost var goal := ParseFieldList(a, t, b.Cursor());
    var fields: seq<StreamField> := [];
    PrefixedTwice([], [], goal);
    while true
      invariant b.Valid() && start < b.Cursor() <= |t|
      invariant b.fetched == old(b.fetched) || b.fetched <= b.Cursor() + 1
      invariant goal == Prefixed(fields, ParseFieldList(a, t, b.Cursor()))
      decreases Left(t, b.Cursor())
    {
      var ok, done, f := ParseListTurn(b, a);
      if !ok {
        return None;
      }
      PrefixedTwice(fields, f, if done then Ok([], b.Cursor()) else ParseFieldList(a, t, b.Cursor()));
      fields := fields + f;
      if done {
        assert goal == Ok(fields, b.Cursor());
        return Some(fields);
      }
    }
  }

  /** One turn of the loop: the list ends, or a field was read and it goes on. */
  method ParseListTurn(b: TokenBuffer, a: Accepts) returns (ok: bool, done: bool, f: seq<StreamField>)
    requires b.Valid()
    modifies b, b.buf
    ensures b.Valid()
    ensures ok ==> old(b.Cursor()) < b.Cursor() <= |b.Tape()| && (b.fetched == old(b.fetched) || b.fetched <= b.Cursor() + 1)
    ensures ParseFieldList(a, b.Tape(), old(b.Cursor()))
         == if !ok then Err
            else if done then Ok(f, b.Cursor())
            else Prefixed(f, ParseFieldList(a, b.Tape(), b.Cursor()))
    decreases Left(b.Tape(), b.Cursor()), 2
  {
    hide TokenBuffer.Valid, Significant, GetDataType, ParseField, IsWith, CloseList, Prefixed, ParseFieldList;
    ListStep(a, b.Tape(), b.Cursor());
    ok, done, f := true, false, [];
    var x := b.ScanIgnoreWhitespace();
    if x.tok.RPAREN? {
      ok := EndList(b, f);
      done := true;
      return;
    }
    b.Unscan();
    var field := ParseStreamField(b, a);
    if field.None? {
      ok := false;
      return;
    }
    f := [field.value];
    x := b.ScanIgnoreWhitespace();
    if x.tok.RPAREN? {
      ok := EndList(b, f);
      done := true;
    } else {
      b.Unscan();
    }
  }

  /** After the closing parenthesis: WITH is taken; a comma or another parenthesis is not. */
  method EndList(b: TokenBuffer, f: seq<StreamField>) returns (ok: bool)
    requires b.Valid()
    modifies b, b.buf
    ensures Ends(b, old(b.fetched), if ok then Some(f) else None, CloseList(b.Tape(), f, old(b.Cursor())))
  {
    hide TokenBuffer.Valid, Significant, IsWith;
    var x := b.ScanIgnoreWhitespace();
    if IsWith(x) {
      return true;
    } else if f != [] && (x.tok.COMMA? || x.tok.RPAREN?) {
      b.Unscan();
      return true;
    }
    return false;
  }

  method ParseStreamField(b: TokenBuffer, a: Accepts) returns (r: Option<StreamField>)
    requires b.Valid()
    modifies b, b.buf
    ensures Ends(b, old(b.fetched), r, ParseField(a, b.Tape(), old(b.Cursor())))
    decreases Left(b.Tape(), b.Cursor()), 1
  {
    hide TokenBuffer.Valid, Significant, GetDataType, ParseArray, ParseStruct;
    var name := b.ScanIgnoreWhitespace();
    if !name.tok.IDENT? {
      return None;
    }
    var ftype: FieldType;
    var x := b.ScanIgnoreWhitespace();
    var t := GetDataType(x.lit);
    if IsSimple(t) {
      ftype := Basic(t);
    } else if t.UNKNOWN? {
      return None;
    } else {
      var got := ParseElementType(b, a, t);
      if got.None? {
        return None;
      }
      ftype := got.value;
    }
    var field := StreamField(name.lit, ftype, None);
    r := EndStreamField(b, a, field);
  }

  method ParseElementType(b: TokenBuffer, a: Accepts, t: DataType) returns (r: Option<FieldType>)
    requires b.Valid() && !t.UNKNOWN?
    modifies b, b.buf
    ensures Ends(b, old(b.fetched), r, ParseElement(a, b.Tape(), t, old(b.Cursor())))
    decreases Left(b.Tape(), b.Cursor()), 5
  {
    if t.ARRAY? {
      r := ParseStreamArrayType(b, a);
    } else if t.STRUCT? {
      r := ParseStreamStructType(b, a);
    } else {
      r := Some(NoType);
    }
  }

  /** What follows the type of a field. */
  method EndStreamField(b: TokenBuffer, a: Accepts, f: StreamField) returns (r: Option<StreamField>)
    requires b.Valid()
    modifies b, b.buf
    ensures Ends(b, old(b.fetched), r, ParseFieldEnd(a, b.Tape(), f, old(b.Cursor())))
  {
    hide TokenBuffer.Valid, Significant;
    var x := b.ScanIgnoreWhitespace();
    if x.tok.COMMA? {
      return Some(f);
    } else if x.tok.RPAREN? {
      b.Unscan();
      return Some(f);
    } else if !x.tok.DEFAULT? {
      return None;
    }
    var v := b.ScanIgnoreWhitespace();
    if !IsDefaultLiteral(v.tok) || !a(f.ftype, v.lit) {
      return None;
    }
    r := Some(f.(default := Some(v.lit)));
    var y := b.ScanIgnoreWhitespace();
    if y.tok.RPAREN? {
      b.Unscan();
    } else if !y.tok.COMMA? {
      return None;
    }
  }

  method ParseStreamArrayType(b: TokenBuffer, a: Accepts) returns (r: Option<FieldType>)
    requires b.Valid()
    modifies b, b.buf
    ensures Ends(b, old(b.fetched), r, ParseArray(a, b.Tape(), old(b.Cursor())))
    decreases Left(b.Tape(), b.Cursor()), 4
  {
    hide TokenBuffer.Valid, Significant, GetDataType, ParseElement, ParseArray;
    ArrayOpens(a, b.Tape(), b.Cursor());
    var open := b.ScanIgnoreWhitespace();
    if !open.tok.LPAREN? {
      return Some(NoType);
    }
    r := ParseArrayBody(b, a);
  }

  method ParseArrayBody(b: TokenBuffer, a: Accepts) returns (r: Option<FieldType>)
    requires b.Valid()
    modifies b, b.buf
    ensures Ends(b, old(b.fetched), r, ArrayBody(a, b.Tape(), old(b.Cursor())))
    decreases Left(b.Tape(), b.Cursor()), 6
  {
    hide TokenBuffer.Valid, Significant, GetDataType, ParseElement;
    var x := b.ScanIgnoreWhitespace();
    var t := GetDataType(x.lit);
    if t.UNKNOWN? {
      if !x.tok.COMMA? {
        return None;
      }
      b.Unscan();
      return Some(NoType);
    }
    var elem := ParseElementType(b, a, t);
    if elem.None? {
      return None;
    }
    var close := b.ScanIgnoreWhitespace();
    return if close.tok.RPAREN? then Some(ArrayOf(t, elem.value)) else None;
  }

  method ParseStreamStructType(b: TokenBuffer, a: Accepts) returns (r: Option<FieldType>)
    requires b.Valid()
    modifies b, b.buf
    ensures Ends(b, old(b.fetched), r, ParseStruct(a, b.Tape(), old(b.Cursor())))
    decreases Left(b.Tape(), b.Cursor()), 4
  {
    hide TokenBuffer.Valid, Significant, ParseFields;
    var fields := ParseStreamFields(b, a);
    if fields.None? {
      return None;
    }
    var x := b.ScanIgnoreWhitespace();
    if x.tok.COMMA? || x.tok.RPAREN? {
      b.Unscan();
      return Some(Rec(fields.value));
    }
    return None;
  }
}
