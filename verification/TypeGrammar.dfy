/** The types of stream fields: how they are written and how they are read. */
module TypeGrammar {
  import opened Tokens
  import opened ExprGrammar

  datatype DataType = UNKNOWN | BIGINT | FLOAT | STRINGS | BYTEA | DATETIME | BOOLEAN | ARRAY | STRUCT

  /** `NoType` is what an array without its parentheses gets. */
  datatype FieldType =
    | NoType
    | Basic(t: DataType)
    | ArrayOf(t: DataType, elem: FieldType)
    | Rec(fields: seq<StreamField>)

  datatype StreamField = StreamField(name: string, ftype: FieldType, default: Option<string>)

  predicate IsSimple(t: DataType) {
    t.BIGINT? || t.FLOAT? || t.STRINGS? || t.BYTEA? || t.DATETIME? || t.BOOLEAN?
  }

  function Upper(s: string): string {
    seq(|s|, i requires 0 <= i < |s| => if 'a' <= s[i] <= 'z' then s[i] - 'a' + 'A' else s[i])
  }

  function GetDataType(lit: string): DataType {
    var u := Upper(lit);
    if u == "BIGINT" then BIGINT
    else if u == "FLOAT" then FLOAT
    else if u == "STRING" then STRINGS
    else if u == "BYTEA" then BYTEA
    else if u == "DATETIME" then DATETIME
    else if u == "BOOLEAN" then BOOLEAN
    else if u == "ARRAY" then ARRAY
    else if u == "STRUCT" then STRUCT
    else UNKNOWN
  }

  function NameOf(t: DataType): string {
    match t
    case UNKNOWN => "unknown"
    case BIGINT => "bigint"
    case FLOAT => "float"
    case STRINGS => "string"
    case BYTEA => "bytea"
    case DATETIME => "datetime"
    case BOOLEAN => "boolean"
    case ARRAY => "array"
    case STRUCT => "struct"
  }

  lemma NamesReadBack(t: DataType)
    ensures GetDataType(NameOf(t)) == t
  {
    assert Upper("bigint") == "BIGINT" && Upper("float") == "FLOAT" && Upper("string") == "STRING";
    assert Upper("bytea") == "BYTEA" && Upper("datetime") == "DATETIME" && Upper("boolean") == "BOOLEAN";
    assert Upper("array") == "ARRAY" && Upper("struct") == "STRUCT" && Upper("unknown") == "UNKNOWN";
  }

  /** The names of the types, whether a simple type or not, in small and in capital letters. */
  lemma TypeNames()
    ensures GetDataType("bigint").BIGINT? && GetDataType("float").FLOAT? && GetDataType("string").STRINGS?
    ensures GetDataType("bytea").BYTEA? && GetDataType("datetime").DATETIME? && GetDataType("boolean").BOOLEAN?
    ensures GetDataType("array").ARRAY? && GetDataType("struct").STRUCT?
    ensures forall lit :: Upper(Upper(lit)) == Upper(lit) && GetDataType(Upper(lit)) == GetDataType(lit)
  {
    NamesReadBack(BIGINT); NamesReadBack(FLOAT); NamesReadBack(STRINGS); NamesReadBack(BYTEA);
    NamesReadBack(DATETIME); NamesReadBack(BOOLEAN); NamesReadBack(ARRAY); NamesReadBack(STRUCT);
    hide GetDataType;
    forall lit
      ensures Upper(Upper(lit)) == Upper(lit) && GetDataType(Upper(lit)) == GetDataType(lit)
    {
      assert Upper(Upper(lit)) == Upper(lit);
      SameUpper(lit, Upper(lit));
    }
  }

  lemma SameUpper(lit: string, other: string)
    requires Upper(lit) == Upper(other)
    ensures GetDataType(lit) == GetDataType(other)
  {
  }

  predicate IsWith(x: Lexeme) {
    Upper(x.lit) == "WITH"
  }

  /** Whether a literal suits a type as its default value. */
  type Accepts = (FieldType, string) -> bool

  function ParseFields(a: Accepts, tape: seq<Lexeme>, p: nat): (r: Result<seq<StreamField>>)
    ensures r.Ok? ==> p < r.next <= |tape|
    decreases Left(tape, p), 3
  {
    if At(tape, p).tok.LPAREN? then ParseFieldList(a, tape, p + 1) else Err
  }

  /** The closing parenthesis must come before WITH, which is taken, or else before a comma or
      another parenthesis, which are not, and then the list may not be empty. */
  function ParseFieldList(a: Accepts, tape: seq<Lexeme>, p: nat): (r: Result<seq<StreamField>>)
    ensures r.Ok? ==> p < r.next <= |tape|
    decreases Left(tape, p), 2
  {
    if At(tape, p).tok.RPAREN? then CloseList(tape, [], p + 1)
    else
      match ParseField(a, tape, p)
      case Err => Err
      case Ok(f, q) =>
        if At(tape, q).tok.RPAREN? then CloseList(tape, [f], q + 1)
        else Prefixed([f], ParseFieldList(a, tape, q))
  }

  function AfterField(a: Accepts, tape: seq<Lexeme>, f: Result<StreamField>): Result<seq<StreamField>> {
    if f.Err? then Err
    else if At(tape, f.next).tok.RPAREN? then CloseList(tape, [f.value], f.next + 1)
    else Prefixed([f.value], ParseFieldList(a, tape, f.next))
  }

  lemma ListStep(a: Accepts, tape: seq<Lexeme>, p: nat)
    ensures At(tape, p).tok.RPAREN? ==> ParseFieldList(a, tape, p) == CloseList(tape, [], p + 1)
    ensures !At(tape, p).tok.RPAREN? ==> ParseFieldList(a, tape, p) == AfterField(a, tape, ParseField(a, tape, p))
  {
    hide ParseField, CloseList, Prefixed;
  }

  /** The fields read so far before the rest of the list. */
  function Prefixed(fs: seq<StreamField>, r: Result<seq<StreamField>>): (s: Result<seq<StreamField>>)
    ensures s.Ok? <==> r.Ok?
    ensures s.Ok? ==> s.next == r.next
  {
    if r.Ok? then Ok(fs + r.value, r.next) else Err
  }

  lemma PrefixedTwice(fs: seq<StreamField>, gs: seq<StreamField>, r: Result<seq<StreamField>>)
    ensures Prefixed(fs, Prefixed(gs, r)) == Prefixed(fs + gs, r) && Prefixed([], r) == r
  {
    if r.Ok? {
      assert fs + (gs + r.value) == fs + gs + r.value && [] + r.value == r.value;
    }
  }

  function CloseList(tape: seq<Lexeme>, fs: seq<StreamField>, p: nat): (r: Result<seq<StreamField>>)
    ensures r.Ok? ==> p <= r.next <= |tape|
  {
    var x := At(tape, p);
    if IsWith(x) then WithIsOnTape(tape, p); Ok(fs, p + 1)
    else if fs != [] && (x.tok.COMMA? || x.tok.RPAREN?) then Ok(fs, p)
    else Err
  }

  lemma WithIsOnTape(tape: seq<Lexeme>, p: nat)
    requires IsWith(At(tape, p))
    ensures p < |tape|
  {
    assert Upper("EOF")[0] == 'E';
  }

  function ParseField(a: Accepts, tape: seq<Lexeme>, p: nat): (r: Result<StreamField>)
    ensures r.Ok? ==> p < r.next <= |tape|
    decreases Left(tape, p), 1
  {
    if !At(tape, p).tok.IDENT? then Err
    else
      match ParseType(a, tape, p + 1)
      case Err => Err
      case Ok(t, q) => ParseFieldEnd(a, tape, StreamField(At(tape, p).lit, t, None), q)
  }

  predicate IsDefaultLiteral(tok: Token) {
    tok.INTEGER? || tok.NUMBER? || tok.STRING? || tok.SINGLEQUOTE? || tok.TRUE? || tok.FALSE?
  }

  /** What follows the type: a comma, which is taken, or a closing parenthesis, which is not. */
  function ParseFieldEnd(a: Accepts, tape: seq<Lexeme>, f: StreamField, p: nat): (r: Result<StreamField>)
    ensures r.Ok? ==> p <= r.next <= |tape|
  {
    var x, v, y := At(tape, p).tok, At(tape, p + 1), At(tape, p + 2).tok;
    if x.COMMA? then Ok(f, p + 1)
    else if x.RPAREN? then Ok(f, p)
    else if x.DEFAULT? && IsDefaultLiteral(v.tok) && a(f.ftype, v.lit) then
      var g := f.(default := Some(v.lit));
      if y.COMMA? then Ok(g, p + 3) else if y.RPAREN? then Ok(g, p + 2) else Err
    else Err
  }

  /** Fields stand in parentheses, and each starts with its name. */
  lemma FieldsOpen(a: Accepts, tape: seq<Lexeme>, p: nat)
    ensures ParseFields(a, tape, p).Ok? ==> At(tape, p).tok.LPAREN?
    ensures ParseField(a, tape, p).Ok? ==> At(tape, p) == Lexeme(IDENT, ParseField(a, tape, p).value.name)
  {
    hide ParseType, ParseFieldList;
  }

  /** A field ends at a comma, which is taken, or at a parenthesis, which is not, and before that it
      may have a default: a literal of one of the six kinds that suits the type. Nothing else ends
      it. */
  lemma FieldEndsExactly(a: Accepts, tape: seq<Lexeme>, f: StreamField, p: nat, d: Option<string>, q: nat)
    requires f.default.None?
    ensures ParseFieldEnd(a, tape, f, p) == Ok(f.(default := d), q) <==> EndsField(a, tape, f.ftype, p, d, q)
  {
  }

  predicate EndsField(a: Accepts, tape: seq<Lexeme>, t: FieldType, p: nat, d: Option<string>, q: nat) {
    var end := if d.Some? then p + 2 else p;
    && (d.Some? ==> At(tape, p).tok.DEFAULT? && At(tape, p + 1).lit == d.value && a(t, d.value) &&
                    At(tape, p + 1).tok in {INTEGER, NUMBER, STRING, SINGLEQUOTE, TRUE, FALSE})
    && ((At(tape, end).tok.COMMA? && q == end + 1) || (At(tape, end).tok.RPAREN? && q == end))
  }

  lemma {:induction false} SingleTypeRoundTrip(a: Accepts, tape: seq<Lexeme>, p: nat, t: FieldType)
    requires Shaped(t) && !t.Rec? && HasAt(tape, p, PrintType(t))
    ensures ParseType(a, tape, p) == if NonEmpty(t) then Ok(Bare(t), p + |PrintType(t)|) else Err
  {
    hide GetDataType, IsWith, ParseArray, ParseStruct, HasAt;
    match t
    case Basic(d) => NamesReadBack(d); LexemeAt(tape, p, Word(NameOf(d)));
    case ArrayOf(_, _) => NamesReadBack(ARRAY); ElementStarts(tape, p, t); ArrayRoundTrip(a, tape, p, t);
  }

  /** A printed field of a simple or an array type with a default reads back with it exactly when
      the literal suits the type. */
  lemma {:induction false} DefaultRoundTrip(a: Accepts, tape: seq<Lexeme>, p: nat, name: string, t: FieldType, x: Lexeme)
    requires Shaped(t) && NonEmpty(t) && !t.Rec? && IsDefaultLiteral(x.tok)
    requires HasAt(tape, p, PrintField(StreamField(name, t, None)) + [Lexeme(DEFAULT, "DEFAULT"), x, Comma])
    ensures ParseField(a, tape, p)
         == if a(Bare(t), x.lit) then Ok(StreamField(name, Bare(t), Some(x.lit)), p + |PrintType(t)| + 4) else Err
  {
    hide HasAt, ParseType, PrintType, Bare, Shaped, NonEmpty;
    DefaultParts(tape, p, name, PrintType(t), x);
    SingleTypeRoundTrip(a, tape, p + 1, t);
  }

  lemma DefaultParts(tape: seq<Lexeme>, p: nat, name: string, text: seq<Lexeme>, x: Lexeme)
    requires HasAt(tape, p, [Word(name)] + text + [Lexeme(DEFAULT, "DEFAULT"), x, Comma])
    ensures At(tape, p) == Word(name) && HasAt(tape, p + 1, text)
    ensures var q := p + 1 + |text|; At(tape, q).tok.DEFAULT? && At(tape, q + 1) == x && At(tape, q + 2) == Comma
  {
    hide HasAt;
    var tail := [Lexeme(DEFAULT, "DEFAULT"), x, Comma];
    assert [Word(name)] + text + tail == [Word(name)] + (text + tail);
    LexemeThen(tape, p, Word(name), text + tail);
    SplitAt(tape, p + 1, text, tail);
    var q := p + 1 + |text|;
    assert tail == [tail[0]] + ([x] + [Comma]);
    LexemeThen(tape, q, tail[0], [x] + [Comma]);
    LexemeThen(tape, q + 1, x, [Comma]);
    LexemeAt(tape, q + 2, Comma);
  }

  function ParseType(a: Accepts, tape: seq<Lexeme>, p: nat): (r: Result<FieldType>)
    ensures r.Ok? ==> p < r.next
    decreases Left(tape, p), 4
  {
    var t := GetDataType(At(tape, p).lit);
    if IsSimple(t) then Ok(Basic(t), p + 1)
    else if t.ARRAY? then TypeIsOnTape(tape, p); ParseArray(a, tape, p + 1)
    else if t.STRUCT? then TypeIsOnTape(tape, p); ParseStruct(a, tape, p + 1)
    else Err
  }

  lemma TypeIsOnTape(tape: seq<Lexeme>, p: nat)
    requires !GetDataType(At(tape, p).lit).UNKNOWN?
    ensures p < |tape|
  {
    assert Upper("EOF")[0] == 'E';
  }

  /** Without an opening parenthesis, or before a comma, there is no type and no error. */
  function ParseArray(a: Accepts, tape: seq<Lexeme>, p: nat): (r: Result<FieldType>)
    ensures r.Ok? ==> p < r.next
    decreases Left(tape, p), 4
  {
    if !At(tape, p).tok.LPAREN? then Ok(NoType, p + 1)
    else
      var x := At(tape, p + 1);
      var t := GetDataType(x.lit);
      if t.UNKNOWN? then if x.tok.COMMA? then Ok(NoType, p + 1) else Err
      else ArrayEnd(tape, t, ParseElement(a, tape, t, p + 2))
  }

  /** The element type after its name `t`: a simple one is complete. */
  function ParseElement(a: Accepts, tape: seq<Lexeme>, t: DataType, p: nat): (r: Result<FieldType>)
    requires !t.UNKNOWN?
    ensures r.Ok? ==> p <= r.next
    decreases Left(tape, p), 5
  {
    if t.ARRAY? then ParseArray(a, tape, p)
    else if t.STRUCT? then ParseStruct(a, tape, p)
    else Ok(NoType, p)
  }

  function ArrayEnd(tape: seq<Lexeme>, t: DataType, elem: Result<FieldType>): (r: Result<FieldType>)
    ensures r.Ok? ==> elem.Ok? && elem.next < r.next
  {
    match elem
    case Err => Err
    case Ok(e, q) => if At(tape, q).tok.RPAREN? then Ok(ArrayOf(t, e), q + 1) else Err
  }

  function ParseStruct(a: Accepts, tape: seq<Lexeme>, p: nat): (r: Result<FieldType>)
    ensures r.Ok? ==> p < r.next <= |tape|
    decreases Left(tape, p), 4
  {
    match ParseFields(a, tape, p)
    case Err => Err
    case Ok(fs, q) => if At(tape, q).tok.COMMA? || At(tape, q).tok.RPAREN? then Ok(Rec(fs), q) else Err
  }

  const Open := Lexeme(LPAREN, "(")
  const Close := Lexeme(RPAREN, ")")
  const Comma := Lexeme(COMMA, ",")

  function Word(name: string): Lexeme {
    Lexeme(IDENT, name)
  }

  function Bracketed(inner: seq<Lexeme>): seq<Lexeme> {
    [Open] + (inner + ([Close] + []))
  }

  lemma BracketedParts(tape: seq<Lexeme>, p: nat, inner: seq<Lexeme>)
    requires HasAt(tape, p, Bracketed(inner))
    ensures |Bracketed(inner)| == |inner| + 2
    ensures At(tape, p) == Open && HasAt(tape, p + 1, inner) && At(tape, p + 1 + |inner|) == Close
  {
    hide HasAt;
    LexemeThen(tape, p, Open, inner + ([Close] + []));
    TextThen(tape, p + 1, inner, Close, []);
  }

  function Joined(head: seq<Lexeme>, tail: seq<Lexeme>): (s: seq<Lexeme>)
    ensures |s| == |head| + 1 + |tail|
  {
    head + ([Comma] + tail)
  }

  function PrintType(t: FieldType): (s: seq<Lexeme>)
    decreases t
  {
    match t
    case NoType => []
    case Basic(d) => [Word(NameOf(d))]
    case ArrayOf(d, elem) => [Word("array")] + Bracketed(if elem.NoType? then [Word(NameOf(d))] else PrintType(elem))
    case Rec(fields) => [Word("struct")] + Bracketed(PrintFields(fields))
  }

  function PrintFields(fs: seq<StreamField>): seq<Lexeme>
    decreases fs
  {
    if fs == [] then []
    else if |fs| == 1 then PrintField(fs[0])
    else Joined(PrintField(fs[0]), PrintFields(fs[1..]))
  }

  function PrintField(f: StreamField): seq<Lexeme>
    decreases f
  {
    [Word(f.name)] + PrintType(f.ftype)
  }

  /** Every array says what its element type is. */
  predicate Shaped(t: FieldType)
    decreases t
  {
    match t
    case NoType => false
    case Basic(d) => IsSimple(d)
    case ArrayOf(d, elem) => if IsSimple(d) then elem.NoType? else (if d.ARRAY? then elem.ArrayOf? else d.STRUCT? && elem.Rec?) && Shaped(elem)
    case Rec(fields) => AllShaped(fields)
  }

  predicate AllShaped(fs: seq<StreamField>)
    decreases fs
  {
    fs == [] || (FieldShaped(fs[0]) && AllShaped(fs[1..]))
  }

  predicate FieldShaped(f: StreamField)
    decreases f
  {
    Shaped(f.ftype)
  }

  /** No struct without fields at any depth. */
  predicate NonEmpty(t: FieldType)
    decreases t
  {
    match t
    case NoType => true
    case Basic(_) => true
    case ArrayOf(_, elem) => NonEmpty(elem)
    case Rec(fields) => fields != [] && AllNonEmpty(fields)
  }

  predicate AllNonEmpty(fs: seq<StreamField>)
    decreases fs
  {
    fs == [] || (FieldNonEmpty(fs[0]) && AllNonEmpty(fs[1..]))
  }

  predicate FieldNonEmpty(f: StreamField)
    decreases f
  {
    NonEmpty(f.ftype)
  }

  /** The type without its defaults, which are not printed. */
  function Bare(t: FieldType): FieldType
    decreases t
  {
    match t
    case NoType => NoType
    case Basic(d) => t
    case ArrayOf(d, elem) => ArrayOf(d, Bare(elem))
    case Rec(fields) => Rec(AllBare(fields))
  }

  function AllBare(fs: seq<StreamField>): seq<StreamField>
    decreases fs
  {
    if fs == [] then [] else [BareField(fs[0])] + AllBare(fs[1..])
  }

  function BareField(f: StreamField): StreamField
    decreases f
  {
    StreamField(f.name, Bare(f.ftype), None)
  }

  /** A type is followed by a comma or a closing parenthesis. */
  predicate Follows(x: Lexeme) {
    (x.tok.COMMA? || x.tok.RPAREN?) && !IsWith(x)
  }

  lemma ClosesAreFollowers()
    ensures Follows(Lexeme(RPAREN, ")")) && Follows(Lexeme(COMMA, ","))
    ensures GetDataType(")") == UNKNOWN && GetDataType(",") == UNKNOWN
  {
    assert |Upper(")")| == 1 && |Upper(",")| == 1;
  }

  /** A printed type, followed by a comma or a parenthesis, reads back without its defaults and
      leaves the follower unread, unless it has an empty struct: then reading fails. */
  lemma {:induction false} TypeRoundTrip(a: Accepts, tape: seq<Lexeme>, p: nat, t: FieldType)
    requires Shaped(t) && HasAt(tape, p, PrintType(t)) && Follows(At(tape, p + |PrintType(t)|))
    ensures ParseType(a, tape, p) == if NonEmpty(t) then Ok(Bare(t), p + |PrintType(t)|) else Err
    decreases t
  {
    hide GetDataType, IsWith, ParseArray, ParseStruct, HasAt;
    match t
    case Basic(d) => NamesReadBack(d); LexemeAt(tape, p, Word(NameOf(d)));
    case ArrayOf(_, _) => NamesReadBack(ARRAY); ElementStarts(tape, p, t); ArrayRoundTrip(a, tape, p, t);
    case Rec(_) => NamesReadBack(STRUCT); ElementStarts(tape, p, t); StructRoundTrip(a, tape, p, t);
  }

  function Inner(t: FieldType): seq<Lexeme>
    requires t.ArrayOf?
  {
    if t.elem.NoType? then [Word(NameOf(t.t))] else PrintType(t.elem)
  }

  lemma ArrayParts(tape: seq<Lexeme>, p: nat, t: FieldType)
    requires t.ArrayOf? && HasAt(tape, p, PrintType(t))
    ensures |PrintType(t)| == |Inner(t)| + 3
    ensures At(tape, p + 1) == Open && HasAt(tape, p + 2, Inner(t)) && At(tape, p + 2 + |Inner(t)|) == Close
  {
    hide HasAt;
    LexemeThen(tape, p, Word("array"), Bracketed(Inner(t)));
    hide Bracketed;
    BracketedParts(tape, p + 1, Inner(t));
  }

  /** The same past the word `array`; here any lexeme may follow. */
  lemma {:induction false} ArrayRoundTrip(a: Accepts, tape: seq<Lexeme>, p: nat, t: FieldType)
    requires t.ArrayOf? && Shaped(t) && HasAt(tape, p, PrintType(t))
    ensures ParseArray(a, tape, p + 1) == if NonEmpty(t) then Ok(Bare(t), p + |PrintType(t)|) else Err
    decreases t, 0
  {
    hide GetDataType, IsWith, ParseStruct, ParseArray, HasAt, PrintType;
    NamesReadBack(t.t);
    ClosesAreFollowers();
    ArrayParts(tape, p, t);
    if t.elem.NoType? {
      LexemeAt(tape, p + 2, Word(NameOf(t.t)));
      ArrayOpens(a, tape, p + 1);
    } else {
      ElementStarts(tape, p + 2, t.elem);
      ArrayOpens(a, tape, p + 1);
      if t.t.ARRAY? {
        ArrayRoundTrip(a, tape, p + 2, t.elem);
      } else {
        StructRoundTrip(a, tape, p + 2, t.elem);
      }
    }
  }

  lemma ArrayOpens(a: Accepts, tape: seq<Lexeme>, p: nat)
    ensures !At(tape, p).tok.LPAREN? ==> ParseArray(a, tape, p) == Ok(NoType, p + 1)
    ensures At(tape, p).tok.LPAREN? ==> ParseArray(a, tape, p) == ArrayBody(a, tape, p + 1)
  {
    hide GetDataType, ArrayEnd, ParseElement;
  }

  /** What stands between the parentheses. */
  function ArrayBody(a: Accepts, tape: seq<Lexeme>, p: nat): Result<FieldType> {
    var d := GetDataType(At(tape, p).lit);
    if !d.UNKNOWN? then ArrayEnd(tape, d, ParseElement(a, tape, d, p + 1))
    else if At(tape, p).tok.COMMA? then Ok(NoType, p) else Err
  }

  lemma ElementStarts(tape: seq<Lexeme>, p: nat, t: FieldType)
    requires (t.ArrayOf? || t.Rec?) && HasAt(tape, p, PrintType(t))
    ensures At(tape, p) == Word(if t.ArrayOf? then "array" else "struct")
  {
    LexemeThen(tape, p, PrintType(t)[0], PrintType(t)[1..]);
  }

  lemma {:induction false} StructRoundTrip(a: Accepts, tape: seq<Lexeme>, p: nat, t: FieldType)
    requires t.Rec? && Shaped(t) && HasAt(tape, p, PrintType(t)) && Follows(At(tape, p + |PrintType(t)|))
    ensures ParseStruct(a, tape, p + 1) == if NonEmpty(t) then Ok(Bare(t), p + |PrintType(t)|) else Err
    decreases t, 0
  {
    hide GetDataType, IsWith, ParseFieldList, HasAt;
    LexemeThen(tape, p, Word("struct"), Bracketed(PrintFields(t.fields)));
    BracketedParts(tape, p + 1, PrintFields(t.fields));
    FieldsRoundTrip(a, tape, p + 2, t.fields);
  }

  /** The list of fields up to its closing parenthesis. */
  function ListEnd(tape: seq<Lexeme>, q: nat, fs: seq<StreamField>): Result<seq<StreamField>> {
    var x := At(tape, q + 1);
    if !AllNonEmpty(fs) then Err
    else if IsWith(x) then Ok(AllBare(fs), q + 2)
    else if Follows(x) && fs != [] then Ok(AllBare(fs), q + 1)
    else Err
  }

  lemma FieldsStart(tape: seq<Lexeme>, p: nat, fs: seq<StreamField>)
    requires HasAt(tape, p, PrintFields(fs))
    ensures fs != [] ==> At(tape, p).tok.IDENT?
  {
    if fs != [] {
      assert PrintField(fs[0])[0] == PrintFields(fs)[0] == Word(fs[0].name);
      LexemeThen(tape, p, PrintFields(fs)[0], PrintFields(fs)[1..]);
    }
  }

  lemma {:induction false} FieldsRoundTrip(a: Accepts, tape: seq<Lexeme>, p: nat, fs: seq<StreamField>)
    requires AllShaped(fs) && HasAt(tape, p, PrintFields(fs)) && At(tape, p + |PrintFields(fs)|) == Close
    ensures ParseFieldList(a, tape, p) == ListEnd(tape, p + |PrintFields(fs)|, fs)
    decreases fs
  {
    hide GetDataType, IsWith, ParseType, ParseField, HasAt, PrintField, ParseFieldList;
    ClosesAreFollowers();
    ListStep(a, tape, p);
    assert fs == [] ==> PrintFields(fs) == [];
    assert |fs| == 1 ==> PrintFields(fs) == PrintField(fs[0]);
    hide PrintFields;
    FieldsStart(tape, p, fs);
    if fs != [] {
      if |fs| > 1 { FieldsStep(tape, p, fs); }
      FieldRoundTrip(a, tape, p, fs[0]);
      if |fs| == 1 {
        assert fs[1..] == [] && AllBare(fs) == [BareField(fs[0])];
        assert AllNonEmpty(fs) <==> FieldNonEmpty(fs[0]);
      } else {
        FieldsStart(tape, p + |PrintField(fs[0])| + 1, fs[1..]);
        FieldsRoundTrip(a, tape, p + |PrintField(fs[0])| + 1, fs[1..]);
      }
    }
  }

  lemma FieldsStep(tape: seq<Lexeme>, p: nat, fs: seq<StreamField>)
    requires |fs| > 1 && HasAt(tape, p, PrintFields(fs))
    ensures var q := p + |PrintField(fs[0])|;
            && HasAt(tape, p, PrintField(fs[0])) && At(tape, q) == Comma && HasAt(tape, q + 1, PrintFields(fs[1..]))
            && p + |PrintFields(fs)| == q + 1 + |PrintFields(fs[1..])|
  {
    hide HasAt, Joined, PrintField;
    JoinedParts(tape, p, PrintField(fs[0]), PrintFields(fs[1..]));
  }

  lemma JoinedParts(tape: seq<Lexeme>, p: nat, head: seq<Lexeme>, tail: seq<Lexeme>)
    requires HasAt(tape, p, Joined(head, tail))
    ensures HasAt(tape, p, head) && At(tape, p + |head|) == Comma && HasAt(tape, p + |head| + 1, tail)
  {
    hide HasAt;
    TextThen(tape, p, head, Comma, tail);
  }

  /** One field: a comma after it is taken, a parenthesis is not. */
  lemma {:induction false} FieldRoundTrip(a: Accepts, tape: seq<Lexeme>, p: nat, f: StreamField)
    requires FieldShaped(f) && HasAt(tape, p, PrintField(f)) && Follows(At(tape, p + |PrintField(f)|))
    ensures var q := p + |PrintField(f)|;
            ParseField(a, tape, p) ==
            if FieldNonEmpty(f) then Ok(BareField(f), if At(tape, q).tok.COMMA? then q + 1 else q) else Err
    decreases f
  {
    hide GetDataType, IsWith, ParseType, HasAt;
    LexemeThen(tape, p, Word(f.name), PrintType(f.ftype));
    TypeRoundTrip(a, tape, p + 1, f.ftype);
  }

  /** A printed type reads back as itself exactly when it has no empty struct and no defaults. */
  lemma {:induction false} TypeRoundTripExactly(a: Accepts, tape: seq<Lexeme>, p: nat, t: FieldType)
    requires Shaped(t) && HasAt(tape, p, PrintType(t)) && Follows(At(tape, p + |PrintType(t)|))
    ensures ParseType(a, tape, p) == Ok(t, p + |PrintType(t)|) <==> NonEmpty(t) && Bare(t) == t
  {
    hide ParseType, Bare, NonEmpty, Shaped, HasAt, PrintType, Follows;
    TypeRoundTrip(a, tape, p, t);
  }

  /** The columns of a CREATE statement, up to and including WITH; here the list may be empty. */
  lemma {:induction false} ColumnsRoundTrip(a: Accepts, tape: seq<Lexeme>, p: nat, fs: seq<StreamField>)
    requires AllShaped(fs) && HasAt(tape, p, Bracketed(PrintFields(fs)))
    requires IsWith(At(tape, p + |PrintFields(fs)| + 2))
    ensures ParseFields(a, tape, p) == if AllNonEmpty(fs) then Ok(AllBare(fs), p + |PrintFields(fs)| + 3) else Err
  {
    hide IsWith, ParseFieldList, HasAt;
    BracketedParts(tape, p, PrintFields(fs));
    FieldsRoundTrip(a, tape, p + 1, fs);
  }
}
