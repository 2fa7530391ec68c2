/** Evaluating expressions on a row. Aliases are computed on first use and remembered in the row. */
module Evaluation {
  import opened Tokens
  import opened Values
  import opened Rows

  datatype Ex =
    | Lit(v: Value)
    | Paren(e: Ex)
    | ColumnRef(stream: string, name: string)
    | Alias(name: string, def: Ex)
    | JsonField(name: string)
    | Bin(lhs: Ex, op: Token, rhs: Ex)
    | Case(value: Option<Ex>, whens: seq<When>, els: Option<Ex>)
    | SetOf(elems: seq<Ex>)
    | SetFrom(list: Ex)
    | Between(lower: Ex, higher: Ex)
    | Index(index: Ex)

  datatype When = When(cond: Ex, result: Ex)

  datatype Out = Out(v: Value, memo: Fields)

  datatype Branch = Branch(o: Out) | NoBranch(memo: Fields)

  datatype Outs = Outs(vs: seq<Value>, memo: Fields)

  function OrNil(v: Option<Value>): Value {
    if v.Some? then v.value else Nil
  }

  /** The stream name as the row is asked for it. */
  function Table(stream: string): string {
    if stream == DefaultStream then "" else stream
  }

  function WithMemo(r: Row, memo: Fields): Row {
    r.(aff := r.aff.(aliasMap := memo))
  }

  function Read(r: Row, memo: Fields, name: string, table: string): Value {
    if name == "" then Nil else OrNil(ReadColumn(WithMemo(r, memo), name, table))
  }

  predicate Composite(v: Value) {
    v.VMap? || v.VList?
  }

  /** A field of a map, for the right side of an arrow. */
  function FieldOf(v: Value, rhs: Ex): Value {
    if v.VMap? && rhs.JsonField? then OrNil(Get(v.fields, rhs.name)) else VErr
  }

  function ElementAt(elems: seq<Value>, at: Value): Value {
    if !at.VIndex? then VErr
    else
      var i := if at.at < 0 then at.at + |elems| else at.at;
      if 0 <= i < |elems| then elems[i] else VErr
  }

  function SameValue(x: Value, y: Value): Value {
    SimpleDataEval(x, y, EQ)
  }

  /** Looks for `x` in the list; the first element that cannot be compared is an error. */
  function Member(x: Value, elems: seq<Value>): Value
    decreases elems
  {
    if elems == [] then VBool(false)
    else
      var same := SameValue(x, elems[0]);
      if same.VErr? || same == VBool(true) then same else Member(x, elems[1..])
  }

  function InSet(x: Value, op: Token, elems: Value): Value {
    if elems.Nil? then VBool(op.NOTIN?)
    else if x.Nil? then VBool(false)
    else if !elems.VList? then VErr
    else
      var m := Member(x, elems.elems);
      if m.VErr? then VErr else VBool((m == VBool(true)) == op.IN?)
  }

  function InRange(x: Value, op: Token, bounds: Value): Value {
    if x.Nil? || bounds.Nil? then VBool(false)
    else if !bounds.VList? || |bounds.elems| < 2 then VErr
    else
      var above := SimpleDataEval(x, bounds.elems[0], GTE);
      var below := SimpleDataEval(x, bounds.elems[1], LTE);
      if above.VErr? || below.VErr? then VErr
      else
        var both := SimpleDataEval(above, below, AND);
        if op.NOTBETWEEN? && both.VBool? then VBool(!both.b) else both
  }

  /** An operator on two values that are neither errors on the left nor maps nor lists. */
  function Combine(x: Value, op: Token, y: Value): Value {
    if y.VErr? then VErr
    else if op.IN? || op.NOTIN? then InSet(x, op, y)
    else if op.BETWEEN? || op.NOTBETWEEN? then InRange(x, op, y)
    else SimpleDataEval(x, y, op)
  }

  predicate Shortcut(x: Value, op: Token) {
    (op.AND? && x == VBool(false)) || (op.OR? && x == VBool(true))
  }

  function Listed(v: Value): Value {
    if v.VList? then v else Nil
  }

  function Bounds(lo: Value, hi: Value): Value {
    if lo.Nil? || hi.Nil? then Nil else VList([lo, hi])
  }

  function AtIndex(v: Value): Value {
    if v.VInt? then VIndex(v.i) else VErr
  }

  /** The evaluator, with the memory of aliases passed along: its value and the memory after it. */
  function Eval(r: Row, memo: Fields, e: Ex): Out
    decreases e, 1
  {
    match e
    case Lit(v) => Out(v, memo)
    case Paren(x) => Eval(r, memo, x)
    case ColumnRef(stream, name) => Out(Read(r, memo, name, Table(stream)), memo)
    case Alias(name, def) =>
      if name in memo then Out(memo[name], memo)
      else var d := Eval(r, memo, def); Out(d.v, d.memo[name := d.v])
    case JsonField(name) => Out(Read(r, memo, name, ""), memo)
    case Bin(l, op, rhs) =>
      var x := Eval(r, memo, l);
      if x.v.VErr? then x
      else if x.v.VMap? || (x.v.VList? && !op.SUBSET?) then Out(if op.ARROW? then FieldOf(x.v, rhs) else VErr, x.memo)
      else if Shortcut(x.v, op) then x
      else
        var y := Eval(r, x.memo, rhs);
        Out(if x.v.VList? then ElementAt(x.v.elems, y.v) else Combine(x.v, op, y.v), y.memo)
    case Case(value, whens, els) =>
      var b := if value.Some? then var x := Eval(r, memo, value.value); EvalMatch(r, x.memo, x.v, whens)
               else EvalWhens(r, memo, whens);
      if b.Branch? then b.o else if els.Some? then Eval(r, b.memo, els.value) else Out(Nil, b.memo)
    case SetOf(elems) => var o := EvalAll(r, memo, elems); Out(VList(o.vs), o.memo)
    case SetFrom(list) => var o := Eval(r, memo, list); Out(Listed(o.v), o.memo)
    case Between(lo, hi) =>
      var a := Eval(r, memo, lo);
      var b := Eval(r, a.memo, hi);
      if a.v.Nil? || b.v.Nil? then Out(Nil, b.memo)
      else
        var c := Eval(r, b.memo, lo);
        var d := Eval(r, c.memo, hi);
        Out(VList([c.v, d.v]), d.memo)
    case Index(index) => var o := Eval(r, memo, index); Out(AtIndex(o.v), o.memo)
  }

  function EvalAll(r: Row, memo: Fields, es: seq<Ex>): (o: Outs)
    ensures |o.vs| == |es|
    decreases es
  {
    if es == [] then Outs([], memo)
    else
      var before := EvalAll(r, memo, es[..|es| - 1]);
      var last := Eval(r, before.memo, es[|es| - 1]);
      Outs(before.vs + [last.v], last.memo)
  }

  function EvalCond(r: Row, memo: Fields, w: When): Out
    decreases w
  {
    Eval(r, memo, w.cond)
  }

  function EvalResult(r: Row, memo: Fields, w: When): Out
    decreases w
  {
    Eval(r, memo, w.result)
  }

  function EvalMatch(r: Row, memo: Fields, x: Value, ws: seq<When>): Branch
    decreases ws
  {
    if ws == [] then NoBranch(memo)
    else
      var y := EvalCond(r, memo, ws[0]);
      var same := SameValue(x, y.v);
      if same.VErr? then Branch(Out(VErr, y.memo))
      else if same == VBool(true) then Branch(EvalResult(r, y.memo, ws[0]))
      else EvalMatch(r, y.memo, x, ws[1..])
  }

  function EvalWhens(r: Row, memo: Fields, ws: seq<When>): Branch
    decreases ws
  {
    if ws == [] then NoBranch(memo)
    else
      var y := EvalCond(r, memo, ws[0]);
      if y.v.VErr? then Branch(Out(VErr, y.memo))
      else if y.v == VBool(true) then Branch(EvalResult(r, y.memo, ws[0]))
      else EvalWhens(r, y.memo, ws[1..])
  }
}
