/** The evaluator on a row in place: aliases are written into the row as they are computed. */
module Evaluator {
  import opened Tokens
  import opened Values
  import opened Rows
  import opened Evaluation

  /** The row is `r` apart from the aliases computed so far. */
  ghost predicate Holds(t: Tuple, r: Row)
    reads t, t.message
  {
    t.Abs() == WithMemo(r, t.aliasMap)
  }

  method ValueOf(t: Tuple, name: string, table: string, ghost r: Row) returns (v: Value)
    requires Holds(t, r)
    ensures v == Read(r, t.aliasMap, name, table)
  {
    v := Nil;
    if name != "" {
      var found := t.Value(name, table);
      if found.Some? {
        v := found.value;
      }
    }
  }

  method EvalExpr(t: Tuple, e: Ex, ghost r: Row) returns (v: Value)
    requires Holds(t, r)
    modifies t`aliasMap
    ensures Holds(t, r) && Out(v, t.aliasMap) == Eval(r, old(t.aliasMap), e)
    decreases e, 1
  {
    match e
    case Lit(x) => v := x;
    case Paren(x) => v := EvalExpr(t, x, r);
    case ColumnRef(stream, name) => v := ValueOf(t, name, if stream == DefaultStream then "" else stream, r);
    case Alias(name, def) =>
      if name in t.aliasMap {
        v := t.aliasMap[name];
      } else {
        v := EvalExpr(t, def, r);
        t.AppendAlias(name, v);
      }
    case JsonField(name) => v := ValueOf(t, name, "", r);
    case Bin(_, _, _) => v := EvalBinary(t, e, r);
    case Case(_, _, _) => v := EvalCase(t, e, r);
    case SetOf(elems) => var vs := EvalElements(t, elems, r); v := VList(vs);
    case SetFrom(list) =>
      v := EvalExpr(t, list, r);
      if !v.VList? {
        v := Nil;
      }
    case Between(lo, hi) =>
      var a := EvalExpr(t, lo, r);
      var b := EvalExpr(t, hi, r);
      if a.Nil? || b.Nil? {
        v := Nil;
      } else {
        a := EvalExpr(t, lo, r);
        b := EvalExpr(t, hi, r);
        v := VList([a, b]);
      }
    case Index(index) =>
      v := EvalExpr(t, index, r);
      v := if v.VInt? then VIndex(v.i) else VErr;
  }

  method EvalBinary(t: Tuple, e: Ex, ghost r: Row) returns (v: Value)
    requires e.Bin? && Holds(t, r)
    modifies t`aliasMap
    ensures Holds(t, r) && Out(v, t.aliasMap) == Eval(r, old(t.aliasMap), e)
    decreases e, 0
  {
    var Bin(l, op, right) := e;
    v := EvalExpr(t, l, r);
    if v.VErr? {
      return;
    }
    if v.VMap? {
      v := if op.ARROW? then FieldOf(v, right) else VErr;
      return;
    }
    if (op.AND? && v == VBool(false)) || (op.OR? && v == VBool(true)) {
      return;
    }
    if v.VList? {
      if !op.SUBSET? {
        v := VErr;
      } else {
        var at := EvalExpr(t, right, r);
        v := ElementAt(v.elems, at);
      }
      return;
    }
    var w := EvalExpr(t, right, r);
    if w.VErr? {
      v := w;
    } else if op.IN? || op.NOTIN? {
      v := EvalSets(v, op, w);
    } else if op.BETWEEN? || op.NOTBETWEEN? {
      v := InRange(v, op, w);
    } else {
      v := SimpleDataEval(v, w, op);
    }
  }

  method EvalSets(x: Value, op: Token, elems: Value) returns (v: Value)
    requires op.IN? || op.NOTIN?
    ensures v == InSet(x, op, elems)
  {
    if elems.Nil? {
      return VBool(op.NOTIN?);
    }
    if x.Nil? {
      return VBool(false);
    }
    if !elems.VList? {
      return VErr;
    }
    var vs := elems.elems;
    for i := 0 to |vs|
      invariant Member(x, vs) == Member(x, vs[i..])
    {
      assert vs[i..][1..] == vs[i + 1..];
      var same := SimpleDataEval(x, vs[i], EQ);
      if same.VErr? {
        return VErr;
      }
      if same == VBool(true) {
        return VBool(op.IN?);
      }
    }
    v := VBool(op.NOTIN?);
  }

  method EvalElements(t: Tuple, es: seq<Ex>, ghost r: Row) returns (vs: seq<Value>)
    requires Holds(t, r)
    modifies t`aliasMap
    ensures Holds(t, r) && Outs(vs, t.aliasMap) == EvalAll(r, old(t.aliasMap), es)
    decreases es
  {
    vs := [];
    for i := 0 to |es|
      invariant Holds(t, r) && Outs(vs, t.aliasMap) == EvalAll(r, old(t.aliasMap), es[..i])
    {
      assert es[..i + 1][..i] == es[..i];
      var v := EvalExpr(t, es[i], r);
      vs := vs + [v];
    }
    assert es[..|es|] == es;
  }

  method EvalCase(t: Tuple, e: Ex, ghost r: Row) returns (v: Value)
    requires e.Case? && Holds(t, r)
    modifies t`aliasMap
    ensures Holds(t, r) && Out(v, t.aliasMap) == Eval(r, old(t.aliasMap), e)
    decreases e, 0
  {
    var Case(value, whens, els) := e;
    var x := Nil;
    if value.Some? {
      x := EvalExpr(t, value.value, r);
    }
    ghost var memo := t.aliasMap;
    ghost var b := if value.Some? then EvalMatch(r, memo, x, whens) else EvalWhens(r, memo, whens);
    for i := 0 to |whens|
      invariant Holds(t, r)
      invariant b == if value.Some? then EvalMatch(r, t.aliasMap, x, whens[i..]) else EvalWhens(r, t.aliasMap, whens[i..])
    {
      assert whens[i..][1..] == whens[i + 1..];
      var w := whens[i];
      var y := EvalExpr(t, w.cond, r);
      if value.Some? {
        y := SimpleDataEval(x, y, EQ);
      }
      if y.VErr? {
        return VErr;
      }
      if y == VBool(true) {
        v := EvalExpr(t, w.result, r);
        return;
      }
    }
    if els.Some? {
      v := EvalExpr(t, els.value, r);
    } else {
      v := Nil;
    }
  }
}
