/** Remembering aliases does not change what expressions mean. */
module AliasMemo {
  import opened Tokens
  import opened Values
  import opened Rows
  import opened Evaluation

  /** The meaning of an expression with no memory: an alias means its definition. */
  function Meaning(r: Row, e: Ex): Value
    decreases e, 1
  {
    match e
    case Lit(v) => v
    case Paren(x) => Meaning(r, x)
    case ColumnRef(stream, name) => Read(r, map[], name, Table(stream))
    case Alias(_, def) => Meaning(r, def)
    case JsonField(name) => Read(r, map[], name, "")
    case Bin(l, op, rhs) =>
      var x := Meaning(r, l);
      if x.VErr? then x
      else if x.VMap? || (x.VList? && !op.SUBSET?) then if op.ARROW? then FieldOf(x, rhs) else VErr
      else if Shortcut(x, op) then x
      else if x.VList? then ElementAt(x.elems, Meaning(r, rhs)) else Combine(x, op, Meaning(r, rhs))
    case Case(value, whens, els) =>
      var b := if value.Some? then MatchMeaning(r, Meaning(r, value.value), whens) else WhensMeaning(r, whens);
      if b.Some? then b.value else if els.Some? then Meaning(r, els.value) else Nil
    case SetOf(elems) => VList(Meanings(r, elems))
    case SetFrom(list) => Listed(Meaning(r, list))
    case Between(lo, hi) => Bounds(Meaning(r, lo), Meaning(r, hi))
    case Index(index) => AtIndex(Meaning(r, index))
  }

  function Meanings(r: Row, es: seq<Ex>): (vs: seq<Value>)
    ensures |vs| == |es|
    decreases es
  {
    if es == [] then [] else Meanings(r, es[..|es| - 1]) + [Meaning(r, es[|es| - 1])]
  }

  function CondMeaning(r: Row, w: When): Value
    decreases w
  {
    Meaning(r, w.cond)
  }

  function ResultMeaning(r: Row, w: When): Value
    decreases w
  {
    Meaning(r, w.result)
  }

  function MatchMeaning(r: Row, x: Value, ws: seq<When>): Option<Value>
    decreases ws
  {
    if ws == [] then None
    else
      var same := SameValue(x, CondMeaning(r, ws[0]));
      if same.VErr? then Some(VErr)
      else if same == VBool(true) then Some(ResultMeaning(r, ws[0]))
      else MatchMeaning(r, x, ws[1..])
  }

  function WhensMeaning(r: Row, ws: seq<When>): Option<Value>
    decreases ws
  {
    if ws == [] then None
    else
      var y := CondMeaning(r, ws[0]);
      if y.VErr? then Some(VErr)
      else if y == VBool(true) then Some(ResultMeaning(r, ws[0]))
      else WhensMeaning(r, ws[1..])
  }

  /** Every alias in the expression has the definition `defs` gives it, and no name in `avoid` is
      read without a qualifier. */
  predicate Declared(e: Ex, defs: map<string, Ex>, avoid: set<string>)
    decreases e, 1
  {
    match e
    case Lit(_) => true
    case Paren(x) => Declared(x, defs, avoid)
    case ColumnRef(stream, name) => Table(stream) == "" ==> name !in avoid
    case Alias(name, def) => name in defs && defs[name] == def && Declared(def, defs, avoid)
    case JsonField(name) => name !in avoid
    case Bin(l, op, rhs) => Declared(l, defs, avoid) && Declared(rhs, defs, avoid)
    case Case(value, whens, els) =>
      && (value.Some? ==> Declared(value.value, defs, avoid))
      && (forall w | w in whens :: WhenDeclared(w, defs, avoid))
      && (els.Some? ==> Declared(els.value, defs, avoid))
    case SetOf(elems) => forall x | x in elems :: Declared(x, defs, avoid)
    case SetFrom(list) => Declared(list, defs, avoid)
    case Between(lo, hi) => Declared(lo, defs, avoid) && Declared(hi, defs, avoid)
    case Index(index) => Declared(index, defs, avoid)
  }

  predicate WhenDeclared(w: When, defs: map<string, Ex>, avoid: set<string>)
    decreases w
  {
    Declared(w.cond, defs, avoid) && Declared(w.result, defs, avoid)
  }

  /** Reading the name as a column gives what the alias of that name means. */
  predicate Harmless(r: Row, name: string, def: Ex) {
    name == "" || Meaning(r, def) == Read(r, map[], name, "")
  }

  /** Every remembered alias holds the meaning of its definition, and every alias whose name may
      also be read as a column agrees with that column. */
  ghost predicate Coherent(r: Row, memo: Fields, defs: map<string, Ex>, avoid: set<string>) {
    && (forall n | n in memo :: n in defs && memo[n] == Meaning(r, defs[n]))
    && (forall n | n in defs && n !in avoid :: Harmless(r, n, defs[n]))
  }

  lemma ReadIsPlain(r: Row, memo: Fields, defs: map<string, Ex>, avoid: set<string>, name: string, table: string)
    requires Coherent(r, memo, defs, avoid) && (table == "" ==> name !in avoid)
    ensures Read(r, memo, name, table) == Read(r, map[], name, table)
  {
    hide Meaning;
    assert ReadUnder(WithMemo(r, memo), name, table) == ReadUnder(WithMemo(r, map[]), name, table);
    if name in memo {
      assert name !in avoid ==> Harmless(r, name, defs[name]);
    }
  }

  /** Evaluation with a coherent memory gives the meaning and leaves the memory coherent. */
  lemma {:induction false} MemoIsTransparent(r: Row, memo: Fields, e: Ex, defs: map<string, Ex>, avoid: set<string>)
    requires Coherent(r, memo, defs, avoid) && Declared(e, defs, avoid)
    ensures Eval(r, memo, e).v == Meaning(r, e) && Coherent(r, Eval(r, memo, e).memo, defs, avoid)
    decreases e, 1
  {
    match e
    case Lit(_) =>
    case Paren(x) => MemoIsTransparent(r, memo, x, defs, avoid);
    case ColumnRef(stream, name) => ReadIsPlain(r, memo, defs, avoid, name, Table(stream));
    case Alias(name, def) => MemoIsTransparent(r, memo, def, defs, avoid);
    case JsonField(name) => ReadIsPlain(r, memo, defs, avoid, name, "");
    case Bin(l, op, rhs) =>
      MemoIsTransparent(r, memo, l, defs, avoid);
      MemoIsTransparent(r, Eval(r, memo, l).memo, rhs, defs, avoid);
    case Case(value, whens, els) => CaseIsTransparent(r, memo, e, defs, avoid);
    case SetOf(elems) => AllTransparent(r, memo, elems, defs, avoid);
    case SetFrom(list) => MemoIsTransparent(r, memo, list, defs, avoid);
    case Between(lo, hi) =>
      var a := Eval(r, memo, lo);
      var b := Eval(r, a.memo, hi);
      MemoIsTransparent(r, memo, lo, defs, avoid);
      MemoIsTransparent(r, a.memo, hi, defs, avoid);
      MemoIsTransparent(r, b.memo, lo, defs, avoid);
      MemoIsTransparent(r, Eval(r, b.memo, lo).memo, hi, defs, avoid);
    case Index(index) => MemoIsTransparent(r, memo, index, defs, avoid);
  }

  lemma {:induction false} CaseIsTransparent(r: Row, memo: Fields, e: Ex, defs: map<string, Ex>, avoid: set<string>)
    requires e.Case? && Coherent(r, memo, defs, avoid) && Declared(e, defs, avoid)
    ensures Eval(r, memo, e).v == Meaning(r, e) && Coherent(r, Eval(r, memo, e).memo, defs, avoid)
    decreases e, 0
  {
    hide Coherent, SameValue;
    var Case(value, whens, els) := e;
    if value.Some? {
      MemoIsTransparent(r, memo, value.value, defs, avoid);
      var x := Eval(r, memo, value.value);
      MatchIsTransparent(r, x.memo, x.v, whens, defs, avoid);
    } else {
      WhensIsTransparent(r, memo, whens, defs, avoid);
    }
    var b := if value.Some? then var x := Eval(r, memo, value.value); EvalMatch(r, x.memo, x.v, whens)
             else EvalWhens(r, memo, whens);
    if b.NoBranch? && els.Some? { MemoIsTransparent(r, b.memo, els.value, defs, avoid); }
  }

  /** Any list of expressions, in any order, on one row. */
  lemma {:induction false} AllTransparent(r: Row, memo: Fields, es: seq<Ex>, defs: map<string, Ex>, avoid: set<string>)
    requires Coherent(r, memo, defs, avoid) && forall e | e in es :: Declared(e, defs, avoid)
    ensures EvalAll(r, memo, es).vs == Meanings(r, es) && Coherent(r, EvalAll(r, memo, es).memo, defs, avoid)
    decreases es
  {
    if es != [] {
      AllTransparent(r, memo, es[..|es| - 1], defs, avoid);
      MemoIsTransparent(r, EvalAll(r, memo, es[..|es| - 1]).memo, es[|es| - 1], defs, avoid);
    }
  }

  lemma {:induction false} MatchIsTransparent(r: Row, memo: Fields, x: Value, ws: seq<When>, defs: map<string, Ex>,
      avoid: set<string>)
    requires Coherent(r, memo, defs, avoid) && forall w | w in ws :: WhenDeclared(w, defs, avoid)
    ensures BranchAgrees(r, EvalMatch(r, memo, x, ws), MatchMeaning(r, x, ws), defs, avoid)
    decreases ws
  {
    if ws != [] {
      CondTransparent(r, memo, ws[0], defs, avoid);
      var y := EvalCond(r, memo, ws[0]);
      ResultTransparent(r, y.memo, ws[0], defs, avoid);
      MatchIsTransparent(r, y.memo, x, ws[1..], defs, avoid);
    }
  }

  lemma {:induction false} WhensIsTransparent(r: Row, memo: Fields, ws: seq<When>, defs: map<string, Ex>,
      avoid: set<string>)
    requires Coherent(r, memo, defs, avoid) && forall w | w in ws :: WhenDeclared(w, defs, avoid)
    ensures BranchAgrees(r, EvalWhens(r, memo, ws), WhensMeaning(r, ws), defs, avoid)
    decreases ws
  {
    if ws != [] {
      CondTransparent(r, memo, ws[0], defs, avoid);
      var y := EvalCond(r, memo, ws[0]);
      ResultTransparent(r, y.memo, ws[0], defs, avoid);
      WhensIsTransparent(r, y.memo, ws[1..], defs, avoid);
    }
  }

  ghost predicate BranchAgrees(r: Row, b: Branch, m: Option<Value>, defs: map<string, Ex>, avoid: set<string>) {
    match b
    case Branch(o) => m == Some(o.v) && Coherent(r, o.memo, defs, avoid)
    case NoBranch(memo) => m == None && Coherent(r, memo, defs, avoid)
  }

  lemma {:induction false} CondTransparent(r: Row, memo: Fields, w: When, defs: map<string, Ex>, avoid: set<string>)
    requires Coherent(r, memo, defs, avoid) && WhenDeclared(w, defs, avoid)
    ensures EvalCond(r, memo, w).v == CondMeaning(r, w) && Coherent(r, EvalCond(r, memo, w).memo, defs, avoid)
    decreases w
  {
    MemoIsTransparent(r, memo, w.cond, defs, avoid);
  }

  lemma {:induction false} ResultTransparent(r: Row, memo: Fields, w: When, defs: map<string, Ex>, avoid: set<string>)
    requires Coherent(r, memo, defs, avoid) && WhenDeclared(w, defs, avoid)
    ensures EvalResult(r, memo, w).v == ResultMeaning(r, w) && Coherent(r, EvalResult(r, memo, w).memo, defs, avoid)
    decreases w
  {
    MemoIsTransparent(r, memo, w.result, defs, avoid);
  }

  ghost predicate AllDeclared(es: seq<Ex>, defs: map<string, Ex>, avoid: set<string>) {
    forall e | e in es :: Declared(e, defs, avoid)
  }

  /** When no alias has the name of a column read without a qualifier, the order of evaluation
      does not matter: the same expression has the same value wherever it stands. */
  lemma {:induction false} AnyOrder(r: Row, es: seq<Ex>, fs: seq<Ex>, i: nat, j: nat, defs: map<string, Ex>)
    requires AllDeclared(es, defs, defs.Keys) && AllDeclared(fs, defs, defs.Keys)
    requires i < |es| && j < |fs| && es[i] == fs[j]
    ensures EvalAll(r, map[], es).vs[i] == Meaning(r, es[i]) == EvalAll(r, map[], fs).vs[j]
  {
    AllTransparent(r, map[], es, defs, defs.Keys);
    AllTransparent(r, map[], fs, defs, defs.Keys);
    MeaningsAt(r, es, i);
    MeaningsAt(r, fs, j);
  }

  lemma {:induction false} MeaningsAt(r: Row, es: seq<Ex>, i: nat)
    requires i < |es|
    ensures Meanings(r, es)[i] == Meaning(r, es[i])
    decreases es
  {
    if i < |es| - 1 {
      MeaningsAt(r, es[..|es| - 1], i);
    }
  }

  /** On a given row, with names free to clash: memory never changes a value exactly when every
      alias that can be read as a column agrees with that column. */
  lemma {:induction false} TransparentExactly(r: Row, defs: map<string, Ex>)
    requires forall n | n in defs :: Declared(defs[n], defs, {})
    ensures (forall es :: AllDeclared(es, defs, {}) ==> EvalAll(r, map[], es).vs == Meanings(r, es))
       <==> (forall n | n in defs :: Harmless(r, n, defs[n]))
  {
    if forall n | n in defs :: Harmless(r, n, defs[n]) {
      forall es | AllDeclared(es, defs, {}) ensures EvalAll(r, map[], es).vs == Meanings(r, es) {
        AllTransparent(r, map[], es, defs, {});
      }
    }
    if forall es :: AllDeclared(es, defs, {}) ==> EvalAll(r, map[], es).vs == Meanings(r, es) {
      forall n | n in defs ensures Harmless(r, n, defs[n]) {
        ClashShows(r, n, defs);
      }
    }
  }

  lemma OneMore(r: Row, memo: Fields, es: seq<Ex>, e: Ex)
    ensures var o := EvalAll(r, memo, es);
            EvalAll(r, memo, es + [e]) == Outs(o.vs + [Eval(r, o.memo, e).v], Eval(r, o.memo, e).memo)
  {
    assert (es + [e])[..|es|] == es;
  }

  lemma {:induction false} ClashShows(r: Row, n: string, defs: map<string, Ex>)
    requires n in defs && Declared(defs[n], defs, {})
    requires forall es :: AllDeclared(es, defs, {}) ==> EvalAll(r, map[], es).vs == Meanings(r, es)
    ensures Harmless(r, n, defs[n])
  {
    var a, c := Alias(n, defs[n]), ColumnRef("", n);
    var es := [a, c];
    assert AllDeclared(es, defs, {});
    MeaningsAt(r, es, 0);
    MeaningsAt(r, es, 1);
    OneMore(r, map[], [], a);
    OneMore(r, map[], [a], c);
    var first := EvalAll(r, map[], [a]);
    assert [] + [a] == [a] && [a] + [c] == es;
    assert EvalAll(r, map[], []) == Outs([], map[]);
    assert n in first.memo;
    assert n != "" ==> Read(r, first.memo, n, "") == first.memo[n];
  }

  /** `SELECT 1 AS a` beside a column `a` that holds 2: once the alias is computed, the column
      reads 1. */
  lemma ClashExample()
    ensures var r := Single("s", map["a" := VInt(2)], Affiliate(map[], map[]));
            var one := Alias("a", Lit(VInt(1)));
            && EvalAll(r, map[], [ColumnRef(DefaultStream, "a"), one]).vs == [VInt(2), VInt(1)]
            && EvalAll(r, map[], [one, ColumnRef(DefaultStream, "a")]).vs == [VInt(1), VInt(1)]
  {
    var r := Single("s", map["a" := VInt(2)], Affiliate(map[], map[]));
    var c, one := ColumnRef(DefaultStream, "a"), Alias("a", Lit(VInt(1)));
    assert [c, one][..1] == [c] && [one, c][..1] == [one];
    assert EvalAll(r, map[], [c]) == Outs([VInt(2)], map[]);
    assert EvalAll(r, map[], [one]) == Outs([VInt(1)], map["a" := VInt(1)]);
  }
}
