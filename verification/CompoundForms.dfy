/** What IN, BETWEEN and CASE mean in terms of the simple operators, and when they differ. */
module CompoundForms {
  import opened Tokens
  import opened Values
  import opened Rows
  import opened Evaluation
  import opened AliasMemo

  lemma Comparisons(x: Value, y: Value, op: Token)
    requires IsRelation(op)
    ensures SimpleDataEval(x, y, op).VBool? || SimpleDataEval(x, y, op).VErr?
    ensures x.Nil? || y.Nil? ==> SimpleDataEval(x, y, op) == VBool(false)
    ensures !(x.Nil? || y.Nil?) && !(IsScalar(x) && IsScalar(y)) ==> SimpleDataEval(x, y, op).VErr?
  {
  }

  /** A value on which every simple operator fails before it looks at the other side. */
  predicate Unfit(x: Value) {
    x.VErr? || Composite(x)
  }

  lemma Compare(r: Row, x: Ex, op: Token, y: Ex)
    requires IsRelation(op)
    ensures var a, b := Meaning(r, x), Meaning(r, y);
            Meaning(r, Bin(x, op, y)) == if Unfit(a) || b.VErr? then VErr else SimpleDataEval(a, b, op)
  {
  }

  lemma Connect(r: Row, x: Ex, y: Ex)
    requires Meaning(r, x).VBool? || Meaning(r, x).VErr?
    requires Meaning(r, y).VBool? || Meaning(r, y).VErr?
    ensures Meaning(r, Bin(x, OR, y)) == if Meaning(r, x) == VBool(false) then Meaning(r, y) else Meaning(r, x)
    ensures Meaning(r, Bin(x, AND, y)) == if Meaning(r, x) == VBool(true) then Meaning(r, y) else Meaning(r, x)
  {
  }

  function OrChain(x: Ex, es: seq<Ex>): Ex
    requires es != []
  {
    var last := Bin(x, EQ, es[|es| - 1]);
    if |es| == 1 then last else Bin(OrChain(x, es[..|es| - 1]), OR, last)
  }

  ghost predicate SomeFails(r: Row, es: seq<Ex>) {
    exists e :: e in es && Meaning(r, e).VErr?
  }

  lemma {:induction false} MemberSnoc(x: Value, vs: seq<Value>, y: Value)
    ensures Member(x, vs + [y]) == if Member(x, vs) == VBool(false) then SameValue(x, y) else Member(x, vs)
    ensures Member(x, vs).VBool? || Member(x, vs).VErr?
  {
    if vs == [] {
      Comparisons(x, y, EQ);
      assert [y][1..] == [];
    } else {
      Comparisons(x, vs[0], EQ);
      MemberSnoc(x, vs[1..], y);
      assert (vs + [y])[1..] == vs[1..] + [y];
    }
  }

  /** The chain's value for each kind of left side. */
  lemma {:induction false} OrChainValue(r: Row, x: Ex, es: seq<Ex>)
    requires es != []
    ensures Unfit(Meaning(r, x)) ==> Meaning(r, OrChain(x, es)) == VErr
    ensures Meaning(r, x).Nil? ==> Meaning(r, OrChain(x, es)) == if SomeFails(r, es) then VErr else VBool(false)
    ensures !Unfit(Meaning(r, x)) && !Meaning(r, x).Nil? ==> Meaning(r, OrChain(x, es)) == Member(Meaning(r, x), Meanings(r, es))
  {
    hide SimpleDataEval, Meaning, OrChain;
    var before, last := es[..|es| - 1], es[|es| - 1];
    assert es == before + [last];
    assert Meanings(r, es) == Meanings(r, before) + [Meaning(r, last)];
    assert Member(Meaning(r, x), []) == VBool(false);
    hide Meanings, Member;
    Comparisons(Meaning(r, x), Meaning(r, last), EQ);
    Compare(r, x, EQ, last);
    MemberSnoc(Meaning(r, x), Meanings(r, before), Meaning(r, last));
    assert SomeFails(r, es) <==> SomeFails(r, before) || Meaning(r, last).VErr?;
    OrChainStep(x, es);
    if |es| > 1 {
      OrChainValue(r, x, before);
      Connect(r, OrChain(x, before), Bin(x, EQ, last));
    } else {
      assert before == [] && Meanings(r, before) == [];
    }
  }

  lemma OrChainStep(x: Ex, es: seq<Ex>)
    requires es != []
    ensures var last := Bin(x, EQ, es[|es| - 1]);
            OrChain(x, es) == if |es| == 1 then last else Bin(OrChain(x, es[..|es| - 1]), OR, last)
  {
  }

  /** `x IN (e1, ..., en)` is `x = e1 OR ... OR x = en`, in value and in failure, exactly unless
      `x` is missing and some element fails. */
  lemma {:induction false} InIsOrChain(r: Row, x: Ex, es: seq<Ex>)
    requires es != []
    ensures Meaning(r, Bin(x, IN, SetOf(es))) == Meaning(r, OrChain(x, es))
       <==> !(Meaning(r, x).Nil? && SomeFails(r, es))
  {
    OrChainValue(r, x, es);
    MemberSnoc(Meaning(r, x), Meanings(r, es), Nil);
  }

  /** The negation of a truth value; an error stays an error. */
  function Negated(v: Value): Value {
    if v.VBool? then VBool(!v.b) else v
  }

  lemma {:induction false} NotInIsComplement(r: Row, x: Ex, es: seq<Ex>)
    ensures Meaning(r, Bin(x, NOTIN, SetOf(es))) == Negated(Meaning(r, Bin(x, IN, SetOf(es)))) <==> !Meaning(r, x).Nil?
  {
    MemberSnoc(Meaning(r, x), Meanings(r, es), Nil);
  }

  function TwoSided(x: Ex, lo: Ex, hi: Ex): Ex {
    Bin(Bin(x, GTE, lo), AND, Bin(x, LTE, hi))
  }

  predicate SomeMissing(x: Value, lo: Value, hi: Value) {
    x.Nil? || lo.Nil? || hi.Nil?
  }

  /** `x BETWEEN lo AND hi` is `x >= lo AND x <= hi` exactly unless a missing operand hides that
      the lower comparison fails, or the lower one is false and the upper one fails. */
  lemma {:induction false} BetweenIsTwoSided(r: Row, x: Ex, lo: Ex, hi: Ex)
    ensures var a := Meaning(r, x);
            var missing := SomeMissing(a, Meaning(r, lo), Meaning(r, hi));
            var above, below := Meaning(r, Bin(x, GTE, lo)), Meaning(r, Bin(x, LTE, hi));
            Meaning(r, Bin(x, BETWEEN, Between(lo, hi))) == Meaning(r, TwoSided(x, lo, hi))
            <==> Unfit(a) || !((missing && above.VErr?) || (!missing && above == VBool(false) && below.VErr?))
  {
    var a := Meaning(r, x);
    Comparisons(a, Meaning(r, lo), GTE);
    Comparisons(a, Meaning(r, hi), LTE);
    Compare(r, x, GTE, lo);
    Compare(r, x, LTE, hi);
    Connect(r, Bin(x, GTE, lo), Bin(x, LTE, hi));
    RangeValue(r, x, BETWEEN, lo, hi);
    hide SimpleDataEval, Meaning;
  }

  lemma RangeValue(r: Row, x: Ex, op: Token, lo: Ex, hi: Ex)
    requires op.BETWEEN? || op.NOTBETWEEN?
    ensures var a, b, c := Meaning(r, x), Meaning(r, lo), Meaning(r, hi);
            var above, below := SimpleDataEval(a, b, GTE), SimpleDataEval(a, c, LTE);
            Meaning(r, Bin(x, op, Between(lo, hi))) ==
            if Unfit(a) then VErr
            else if SomeMissing(a, b, c) then VBool(false)
            else if above.VErr? || below.VErr? then VErr
            else VBool((above == below == VBool(true)) == op.BETWEEN?)
  {
    var a, b, c := Meaning(r, x), Meaning(r, lo), Meaning(r, hi);
    assert Meaning(r, Between(lo, hi)) == Bounds(b, c);
    hide SimpleDataEval, InRange;
    RangeOf(a, op, b, c);
    if !Unfit(a) {
      assert Meaning(r, Bin(x, op, Between(lo, hi))) == InRange(a, op, Bounds(b, c));
    }
  }

  lemma RangeOf(a: Value, op: Token, b: Value, c: Value)
    requires op.BETWEEN? || op.NOTBETWEEN?
    ensures var above, below := SimpleDataEval(a, b, GTE), SimpleDataEval(a, c, LTE);
            InRange(a, op, Bounds(b, c)) ==
            if SomeMissing(a, b, c) then VBool(false)
            else if above.VErr? || below.VErr? then VErr
            else VBool((above == below == VBool(true)) == op.BETWEEN?)
  {
    Comparisons(a, b, GTE);
    Comparisons(a, c, LTE);
  }

  /** For operands that compare, it is true exactly inside the closed range. */
  lemma {:induction false} BetweenOnIntegers(r: Row, x: Ex, lo: Ex, hi: Ex)
    requires Meaning(r, x).VInt? && Meaning(r, lo).VInt? && Meaning(r, hi).VInt?
    ensures Meaning(r, Bin(x, BETWEEN, Between(lo, hi))) == VBool(Meaning(r, lo).i <= Meaning(r, x).i <= Meaning(r, hi).i)
  {
  }

  lemma {:induction false} NotBetweenIsComplement(r: Row, x: Ex, lo: Ex, hi: Ex)
    ensures Meaning(r, Bin(x, NOTBETWEEN, Between(lo, hi))) == Negated(Meaning(r, Bin(x, BETWEEN, Between(lo, hi))))
       <==> Unfit(Meaning(r, x)) || !SomeMissing(Meaning(r, x), Meaning(r, lo), Meaning(r, hi))
  {
    RangeValue(r, x, BETWEEN, lo, hi);
    RangeValue(r, x, NOTBETWEEN, lo, hi);
    hide SimpleDataEval, Meaning;
  }

  /** The clauses with each value compared to `x`. */
  function Compared(x: Ex, ws: seq<When>): (r: seq<When>)
    ensures |r| == |ws|
  {
    if ws == [] then [] else [When(Bin(x, EQ, ws[0].cond), ws[0].result)] + Compared(x, ws[1..])
  }

  ghost predicate SomeFailing(r: Row, ws: seq<When>) {
    exists w :: w in ws && CondMeaning(r, w).VErr?
  }

  ghost predicate AllMissing(r: Row, ws: seq<When>) {
    forall w | w in ws :: CondMeaning(r, w).Nil?
  }

  lemma {:induction false} MatchIsWhens(r: Row, x: Ex, ws: seq<When>)
    ensures var a := Meaning(r, x);
            var m, s := MatchMeaning(r, a, ws), WhensMeaning(r, Compared(x, ws));
            && (!Unfit(a) && !a.Nil? ==> m == s)
            && (a.Nil? ==> m == None && s == if SomeFailing(r, ws) then Some(VErr) else None)
            && (Unfit(a) ==> m == (if AllMissing(r, ws) then None else Some(VErr)) && s == if ws == [] then None else Some(VErr))
  {
    if ws != [] {
      var c := Compared(x, ws);
      assert c[1..] == Compared(x, ws[1..]) && c[0] == When(Bin(x, EQ, ws[0].cond), ws[0].result);
      Comparisons(Meaning(r, x), Meaning(r, ws[0].cond), EQ);
      Compare(r, x, EQ, ws[0].cond);
      hide SimpleDataEval, Meaning;
      assert ws == [ws[0]] + ws[1..];
      MatchIsWhens(r, x, ws[1..]);
      assert SomeFailing(r, ws) <==> CondMeaning(r, ws[0]).VErr? || SomeFailing(r, ws[1..]);
      assert AllMissing(r, ws) <==> CondMeaning(r, ws[0]).Nil? && AllMissing(r, ws[1..]);
    }
  }

  /** `CASE x WHEN w ...` is `CASE WHEN x = w ...` for every `x` that has a simple value; for a
      missing one exactly unless some clause fails; for a failed or composite one exactly when
      some clause has a value to fail on. A failing ELSE hides the difference. */
  lemma {:induction false} CaseIsSearchedCase(r: Row, x: Ex, ws: seq<When>, els: Option<Ex>)
    ensures var a := Meaning(r, x);
            Meaning(r, Case(Some(x), ws, els)) == Meaning(r, Case(None, Compared(x, ws), els))
            <==> (&& (a.Nil? && SomeFailing(r, ws) ==> els.Some? && Meaning(r, els.value).VErr?)
                  && (Unfit(a) && ws != [] && AllMissing(r, ws) ==> els.Some? && Meaning(r, els.value).VErr?))
  {
    MatchIsWhens(r, x, ws);
  }
}
