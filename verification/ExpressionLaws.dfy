/** How single expressions take their values: columns, arrows, indexes, sets and the choice of CASE. */
module ExpressionLaws {
  import opened Tokens
  import opened Values
  import opened Rows
  import opened Evaluation
  import opened AliasMemo

  /** A column without a qualifier is the alias of its name if there is one, else the computed
      column, else the one in the message; with a qualifier it is the one in the message. */
  lemma ColumnReads(r: Row, memo: Fields, name: string, stream: string)
    requires r.Single? && name != ""
    ensures var v, plain := Eval(r, memo, ColumnRef(stream, name)).v, stream == "" || stream == "$$default";
            && (plain && name in memo ==> v == memo[name])
            && (plain && name !in memo && name in r.aff.calCols ==> v == r.aff.calCols[name])
            && ((!plain || (name !in memo && name !in r.aff.calCols)) && name in r.message ==> v == r.message[name])
            && ((!plain || (name !in memo && name !in r.aff.calCols)) && name !in r.message ==> v == Nil)
  {
    var t := Table(stream);
    assert ReadColumn(WithMemo(r, memo), name, t) == Either(AffiliateValue(Affiliate(r.aff.calCols, memo), name, t), Get(r.message, name));
  }

  /** An arrow takes a field of a map, missing if the map has none of that name; maps go with no
      other operator, and with nothing else behind the arrow. */
  lemma ArrowReads(r: Row, l: Ex, op: Token, rhs: Ex)
    requires Meaning(r, l).VMap?
    ensures var m, v := Meaning(r, l).fields, Meaning(r, Bin(l, op, rhs));
            if op.ARROW? && rhs.JsonField? then v == if rhs.name in m then m[rhs.name] else Nil
            else v == VErr
  {
  }

  /** A whole number in brackets takes an element of a list, counted from the end if it is negative;
      there is no such element, and no other index, without an error. */
  lemma IndexReads(r: Row, l: Ex, i: Ex)
    requires Meaning(r, l).VList?
    ensures var xs, at, v := Meaning(r, l).elems, Meaning(r, i), Meaning(r, Bin(l, SUBSET, Index(i)));
            && (at.VInt? && 0 <= at.i < |xs| ==> v == xs[at.i])
            && (at.VInt? && -|xs| <= at.i < 0 ==> v == xs[|xs| - Magnitude(at.i)])
            && (!at.VInt? || at.i >= |xs| || at.i < -|xs| ==> v == VErr)
  {
  }

  /** Lists go with no operator but brackets. */
  lemma ListsTakeBrackets(r: Row, l: Ex, op: Token, rhs: Ex)
    requires Meaning(r, l).VList? && !op.SUBSET?
    ensures Meaning(r, Bin(l, op, rhs)) == VErr
  {
  }

  /** What is in a list that is missing, or is no list at all: nothing. */
  lemma NoList(r: Row, x: Ex, list: Ex)
    requires !Meaning(r, list).VList? && !Meaning(r, x).VErr? && !Composite(Meaning(r, x))
    ensures Meaning(r, Bin(x, IN, SetFrom(list))) == VBool(false)
    ensures Meaning(r, Bin(x, NOTIN, SetFrom(list))) == VBool(true)
  {
  }

  /** A list that is a column is searched as a written-out one is. */
  lemma ListIsSet(r: Row, x: Ex, op: Token, list: Ex, es: seq<Ex>)
    requires op.IN? || op.NOTIN?
    requires Meaning(r, list) == VList(Meanings(r, es))
    ensures Meaning(r, Bin(x, op, SetFrom(list))) == Meaning(r, Bin(x, op, SetOf(es)))
  {
  }

  /** What is no list cannot be searched and what is no pair is no range. */
  lemma NeitherListNorRange(r: Row, x: Ex, y: Ex)
    requires IsScalar(Meaning(r, x)) && IsScalar(Meaning(r, y))
    ensures Meaning(r, Bin(x, IN, y)) == VErr == Meaning(r, Bin(x, NOTIN, y))
    ensures Meaning(r, Bin(x, BETWEEN, y)) == VErr == Meaning(r, Bin(x, NOTBETWEEN, y))
  {
  }

  /** An error on the left is the value of the whole, and so is one on the right, unless the left
      side settles an AND or an OR. */
  lemma ErrorsPass(r: Row, l: Ex, op: Token, rhs: Ex)
    ensures Meaning(r, l).VErr? ==> Meaning(r, Bin(l, op, rhs)) == VErr
    ensures Meaning(r, rhs).VErr? && !Composite(Meaning(r, l)) ==>
              (Meaning(r, Bin(l, op, rhs)) == VErr
               <==> !(op.AND? && Meaning(r, l) == VBool(false)) && !(op.OR? && Meaning(r, l) == VBool(true)))
  {
  }

  /** On two booleans AND and OR are those of the tables, whether the right side is looked at or not. */
  lemma ConnectivesAreLogical(r: Row, l: Ex, rhs: Ex)
    requires Meaning(r, l).VBool? && Meaning(r, rhs).VBool?
    ensures Meaning(r, Bin(l, AND, rhs)) == VBool(Meaning(r, l).b && Meaning(r, rhs).b)
    ensures Meaning(r, Bin(l, OR, rhs)) == VBool(Meaning(r, l).b || Meaning(r, rhs).b)
  {
  }

  /** The clause that decides a searched CASE: its condition is true or fails, and those before are
      neither. */
  ghost predicate Decides(r: Row, ws: seq<When>, k: nat) {
    && k < |ws| && (Meaning(r, ws[k].cond) == VBool(true) || Meaning(r, ws[k].cond).VErr?)
    && forall i | 0 <= i < k :: Meaning(r, ws[i].cond) != VBool(true) && !Meaning(r, ws[i].cond).VErr?
  }

  function DecidedValue(r: Row, w: When): Value {
    if Meaning(r, w.cond).VErr? then VErr else Meaning(r, w.result)
  }

  /** A searched CASE has the value of the clause that decides it, an error if the condition fails,
      and without such a clause the value of ELSE, missing if there is none. */
  lemma {:induction false} CaseTakesFirst(r: Row, ws: seq<When>, els: Option<Ex>, k: nat)
    ensures Decides(r, ws, k) ==> Meaning(r, Case(None, ws, els)) == DecidedValue(r, ws[k])
    ensures (forall j: nat :: !Decides(r, ws, j)) ==>
              Meaning(r, Case(None, ws, els)) == if els.Some? then Meaning(r, els.value) else Nil
  {
    WhensTakeFirst(r, ws, k);
    hide WhensMeaning, Decides;
  }

  lemma {:induction false} WhensTakeFirst(r: Row, ws: seq<When>, k: nat)
    ensures Decides(r, ws, k) ==> WhensMeaning(r, ws) == Some(DecidedValue(r, ws[k]))
    ensures (forall j: nat :: !Decides(r, ws, j)) ==> WhensMeaning(r, ws) == None
    decreases ws
  {
    if ws != [] {
      var w := ws[0];
      assert CondMeaning(r, w) == Meaning(r, w.cond) && ResultMeaning(r, w) == Meaning(r, w.result);
      WhensTakeFirst(r, ws[1..], if k == 0 then 0 else k - 1);
      hide Meaning;
      if Meaning(r, w.cond) == VBool(true) || Meaning(r, w.cond).VErr? {
        assert Decides(r, ws, 0);
      } else {
        assert k > 0 && Decides(r, ws, k) ==> Decides(r, ws[1..], k - 1);
        forall j: nat | Decides(r, ws[1..], j)
          ensures Decides(r, ws, j + 1)
        {
        }
      }
    }
  }
}
