/** The values of expressions, and what the simple operators do with two of them. */
module Values {
  import opened Tokens

  type Int64 = x: int | -0x8000_0000_0000_0000 <= x < 0x8000_0000_0000_0000

  datatype Value =
    | Nil
    | VBool(b: bool)
    | VInt(i: Int64)
    | VStr(s: string)
    | VList(elems: seq<Value>)
    | VMap(fields: map<string, Value>)
    | VIndex(at: Int64)
    | VErr

  predicate IsScalar(v: Value) {
    v.VBool? || v.VInt? || v.VStr?
  }

  /** Two's complement wrap-around. */
  function Wrap(x: int): Int64 {
    (x + 0x8000_0000_0000_0000) % 0x1_0000_0000_0000_0000 - 0x8000_0000_0000_0000
  }

  /** Division truncates toward zero. */
  function Quotient(a: int, b: int): int
    requires b != 0
  {
    var q := (if a < 0 then -a else a) / (if b < 0 then -b else b);
    if (a < 0) == (b < 0) then q else -q
  }

  function Bit(op: Token, x: nat, y: nat): nat {
    if op.BITWISE_AND? then if x == 1 && y == 1 then 1 else 0
    else if op.BITWISE_OR? then if x == 1 || y == 1 then 1 else 0
    else if x != y then 1 else 0
  }

  function Bitwise(op: Token, x: nat, y: nat, width: nat): nat {
    if width == 0 then 0 else Bit(op, x % 2, y % 2) + 2 * Bitwise(op, x / 2, y / 2, width - 1)
  }

  function Unsigned(x: Int64): nat {
    if x < 0 then x + 0x1_0000_0000_0000_0000 else x
  }

  function StrLess(a: string, b: string): bool {
    if b == [] then false
    else if a == [] then true
    else if a[0] != b[0] then a[0] < b[0]
    else StrLess(a[1..], b[1..])
  }

  predicate IsRelation(op: Token) {
    op.EQ? || op.NEQ? || op.LT? || op.LTE? || op.GT? || op.GTE?
  }

  function Relate(op: Token, less: bool, equal: bool): bool
    requires IsRelation(op)
  {
    if op.EQ? then equal
    else if op.NEQ? then !equal
    else if op.LT? then less
    else if op.LTE? then less || equal
    else if op.GT? then !less && !equal
    else !less
  }

  function BoolOp(op: Token, a: bool, b: bool): Value {
    if op.AND? || op.BITWISE_AND? then VBool(a && b)
    else if op.OR? || op.BITWISE_OR? then VBool(a || b)
    else if op.BITWISE_XOR? || op.NEQ? then VBool(a != b)
    else if op.EQ? then VBool(a == b)
    else VErr
  }

  function IntOp(op: Token, a: Int64, b: Int64): Value {
    if IsRelation(op) then VBool(Relate(op, a < b, a == b))
    else if op.ADD? then VInt(Wrap(a + b))
    else if op.SUB? then VInt(Wrap(a - b))
    else if op.MUL? then VInt(Wrap(a * b))
    else if op.DIV? then if b == 0 then VErr else VInt(Wrap(Quotient(a, b)))
    else if op.MOD? then if b == 0 then VErr else VInt(Wrap(a - b * Quotient(a, b)))
    else if op.BITWISE_AND? || op.BITWISE_OR? || op.BITWISE_XOR?
    then VInt(Wrap(Bitwise(op, Unsigned(a), Unsigned(b), 64)))
    else VErr
  }

  /** The operators on simple values. A missing operand makes a comparison false; values of
      different types do not compare. */
  function SimpleDataEval(l: Value, r: Value, op: Token): Value {
    if l.Nil? || r.Nil? then
      if IsRelation(op) || op.AND? || op.OR? || op.BITWISE_AND? || op.BITWISE_OR? || op.BITWISE_XOR? then VBool(false) else Nil
    else if l.VBool? && r.VBool? then BoolOp(op, l.b, r.b)
    else if l.VInt? && r.VInt? then IntOp(op, l.i, r.i)
    else if l.VStr? && r.VStr? && IsRelation(op) then VBool(Relate(op, StrLess(l.s, r.s), l.s == r.s))
    else VErr
  }

  lemma {:induction false} StrLessIsTotalOrder(a: string, b: string)
    ensures !(StrLess(a, b) && StrLess(b, a))
    ensures StrLess(a, b) || a == b || StrLess(b, a)
    ensures StrLess(a, b) ==> a != b
  {
    if a != [] && b != [] && a[0] == b[0] {
      StrLessIsTotalOrder(a[1..], b[1..]);
      assert a == [a[0]] + a[1..] && b == [b[0]] + b[1..];
    }
  }

  lemma {:induction false} StrLessIsTransitive(a: string, b: string, c: string)
    requires StrLess(a, b) && StrLess(b, c)
    ensures StrLess(a, c)
  {
    if a != [] && a[0] == b[0] == c[0] {
      StrLessIsTransitive(a[1..], b[1..], c[1..]);
    }
  }

  /** Wrapping stays in range and differs by a multiple of two to the 64. */
  lemma WrapIsCongruent(x: int)
    ensures exists k :: Wrap(x) == x + k * 0x1_0000_0000_0000_0000
    ensures -0x8000_0000_0000_0000 <= x < 0x8000_0000_0000_0000 ==> Wrap(x) == x
  {
    var n := x + 0x8000_0000_0000_0000;
    var k := -(n / 0x1_0000_0000_0000_0000);
    assert Wrap(x) == x + k * 0x1_0000_0000_0000_0000;
  }

  lemma Signs(y: int, q: int)
    ensures (-y) * (-q) == y * q && (-y) * q == -(y * q) && y * (-q) == -(y * q)
  {
  }

  function Magnitude(a: int): nat {
    if a < 0 then -a else a
  }

  /** What is taken away from the dividend, by its size: the quotient truncates toward zero. */
  lemma QuotientTimes(a: int, b: int)
    requires b != 0
    ensures var m := Magnitude(b) * (Magnitude(a) / Magnitude(b)); b * Quotient(a, b) == if a < 0 then -m else m
  {
    Signs(Magnitude(b), Magnitude(a) / Magnitude(b));
  }

  /** The remainder is smaller than the divisor and has the sign of the dividend. */
  lemma QuotientTruncates(a: int, b: int)
    requires b != 0
    ensures var r := a - b * Quotient(a, b);
            Magnitude(r) < Magnitude(b) && (a >= 0 ==> r >= 0) && (a <= 0 ==> r <= 0)
  {
    var x, y := Magnitude(a), Magnitude(b);
    QuotientTimes(a, b);
    DivisionFacts(x, y);
    hide Quotient;
  }

  lemma DivisionFacts(x: nat, y: nat)
    requires y > 0
    ensures x - y * (x / y) == x % y < y && x / y <= x && (y > 1 && x > 0 ==> x / y < x)
  {
    ProductGrows(y, x / y);
  }

  lemma ProductGrows(y: nat, q: nat)
    requires y > 0
    ensures y * q >= q && (y > 1 && q > 0 ==> y * q > q)
  {
    assert y * q == q + (y - 1) * q;
  }

  /** Division and remainder fit together; only the least number divided by -1 wraps around. */
  lemma DivisionAndRemainder(a: Int64, b: Int64)
    requires b != 0
    ensures IntOp(DIV, a, b).VInt? && IntOp(MOD, a, b).VInt?
    ensures IntOp(MOD, a, b).i == a - b * Quotient(a, b)
    ensures !(a == -0x8000_0000_0000_0000 && b == -1) ==> a == b * IntOp(DIV, a, b).i + IntOp(MOD, a, b).i
    ensures a == -0x8000_0000_0000_0000 && b == -1 ==> IntOp(DIV, a, b).i == a && IntOp(MOD, a, b).i == 0
  {
    QuotientTruncates(a, b);
    QuotientShrinks(a, b);
    var q, r := Quotient(a, b), a - b * Quotient(a, b);
    hide Quotient, Wrap;
    WrapIsCongruent(r);
    assert IntOp(MOD, a, b).i == r;
    if a == -0x8000_0000_0000_0000 && b == -1 {
      assert Wrap(0x8000_0000_0000_0000) == a by { LeastWraps(); }
    } else {
      WrapIsCongruent(q);
    }
  }

  lemma LeastWraps()
    ensures Wrap(0x8000_0000_0000_0000) == -0x8000_0000_0000_0000
  {
  }

  lemma QuotientShrinks(a: int, b: int)
    requires b != 0
    ensures Magnitude(Quotient(a, b)) <= Magnitude(a)
    ensures a < 0 && b != -1 ==> Quotient(a, b) < -a
    ensures b == -1 ==> Quotient(a, b) == -a
  {
    DivisionFacts(Magnitude(a), Magnitude(b));
  }

  /** For two present values that compare, exactly one of less, equal and greater holds, and the
      other three are their complements. */
  lemma OneRelationHolds(l: Value, r: Value)
    requires (l.VInt? && r.VInt?) || (l.VStr? && r.VStr?)
    ensures forall op :: IsRelation(op) ==> SimpleDataEval(l, r, op).VBool?
    ensures var lt, eq, gt := SimpleDataEval(l, r, LT).b, SimpleDataEval(l, r, EQ).b, SimpleDataEval(l, r, GT).b;
            && (lt || eq || gt) && !(lt && eq) && !(lt && gt) && !(eq && gt)
            && gt == SimpleDataEval(r, l, LT).b
            && SimpleDataEval(l, r, NEQ).b == !eq && SimpleDataEval(l, r, LTE).b == !gt && SimpleDataEval(l, r, GTE).b == !lt
    ensures SimpleDataEval(l, r, EQ).b <==> l == r
  {
    if l.VStr? {
      StrLessIsTotalOrder(l.s, r.s);
    }
  }

  function Pow2(k: nat): nat {
    if k == 0 then 1 else 2 * Pow2(k - 1)
  }

  function BitAt(x: nat, k: nat): nat
    decreases k
  {
    if k == 0 then x % 2 else BitAt(x / 2, k - 1)
  }

  /** A bitwise operation works on every bit alone and sets no bit beyond the width. */
  lemma {:induction false} BitwiseIsBitByBit(op: Token, x: nat, y: nat, width: nat, k: nat)
    ensures BitAt(Bitwise(op, x, y, width), k) == if k < width then Bit(op, BitAt(x, k), BitAt(y, k)) else 0
    ensures Bitwise(op, x, y, width) < Pow2(width)
    decreases width
  {
    if width == 0 {
      ZeroBits(k);
    } else {
      var rest := Bitwise(op, x / 2, y / 2, width - 1);
      assert Bitwise(op, x, y, width) / 2 == rest;
      BitwiseIsBitByBit(op, x / 2, y / 2, width - 1, if k == 0 then 0 else k - 1);
    }
  }

  lemma {:induction false} ZeroBits(k: nat)
    ensures BitAt(0, k) == 0
    decreases k
  {
    if k > 0 {
      ZeroBits(k - 1);
    }
  }

  // ----- what each operator is -----

  predicate Congruent(x: int, y: int) {
    (x - y) % 0x1_0000_0000_0000_0000 == 0
  }

  /** What an arithmetic operator stands for. */
  ghost predicate Stands(op: Token, a: int, b: int, exact: int) {
    (op.ADD? && exact - b == a) || (op.SUB? && exact + b == a) || (op.MUL? && exact == a * b)
  }

  /** Sums, differences and products of integers are exact modulo two to the 64, and exact when
      they fit. */
  lemma ArithmeticIsExact(op: Token, a: Int64, b: Int64, exact: int)
    requires Stands(op, a, b, exact)
    ensures var r := SimpleDataEval(VInt(a), VInt(b), op);
            r.VInt? && Congruent(r.i, exact) && (-0x8000_0000_0000_0000 <= exact < 0x8000_0000_0000_0000 ==> r.i == exact)
  {
    assert SimpleDataEval(VInt(a), VInt(b), op) == VInt(Wrap(exact));
    var n := exact + 0x8000_0000_0000_0000;
    assert exact - Wrap(exact) == n / 0x1_0000_0000_0000_0000 * 0x1_0000_0000_0000_0000;
  }

  /** Dividing by zero is the only error of integer arithmetic. */
  lemma DivisionFails(op: Token, a: Int64, b: Int64)
    requires op.ADD? || op.SUB? || op.MUL? || op.DIV? || op.MOD?
    ensures SimpleDataEval(VInt(a), VInt(b), op).VErr? <==> (op.DIV? || op.MOD?) && b == 0
  {
  }

  /** The values of an operator on false and true: both false, only the right one true, only the
      left one true, both true. */
  function TruthTable(op: Token): seq<Value> {
    var f, t := VBool(false), VBool(true);
    [SimpleDataEval(f, f, op), SimpleDataEval(f, t, op), SimpleDataEval(t, f, op), SimpleDataEval(t, t, op)]
  }

  lemma TruthTables(op: Token)
    ensures var f, t := VBool(false), VBool(true);
            && (op.AND? || op.BITWISE_AND? ==> TruthTable(op) == [f, f, f, t])
            && (op.OR? || op.BITWISE_OR? ==> TruthTable(op) == [f, t, t, t])
            && (op.BITWISE_XOR? || op.NEQ? ==> TruthTable(op) == [f, t, t, f])
            && (op.EQ? ==> TruthTable(op) == [t, f, f, t])
    ensures op !in {AND, OR, BITWISE_AND, BITWISE_OR, BITWISE_XOR, EQ, NEQ} ==> TruthTable(op) == [VErr, VErr, VErr, VErr]
  {
  }

  /** Comparing integers is comparing numbers, comparing strings is comparing at the first place
      where they differ. */
  lemma LessIsLess(l: Value, r: Value)
    ensures l.VInt? && r.VInt? ==> SimpleDataEval(l, r, LT) == VBool(l.i < r.i)
    ensures l.VStr? && r.VStr? ==> SimpleDataEval(l, r, LT) == VBool(exists k: nat :: FirstDifference(l.s, r.s, k))
  {
    if l.VStr? && r.VStr? {
      StrLessExactly(l.s, r.s);
    }
  }

  /** The strings are the same up to `k`, and there the first one ends or has the lesser letter. */
  ghost predicate FirstDifference(a: string, b: string, k: nat) {
    && k <= |a| && k < |b| && (k < |a| ==> a[k] < b[k])
    && (forall i | 0 <= i < k :: a[i] == b[i])
  }

  lemma {:induction false} StrLessExactly(a: string, b: string)
    ensures StrLess(a, b) <==> exists k: nat :: FirstDifference(a, b, k)
  {
    if a != [] && b != [] && a[0] == b[0] {
      StrLessExactly(a[1..], b[1..]);
      if k: nat :| FirstDifference(a[1..], b[1..], k) {
        assert FirstDifference(a, b, k + 1);
      }
      if k: nat :| FirstDifference(a, b, k) {
        assert k > 0 && FirstDifference(a[1..], b[1..], k - 1);
      }
    } else if a == [] && b != [] {
      assert FirstDifference(a, b, 0);
    } else if a != [] && b != [] && a[0] < b[0] {
      assert FirstDifference(a, b, 0);
    }
  }

  /** A missing operand makes a comparison or a connective false and anything else missing. */
  lemma MissingOperand(l: Value, r: Value, op: Token)
    requires l.Nil? || r.Nil?
    ensures SimpleDataEval(l, r, op) == VBool(false) || SimpleDataEval(l, r, op) == Nil
    ensures SimpleDataEval(l, r, op) == VBool(false)
       <==> op in {EQ, NEQ, LT, LTE, GT, GTE, AND, OR, BITWISE_AND, BITWISE_OR, BITWISE_XOR}
  {
  }

  /** Present values of different types go with no operator, strings only with comparisons. */
  lemma UnlikeOperands(l: Value, r: Value, op: Token)
    requires IsScalar(l) && IsScalar(r)
    ensures (l.VBool? != r.VBool?) || (l.VInt? != r.VInt?) || (l.VStr? && op !in {EQ, NEQ, LT, LTE, GT, GTE})
      ==> SimpleDataEval(l, r, op) == VErr
  {
  }

  /** The values of an operator on the bits 0 and 1, in the order of `TruthTable`. */
  lemma BitTables()
    ensures [Bit(BITWISE_AND, 0, 0), Bit(BITWISE_AND, 0, 1), Bit(BITWISE_AND, 1, 0), Bit(BITWISE_AND, 1, 1)] == [0, 0, 0, 1]
    ensures [Bit(BITWISE_OR, 0, 0), Bit(BITWISE_OR, 0, 1), Bit(BITWISE_OR, 1, 0), Bit(BITWISE_OR, 1, 1)] == [0, 1, 1, 1]
    ensures [Bit(BITWISE_XOR, 0, 0), Bit(BITWISE_XOR, 0, 1), Bit(BITWISE_XOR, 1, 0), Bit(BITWISE_XOR, 1, 1)] == [0, 1, 1, 0]
  {
  }

  /** The bits of an integer in two's complement. */
  function BitOf(x: Int64, k: nat): nat {
    BitAt(Unsigned(x), k)
  }

  /** The bitwise operators on integers, negative ones too: each of the 64 bits by its table. */
  lemma BitwiseOnIntegers(op: Token, a: Int64, b: Int64, k: nat)
    requires (op.BITWISE_AND? || op.BITWISE_OR? || op.BITWISE_XOR?) && k < 64
    ensures var r := SimpleDataEval(VInt(a), VInt(b), op);
            r.VInt? && BitOf(r.i, k) == Bit(op, BitOf(a, k), BitOf(b, k))
  {
    hide Bitwise, Pow2, BitAt, Bit;
    var x := Bitwise(op, Unsigned(a), Unsigned(b), 64);
    BitwiseIsBitByBit(op, Unsigned(a), Unsigned(b), 64, k);
    Pow2Is64();
    assert SimpleDataEval(VInt(a), VInt(b), op) == VInt(Wrap(x));
    assert Unsigned(Wrap(x)) == x;
  }

  lemma Pow2Is64()
    ensures Pow2(64) == 0x1_0000_0000_0000_0000
  {
    assert Pow2(4) == 16;
    Pow2Adds(4, 4);
    Pow2Adds(8, 8);
    Pow2Adds(16, 16);
    Pow2Adds(32, 32);
    hide Pow2;
  }

  lemma {:induction false} Pow2Adds(a: nat, b: nat)
    ensures Pow2(a + b) == Pow2(a) * Pow2(b)
    decreases a
  {
    if a > 0 {
      Pow2Adds(a - 1, b);
    }
  }
}
