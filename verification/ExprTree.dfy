/** Expression trees, and the theory of growing one along its right spine. */
module ExprTrees {
  import opened Tokens

  datatype When = When(cond: Expr, result: Expr)

  datatype Expr =
    | Paren(e: Expr)
    | Binary(op: Token, lhs: Expr, rhs: Expr)
    | FieldRef(stream: string, name: string)
    | MetaRef(stream: string, name: string)
    | JsonFieldRef(name: string)
    | StringLiteral(val: string)
    | IntegerLiteral(text: string)
    | NumberLiteral(text: string)
    | BooleanLiteral(b: bool)
    | TimeLiteral(unit: Token)
    | Wildcard(except: seq<string>)
    | Case(value: Option<Expr>, whens: seq<When>, els: Option<Expr>)
    | ValueSet(elems: seq<Expr>)
    | Between(lower: Expr, higher: Expr)
    | Like(pattern: Expr)
    | Index(index: Expr)
    | Colon(start: Expr, end: Expr)

  /** An operator with the operand to its right. */
  datatype Item = Item(op: Token, operand: Expr)

  /** Adds `op operand` at the right end: walk down the right spine past the operators that
      bind less tightly, and put the new node above what is found there. */
  function Insert(t: Expr, op: Token, operand: Expr): (r: Expr)
    ensures r.Binary?
  {
    if t.Binary? && Precedence(t.op) < Precedence(op)
    then Binary(t.op, t.lhs, Insert(t.rhs, op, operand))
    else Binary(op, t, operand)
  }

  function InsertAll(t: Expr, items: seq<Item>): Expr
    decreases items
  {
    if items == [] then t
    else InsertAll(Insert(t, items[0].op, items[0].operand), items[1..])
  }

  /** The in-order reading of a tree: its leftmost operand, and then what follows it. */
  function First(t: Expr): (r: Expr)
    ensures !r.Binary?
  {
    if t.Binary? then First(t.lhs) else t
  }

  function Items(t: Expr): seq<Item> {
    if t.Binary? then Items(t.lhs) + [Item(t.op, First(t.rhs))] + Items(t.rhs) else []
  }

  predicate Operands(items: seq<Item>) {
    forall k :: 0 <= k < |items| ==> !items[k].operand.Binary?
  }

  /** Operators to the left of a node bind at least as tightly as it does, those to its
      right strictly more tightly, all the way down. */
  predicate Ordered(t: Expr) {
    t.Binary? ==>
      && Ordered(t.lhs) && Ordered(t.rhs)
      && (forall k :: 0 <= k < |Items(t.lhs)| ==> Precedence(Items(t.lhs)[k].op) >= Precedence(t.op))
      && (forall k :: 0 <= k < |Items(t.rhs)| ==> Precedence(Items(t.rhs)[k].op) > Precedence(t.op))
  }

  lemma {:induction false} ItemsAreOperands(t: Expr)
    ensures Operands(Items(t))
  {
    if t.Binary? {
      ItemsAreOperands(t.lhs);
      ItemsAreOperands(t.rhs);
    }
  }

  /** One insertion appends to the reading and keeps the order. */
  lemma {:induction false} InsertReads(t: Expr, op: Token, operand: Expr)
    requires !operand.Binary?
    ensures First(Insert(t, op, operand)) == First(t)
    ensures Items(Insert(t, op, operand)) == Items(t) + [Item(op, operand)]
    ensures Ordered(t) ==> Ordered(Insert(t, op, operand))
  {
    if t.Binary? && Precedence(t.op) < Precedence(op) {
      InsertReads(t.rhs, op, operand);
    } else if t.Binary? && Ordered(t) {
      SpineIsTightest(t, op);
    }
  }

  lemma SpineIsTightest(t: Expr, op: Token)
    requires t.Binary? && Ordered(t) && Precedence(t.op) >= Precedence(op)
    ensures forall k :: 0 <= k < |Items(t)| ==> Precedence(Items(t)[k].op) >= Precedence(op)
  {
    forall k | 0 <= k < |Items(t)|
      ensures Precedence(Items(t)[k].op) >= Precedence(op)
    {
      var n := |Items(t.lhs)|;
      if k < n {
        assert Items(t)[k] == Items(t.lhs)[k];
      } else if k > n {
        assert Items(t)[k] == Items(t.rhs)[k - n - 1];
      }
    }
  }

  /** The whole loop: any operand followed by any items reads back as itself, in order. */
  lemma {:induction false} InsertAllReads(t: Expr, items: seq<Item>)
    requires Ordered(t) && Operands(items)
    ensures First(InsertAll(t, items)) == First(t)
    ensures Items(InsertAll(t, items)) == Items(t) + items
    ensures Ordered(InsertAll(t, items))
    decreases items
  {
    if items != [] {
      var x := items[0];
      InsertReads(t, x.op, x.operand);
      InsertAllReads(Insert(t, x.op, x.operand), items[1..]);
      assert Items(t) + [x] + items[1..] == Items(t) + items;
    } else {
      assert Items(t) + items == Items(t);
    }
  }

  /** A reading has one ordered tree. */
  lemma {:induction false} OrderedIsUnique(s: Expr, t: Expr)
    requires Ordered(s) && Ordered(t)
    requires First(s) == First(t) && Items(s) == Items(t)
    ensures s == t
    decreases s
  {
    if s.Binary? {
      assert t.Binary?;
      var a, b := |Items(s.lhs)|, |Items(t.lhs)|;
      RootIsLastLowest(s);
      RootIsLastLowest(t);
      LastLowestIsUnique(Items(s), a, b);
      assert Items(s.lhs) == Items(s)[..a] == Items(t)[..a] == Items(t.lhs);
      assert Items(s.rhs) == Items(s)[a + 1..] == Items(t)[a + 1..] == Items(t.rhs);
      assert Items(s)[a] == Items(t)[a];
      OrderedIsUnique(s.lhs, t.lhs);
      OrderedIsUnique(s.rhs, t.rhs);
    } else {
      assert Items(s) == [];
    }
  }

  /** `k` is the last of the lowest operators. */
  predicate LastLowest(items: seq<Item>, k: nat) {
    && k < |items|
    && (forall j :: 0 <= j < k ==> Precedence(items[j].op) >= Precedence(items[k].op))
    && (forall j :: k < j < |items| ==> Precedence(items[j].op) > Precedence(items[k].op))
  }

  lemma RootIsLastLowest(t: Expr)
    requires t.Binary? && Ordered(t)
    ensures LastLowest(Items(t), |Items(t.lhs)|)
  {
    var items, n := Items(t), |Items(t.lhs)|;
    assert items[n] == Item(t.op, First(t.rhs));
    assert forall j :: 0 <= j < n ==> items[j] == Items(t.lhs)[j];
    assert forall j :: n < j < |items| ==> items[j] == Items(t.rhs)[j - n - 1];
  }

  lemma LastLowestIsUnique(items: seq<Item>, a: nat, b: nat)
    requires LastLowest(items, a) && LastLowest(items, b)
    ensures a == b
  {
    var pa, pb := Precedence(items[a].op), Precedence(items[b].op);
    assert a < b ==> pb > pa;
    assert b < a ==> pa > pb;
    assert a < b ==> pa >= pb;
    assert b < a ==> pb >= pa;
  }

  /** Reference parse: split at the last lowest operator. */
  function FindLastLowest(items: seq<Item>): (k: nat)
    requires items != []
    ensures LastLowest(items, k)
  {
    if |items| == 1 then 0
    else
      var k := FindLastLowest(items[1..]);
      if Precedence(items[0].op) < Precedence(items[k + 1].op) then
        assert forall j :: 1 <= j < |items| ==> items[j] == items[1..][j - 1];
        0
      else
        assert forall j :: 1 <= j < |items| ==> items[j] == items[1..][j - 1];
        k + 1
  }

  function SplitParse(first: Expr, items: seq<Item>): Expr
    decreases |items|
  {
    if items == [] then first
    else
      var k := FindLastLowest(items);
      Binary(items[k].op, SplitParse(first, items[..k]), SplitParse(items[k].operand, items[k + 1..]))
  }

  lemma JoinReads(items: seq<Item>, k: nat, l: Expr, r: Expr)
    requires LastLowest(items, k) && Ordered(l) && Ordered(r)
    requires Items(l) == items[..k] && Items(r) == items[k + 1..] && First(r) == items[k].operand
    ensures Ordered(Binary(items[k].op, l, r)) && Items(Binary(items[k].op, l, r)) == items
  {
    assert items == items[..k] + [items[k]] + items[k + 1..];
  }

  lemma {:induction false} SplitParseReads(first: Expr, items: seq<Item>)
    requires !first.Binary? && Operands(items)
    ensures Ordered(SplitParse(first, items))
    ensures First(SplitParse(first, items)) == first && Items(SplitParse(first, items)) == items
    decreases |items|
  {
    if items != [] {
      var k := FindLastLowest(items);
      SplitParseReads(first, items[..k]);
      SplitParseReads(items[k].operand, items[k + 1..]);
      JoinReads(items, k, SplitParse(first, items[..k]), SplitParse(items[k].operand, items[k + 1..]));
    }
  }

  /** Right-spine insertion, one operator at a time, is the reference parse. */
  lemma InsertionIsSplitParse(first: Expr, items: seq<Item>)
    requires !first.Binary? && Operands(items)
    ensures InsertAll(first, items) == SplitParse(first, items)
  {
    InsertAllReads(first, items);
    SplitParseReads(first, items);
    OrderedIsUnique(InsertAll(first, items), SplitParse(first, items));
  }

  /** Every ordered tree is rebuilt by inserting its own reading. */
  lemma RebuildOrdered(t: Expr)
    requires Ordered(t)
    ensures InsertAll(First(t), Items(t)) == t
  {
    ItemsAreOperands(t);
    assert Ordered(First(t)) && Items(First(t)) == [];
    hide Ordered, Items, InsertAll;
    InsertAllReads(First(t), Items(t));
    assert [] + Items(t) == Items(t);
    OrderedIsUnique(InsertAll(First(t), Items(t)), t);
  }

  lemma {:induction false} InsertAllAppends(t: Expr, a: seq<Item>, b: seq<Item>)
    ensures InsertAll(InsertAll(t, a), b) == InsertAll(t, a + b)
    decreases a
  {
    if a == [] {
      assert a + b == b;
    } else {
      InsertAllAppends(Insert(t, a[0].op, a[0].operand), a[1..], b);
      assert (a + b)[1..] == a[1..] + b;
    }
  }

  predicate Below(t: Expr, op: Token) {
    t.Binary? && Precedence(t.op) < Precedence(op)
  }

  lemma InsertStep(t: Expr, op: Token, e: Expr)
    ensures Insert(t, op, e) == if Below(t, op) then Binary(t.op, t.lhs, Insert(t.rhs, op, e)) else Binary(op, t, e)
  {
  }
}
