/** Sorting rows by several keys. */
module Sorter {
  import opened Tokens
  import opened Values
  import opened Rows

  datatype Field = Field(uname: string, ascending: bool)

  function KeyAt(p: Fields, n: string): Value {
    if n in p then p[n] else Nil
  }

  predicate Under(v: Value, w: Value) {
    SimpleDataEval(v, w, LT) == VBool(true)
  }

  function Less(fields: seq<Field>, p: Fields, q: Fields): bool
    decreases fields
  {
    if fields == [] then false
    else
      var f := fields[0];
      var vp, vq := KeyAt(p, f.uname), KeyAt(q, f.uname);
      if vp.Nil? then false
      else if vq.Nil? then true
      else if Under(vp, vq) then f.ascending
      else if Under(vq, vp) then !f.ascending
      else Less(fields[1..], p, q)
  }

  /** The kinds of value that can be sorted; all others are refused. */
  predicate SameKind(v: Value, w: Value) {
    || (v.VInt? && w.VInt?)
    || (v.VStr? && w.VStr?)
    || (v.VBool? && w.VBool?)
  }

  /** On each field the values present are of one kind. */
  predicate Comparable(fields: seq<Field>, p: Fields, q: Fields) {
    forall f | f in fields ::
      KeyAt(p, f.uname).Nil? || KeyAt(q, f.uname).Nil? || SameKind(KeyAt(p, f.uname), KeyAt(q, f.uname))
  }

  lemma UnderIsOrder(v: Value, w: Value, x: Value)
    ensures !(Under(v, w) && Under(w, v))
    ensures SameKind(v, w) && SameKind(w, x) && Under(v, x) ==> Under(v, w) || Under(w, x)
    ensures SameKind(v, w) && SameKind(w, x) && Under(v, w) && !Under(x, w) ==> Under(v, x)
    ensures SameKind(v, w) && SameKind(w, x) && !Under(w, v) && Under(w, x) ==> Under(v, x)
  {
    if v.VStr? && w.VStr? {
      StrLessIsTotalOrder(v.s, w.s);
      if x.VStr? {
        StrLessIsTotalOrder(w.s, x.s);
        StrLessIsTotalOrder(v.s, x.s);
        if StrLess(v.s, w.s) && StrLess(w.s, x.s) { StrLessIsTransitive(v.s, w.s, x.s); }
        if StrLess(x.s, w.s) && StrLess(w.s, v.s) { StrLessIsTransitive(x.s, w.s, v.s); }
        if StrLess(v.s, x.s) && StrLess(x.s, w.s) { StrLessIsTransitive(v.s, x.s, w.s); }
        if StrLess(w.s, v.s) && StrLess(v.s, x.s) { StrLessIsTransitive(w.s, v.s, x.s); }
      }
    }
  }

  /** No row is less than one that is less than it, whatever the values. */
  lemma {:induction false} LessIsAsymmetric(fields: seq<Field>, p: Fields, q: Fields)
    ensures !(Less(fields, p, q) && Less(fields, q, p))
  {
    if fields != [] {
      UnderIsOrder(KeyAt(p, fields[0].uname), KeyAt(q, fields[0].uname), Nil);
      LessIsAsymmetric(fields[1..], p, q);
    }
  }

  /** With comparable keys, a row between two ordered ones is ordered against one of them. */
  lemma {:induction false} LessSplits(fields: seq<Field>, p: Fields, q: Fields, r: Fields)
    requires Comparable(fields, p, q) && Comparable(fields, q, r) && Comparable(fields, p, r)
    ensures Less(fields, p, r) ==> Less(fields, p, q) || Less(fields, q, r)
  {
    if fields != [] {
      hide SimpleDataEval;
      var n := fields[0].uname;
      var vp, vq, vr := KeyAt(p, n), KeyAt(q, n), KeyAt(r, n);
      assert fields[0] in fields;
      LessSplits(fields[1..], p, q, r);
      UnderIsOrder(vp, vq, vr);
      UnderIsOrder(vr, vq, vp);
      UnderIsOrder(vp, vr, vq);
      UnderIsOrder(vq, vr, vp);
    }
  }

  /** A strict weak order: transitive, and so is being neither before nor after. */
  lemma {:induction false} LessIsStrictWeak(fields: seq<Field>, p: Fields, q: Fields, r: Fields)
    requires Comparable(fields, p, q) && Comparable(fields, q, r) && Comparable(fields, p, r)
    ensures !Less(fields, p, p)
    ensures Less(fields, p, q) && Less(fields, q, r) ==> Less(fields, p, r)
    ensures !Less(fields, p, q) && !Less(fields, q, p) && !Less(fields, q, r) && !Less(fields, r, q)
        ==> !Less(fields, p, r) && !Less(fields, r, p)
  {
    LessIsAsymmetric(fields, p, p);
    LessIsAsymmetric(fields, p, q);
    LessIsAsymmetric(fields, q, r);
    Turned(fields, p, q);
    Turned(fields, q, r);
    Turned(fields, p, r);
    LessSplits(fields, p, q, r);
    LessSplits(fields, r, q, p);
    LessSplits(fields, p, r, q);
  }

  lemma Turned(fields: seq<Field>, p: Fields, q: Fields)
    ensures Comparable(fields, p, q) <==> Comparable(fields, q, p)
  {
  }

  /** Without one kind for each field it need not be: neither number is ordered against the
      string between them. */
  lemma MixedKindsExample()
    ensures var up := [Field("k", true)];
            var one, two, s := map["k" := VInt(1)], map["k" := VInt(2)], map["k" := VStr("a")];
            && Less(up, one, two) && !Less(up, one, s) && !Less(up, s, one) && !Less(up, s, two) && !Less(up, two, s)
  {
  }

  /** Two present values tell the rows apart. */
  predicate Settles(f: Field, p: Fields, q: Fields) {
    var vp, vq := KeyAt(p, f.uname), KeyAt(q, f.uname);
    vp.Nil? || vq.Nil? || Under(vp, vq) || Under(vq, vp)
  }

  /** On this field `p` goes first: `q` has no value, or both have one and the direction says so. */
  predicate Ahead(f: Field, p: Fields, q: Fields) {
    var vp, vq := KeyAt(p, f.uname), KeyAt(q, f.uname);
    !vp.Nil? && (vq.Nil? || if f.ascending then Under(vp, vq) else Under(vq, vp))
  }

  ghost predicate DecidedAt(fields: seq<Field>, p: Fields, q: Fields, k: nat) {
    k < |fields| && Ahead(fields[k], p, q) && forall i | 0 <= i < k :: !Settles(fields[i], p, q)
  }

  /** `p` is less exactly when some field puts it ahead and no earlier field settles anything;
      a value missing on both sides settles the comparison too. */
  lemma {:induction false} LessExactly(fields: seq<Field>, p: Fields, q: Fields)
    ensures Less(fields, p, q) <==> exists k: nat :: DecidedAt(fields, p, q, k)
  {
    hide SimpleDataEval;
    if fields != [] {
      UnderIsOrder(KeyAt(p, fields[0].uname), KeyAt(q, fields[0].uname), Nil);
      LessExactly(fields[1..], p, q);
      if Less(fields, p, q) {
        if Ahead(fields[0], p, q) {
          assert DecidedAt(fields, p, q, 0);
        } else {
          var k: nat :| DecidedAt(fields[1..], p, q, k);
          assert DecidedAt(fields, p, q, k + 1);
        }
      }
      if k: nat :| DecidedAt(fields, p, q, k) {
        if k > 0 {
          assert !Settles(fields[0], p, q);
          assert DecidedAt(fields[1..], p, q, k - 1);
        }
      }
    }
  }

  /** Two booleans on a field never settle anything: they are not ordered by `<`. */
  lemma BooleansSettleNothing(f: Field, p: Fields, q: Fields)
    requires KeyAt(p, f.uname).VBool? && KeyAt(q, f.uname).VBool?
    ensures !Settles(f, p, q) && !Ahead(f, p, q)
  {
  }

  /** A row with its key. */
  datatype Keyed = Keyed(key: Fields, row: Row)

  ghost predicate AllComparable(fields: seq<Field>, s: seq<Keyed>) {
    forall x, y | x in s && y in s :: Comparable(fields, x.key, y.key)
  }

  /** No element is less than its left neighbour: what the library's sort leaves behind. */
  predicate NeighboursOrdered(fields: seq<Field>, s: seq<Keyed>) {
    forall i | 0 < i < |s| :: !Less(fields, s[i].key, s[i - 1].key)
  }

  predicate Sorted(fields: seq<Field>, s: seq<Keyed>) {
    forall i, j | 0 <= i < j < |s| :: !Less(fields, s[j].key, s[i].key)
  }

  lemma {:induction false} NeighboursSort(fields: seq<Field>, s: seq<Keyed>)
    requires AllComparable(fields, s) && NeighboursOrdered(fields, s)
    ensures Sorted(fields, s)
  {
    forall i: nat, j: nat | i < j < |s| ensures !Less(fields, s[j].key, s[i].key) {
      NotLessFar(fields, s, i, j);
    }
  }

  lemma {:induction false} NotLessFar(fields: seq<Field>, s: seq<Keyed>, i: nat, j: nat)
    requires AllComparable(fields, s) && NeighboursOrdered(fields, s) && i < j < |s|
    ensures !Less(fields, s[j].key, s[i].key)
    decreases j
  {
    if i < j - 1 {
      NotLessFar(fields, s, i, j - 1);
      LessSplits(fields, s[j].key, s[j - 1].key, s[i].key);
    }
  }

  function Paired(keys: seq<Fields>, rows: seq<Row>): (s: seq<Keyed>)
    requires |keys| == |rows|
    ensures |s| == |keys|
    ensures forall i :: 0 <= i < |s| ==> s[i] == Keyed(keys[i], rows[i])
  {
    seq(|keys|, i requires 0 <= i < |keys| => Keyed(keys[i], rows[i]))
  }

  function Swapped<T>(s: seq<T>, i: nat, j: nat): seq<T>
    requires i < |s| && j < |s|
  {
    s[i := s[j]][j := s[i]]
  }

  datatype Exchange = Exchange(i: nat, j: nat)

  predicate InBounds(es: seq<Exchange>, n: nat) {
    forall e | e in es :: e.i < n && e.j < n
  }

  function SwapAll<T>(s: seq<T>, es: seq<Exchange>): (r: seq<T>)
    requires InBounds(es, |s|)
    ensures |r| == |s|
    decreases es
  {
    if es == [] then s
    else Swapped(SwapAll(s, es[..|es| - 1]), es[|es| - 1].i, es[|es| - 1].j)
  }

  lemma SwapKeeps<T>(s: seq<T>, i: nat, j: nat)
    requires i < |s| && j < |s|
    ensures multiset(Swapped(s, i, j)) == multiset(s)
  {
  }

  lemma {:induction false} SwapAllKeeps<T>(s: seq<T>, es: seq<Exchange>)
    requires InBounds(es, |s|)
    ensures multiset(SwapAll(s, es)) == multiset(s)
    decreases es
  {
    if es != [] {
      SwapAllKeeps(s, es[..|es| - 1]);
      SwapKeeps(SwapAll(s, es[..|es| - 1]), es[|es| - 1].i, es[|es| - 1].j);
    }
  }

  /** However the exchanges are chosen: once the neighbours are in order, every row is there
      exactly as often as before, each still with its own key, and all are in order. */
  lemma {:induction false} SortSorts(fields: seq<Field>, s: seq<Keyed>, es: seq<Exchange>)
    requires InBounds(es, |s|) && AllComparable(fields, s) && NeighboursOrdered(fields, SwapAll(s, es))
    ensures multiset(SwapAll(s, es)) == multiset(s) && Sorted(fields, SwapAll(s, es))
  {
    SwapAllKeeps(s, es);
    var t := SwapAll(s, es);
    forall x, y | x in t && y in t ensures Comparable(fields, x.key, y.key) {
      assert x in multiset(t) && y in multiset(t);
    }
    NeighboursSort(fields, t);
  }

  /** How many elements are less than `q`. */
  function Before(fields: seq<Field>, s: seq<Keyed>, q: Fields): nat
    decreases s
  {
    if s == [] then 0
    else Before(fields, s[..|s| - 1], q) + if Less(fields, s[|s| - 1].key, q) then 1 else 0
  }

  lemma {:induction false} BeforeConcat(fields: seq<Field>, s: seq<Keyed>, t: seq<Keyed>, q: Fields)
    ensures Before(fields, s + t, q) == Before(fields, s, q) + Before(fields, t, q)
    decreases t
  {
    if t == [] {
      assert s + t == s;
    } else {
      BeforeConcat(fields, s, t[..|t| - 1], q);
      assert (s + t)[..|s + t| - 1] == s + t[..|t| - 1];
    }
  }

  lemma Cancel<T>(a: seq<T>, b: seq<T>, c: seq<T>, x: T)
    requires multiset(a + [x]) == multiset(b + [x] + c)
    ensures multiset(a) == multiset(b + c)
  {
    var m, n := multiset(a), multiset(b + c);
    assert m + multiset{x} == n + multiset{x};
    forall y ensures m[y] == n[y] {
      assert (m + multiset{x})[y] == (n + multiset{x})[y];
    }
  }

  lemma {:induction false} BeforeOfPermutation(fields: seq<Field>, s: seq<Keyed>, t: seq<Keyed>, q: Fields)
    requires multiset(s) == multiset(t)
    ensures Before(fields, s, q) == Before(fields, t, q)
    decreases s
  {
    if s == [] {
      assert |multiset(t)| == 0;
    } else {
      var x := s[|s| - 1];
      assert x in multiset(s);
      var k :| 0 <= k < |t| && t[k] == x;
      var rest := t[..k] + t[k + 1..];
      assert t == t[..k] + [x] + t[k + 1..];
      assert s == s[..|s| - 1] + [x];
      Cancel(s[..|s| - 1], t[..k], t[k + 1..], x);
      BeforeOfPermutation(fields, s[..|s| - 1], rest, q);
      BeforeConcat(fields, t[..k], t[k + 1..], q);
      BeforeConcat(fields, t[..k] + [x], t[k + 1..], q);
      BeforeConcat(fields, t[..k], [x], q);
      assert [x][..0] == [];
    }
  }

  lemma {:induction false} AtMostBefore(fields: seq<Field>, s: seq<Keyed>, q: Fields, n: nat)
    requires n <= |s| && forall j | n <= j < |s| :: !Less(fields, s[j].key, q)
    ensures Before(fields, s, q) <= n
    decreases s
  {
    if s != [] {
      AtMostBefore(fields, s[..|s| - 1], q, if n == |s| then n - 1 else n);
    }
  }

  lemma {:induction false} AtLeastBefore(fields: seq<Field>, s: seq<Keyed>, q: Fields, n: nat)
    requires n <= |s| && forall j | 0 <= j < n :: Less(fields, s[j].key, q)
    ensures Before(fields, s, q) >= n
    decreases s
  {
    if s != [] {
      AtLeastBefore(fields, s[..|s| - 1], q, if n == |s| then n - 1 else n);
    }
  }

  /** Two sorted arrangements of the same rows have equivalent keys at every position: the order
      does not depend on the sorting algorithm. */
  lemma {:induction false} SortIsDetermined(fields: seq<Field>, s: seq<Keyed>, t: seq<Keyed>, i: nat)
    requires multiset(s) == multiset(t) && AllComparable(fields, s) && Sorted(fields, s) && Sorted(fields, t)
    requires i < |s|
    ensures i < |t| && !Less(fields, s[i].key, t[i].key) && !Less(fields, t[i].key, s[i].key)
  {
    assert |s| == |t| by { assert |multiset(s)| == |s| && |multiset(t)| == |t|; }
    forall x | x in t ensures x in s { assert x in multiset(t); }
    NotAhead(fields, s, t, i);
    NotAhead(fields, t, s, i);
  }

  lemma {:induction false} NotAhead(fields: seq<Field>, s: seq<Keyed>, t: seq<Keyed>, i: nat)
    requires multiset(s) == multiset(t) && i < |s| == |t| && Sorted(fields, s) && Sorted(fields, t)
    requires forall x, y | (x in s || x in t) && (y in s || y in t) :: Comparable(fields, x.key, y.key)
    ensures !Less(fields, s[i].key, t[i].key)
  {
    if Less(fields, s[i].key, t[i].key) {
      var q := t[i].key;
      LessIsAsymmetric(fields, q, q);
      AtMostBefore(fields, t, q, i);
      forall j | 0 <= j < i + 1 ensures Less(fields, s[j].key, q) {
        if j < i {
          assert !Less(fields, s[i].key, s[j].key);
          LessSplits(fields, s[i].key, s[j].key, q);
        }
      }
      AtLeastBefore(fields, s, q, i + 1);
      BeforeOfPermutation(fields, s, t, q);
    }
  }

  /** The key of a row from the values of the sort fields on it; a name used twice keeps the last. */
  function KeyOf(fields: seq<Field>, vs: seq<Value>): Fields
    requires |fields| == |vs|
    decreases fields
  {
    if fields == [] then map[]
    else KeyOf(fields[..|fields| - 1], vs[..|vs| - 1])[fields[|fields| - 1].uname := vs[|vs| - 1]]
  }

  /** `cells[i][j]` is the value of field `j` on row `i`. */
  predicate Rectangular(fields: seq<Field>, cells: seq<seq<Value>>) {
    forall c | c in cells :: |c| == |fields|
  }

  predicate Sortable(v: Value, w: Value) {
    v.Nil? || w.Nil? || SameKind(v, w)
  }

  /** Numbers, strings and booleans can be sorted, each with their own kind. */
  lemma SortableExactly(v: Value, w: Value)
    ensures Sortable(v, v) <==> v.Nil? || IsScalar(v)
    ensures IsScalar(v) && IsScalar(w) ==>
              (Sortable(v, w) <==> SimpleDataEval(v, w, EQ).VBool?)
  {
  }

  /** In each column the values present are all numbers, all strings or all booleans. */
  predicate OneKindEach(fields: seq<Field>, cells: seq<seq<Value>>)
    requires Rectangular(fields, cells)
  {
    forall i, k, j | 0 <= i < |cells| && 0 <= k < |cells| && 0 <= j < |fields| :: Sortable(cells[i][j], cells[k][j])
  }

  lemma {:induction false} KeyOfReads(fields: seq<Field>, vs: seq<Value>, ws: seq<Value>, n: string)
    requires |fields| == |vs| == |ws| && forall j | 0 <= j < |fields| :: Sortable(vs[j], ws[j])
    ensures Sortable(KeyAt(KeyOf(fields, vs), n), KeyAt(KeyOf(fields, ws), n))
    decreases fields
  {
    if fields != [] && fields[|fields| - 1].uname != n {
      KeyOfReads(fields[..|fields| - 1], vs[..|vs| - 1], ws[..|ws| - 1], n);
    }
  }

  /** Rows that pass the type check have comparable keys. */
  lemma {:induction false} CheckedIsComparable(fields: seq<Field>, cells: seq<seq<Value>>, i: nat, k: nat)
    requires Rectangular(fields, cells) && i < |cells| && k < |cells| && OneKindEach(fields, cells)
    ensures Comparable(fields, KeyOf(fields, cells[i]), KeyOf(fields, cells[k]))
  {
    forall f | f in fields ensures Sortable(KeyAt(KeyOf(fields, cells[i]), f.uname), KeyAt(KeyOf(fields, cells[k]), f.uname)) {
      KeyOfReads(fields, cells[i], cells[k], f.uname);
    }
  }

  // ----- what a sort means for the columns -----

  predicate LastNamed(fields: seq<Field>, j: nat, n: string) {
    j < |fields| && fields[j].uname == n && forall i | j < i < |fields| :: fields[i].uname != n
  }

  /** The last field of a name, whose value is the one that counts. */
  function LastOf(fields: seq<Field>, n: string): (j: nat)
    requires exists f :: f in fields && f.uname == n
    ensures LastNamed(fields, j, n)
    decreases fields
  {
    if fields[|fields| - 1].uname == n then |fields| - 1
    else assert fields == fields[..|fields| - 1] + [fields[|fields| - 1]]; LastOf(fields[..|fields| - 1], n)
  }

  lemma {:induction false} KeyHoldsCell(fields: seq<Field>, vs: seq<Value>, n: string, j: nat)
    requires |fields| == |vs| && LastNamed(fields, j, n)
    ensures KeyAt(KeyOf(fields, vs), n) == vs[j]
    decreases fields
  {
    if j < |fields| - 1 {
      KeyHoldsCell(fields[..|fields| - 1], vs[..|vs| - 1], n, j);
    }
  }

  /** A value goes before another: a missing one never, before a missing one always. */
  predicate Precedes(ascending: bool, v: Value, w: Value) {
    !v.Nil? && (w.Nil? || if ascending then Under(v, w) else Under(w, v))
  }

  predicate Level(v: Value, w: Value) {
    !v.Nil? && !w.Nil? && !Under(v, w) && !Under(w, v)
  }

  /** Row `c` goes before row `d`: the first column on which they are not level says so. */
  ghost predicate RowBefore(fields: seq<Field>, c: seq<Value>, d: seq<Value>)
    requires |c| == |d| == |fields|
  {
    exists k: nat :: k < |fields| && BeforeAt(fields, c, d, k)
  }

  ghost predicate BeforeAt(fields: seq<Field>, c: seq<Value>, d: seq<Value>, k: nat)
    requires |c| == |d| == |fields| && k < |fields|
  {
    var j := LastOf(fields, fields[k].uname);
    Precedes(fields[k].ascending, c[j], d[j]) && forall i: nat | i < k :: LevelAt(fields, c, d, i)
  }

  ghost predicate LevelAt(fields: seq<Field>, c: seq<Value>, d: seq<Value>, i: nat)
    requires |c| == |d| == |fields| && i < |fields|
  {
    var j := LastOf(fields, fields[i].uname);
    Level(c[j], d[j])
  }

  /** The keys compare as the columns do. */
  lemma {:induction false} KeysAreCells(fields: seq<Field>, c: seq<Value>, d: seq<Value>)
    requires |c| == |d| == |fields|
    ensures Less(fields, KeyOf(fields, c), KeyOf(fields, d)) <==> RowBefore(fields, c, d)
  {
    var p, q := KeyOf(fields, c), KeyOf(fields, d);
    LessExactly(fields, p, q);
    hide Under, Less, KeyOf, KeyAt, LastNamed;
    forall k: nat | k < |fields|
      ensures Ahead(fields[k], p, q) <==> Precedes(fields[k].ascending, c[LastOf(fields, fields[k].uname)], d[LastOf(fields, fields[k].uname)])
      ensures Settles(fields[k], p, q) <==> !LevelAt(fields, c, d, k)
    {
      var n := fields[k].uname;
      KeyHoldsCell(fields, c, n, LastOf(fields, n));
      KeyHoldsCell(fields, d, n, LastOf(fields, n));
    }
    if k: nat :| DecidedAt(fields, p, q, k) {
      assert BeforeAt(fields, c, d, k);
    }
    if k: nat :| k < |fields| && BeforeAt(fields, c, d, k) {
      assert DecidedAt(fields, p, q, k);
    }
  }

  function Indices(n: nat): (s: seq<nat>)
    ensures |s| == n && forall i | 0 <= i < n :: s[i] == i
  {
    seq(n, i => i)
  }

  /** Exchanging elements is exchanging their places. */
  lemma {:induction false} SwapAllPlaces<T>(s: seq<T>, es: seq<Exchange>, i: nat)
    requires InBounds(es, |s|) && i < |s|
    ensures SwapAll<nat>(Indices(|s|), es)[i] < |s| && SwapAll(s, es)[i] == s[SwapAll<nat>(Indices(|s|), es)[i]]
    decreases es
  {
    if es != [] {
      var e, before := es[|es| - 1], es[..|es| - 1];
      SwapAllPlaces(s, before, if i == e.j then e.i else if i == e.i then e.j else i);
    }
  }

  ghost function Keys(fields: seq<Field>, cells: seq<seq<Value>>, rows: seq<Row>): (s: seq<Keyed>)
    requires |cells| == |rows| && Rectangular(fields, cells)
    ensures |s| == |cells| && forall i | 0 <= i < |s| :: s[i] == Keyed(KeyOf(fields, cells[i]), rows[i])
  {
    seq(|cells|, i requires 0 <= i < |cells| => Keyed(KeyOf(fields, cells[i]), rows[i]))
  }

  /** `from[i]` is where the row now at `i` came from: every row is there once, and none goes before
      one on its left by its columns. */
  ghost predicate SortedFrom(fields: seq<Field>, cells: seq<seq<Value>>, rows: seq<Row>, sorted: seq<Row>,
      from: seq<nat>)
    requires Rectangular(fields, cells) && |cells| == |rows|
  {
    && |sorted| == |from| == |rows| && multiset(from) == multiset(Indices(|rows|))
    && (forall i | 0 <= i < |from| :: from[i] < |rows|)
    && (forall i | 0 <= i < |sorted| :: sorted[i] == rows[from[i]])
    && (forall i, k | 0 <= i < k < |sorted| :: !RowBefore(fields, cells[from[k]], cells[from[i]]))
  }

  /** Once the neighbours are in order, the rows are sorted by their columns. */
  lemma {:induction false} SortedByCells(fields: seq<Field>, cells: seq<seq<Value>>, rows: seq<Row>, es: seq<Exchange>)
    requires Rectangular(fields, cells) && |cells| == |rows| && OneKindEach(fields, cells) && InBounds(es, |rows|)
    requires NeighboursOrdered(fields, SwapAll(Keys(fields, cells, rows), es))
    ensures SortedFrom(fields, cells, rows, RowsOf(SwapAll(Keys(fields, cells, rows), es)), SwapAll<nat>(Indices(|rows|), es))
  {
    var s, from := Keys(fields, cells, rows), SwapAll<nat>(Indices(|rows|), es);
    var t := SwapAll(s, es);
    forall x, y | x in s && y in s ensures Comparable(fields, x.key, y.key) {
      var i :| 0 <= i < |s| && s[i] == x;
      var k :| 0 <= k < |s| && s[k] == y;
      CheckedIsComparable(fields, cells, i, k);
    }
    SortSorts(fields, s, es);
    SwapAllKeeps(Indices(|rows|), es);
    hide Comparable, Less, KeyOf, RowBefore, SwapAll, InBounds;
    forall i | 0 <= i < |t| ensures from[i] < |rows| && t[i] == s[from[i]] {
      SwapAllPlaces(s, es, i);
    }
    forall i, k | 0 <= i < k < |t| ensures !RowBefore(fields, cells[from[k]], cells[from[i]]) {
      KeysAreCells(fields, cells[from[k]], cells[from[i]]);
    }
  }

  ghost function RowsOf(s: seq<Keyed>): (r: seq<Row>)
    ensures |r| == |s| && forall i | 0 <= i < |r| :: r[i] == s[i].row
  {
    seq(|s|, i requires 0 <= i < |s| => s[i].row)
  }

  /** The rows and, beside them, their keys. */
  class MultiSorter {
    const fields: seq<Field>
    var values: array<Fields>
    var rows: array<Row>

    ghost predicate Valid()
      reads this
    {
      values.Length == rows.Length
    }

    ghost function Contents(): (s: seq<Keyed>)
      requires Valid()
      reads this, values, rows
    {
      Paired(values[..], rows[..])
    }

    constructor (fields: seq<Field>, rows: array<Row>)
      ensures Valid() && this.fields == fields && this.rows == rows && fresh(values)
    {
      this.fields := fields;
      this.rows := rows;
      this.values := new Fields[rows.Length](_ => map[]);
    }

    method LessAt(i: nat, j: nat) returns (less: bool)
      requires Valid() && i < values.Length && j < values.Length
      ensures less == Less(fields, Contents()[i].key, Contents()[j].key)
    {
      var p, q := values[i], values[j];
      for k := 0 to |fields|
        invariant Less(fields, p, q) == Less(fields[k..], p, q)
      {
        assert fields[k..][1..] == fields[k + 1..];
        var n := fields[k].uname;
        var vp, vq := KeyAt(p, n), KeyAt(q, n);
        if vp.Nil? {
          return false;
        }
        if vq.Nil? {
          return true;
        }
        if SimpleDataEval(vp, vq, LT) == VBool(true) {
          return fields[k].ascending;
        }
        if SimpleDataEval(vq, vp, LT) == VBool(true) {
          return !fields[k].ascending;
        }
      }
      less := false;
    }

    /** Keys and rows move together. */
    method Swap(i: nat, j: nat)
      requires Valid() && i < values.Length && j < values.Length
      modifies values, rows
      ensures Contents() == Swapped(old(Contents()), i, j)
    {
      values[i], values[j] := values[j], values[i];
      rows[i], rows[j] := rows[j], rows[i];
    }

    /** The exchanges that a sorting algorithm asks for, one after another. */
    method SwapRun(es: seq<Exchange>)
      requires Valid() && InBounds(es, values.Length)
      modifies values, rows
      ensures Contents() == SwapAll(old(Contents()), es)
    {
      for k := 0 to |es|
        invariant Contents() == SwapAll(old(Contents()), es[..k])
      {
        assert es[..k + 1][..k] == es[..k];
        Swap(es[k].i, es[k].j);
      }
      assert es[..|es|] == es;
    }

    /** Rows with columns of one kind each are sorted by them; else they stay as they are. `es` are
        the exchanges the sorting algorithm makes until the neighbours are in order. */
    method Sort(cells: seq<seq<Value>>, es: seq<Exchange>) returns (ok: bool)
      requires Valid() && |cells| == rows.Length && Rectangular(fields, cells) && InBounds(es, rows.Length)
      modifies values, rows
      ensures ok <==> OneKindEach(fields, cells)
      ensures !ok ==> rows[..] == old(rows[..])
      ensures ok && NeighboursOrdered(fields, Contents()) ==>
          SortedFrom(fields, cells, old(rows[..]), rows[..], SwapAll<nat>(Indices(rows.Length), es))
    {
      ghost var before := rows[..];
      ok := Prepare(cells);
      if !ok {
        return;
      }
      assert Contents() == Keys(fields, cells, before);
      SwapRun(es);
      if NeighboursOrdered(fields, Contents()) {
        SortedByCells(fields, cells, before, es);
        assert rows[..] == RowsOf(Contents());
      }
    }

    /** Fills in the keys and stops at the first value that does not go with its column. */
    method Prepare(cells: seq<seq<Value>>) returns (ok: bool)
      requires Valid() && |cells| == rows.Length && Rectangular(fields, cells)
      modifies values
      ensures ok <==> OneKindEach(fields, cells)
      ensures rows[..] == old(rows[..])
      ensures ok ==> forall i | 0 <= i < |cells| :: Contents()[i] == Keyed(KeyOf(fields, cells[i]), old(rows[i]))
    {
      var firsts := seq(|fields|, _ => Nil);
      for i := 0 to |cells|
        invariant FirstOfEach(firsts, fields, cells, i)
        invariant Rectangular(fields, cells)
        invariant forall k | 0 <= k < i :: values[k] == KeyOf(fields, cells[k])
        invariant forall k | 0 <= k < |cells| :: rows[k] == old(rows[k])
      {
        var key;
        ok, key, firsts := PrepareRow(fields, cells, i, firsts);
        if !ok {
          return;
        }
        values[i] := key;
      }
      FirstsDecide(firsts, fields, cells);
      ok := true;
    }
  }

  lemma FirstsDecide(firsts: seq<Value>, fields: seq<Field>, cells: seq<seq<Value>>)
    requires Rectangular(fields, cells) && FirstOfEach(firsts, fields, cells, |cells|)
    ensures OneKindEach(fields, cells)
  {
    forall i: nat, k: nat, j: nat | i < |cells| && k < |cells| && j < |fields| ensures Sortable(cells[i][j], cells[k][j]) {
      assert FirstOfColumn(firsts[j], fields, cells, |cells|, j);
    }
  }

  /** `firsts` has the first value of each column in the first `n` rows, all of which go with it. */
  ghost predicate FirstOfEach(firsts: seq<Value>, fields: seq<Field>, cells: seq<seq<Value>>, n: nat)
    requires n <= |cells| && Rectangular(fields, cells)
  {
    && |firsts| == |fields|
    && forall j: nat | j < |fields| :: FirstOfColumn(firsts[j], fields, cells, n, j)
  }

  ghost predicate FirstOfColumn(first: Value, fields: seq<Field>, cells: seq<seq<Value>>, n: nat, j: nat)
    requires n <= |cells| && j < |fields| && Rectangular(fields, cells)
  {
    && (first.Nil? || exists k :: 0 <= k < n && cells[k][j] == first)
    && forall k | 0 <= k < n :: if first.Nil? then cells[k][j].Nil? else Sortable(first, cells[k][j])
  }

  method PrepareRow(fields: seq<Field>, cells: seq<seq<Value>>, i: nat, firsts: seq<Value>)
    returns (ok: bool, key: Fields, after: seq<Value>)
    requires Rectangular(fields, cells) && i < |cells| && FirstOfEach(firsts, fields, cells, i)
    ensures ok ==> key == KeyOf(fields, cells[i]) && FirstOfEach(after, fields, cells, i + 1)
    ensures !ok ==> !OneKindEach(fields, cells)
  {
    key, after := map[], firsts;
    var row := cells[i];
    for j := 0 to |fields|
      invariant |after| == |fields|
      invariant forall c: nat | c < j :: FirstOfColumn(after[c], fields, cells, i + 1, c)
      invariant forall c | j <= c < |fields| :: after[c] == firsts[c]
      invariant key == KeyOf(fields[..j], row[..j])
    {
      var v := row[j];
      assert FirstOfColumn(firsts[j], fields, cells, i, j);
      if after[j].Nil? && !v.Nil? {
        after := after[j := v];
      }
      if !Sortable(after[j], v) {
        ok := false;
        return;
      }
      assert fields[..j + 1][..j] == fields[..j] && row[..j + 1][..j] == row[..j];
      key := key[fields[j].uname := v];
    }
    assert fields[..|fields|] == fields && row[..|fields|] == row;
    ok := true;
  }
}
