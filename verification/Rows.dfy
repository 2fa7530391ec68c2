/** Rows: reading one column, exporting all of them, and keeping only some. Keys are matched with
    their case. */
module Rows {
  import opened Tokens
  import opened Values

  type Fields = map<string, Value>

  /** The columns computed along the way and the aliases computed so far. */
  datatype Affiliate = Affiliate(calCols: Fields, aliasMap: Fields)

  datatype Row =
    | Single(emitter: string, message: Fields, aff: Affiliate)
    | Joined(tuples: seq<Row>, aff: Affiliate)

  function Get(m: Fields, key: string): Option<Value> {
    if key in m then Some(m[key]) else None
  }

  function Either(a: Option<Value>, b: Option<Value>): Option<Value> {
    if a.Some? then a else b
  }

  function AffiliateValue(a: Affiliate, key: string, table: string): Option<Value> {
    if table == "" then Either(Get(a.aliasMap, key), Get(a.calCols, key)) else None
  }

  /** Reading from a join with no rows under it is a fault in the program. */
  predicate Sound(r: Row)
    decreases r
  {
    r.Joined? ==> r.tuples != [] && forall t | t in r.tuples :: Sound(t)
  }

  function ReadColumn(r: Row, key: string, table: string): Option<Value>
    decreases r, 1
  {
    Either(AffiliateValue(r.aff, key, table), ReadUnder(r, key, table))
  }

  /** What the row holds apart from its own computed columns. */
  function ReadUnder(r: Row, key: string, table: string): Option<Value>
    decreases r, 0
  {
    match r
    case Single(_, message, _) => Get(message, key)
    case Joined(tuples, _) => if table == "" then FirstHit(tuples, key) else FirstOf(tuples, key, table)
  }

  function FirstHit(ts: seq<Row>, key: string): Option<Value>
    decreases ts
  {
    if ts == [] then None else Either(ReadColumn(ts[0], key, ""), FirstHit(ts[1..], key))
  }

  function NonNil(v: Option<Value>): Option<Value> {
    if v.Some? && v.value != Nil then v else None
  }

  function Emitter(r: Row): string {
    if r.Single? then r.emitter else "$$JOIN"
  }

  function FirstOf(ts: seq<Row>, key: string, table: string): Option<Value>
    decreases ts
  {
    if ts == [] then None
    else
      var here := if Emitter(ts[0]) == table then NonNil(ReadColumn(ts[0], key, "")) else None;
      var below := if ts[0].Joined? then NonNil(FirstOf(ts[0].tuples, key, table)) else None;
      Either(here, Either(below, FirstOf(ts[1..], key, table)))
  }

  predicate Internal(key: string) {
    "$$" <= key
  }

  lemma InternalExactly(key: string)
    ensures Internal(key) <==> |key| > 1 && key[0] == '$' == key[1]
  {
    assert "$$" <= key <==> |key| >= 2 && key[0] == "$$"[0] && key[1] == "$$"[1];
  }

  /** The export of the computed columns leaves out the internal ones. */
  function Exported(a: Affiliate): Fields {
    (map k | k in a.calCols && !Internal(k) :: a.calCols[k]) + a.aliasMap
  }

  function ExportOf(r: Row): Fields
    decreases r
  {
    match r
    case Single(_, message, aff) => message + Exported(aff)
    case Joined(tuples, aff) => Overlaid(tuples) + Exported(aff)
  }

  /** Written from the last row to the first, so that the first row's columns stay. */
  function Overlaid(ts: seq<Row>): Fields
    decreases ts
  {
    if ts == [] then map[] else Overlaid(ts[1..]) + ExportOf(ts[0])
  }

  /** The row without its internal columns, at every level. */
  function Shown(r: Row): Row
    decreases r
  {
    var aff := Affiliate(map k | k in r.aff.calCols && !Internal(k) :: r.aff.calCols[k], r.aff.aliasMap);
    match r
    case Single(emitter, message, _) => Single(emitter, message, aff)
    case Joined(tuples, _) => Joined(AllShown(tuples), aff)
  }

  function AllShown(ts: seq<Row>): (r: seq<Row>)
    ensures |r| == |ts|
    decreases ts
  {
    if ts == [] then [] else [Shown(ts[0])] + AllShown(ts[1..])
  }

  /** For every key: the export holds what a lookup in the row without internal columns finds. */
  lemma {:induction false} ExportIsLookup(r: Row, key: string)
    ensures Get(ExportOf(r), key) == ReadColumn(Shown(r), key, "")
    decreases r
  {
    if r.Joined? {
      OverlaidIsFirstHit(r.tuples, key);
    }
  }

  lemma {:induction false} OverlaidIsFirstHit(ts: seq<Row>, key: string)
    ensures Get(Overlaid(ts), key) == FirstHit(AllShown(ts), key)
    decreases ts
  {
    if ts != [] {
      ExportIsLookup(ts[0], key);
      OverlaidIsFirstHit(ts[1..], key);
      assert AllShown(ts)[1..] == AllShown(ts[1..]);
    }
  }

  lemma {:induction false} InternalOnly(r: Row, key: string)
    requires !Internal(key)
    ensures ReadColumn(Shown(r), key, "") == ReadColumn(r, key, "")
    decreases r
  {
    if r.Joined? {
      InternalOnlyAll(r.tuples, key);
    }
  }

  lemma {:induction false} InternalOnlyAll(ts: seq<Row>, key: string)
    requires !Internal(key)
    ensures FirstHit(AllShown(ts), key) == FirstHit(ts, key)
    decreases ts
  {
    if ts != [] {
      InternalOnly(ts[0], key);
      InternalOnlyAll(ts[1..], key);
      assert AllShown(ts)[1..] == AllShown(ts[1..]);
    }
  }

  /** In a join the first row that has the column decides, for the lookup and for the export; the
      join's own aliases and computed columns come before its rows. */
  lemma {:induction false} FirstRowDecides(ts: seq<Row>, aff: Affiliate, key: string, k: nat)
    requires k < |ts| && ReadColumn(ts[k], key, "").Some? && forall i | 0 <= i < k :: ReadColumn(ts[i], key, "").None?
    requires !Internal(key) && key !in aff.aliasMap && key !in aff.calCols
    ensures ReadColumn(Joined(ts, aff), key, "") == ReadColumn(ts[k], key, "") == Get(ExportOf(Joined(ts, aff)), key)
  {
    FirstHitAt(ts, key, k);
    LookupAgreesWithExport(Joined(ts, aff), key);
  }

  lemma {:induction false} FirstHitAt(ts: seq<Row>, key: string, k: nat)
    requires k < |ts| && ReadColumn(ts[k], key, "").Some? && forall i | 0 <= i < k :: ReadColumn(ts[i], key, "").None?
    ensures FirstHit(ts, key) == ReadColumn(ts[k], key, "")
    decreases ts
  {
    if k > 0 {
      FirstHitAt(ts[1..], key, k - 1);
    }
  }

  /** Among plain tuples a qualified lookup takes the first of that name that has a value. */
  lemma {:induction false} FirstOfNameDecides(ts: seq<Row>, key: string, table: string, k: nat)
    requires k < |ts| && (forall t | t in ts :: t.Single?) && HasValue(ts[k], key, table)
    requires forall i | 0 <= i < k :: !HasValue(ts[i], key, table)
    ensures FirstOf(ts, key, table) == ReadColumn(ts[k], key, "")
    decreases ts
  {
    if k > 0 {
      FirstOfNameDecides(ts[1..], key, table, k - 1);
    }
  }

  predicate HasValue(t: Row, key: string, table: string) {
    t.Single? && t.emitter == table && ReadColumn(t, key, "").Some? && ReadColumn(t, key, "") != Some(Nil)
  }

  /** A lookup and the export agree on every column that is not internal. */
  lemma {:induction false} LookupAgreesWithExport(r: Row, key: string)
    requires !Internal(key)
    ensures ReadColumn(r, key, "") == Get(ExportOf(r), key)
  {
    ExportIsLookup(r, key);
    InternalOnly(r, key);
  }

  /** On one tuple they agree on an internal key exactly when no computed column of that name
      stands between the aliases and the message, or it says the same as the message. */
  lemma {:induction false} InternalAgreesExactly(r: Row, key: string)
    requires r.Single? && Internal(key)
    ensures ReadColumn(r, key, "") == Get(ExportOf(r), key)
       <==> (key in r.aff.calCols && key !in r.aff.aliasMap ==> Get(r.message, key) == Some(r.aff.calCols[key]))
  {
    ExportIsLookup(r, key);
  }

  /** A column to keep: its name and the stream that qualifies it. */
  datatype Column = Column(name: string, table: string)

  predicate Unqualified(c: Column) {
    c.table == "" || c.table == DefaultStream
  }

  predicate Named(cols: seq<Column>, k: string) {
    exists c :: c in cols && Unqualified(c) && c.name == k
  }

  function PickAffiliate(a: Affiliate, cols: seq<Column>): Affiliate {
    Affiliate(map k | k in a.calCols && k !in a.aliasMap && Named(cols, k) :: a.calCols[k],
              map k | k in a.aliasMap && Named(cols, k) :: a.aliasMap[k])
  }

  predicate Taken(a: Affiliate, c: Column) {
    Unqualified(c) && (c.name in a.aliasMap || c.name in a.calCols)
  }

  /** The columns that must still come from the message. */
  function Remaining(a: Affiliate, cols: seq<Column>): (r: seq<Column>)
    ensures forall c :: c in r <==> c in cols && !Taken(a, c)
  {
    if cols == [] then []
    else
      var before := Remaining(a, cols[..|cols| - 1]);
      var last := cols[|cols| - 1];
      assert cols == cols[..|cols| - 1] + [last];
      if Taken(a, last) then before else before + [last]
  }

  predicate FromMessage(cols: seq<Column>, emitter: string, k: string) {
    exists c :: c in cols && (c.table == emitter || Unqualified(c)) && c.name == k
  }

  datatype Choice = Choice(allWildcard: bool, wildcardEmitters: set<string>, except: seq<string>, sendNil: bool)

  predicate Everything(w: Choice, emitter: string) {
    w.allWildcard || emitter in w.wildcardEmitters
  }

  /** The names of the columns asked for from the message. */
  function Names(cols: seq<Column>, emitter: string): (r: set<string>)
    ensures forall k :: k in r <==> FromMessage(cols, emitter, k)
  {
    set c | c in cols && (c.table == emitter || Unqualified(c)) :: c.name
  }

  function PickMessage(m: Fields, cols: seq<Column>, emitter: string, w: Choice): Fields {
    if Everything(w, emitter) then map k | k in m && k !in w.except :: m[k]
    else map k | k in Names(cols, emitter) && (k in m || w.sendNil) :: (if k in m then m[k] else Nil)
  }

  function PickTuple(r: Row, cols: seq<Column>, w: Choice): Row
    requires r.Single?
  {
    Single(r.emitter, PickMessage(r.message, Remaining(r.aff, cols), r.emitter, w), PickAffiliate(r.aff, cols))
  }

  predicate PlainChoice(w: Choice, emitter: string) {
    !Everything(w, emitter) && !w.sendNil
  }

  /** What any unqualified read finds after a pick. */
  lemma {:induction false} PickReads(r: Row, cols: seq<Column>, w: Choice, k: string)
    requires r.Single? && PlainChoice(w, r.emitter)
    ensures Named(cols, k) ==> ReadColumn(PickTuple(r, cols, w), k, "") == ReadColumn(r, k, "")
    ensures !Named(cols, k) && Column(k, r.emitter) in cols ==> ReadColumn(PickTuple(r, cols, w), k, "") == Get(r.message, k)
    ensures !Named(cols, k) && Column(k, r.emitter) !in cols ==> ReadColumn(PickTuple(r, cols, w), k, "") == None
  {
    var p := PickTuple(r, cols, w);
    var rest := Remaining(r.aff, cols);
    if c :| c in cols && Unqualified(c) && c.name == k {
      assert c in rest || Taken(r.aff, c);
      assert c in rest ==> FromMessage(rest, r.emitter, k);
    } else if Column(k, r.emitter) in cols {
      assert Column(k, r.emitter) in rest;
      assert FromMessage(rest, r.emitter, k);
    } else {
      assert forall c | c in rest && c.name == k :: c == Column(k, c.table);
    }
  }

  /** A picked column reads as before under the qualifier it was picked with. */
  lemma {:induction false} PickKeeps(r: Row, cols: seq<Column>, w: Choice, c: Column)
    requires r.Single? && PlainChoice(w, r.emitter) && c in cols && (Unqualified(c) || c.table == r.emitter)
    ensures var t := if c.table == DefaultStream then "" else c.table;
            ReadColumn(PickTuple(r, cols, w), c.name, t) == ReadColumn(r, c.name, t)
  {
    if Unqualified(c) {
      PickReads(r, cols, w, c.name);
    } else {
      assert c in Remaining(r.aff, cols);
      assert FromMessage(Remaining(r.aff, cols), r.emitter, c.name);
    }
  }

  /** The export holds a key exactly when it was picked and the row had it. */
  lemma {:induction false} PickExports(r: Row, cols: seq<Column>, w: Choice, k: string)
    requires r.Single? && PlainChoice(w, r.emitter) && !Internal(k)
    ensures k in ExportOf(PickTuple(r, cols, w))
       <==> (Named(cols, k) && k in ExportOf(r)) || (Column(k, r.emitter) in cols && k in r.message)
  {
    PickReads(r, cols, w, k);
    LookupAgreesWithExport(r, k);
    LookupAgreesWithExport(PickTuple(r, cols, w), k);
  }

  predicate Computed(a: Affiliate, k: string) {
    k in a.aliasMap || k in a.calCols
  }

  /** With a wildcard: what was computed and picked by name stays, the message is kept but for the
      excepted columns, and nothing else can be read. */
  lemma {:induction false} WildcardReads(r: Row, cols: seq<Column>, w: Choice, k: string)
    requires r.Single? && Everything(w, r.emitter)
    ensures ReadColumn(PickTuple(r, cols, w), k, "")
         == if Named(cols, k) && Computed(r.aff, k) then ReadColumn(r, k, "") else if k in w.except then None else Get(r.message, k)
  {
  }

  /** In particular SELECT * EXCEPT exports every column but the excepted ones. */
  lemma {:induction false} WildcardExports(r: Row, w: Choice, k: string)
    requires r.Single? && Everything(w, r.emitter)
    ensures Get(ExportOf(PickTuple(r, [], w)), k) == if k in w.except then None else Get(r.message, k)
  {
    PickNone(r.aff);
  }

  /** When missing columns are to be sent as nil, every column asked for has a value, nil only if
      the row has none, and no other column has. */
  lemma {:induction false} SendNilReads(r: Row, cols: seq<Column>, w: Choice, k: string)
    requires r.Single? && !Everything(w, r.emitter) && w.sendNil
    ensures var v := ReadColumn(PickTuple(r, cols, w), k, "");
            && (Named(cols, k) ==> v == Either(ReadColumn(r, k, ""), Some(Nil)))
            && (!Named(cols, k) && Column(k, r.emitter) in cols ==> v == Either(Get(r.message, k), Some(Nil)))
            && (!Named(cols, k) && Column(k, r.emitter) !in cols ==> v == None)
  {
    var rest := Remaining(r.aff, cols);
    if c :| c in cols && Unqualified(c) && c.name == k {
      assert c in rest || Taken(r.aff, c);
      assert c in rest ==> FromMessage(rest, r.emitter, k);
    } else if Column(k, r.emitter) in cols {
      assert Column(k, r.emitter) in rest;
      assert FromMessage(rest, r.emitter, k);
    } else {
      assert forall c | c in rest && c.name == k :: c == Column(k, c.table);
    }
  }

  lemma {:induction false} SameRemaining(a: Affiliate, cols: seq<Column>, all: seq<Column>)
    requires forall c :: c in cols ==> c in all
    ensures Remaining(PickAffiliate(a, all), cols) == Remaining(a, cols)
  {
    if cols != [] {
      var last := cols[|cols| - 1];
      assert last in all;
      assert Unqualified(last) ==> Named(all, last.name);
      assert Taken(PickAffiliate(a, all), last) <==> Taken(a, last);
      SameRemaining(a, cols[..|cols| - 1], all);
    }
  }

  /** Picking twice is picking once, whatever the wildcards, the exceptions and the nil setting. */
  lemma {:induction false} PickTwice(r: Row, cols: seq<Column>, w: Choice)
    requires r.Single?
    ensures PickTuple(PickTuple(r, cols, w), cols, w) == PickTuple(r, cols, w)
  {
    SameRemaining(r.aff, cols, cols);
    var rest := Remaining(r.aff, cols);
    var p := PickTuple(r, cols, w);
    var m := PickMessage(p.message, rest, r.emitter, w);
    assert m.Keys == p.message.Keys;
    assert m == p.message;
    assert PickAffiliate(p.aff, cols) == p.aff;
  }

  /** A map on the heap: the message of a tuple, which copies share, or an export. */
  class Message {
    var entries: Fields

    constructor (entries: Fields)
      ensures this.entries == entries
    {
      this.entries := entries;
    }

    /** Writes `from` over the entries, without the internal ones if only those shown are wanted. */
    method Overlay(from: Fields, shownOnly: bool)
      modifies this
      ensures entries == old(entries) + (map k | k in from && !(shownOnly && Internal(k)) :: from[k])
    {
      var todo := from.Keys;
      while todo != {}
        invariant todo <= from.Keys
        invariant forall k :: k in entries <==> k in old(entries) || (k in from && k !in todo && !(shownOnly && Internal(k)))
        invariant forall k :: k in entries ==>
          entries[k] == if k in from && k !in todo && !(shownOnly && Internal(k)) then from[k] else old(entries)[k]
      {
        var k :| k in todo;
        if !(shownOnly && Internal(k)) {
          entries := entries[k := from[k]];
        }
        todo := todo - {k};
      }
    }
  }

  /** A tuple with its cached export. No method here writes to the message, which other tuples may
      hold as well: `modifies` never names it. */
  class Tuple {
    const emitter: string
    var message: Message
    var calCols: Fields
    var aliasMap: Fields
    var cachedMap: Message?

    constructor (emitter: string, message: Message, calCols: Fields, aliasMap: Fields)
      ensures this.emitter == emitter && this.message == message && cachedMap == null
      ensures this.calCols == calCols && this.aliasMap == aliasMap
    {
      this.emitter := emitter;
      this.message := message;
      this.calCols := calCols;
      this.aliasMap := aliasMap;
      cachedMap := null;
    }

    function Abs(): Row
      reads this, message
    {
      Single(emitter, message.entries, Affiliate(calCols, aliasMap))
    }

    method AppendAlias(key: string, value: Value)
      modifies this`aliasMap
      ensures aliasMap == old(aliasMap)[key := value]
    {
      aliasMap := aliasMap[key := value];
    }

    method Value(key: string, table: string) returns (v: Option<Value>)
      ensures v == ReadColumn(Abs(), key, table)
    {
      if table == "" {
        if key in aliasMap {
          return Some(aliasMap[key]);
        }
        if key in calCols {
          return Some(calCols[key]);
        }
      }
      v := if key in message.entries then Some(message.entries[key]) else None;
    }

    method Set(col: string, value: Value)
      modifies this`calCols
      ensures calCols == old(calCols)[col := value]
      ensures forall k, t :: k != col || t != "" ==> ReadColumn(Abs(), k, t) == old(ReadColumn(Abs(), k, t))
    {
      calCols := calCols[col := value];
    }

    /** What `Set` wrote reads back unless an alias hides it, and the message shows again after. */
    method Del(col: string)
      modifies this`calCols, this`aliasMap
      ensures ReadColumn(Abs(), col, "") == Get(message.entries, col)
      ensures forall k, t :: k != col || t != "" ==> ReadColumn(Abs(), k, t) == old(ReadColumn(Abs(), k, t))
    {
      calCols := calCols - {col};
      aliasMap := aliasMap - {col};
    }

    /** Without computed columns the export is the shared message itself; otherwise it is a map of
        its own, made once and returned by later calls as it is. */
    method ToMap() returns (m: Message)
      modifies this`cachedMap
      ensures old(cachedMap) == null ==> m.entries == ExportOf(Abs())
      ensures if calCols == map[] && aliasMap == map[] then m == message && cachedMap == old(cachedMap)
              else m == cachedMap && if old(cachedMap) == null then fresh(m) else m == old(cachedMap)
    {
      if calCols == map[] && aliasMap == map[] {
        return message;
      }
      if cachedMap == null {
        m := new Message(message.entries);
        MergeMap(m);
        cachedMap := m;
      }
      m := cachedMap;
    }

    method MergeMap(into: Message)
      modifies into
      ensures into.entries == old(into.entries) + old(Exported(Affiliate(calCols, aliasMap)))
    {
      into.Overlay(calCols, true);
      into.Overlay(aliasMap, false);
    }

    /** A copy shares the message and nothing else. */
    method Clone() returns (c: Tuple)
      ensures fresh(c) && c.message == message && c.Abs() == Abs() && c.cachedMap == null
    {
      c := new Tuple(emitter, message, calCols, aliasMap);
    }

    /** How a join picks: each row under it is copied and the copy is picked. The copy has a map
        of its own afterwards, or the whole message; either way the shared one is as before. */
    method PickedCopy(cols: seq<Column>, w: Choice) returns (c: Tuple)
      ensures fresh(c) && c.Abs() == PickTuple(Abs(), cols, w)
      ensures fresh(c.message) || (c.message == message && Everything(w, emitter) && w.except == [])
      ensures unchanged(this) && unchanged(message)
    {
      c := Clone();
      c.Pick(cols, w);
    }

    method PickComputed(cols: seq<Column>) returns (rest: seq<Column>)
      modifies this`calCols, this`aliasMap
      ensures Abs().aff == PickAffiliate(old(Abs().aff), cols)
      ensures rest == Remaining(old(Abs().aff), cols)
    {
      var newAlias: Fields, newCal: Fields := map[], map[];
      ghost var a := Abs().aff;
      rest := [];
      PickNone(a);
      hide PickAffiliate, Remaining, Named;
      for i := 0 to |cols|
        invariant Abs().aff == a
        invariant Affiliate(newCal, newAlias) == PickAffiliate(a, cols[..i])
        invariant rest == Remaining(a, cols[..i])
      {
        var c := cols[i];
        assert cols[..i + 1] == cols[..i] + [c];
        PickOneMore(a, cols[..i], c);
        if Unqualified(c) && c.name in aliasMap {
          newAlias := newAlias[c.name := aliasMap[c.name]];
        } else if Unqualified(c) && c.name in calCols {
          newCal := newCal[c.name := calCols[c.name]];
        } else {
          rest := rest + [c];
        }
      }
      assert cols[..|cols|] == cols;
      aliasMap := newAlias;
      calCols := newCal;
    }

    /** The picked fields, in a map of their own. */
    method PickFields(rest: seq<Column>, w: Choice) returns (picked: Message)
      requires !Everything(w, emitter)
      ensures fresh(picked) && picked.entries == PickMessage(message.entries, rest, emitter, w)
    {
      picked := new Message(map[]);
      ghost var m := message.entries;
      for i := 0 to |rest|
        invariant message.entries == m
        invariant picked.entries == PickMessage(m, rest[..i], emitter, w)
      {
        var c := rest[i];
        assert rest[..i + 1] == rest[..i] + [c];
        PickFieldsOneMore(m, rest[..i], c, emitter, w);
        if c.table == emitter || Unqualified(c) {
          if c.name in message.entries {
            picked.entries := picked.entries[c.name := message.entries[c.name]];
          } else if w.sendNil {
            picked.entries := picked.entries[c.name := Nil];
          }
        }
      }
      assert rest[..|rest|] == rest;
    }

    /** The tuple gets a map of its own, unless it keeps the whole message. */
    method Pick(cols: seq<Column>, w: Choice)
      modifies this
      ensures Abs() == PickTuple(old(Abs()), cols, w) && cachedMap == null
      ensures fresh(message) || (message == old(message) && Everything(w, emitter) && w.except == [])
    {
      cachedMap := null;
      var rest := PickComputed(cols);
      if !(w.allWildcard || emitter in w.wildcardEmitters) {
        message := PickFields(rest, w);
      } else if |w.except| > 0 {
        var kept := map k | k in message.entries && k !in w.except :: message.entries[k];
        message := new Message(kept);
      }
    }
  }

  lemma NamedOneMore(cols: seq<Column>, c: Column)
    ensures forall k :: Named(cols + [c], k) <==> Named(cols, k) || (Unqualified(c) && c.name == k)
  {
    assert c in cols + [c];
    forall k | Named(cols, k) ensures Named(cols + [c], k) {
      var x :| x in cols && Unqualified(x) && x.name == k;
      assert x in cols + [c];
    }
  }

  lemma PickNone(a: Affiliate)
    ensures PickAffiliate(a, []) == Affiliate(map[], map[]) && Remaining(a, []) == []
  {
    assert forall k :: !Named([], k);
  }

  lemma PickOneMore(a: Affiliate, cols: seq<Column>, c: Column)
    ensures Remaining(a, cols + [c]) == if Taken(a, c) then Remaining(a, cols) else Remaining(a, cols) + [c]
    ensures var p := PickAffiliate(a, cols);
            PickAffiliate(a, cols + [c]) ==
            if Unqualified(c) && c.name in a.aliasMap then Affiliate(p.calCols, p.aliasMap[c.name := a.aliasMap[c.name]])
            else if Unqualified(c) && c.name in a.calCols then Affiliate(p.calCols[c.name := a.calCols[c.name]], p.aliasMap)
            else p
  {
    hide Named;
    NamedOneMore(cols, c);
    assert (cols + [c])[..|cols|] == cols;
  }

  lemma PickFieldsOneMore(m: Fields, cols: seq<Column>, c: Column, emitter: string, w: Choice)
    requires !Everything(w, emitter)
    ensures var p := PickMessage(m, cols, emitter, w);
            PickMessage(m, cols + [c], emitter, w) ==
            if !(c.table == emitter || Unqualified(c)) then p
            else if c.name in m then p[c.name := m[c.name]]
            else if w.sendNil then p[c.name := Nil] else p
  {
    hide FromMessage;
    assert Names(cols + [c], emitter) == Names(cols, emitter) + (if c.table == emitter || Unqualified(c) then {c.name} else {});
  }

  /** The export of a join, written from the last row back to the first. */
  method JoinToMap(ts: seq<Row>, aff: Affiliate) returns (m: Fields)
    ensures m == ExportOf(Joined(ts, aff))
  {
    m := map[];
    var i := |ts|;
    while i > 0
      invariant 0 <= i <= |ts|
      invariant m == Overlaid(ts[i..])
    {
      i := i - 1;
      assert ts[i..][1..] == ts[i + 1..];
      m := m + ExportOf(ts[i]);
    }
    m := m + Exported(aff);
  }

  /** The lookup in a join from the first row on; with a qualifier also below nested joins, where
      a missing value is passed over. */
  method DoGetValue(ts: seq<Row>, key: string, table: string) returns (v: Option<Value>)
    requires ts != [] && forall t | t in ts :: Sound(t)
    ensures v == if table == "" then FirstHit(ts, key) else FirstOf(ts, key, table)
    decreases ts
  {
    for i := 0 to |ts|
      invariant table == "" ==> FirstHit(ts, key) == FirstHit(ts[i..], key)
      invariant table != "" ==> FirstOf(ts, key, table) == FirstOf(ts[i..], key, table)
    {
      assert ts[i..][1..] == ts[i + 1..];
      if table == "" {
        v := ReadColumn(ts[i], key, "");
        if v.Some? {
          return;
        }
      } else {
        if Emitter(ts[i]) == table {
          v := ReadColumn(ts[i], key, "");
          if v.Some? && v.value != Nil {
            return;
          }
        }
        if ts[i].Joined? {
          assert Sound(ts[i]);
          v := DoGetValue(ts[i].tuples, key, table);
          if v.Some? && v.value != Nil {
            return;
          }
        }
      }
    }
    v := None;
  }

  /** Somewhere below, a row of that name reads the column as `v`. */
  predicate Supplies(ts: seq<Row>, key: string, table: string, v: Value)
    decreases ts
  {
    ts != [] && (RowSupplies(ts[0], key, table, v) || Supplies(ts[1..], key, table, v))
  }

  predicate RowSupplies(t: Row, key: string, table: string, v: Value)
    decreases t
  {
    (Emitter(t) == table && ReadColumn(t, key, "") == Some(v)) || (t.Joined? && Supplies(t.tuples, key, table, v))
  }

  /** Somewhere below, a tuple of that name reads the column as `v`. */
  predicate TupleSupplies(t: Row, key: string, table: string, v: Value)
    decreases t
  {
    if t.Single? then t.emitter == table && ReadColumn(t, key, "") == Some(v)
    else exists u | u in t.tuples :: TupleSupplies(u, key, table, v)
  }

  /** A join has a name of its own, which no stream has: with any other qualifier a lookup finds
      columns of tuples only. */
  lemma {:induction false} OnlyTuplesSupply(ts: seq<Row>, key: string, table: string, v: Value)
    requires Supplies(ts, key, table, v) && table != "$$JOIN"
    ensures exists u | u in ts :: TupleSupplies(u, key, table, v)
    decreases ts
  {
    if RowSupplies(ts[0], key, table, v) {
      if ts[0].Joined? {
        OnlyTuplesSupply(ts[0].tuples, key, table, v);
      }
      assert TupleSupplies(ts[0], key, table, v);
    } else {
      OnlyTuplesSupply(ts[1..], key, table, v);
    }
  }

  /** A qualified lookup finds a value of a row of that name at some depth, never a missing one,
      and it finds one whenever some such row has one. */
  lemma {:induction false} QualifiedLookup(ts: seq<Row>, key: string, table: string, u: Value)
    ensures var v := FirstOf(ts, key, table); v.Some? ==> v.value != Nil && Supplies(ts, key, table, v.value)
    ensures Supplies(ts, key, table, u) && u != Nil ==> FirstOf(ts, key, table).Some?
    decreases ts
  {
    if ts != [] {
      var t := ts[0];
      if t.Joined? {
        QualifiedLookup(t.tuples, key, table, u);
      }
      QualifiedLookup(ts[1..], key, table, u);
      var here := if Emitter(t) == table then NonNil(ReadColumn(t, key, "")) else None;
      var below := if t.Joined? then NonNil(FirstOf(t.tuples, key, table)) else None;
      var v := FirstOf(ts, key, table);
      assert v == Either(here, Either(below, FirstOf(ts[1..], key, table)));
      assert v.Some? ==> RowSupplies(t, key, table, v.value) || Supplies(ts[1..], key, table, v.value);
      if RowSupplies(t, key, table, u) && u != Nil {
        assert here.Some? || below.Some?;
      }
    }
  }
}
