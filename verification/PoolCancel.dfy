/** Many callers cancel one run at once: what the pool is left with, whatever the order of their
    locked sections. */
module PoolCancel {
  import opened Tokens
  import opened PoolMachine
  import opened PoolTheorems

  // ----- what releases can do to a state -----

  /** `k` lost its last reference since `st0`. */
  predicate Fell(st0: State, st: State, k: nat) {
    k < |st0.subs| && k < |st.subs| && !Destroyed(st0.subs[k]) && Destroyed(st.subs[k])
  }

  /** What is left of a sub-topology when its last reference goes. */
  function Last(s0: Sub): Sub {
    s0.(refs := map[], life := Closed, calls := s0.calls + if s0.cancel then 1 else 0)
  }

  /** `i` loses its last reference from `st` to `st'`. */
  predicate FallsNow(st: State, st': State, i: nat) {
    i < |st.subs| && i < |st'.subs| && !Destroyed(st.subs[i]) && Destroyed(st'.subs[i])
  }

  /** `s` is `s0` with some references released. */
  ghost predicate Reduced(s0: Sub, s: Sub) {
    NoEmptyRule(s) && if Destroyed(s0) then s == s0 else if Destroyed(s) then s == Last(s0) else s == s0.(refs := s.refs)
  }

  ghost predicate Shrunk(st0: State, st: State) {
    && |st.subs| == |st0.subs|
    && (forall k: nat :: k < |st.subs| ==> Reduced(st0.subs[k], st.subs[k]))
    && (forall n :: n in st.pool <==> n in st0.pool && st0.pool[n] < |st.subs| && !Destroyed(st.subs[st0.pool[n]]))
    && (forall n :: n in st.pool ==> n in st0.pool && st.pool[n] == st0.pool[n])
  }

  /** The pairs released at `i`: the caller's own if `i` is in `turned`, and the chained ones of
      those that fell and are not `owing` theirs. */
  ghost predicate Freed(st0: State, st: State, turned: set<nat>, owing: set<nat>, r: Ref, i: nat, q: Ref) {
    (i in turned && q == r) ||
    exists k: nat :: Fell(st0, st, k) && k !in owing && st0.subs[k].source == Some(i) && q == Key(st0.subs[k].name)
  }

  /** Exactly those are gone. */
  ghost predicate Settled(st0: State, st: State, turned: set<nat>, owing: set<nat>, r: Ref) {
    && ValidState(st0) && ValidState(st) && Shrunk(st0, st)
    && forall i: nat, q :: i < |st.subs| ==>
         (q in RefSet(st.subs[i]) <==> q in RefSet(st0.subs[i]) && !Freed(st0, st, turned, owing, r, i, q))
  }

  lemma StartsSettled(st: State, r: Ref)
    requires ValidState(st)
    ensures Settled(st, st, {}, {}, r)
  {
  }

  lemma CloseReduces(s0: Sub, s: Sub, r: Ref)
    requires NoEmptyRule(s0) && Reduced(s0, s) && (Destroyed(s0) ==> s0.life.Closed?)
    ensures var (t, destroy) := RemoveRef(s, r);
            Reduced(s0, if destroy then t.(calls := t.calls + if t.cancel then 1 else 0) else t)
    ensures RemoveRef(s, r).1 <==> !Destroyed(s) && Destroyed(RemoveRef(s, r).0)
  {
    RemoveRefRemoves(s, r);
    NoRefs(s);
    NoRefs(RemoveRef(s, r).0);
  }

  lemma CloseShrinks(st0: State, st: State, i: nat, q: Ref)
    requires ValidState(st0) && ValidState(st) && Shrunk(st0, st) && i < |st.subs|
    ensures ValidState(CloseOne(st, i, q).0) && Shrunk(st0, CloseOne(st, i, q).0)
  {
    CloseKeeps(st, i, q);
    CloseReduces(st0.subs[i], st.subs[i], q);
  }

  /** What one close changes: the pair, perhaps the fall of `i`, and then its debt. */
  lemma CloseEffect(st0: State, st: State, i: nat, q: Ref)
    requires ValidState(st0) && ValidState(st) && Shrunk(st0, st) && i < |st.subs|
    ensures var (st', source) := CloseOne(st, i, q);
            && ValidState(st') && Shrunk(st0, st')
            && (forall n: nat, x :: n < |st.subs| ==> (x in RefSet(st'.subs[n]) <==> x in RefSet(st.subs[n]) && !(n == i && x == q)))
            && (forall k: nat :: Fell(st0, st', k) <==> Fell(st0, st, k) || (k == i && FallsNow(st, st', i)))
            && source == if FallsNow(st, st', i) then st0.subs[i].source else None
  {
    CloseShrinks(st0, st, i, q);
    RemoveRefRemoves(st.subs[i], q);
    CloseReduces(st0.subs[i], st.subs[i], q);
  }

  function Owes(i: nat, source: Option<nat>): set<nat> {
    if source.Some? then {i} else {}
  }

  /** A caller's own release. */
  lemma TurnSettles(st0: State, st: State, turned: set<nat>, owing: set<nat>, r: Ref, i: nat)
    requires Settled(st0, st, turned, owing, r) && i < |st.subs|
    ensures var (st', source) := CloseOne(st, i, r); Settled(st0, st', turned + {i}, owing + Owes(i, source), r)
  {
    CloseEffect(st0, st, i, r);
    var (st', source) := CloseOne(st, i, r);
    hide CloseOne, ValidState, Shrunk, Fell, RefSet;
    forall n: nat, q | n < |st'.subs|
      ensures q in RefSet(st'.subs[n]) <==> q in RefSet(st0.subs[n]) && !Freed(st0, st', turned + {i}, owing + Owes(i, source), r, n, q)
    {
      FreedByTurn(st0, st, st', turned, owing, r, i, source, n, q);
    }
  }

  lemma FreedByTurn(st0: State, st: State, st': State, turned: set<nat>, owing: set<nat>, r: Ref, i: nat,
      source: Option<nat>, n: nat, q: Ref)
    requires |st.subs| == |st0.subs| == |st'.subs| && i < |st.subs|
    requires forall k: nat :: Fell(st0, st', k) <==> Fell(st0, st, k) || (k == i && FallsNow(st, st', i))
    requires source == if FallsNow(st, st', i) then st0.subs[i].source else None
    ensures Freed(st0, st', turned + {i}, owing + Owes(i, source), r, n, q)
       <==> Freed(st0, st, turned, owing, r, n, q) || (n == i && q == r)
  {
    if k: nat :| Fell(st0, st, k) && k !in owing && st0.subs[k].source == Some(n) && q == Key(st0.subs[k].name) {
      assert Fell(st0, st', k) && k !in owing + Owes(i, source);
    }
    if k: nat :| Fell(st0, st', k) && k !in owing + Owes(i, source) && st0.subs[k].source == Some(n) && q == Key(st0.subs[k].name) {
      assert Fell(st0, st, k);
    }
  }

  /** The chained release of one that fell. */
  lemma LinkSettles(st0: State, st: State, turned: set<nat>, owing: set<nat>, r: Ref, j: nat)
    requires Settled(st0, st, turned, owing, r) && Fell(st0, st, j) && st0.subs[j].source.Some?
    ensures st0.subs[j].source.value < j < |st.subs|
    ensures var i := st0.subs[j].source.value;
            var (st', source) := CloseOne(st, i, Key(st0.subs[j].name));
            Settled(st0, st', turned, owing - {j} + Owes(i, source), r)
  {
    var i, q0 := st0.subs[j].source.value, Key(st0.subs[j].name);
    CloseEffect(st0, st, i, q0);
    var (st', source) := CloseOne(st, i, q0);
    assert i < j;
    hide CloseOne, ValidState, Shrunk, Fell, RefSet;
    forall n: nat, q | n < |st'.subs|
      ensures q in RefSet(st'.subs[n]) <==> q in RefSet(st0.subs[n]) && !Freed(st0, st', turned, owing - {j} + Owes(i, source), r, n, q)
    {
      FreedByLink(st0, st, st', turned, owing, r, i, j, source, n, q);
    }
  }

  lemma FreedByLink(st0: State, st: State, st': State, turned: set<nat>, owing: set<nat>, r: Ref, i: nat, j: nat,
      source: Option<nat>, n: nat, q: Ref)
    requires |st.subs| == |st0.subs| == |st'.subs| && i < j && Fell(st0, st, j) && st0.subs[j].source == Some(i)
    requires forall k: nat :: Fell(st0, st', k) <==> Fell(st0, st, k) || (k == i && FallsNow(st, st', i))
    requires source == if FallsNow(st, st', i) then st0.subs[i].source else None
    ensures Freed(st0, st', turned, owing - {j} + Owes(i, source), r, n, q)
       <==> Freed(st0, st, turned, owing, r, n, q) || (n == i && q == Key(st0.subs[j].name))
  {
    var owing' := owing - {j} + Owes(i, source);
    if Freed(st0, st, turned, owing, r, n, q) || (n == i && q == Key(st0.subs[j].name)) {
      if !(n in turned && q == r) {
        assert Fell(st0, st', j) && j !in owing';
        if !(n == i && q == Key(st0.subs[j].name)) {
          var k: nat :| Fell(st0, st, k) && k !in owing && st0.subs[k].source == Some(n) && q == Key(st0.subs[k].name);
          assert Fell(st0, st', k) && k !in owing';
        }
      }
    }
    if Freed(st0, st', turned, owing', r, n, q) && !(n in turned && q == r) {
      FreedBefore(st0, st, st', turned, owing, r, i, j, source, n, q);
    }
  }

  lemma FreedBefore(st0: State, st: State, st': State, turned: set<nat>, owing: set<nat>, r: Ref, i: nat, j: nat,
      source: Option<nat>, n: nat, q: Ref)
    requires |st.subs| == |st0.subs| == |st'.subs| && i < j < |st0.subs| && st0.subs[j].source == Some(i)
    requires forall k: nat :: Fell(st0, st', k) <==> Fell(st0, st, k) || (k == i && FallsNow(st, st', i))
    requires source == if FallsNow(st, st', i) then st0.subs[i].source else None
    requires Freed(st0, st', turned, owing - {j} + Owes(i, source), r, n, q)
    ensures Freed(st0, st, turned, owing, r, n, q) || (n == i && q == Key(st0.subs[j].name))
  {
    if !(n in turned && q == r) {
      var k: nat :| Fell(st0, st', k) && k !in owing - {j} + Owes(i, source) && st0.subs[k].source == Some(n) && q == Key(st0.subs[k].name);
      assert Fell(st0, st, k);
      if k != j {
        assert k !in owing;
      }
    }
  }

  // ----- the result is determined -----

  lemma SameRefs(s: Sub, t: Sub)
    requires NoEmptyRule(s) && NoEmptyRule(t) && RefSet(s) == RefSet(t)
    ensures s.refs == t.refs
  {
    RefsWithin(s, t);
    RefsWithin(t, s);
    assert forall rule :: rule in s.refs <==> rule in t.refs;
    assert forall rule :: rule in s.refs ==> s.refs[rule] == t.refs[rule];
  }

  lemma RefsWithin(s: Sub, t: Sub)
    requires NoEmptyRule(s) && forall q :: q in RefSet(s) ==> q in RefSet(t)
    ensures forall rule :: rule in s.refs ==> rule in t.refs && s.refs[rule] <= t.refs[rule]
  {
    forall rule | rule in s.refs
      ensures rule in t.refs && s.refs[rule] <= t.refs[rule]
    {
      var run := Inhabitant(s.refs[rule]);
      assert Ref(rule, run) in RefSet(s);
      forall x | x in s.refs[rule] ensures x in t.refs[rule] {
        assert Ref(rule, x) in RefSet(s);
      }
    }
  }

  /** From the last sub-topology down: what falls above decides what is released below. */
  lemma {:induction false} SameFrom(st0: State, st1: State, st2: State, turned: set<nat>, r: Ref, n: nat)
    requires Settled(st0, st1, turned, {}, r) && Settled(st0, st2, turned, {}, r) && n <= |st0.subs|
    ensures forall k: nat :: n <= k < |st0.subs| ==> st1.subs[k] == st2.subs[k]
    decreases |st0.subs| - n
  {
    hide Settled;
    SameSizes(st0, st1, turned, r);
    SameSizes(st0, st2, turned, r);
    if n < |st0.subs| {
      SameFrom(st0, st1, st2, turned, r, n + 1);
      SameAt(st0, st1, st2, turned, r, n);
    }
  }

  lemma SameSizes(st0: State, st: State, turned: set<nat>, r: Ref)
    requires Settled(st0, st, turned, {}, r)
    ensures |st.subs| == |st0.subs|
  {
  }

  lemma SameAt(st0: State, st1: State, st2: State, turned: set<nat>, r: Ref, n: nat)
    requires Settled(st0, st1, turned, {}, r) && Settled(st0, st2, turned, {}, r) && n < |st0.subs|
    requires forall k: nat :: n < k < |st0.subs| ==> st1.subs[k] == st2.subs[k]
    ensures st1.subs[n] == st2.subs[n]
  {
    assert Sources(st0) && Reduced(st0.subs[n], st1.subs[n]) && Reduced(st0.subs[n], st2.subs[n]);
    hide ValidState, Shrunk, Freed;
    forall q ensures q in RefSet(st1.subs[n]) <==> q in RefSet(st2.subs[n]) {
      FreedAlike(st0, st1, st2, turned, r, n, q);
      FreedAlike(st0, st2, st1, turned, r, n, q);
    }
    SameSub(st0.subs[n], st1.subs[n], st2.subs[n]);
  }

  lemma SameSub(s0: Sub, s: Sub, t: Sub)
    requires Reduced(s0, s) && Reduced(s0, t) && forall q :: q in RefSet(s) <==> q in RefSet(t)
    ensures s == t
  {
    assert RefSet(s) == RefSet(t);
    SameRefs(s, t);
  }

  lemma FreedAlike(st0: State, st1: State, st2: State, turned: set<nat>, r: Ref, n: nat, q: Ref)
    requires Sources(st0) && |st0.subs| == |st1.subs| == |st2.subs|
    requires forall k: nat :: n < k < |st0.subs| ==> st1.subs[k] == st2.subs[k]
    ensures Freed(st0, st1, turned, {}, r, n, q) ==> Freed(st0, st2, turned, {}, r, n, q)
  {
    if k: nat :| Fell(st0, st1, k) && st0.subs[k].source == Some(n) && q == Key(st0.subs[k].name) {
      assert Fell(st0, st2, k);
    }
  }

  /** However it came about, a state in which nobody owes a chained close is the only one. */
  lemma SettledIsUnique(st0: State, st1: State, st2: State, turned: set<nat>, r: Ref)
    requires Settled(st0, st1, turned, {}, r) && Settled(st0, st2, turned, {}, r)
    ensures st1 == st2
  {
    assert Shrunk(st0, st1) && Shrunk(st0, st2);
    hide ValidState, Freed, RefSet, Reduced;
    SameFrom(st0, st1, st2, turned, r, 0);
    assert st1.subs == st2.subs;
    assert st1.pool == st2.pool;
  }

  /** Nothing that is owed is held any more. */
  ghost predicate DebtsVoid(st0: State, st: State, owing: set<nat>)
    requires |st0.subs| == |st.subs| && Sources(st0)
  {
    forall j: nat :: j in owing && j < |st0.subs| && st0.subs[j].source.Some? ==>
      Key(st0.subs[j].name) !in RefSet(st.subs[st0.subs[j].source.value])
  }

  lemma VoidIsSettled(st0: State, st: State, turned: set<nat>, owing: set<nat>, r: Ref)
    requires Settled(st0, st, turned, owing, r) && forall j :: j in owing ==> Fell(st0, st, j)
    ensures DebtsVoid(st0, st, owing) <==> Settled(st0, st, turned, {}, r)
  {
    if DebtsVoid(st0, st, owing) {
      forall i: nat, q | i < |st.subs|
        ensures q in RefSet(st.subs[i]) <==> q in RefSet(st0.subs[i]) && !Freed(st0, st, turned, {}, r, i, q)
      {
        FreedOrVoid(st0, st, turned, owing, r, i, q);
      }
    } else {
      var j: nat :| j in owing && j < |st0.subs| && st0.subs[j].source.Some? && Key(st0.subs[j].name) in RefSet(st.subs[st0.subs[j].source.value]);
      assert Freed(st0, st, turned, {}, r, st0.subs[j].source.value, Key(st0.subs[j].name));
    }
  }

  lemma FreedOrVoid(st0: State, st: State, turned: set<nat>, owing: set<nat>, r: Ref, i: nat, q: Ref)
    requires |st0.subs| == |st.subs| && Sources(st0) && DebtsVoid(st0, st, owing)
    ensures Freed(st0, st, turned, owing, r, i, q) ==> Freed(st0, st, turned, {}, r, i, q)
    ensures Freed(st0, st, turned, {}, r, i, q) && i < |st.subs| && q in RefSet(st.subs[i]) ==> Freed(st0, st, turned, owing, r, i, q)
  {
  }

  // ----- one caller alone -----

  lemma {:induction false} ChainSettles(st0: State, st: State, turned: set<nat>, r: Ref, j: nat)
    requires Settled(st0, st, turned, {j}, r) && Fell(st0, st, j) && st0.subs[j].source.Some?
    ensures st0.subs[j].source.value < |st.subs|
    ensures Settled(st0, CloseAll(st, st0.subs[j].source.value, Key(st0.subs[j].name)), turned, {}, r)
    decreases |st.pool|
  {
    var i, q := st0.subs[j].source.value, Key(st0.subs[j].name);
    LinkSettles(st0, st, turned, {j}, r, j);
    CloseEffect(st0, st, i, q);
    OneReleased(st, i, q);
    var (st1, source) := CloseOne(st, i, q);
    assert {j} - {j} + Owes(i, source) == Owes(i, source);
    assert st.subs[i].name == st0.subs[i].name;
    hide CloseOne, Settled;
    if source.Some? {
      ChainSettles(st0, st1, turned, r, i);
    }
  }

  lemma CloseAllSettles(st0: State, st: State, turned: set<nat>, r: Ref, i: nat)
    requires Settled(st0, st, turned, {}, r) && i < |st.subs|
    ensures Settled(st0, CloseAll(st, i, r), turned + {i}, {}, r)
  {
    TurnSettles(st0, st, turned, {}, r, i);
    CloseEffect(st0, st, i, r);
    OneReleased(st, i, r);
    var (st1, source) := CloseOne(st, i, r);
    assert {} + Owes(i, source) == Owes(i, source);
    assert st.subs[i].name == st0.subs[i].name;
    hide CloseOne, Settled;
    if source.Some? {
      ChainSettles(st0, st1, turned + {i}, r, i);
    }
  }

  ghost predicate InRange(sources: seq<nat>, n: nat) {
    forall k :: 0 <= k < |sources| ==> sources[k] < n
  }

  function Members(sources: seq<nat>): set<nat> {
    set i | i in sources
  }

  lemma {:induction false} CancelSettles(st0: State, st: State, turned: set<nat>, sources: seq<nat>, r: Ref)
    requires Settled(st0, st, turned, {}, r) && InRange(sources, |st.subs|)
    ensures Settled(st0, CancelSources(st, sources, r), turned + Members(sources), {}, r)
    decreases sources
  {
    if sources == [] {
      assert turned + Members(sources) == turned;
    } else {
      CloseAllSettles(st0, st, turned, r, sources[0]);
      CancelSettles(st0, CloseAll(st, sources[0], r), turned + {sources[0]}, sources[1..], r);
      assert sources == [sources[0]] + sources[1..];
      assert turned + {sources[0]} + Members(sources[1..]) == turned + Members(sources);
    }
  }

  // ----- many callers -----

  /** The locked sections of callers that cancel one run: the next release of a caller, or a
      chained close that some caller owes. */
  datatype Move = Turn(caller: nat) | Link(k: nat)

  /** How far each caller has come along the sources. */
  datatype Callers = Callers(w: World, done: map<nat, nat>)

  function Progress(done: map<nat, nat>, c: nat): nat {
    if c in done then done[c] else 0
  }

  ghost function MoveOne(c: Callers, m: Move, sources: seq<nat>, r: Ref): (c': Callers)
    requires Valid(c.w) && InRange(sources, |c.w.st.subs|)
    ensures Valid(c'.w) && |c'.w.st.subs| == |c.w.st.subs|
  {
    match m
    case Turn(a) =>
      var p := Progress(c.done, a);
      if p >= |sources| then c
      else
        StepKeeps(c.w, Release(sources[p], r));
        Callers(Apply(c.w, Release(sources[p], r)), c.done[a := p + 1])
    case Link(k) =>
      if k >= |c.w.pending| then c
      else
        StepKeeps(c.w, Chain(k));
        Callers(Apply(c.w, Chain(k)), c.done)
  }

  ghost function MoveAll(c: Callers, ms: seq<Move>, sources: seq<nat>, r: Ref): (c': Callers)
    requires Valid(c.w) && InRange(sources, |c.w.st.subs|)
    ensures Valid(c'.w) && |c'.w.st.subs| == |c.w.st.subs|
    decreases ms
  {
    if ms == [] then c else MoveAll(MoveOne(c, ms[0], sources, r), ms[1..], sources, r)
  }

  ghost predicate Tracks(st0: State, c: Callers, turned: set<nat>, sources: seq<nat>, r: Ref) {
    && Valid(c.w) && InRange(sources, |c.w.st.subs|)
    && Settled(st0, c.w.st, turned, Members(c.w.pending), r)
    && (forall j :: j in c.w.pending ==> Fell(st0, c.w.st, j))
    && turned <= Members(sources)
    && Passed(c.done, turned, sources)
  }

  /** What every caller has passed is released. */
  ghost predicate Passed(done: map<nat, nat>, turned: set<nat>, sources: seq<nat>) {
    forall a :: a in done ==> PassedBy(done[a], turned, sources)
  }

  predicate PassedBy(n: nat, turned: set<nat>, sources: seq<nat>) {
    n <= |sources| && forall p :: 0 <= p < n ==> sources[p] in turned
  }

  lemma DropMember(pending: seq<nat>, k: nat)
    requires k < |pending| && forall i, j :: 0 <= i < j < |pending| ==> pending[i] != pending[j]
    ensures Members(pending[..k] + pending[k + 1..]) == Members(pending) - {pending[k]}
  {
    var rest := pending[..k] + pending[k + 1..];
    forall x | x in pending && x != pending[k] ensures x in rest {
      var i :| 0 <= i < |pending| && pending[i] == x;
      assert i < k ==> rest[i] == x;
      assert i > k ==> rest[i - 1] == x;
    }
  }

  lemma AddMember(pending: seq<nat>, i: nat, source: Option<nat>)
    ensures Members(if source.Some? then pending + [i] else pending) == Members(pending) + Owes(i, source)
  {
  }

  /** What fell stays fallen, and the one that owes a chained close has just fallen. */
  lemma FallsStay(st0: State, st: State, turned: set<nat>, owing: set<nat>, r: Ref, i: nat, q: Ref)
    requires Settled(st0, st, turned, owing, r) && i < |st.subs|
    ensures var (st', source) := CloseOne(st, i, q);
            && |st'.subs| == |st.subs|
            && (forall k :: Fell(st0, st, k) ==> Fell(st0, st', k))
            && (source.Some? ==> Fell(st0, st', i))
  {
    CloseEffect(st0, st, i, q);
  }

  lemma SameReading(st0: State, st: State, turned: set<nat>, owing: set<nat>, r: Ref, j: nat)
    requires Settled(st0, st, turned, owing, r) && j < |st.subs|
    ensures |st0.subs| == |st.subs| && st0.subs[j].name == st.subs[j].name && st0.subs[j].source == st.subs[j].source
  {
    hide ValidState, Freed;
  }

  lemma TurnTracks(st0: State, c: Callers, turned: set<nat>, sources: seq<nat>, r: Ref, a: nat)
    requires Tracks(st0, c, turned, sources, r) && Progress(c.done, a) < |sources|
    ensures Tracks(st0, MoveOne(c, Turn(a), sources, r), turned + {sources[Progress(c.done, a)]}, sources, r)
  {
    hide CloseOne, Settled, ValidState, ValidPending, Fell;
    var p := Progress(c.done, a);
    var i := sources[p];
    TurnSettles(st0, c.w.st, turned, Members(c.w.pending), r, i);
    FallsStay(st0, c.w.st, turned, Members(c.w.pending), r, i, r);
    AddMember(c.w.pending, i, CloseOne(c.w.st, i, r).1);
    PassOneMore(c.done, turned, sources, a);
  }

  lemma PassOneMore(done: map<nat, nat>, turned: set<nat>, sources: seq<nat>, a: nat)
    requires Passed(done, turned, sources) && Progress(done, a) < |sources|
    ensures Passed(done[a := Progress(done, a) + 1], turned + {sources[Progress(done, a)]}, sources)
  {
    assert PassedBy(Progress(done, a), turned, sources);
    assert forall b :: b in done ==> PassedBy(done[b], turned, sources);
  }

  lemma LinkIsClose(c: Callers, k: nat, sources: seq<nat>, r: Ref)
    requires Valid(c.w) && InRange(sources, |c.w.st.subs|) && k < |c.w.pending|
    ensures var s := c.w.st.subs[c.w.pending[k]];
            && s.source.Some? && s.source.value < |c.w.st.subs|
            && var (st', source) := CloseOne(c.w.st, s.source.value, Key(s.name));
               var rest := c.w.pending[..k] + c.w.pending[k + 1..];
               MoveOne(c, Link(k), sources, r) ==
                 Callers(World(st', if source.Some? then rest + [s.source.value] else rest), c.done)
  {
    hide CloseOne;
  }

  lemma LinkTracks(st0: State, c: Callers, turned: set<nat>, sources: seq<nat>, r: Ref, k: nat)
    requires Tracks(st0, c, turned, sources, r) && k < |c.w.pending|
    ensures Tracks(st0, MoveOne(c, Link(k), sources, r), turned, sources, r)
  {
    var j := c.w.pending[k];
    var rest := c.w.pending[..k] + c.w.pending[k + 1..];
    assert c.w.st.subs[j].source.Some?;
    DropMember(c.w.pending, k);
    hide CloseOne, Settled, ValidState, ValidPending, Fell, Members;
    SameReading(st0, c.w.st, turned, Members(c.w.pending), r, j);
    LinkSettles(st0, c.w.st, turned, Members(c.w.pending), r, j);
    var i, q := st0.subs[j].source.value, Key(st0.subs[j].name);
    FallsStay(st0, c.w.st, turned, Members(c.w.pending), r, i, q);
    AddMember(rest, i, CloseOne(c.w.st, i, q).1);
    LinkIsClose(c, k, sources, r);
    hide MoveOne;
  }

  lemma {:induction false} MovesTrack(st0: State, c: Callers, turned: set<nat>, ms: seq<Move>, sources: seq<nat>, r: Ref)
    returns (after: set<nat>)
    requires Tracks(st0, c, turned, sources, r)
    ensures Tracks(st0, MoveAll(c, ms, sources, r), after, sources, r)
    decreases ms
  {
    hide Tracks, MoveOne, Valid;
    after := turned;
    if ms != [] {
      var c1, t1 := OneTracks(st0, c, turned, ms[0], sources, r);
      after := MovesTrack(st0, c1, t1, ms[1..], sources, r);
    }
  }

  lemma OneTracks(st0: State, c: Callers, turned: set<nat>, m: Move, sources: seq<nat>, r: Ref)
    returns (c': Callers, after: set<nat>)
    requires Tracks(st0, c, turned, sources, r)
    ensures Valid(c.w) && InRange(sources, |c.w.st.subs|) && c' == MoveOne(c, m, sources, r)
    ensures Tracks(st0, c', after, sources, r)
  {
    c', after := MoveOne(c, m, sources, r), turned;
    match m
    case Turn(a) =>
      if Progress(c.done, a) < |sources| {
        TurnTracks(st0, c, turned, sources, r, a);
        after := turned + {sources[Progress(c.done, a)]};
      }
    case Link(k) =>
      if k < |c.w.pending| {
        LinkTracks(st0, c, turned, sources, r, k);
      }
  }

  /** Any number of callers, section by section in any interleaving: once one of them has made its
      last release, the pool is what a single cancel leaves exactly when every chained close
      that is still owed would find its reference gone. */
  lemma ConcurrentCancels(st: State, ms: seq<Move>, sources: seq<nat>, r: Ref, a: nat)
    requires ValidState(st) && InRange(sources, |st.subs|)
    requires Progress(MoveAll(Callers(World(st, []), map[]), ms, sources, r).done, a) == |sources|
    ensures var w := MoveAll(Callers(World(st, []), map[]), ms, sources, r).w;
            w.st == CancelSources(st, sources, r) <==> DebtsVoid(st, w.st, Members(w.pending))
  {
    var c := Callers(World(st, []), map[]);
    StartsSettled(st, r);
    assert Members([]) == {};
    var turned := MovesTrack(st, c, {}, ms, sources, r);
    var c' := MoveAll(c, ms, sources, r);
    assert PassedBy(|sources|, turned, sources);
    assert turned == Members(sources) by {
      forall i | i in sources ensures i in turned {
        var p :| 0 <= p < |sources| && sources[p] == i;
      }
    }
    CancelSettles(st, st, {}, sources, r);
    assert {} + Members(sources) == Members(sources);
    VoidIsSettled(st, c'.w.st, turned, Members(c'.w.pending), r);
    if DebtsVoid(st, c'.w.st, Members(c'.w.pending)) {
      SettledIsUnique(st, c'.w.st, CancelSources(st, sources, r), turned, r);
    }
  }

  /** In particular when no chained close is owed. */
  lemma AllThrough(st: State, ms: seq<Move>, sources: seq<nat>, r: Ref, a: nat)
    requires ValidState(st) && InRange(sources, |st.subs|)
    requires Progress(MoveAll(Callers(World(st, []), map[]), ms, sources, r).done, a) == |sources|
    requires MoveAll(Callers(World(st, []), map[]), ms, sources, r).w.pending == []
    ensures MoveAll(Callers(World(st, []), map[]), ms, sources, r).w == World(CancelSources(st, sources, r), [])
  {
    ConcurrentCancels(st, ms, sources, r, a);
  }

  // ----- among other rules -----

  /** No step of the run grants `r` at `i`. */
  ghost predicate NotGranted(w: World, es: seq<Event>, i: nat, r: Ref)
    requires Possible(w, es)
    decreases es
  {
    es == [] || (r !in Taken(w, es[0], i) && NotGranted(Apply(w, es[0]), es[1..], i, r))
  }

  /** Whatever other rules get, open, leave and release in between: a pair that was released is
      gone at the end, unless it was granted again. */
  lemma {:induction false} ReleasedForGood(w: World, es: seq<Event>, i: nat, r: Ref)
    requires Possible(w, es) && NotGranted(w, es, i, r)
    requires r !in Held(w, i) || Release(i, r) in es
    ensures r !in Held(Run(w, es), i)
    decreases es
  {
    hide Apply, Enabled, Valid, RefSet;
    if es != [] {
      StepRefs(w, es[0], i);
      assert es[0] == Release(i, r) || r !in Held(w, i) || Release(i, r) in es[1..];
      ReleasedForGood(Apply(w, es[0]), es[1..], i, r);
    }
  }
}
