/** What a rule may rely on: which references are held, and that releasing is idempotent and ends. */
module PoolTheorems {
  import opened Tokens
  import opened PoolMachine

  // ----- the references are the accepted pairs not yet released -----

  ghost function Held(w: World, i: nat): iset<Ref> {
    if i < |w.st.subs| then RefSet(w.st.subs[i]) else iset{}
  }

  /** What an open of `o` adds at `i`: the caller's reference, and the one taken on a source. */
  ghost function OpenTakes(st: State, o: nat, r: Ref, bad: set<nat>, i: nat): iset<Ref>
    requires o < |st.subs| && Sources(st)
    decreases o
  {
    var s := st.subs[o];
    if s.life.Closed? then iset{}
    else
      (if o == i then iset{r} else iset{}) +
      (if s.life.Init? && o !in bad && s.source.Some? then OpenTakes(st, s.source.value, Key(s.name), bad, i) else iset{})
  }

  /** The references an event is granted at `i`: none by a sub-topology that is closed. */
  ghost function Taken(w: World, e: Event, i: nat): iset<Ref>
    requires Valid(w) && Enabled(w, e)
  {
    match e
    case Get(name, r, build) =>
      if (name in w.st.pool && w.st.pool[name] == i && !w.st.subs[i].life.Closed?) ||
         (name !in w.st.pool && build.Builds? && i == |w.st.subs|)
      then iset{r} else iset{}
    case Start(o, r, bad) => OpenTakes(w.st, o, r, bad, i)
    case _ => iset{}
  }

  ghost function Dropped(w: World, e: Event, i: nat): iset<Ref>
    requires Valid(w) && Enabled(w, e)
  {
    match e
    case Release(o, r) => if o == i then iset{r} else iset{}
    case Chain(k) =>
      var s := w.st.subs[w.pending[k]];
      if s.source.value == i then iset{Key(s.name)} else iset{}
    case _ => iset{}
  }

  lemma {:induction false} OpenRefs(st: State, o: nat, r: Ref, bad: set<nat>, i: nat)
    requires o < |st.subs| && Sources(st) && i < |st.subs|
    requires forall k :: 0 <= k < |st.subs| ==> NoEmptyRule(st.subs[k])
    ensures RefSet(Open(st, o, r, bad).subs[i]) == RefSet(st.subs[i]) + OpenTakes(st, o, r, bad, i)
    decreases o
  {
    var s := UpdateRef(st.subs[o], r);
    UpdateRefAdds(st.subs[o], r);
    if st.subs[o].life.Init? && o !in bad && s.source.Some? {
      var st0 := st.(subs := st.subs[o := s.(life := Opened)]);
      OpenRefs(st0, s.source.value, Key(s.name), bad, i);
      TakesBelow(st, st0, s.source.value, Key(s.name), bad, i);
    }
  }

  lemma {:induction false} TakesBelow(st: State, st0: State, o: nat, r: Ref, bad: set<nat>, i: nat)
    requires o < |st.subs| == |st0.subs| && Sources(st) && Sources(st0)
    requires forall k :: 0 <= k <= o ==> st.subs[k] == st0.subs[k]
    ensures OpenTakes(st, o, r, bad, i) == OpenTakes(st0, o, r, bad, i)
    decreases o
  {
    var s := st.subs[o];
    if s.source.Some? {
      TakesBelow(st, st0, s.source.value, Key(s.name), bad, i);
    }
  }

  lemma StepRefs(w: World, e: Event, i: nat)
    requires Valid(w) && Enabled(w, e)
    ensures Held(Apply(w, e), i) == Held(w, i) + Taken(w, e, i) - Dropped(w, e, i)
  {
    match e
    case Get(name, r, build) =>
      if name in w.st.pool {
        UpdateRefAdds(w.st.subs[w.st.pool[name]], r);
      }
    case Start(o, r, bad) =>
      if i < |w.st.subs| {
        OpenRefs(w.st, o, r, bad, i);
      } else {
        TakesNothing(w.st, o, r, bad, i);
      }
    case Leave(_) =>
    case Release(o, r) => RemoveRefRemoves(w.st.subs[o], r);
    case Chain(k) =>
      var s := w.st.subs[w.pending[k]];
      RemoveRefRemoves(w.st.subs[s.source.value], Key(s.name));
  }

  lemma {:induction false} TakesNothing(st: State, o: nat, r: Ref, bad: set<nat>, i: nat)
    requires o < |st.subs| <= i && Sources(st)
    ensures OpenTakes(st, o, r, bad, i) == iset{}
    decreases o
  {
    var s := st.subs[o];
    if s.source.Some? {
      TakesNothing(st, s.source.value, Key(s.name), bad, i);
    }
  }

  /** What a history of events leaves held at `i`. */
  ghost function Holding(w: World, es: seq<Event>, i: nat, held: iset<Ref>): iset<Ref>
    requires Possible(w, es)
    decreases es
  {
    if es == [] then held
    else Holding(Apply(w, es[0]), es[1..], i, held + Taken(w, es[0], i) - Dropped(w, es[0], i))
  }

  lemma {:induction false} RunRefs(w: World, es: seq<Event>, i: nat)
    requires Possible(w, es)
    ensures Held(Run(w, es), i) == Holding(w, es, i, Held(w, i))
    decreases es
  {
    if es != [] {
      StepRefs(w, es[0], i);
      RunRefs(Apply(w, es[0]), es[1..], i);
    }
  }

  // ----- releasing again does nothing, and a chain of closes ends -----

  lemma ReleaseTwice(st: State, i: nat, r: Ref)
    requires ValidState(st) && i < |st.subs|
    ensures var st' := CloseOne(st, i, r).0; CloseOne(st', i, r) == (st', None)
  {
    CloseKeeps(st, i, r);
    RemoveRefRemoves(st.subs[i], r);
    NotHeld(CloseOne(st, i, r).0, i, r);
  }

  lemma NotHeld(st: State, i: nat, r: Ref)
    requires ValidState(st) && i < |st.subs| && r !in RefSet(st.subs[i])
    ensures CloseOne(st, i, r) == (st, None)
  {
    var s := st.subs[i];
    if r.rule in s.refs {
      assert s.refs[r.rule] - {r.run} == s.refs[r.rule];
      assert s.refs[r.rule := s.refs[r.rule]] == s.refs;
    }
    assert RemoveRef(s, r) == (s, false);
    assert st.subs[i := s] == st.subs;
  }

  /** A close with all that follows from it: every link of the chain destroys a sub-topology,
      so the pool gets smaller and the chain ends. */
  function CloseAll(st: State, i: nat, r: Ref): (st': State)
    requires ValidState(st) && i < |st.subs|
    ensures ValidState(st') && |st'.subs| == |st.subs|
    decreases |st.pool|
  {
    CloseKeeps(st, i, r);
    var (st1, source) := CloseOne(st, i, r);
    if source.None? then st1
    else
      assert st1.pool.Keys == st.pool.Keys - {st.subs[i].name};
      assert |st1.pool.Keys| < |st.pool.Keys|;
      CloseAll(st1, source.value, Key(st.subs[i].name))
  }

  lemma {:induction false} CloseAllReleases(st: State, i: nat, r: Ref)
    requires ValidState(st) && i < |st.subs|
    ensures r !in RefSet(CloseAll(st, i, r).subs[i])
    ensures forall k :: 0 <= k < |st.subs| ==> RefSet(CloseAll(st, i, r).subs[k]) <= RefSet(st.subs[k])
    decreases |st.pool|
  {
    var (st1, source) := CloseOne(st, i, r);
    OneReleased(st, i, r);
    hide ValidState, CloseOne, RefSet;
    if source.Some? {
      CloseAllReleases(st1, source.value, Key(st.subs[i].name));
    }
  }

  /** One close takes the pair away and nothing else; it shrinks the pool if a chain goes on. */
  lemma OneReleased(st: State, i: nat, r: Ref)
    requires ValidState(st) && i < |st.subs|
    ensures var (st1, source) := CloseOne(st, i, r);
            && ValidState(st1) && |st1.subs| == |st.subs|
            && (forall k :: 0 <= k < |st.subs| ==> RefSet(st1.subs[k]) == if k == i then RefSet(st.subs[i]) - iset{r} else RefSet(st.subs[k]))
            && (source.Some? ==> source.value < |st.subs| && |st1.pool| < |st.pool|)
  {
    CloseKeeps(st, i, r);
    RemoveRefRemoves(st.subs[i], r);
    var (st1, source) := CloseOne(st, i, r);
    if source.Some? {
      assert st1.pool.Keys == st.pool.Keys - {st.subs[i].name};
      assert |st1.pool.Keys| < |st.pool.Keys|;
    }
  }

  /** Cancelling a rule's topology closes each shared source for its run. */
  function CancelSources(st: State, sources: seq<nat>, r: Ref): (st': State)
    requires ValidState(st) && forall k :: 0 <= k < |sources| ==> sources[k] < |st.subs|
    ensures ValidState(st') && |st'.subs| == |st.subs|
    decreases sources
  {
    if sources == [] then st else CancelSources(CloseAll(st, sources[0], r), sources[1..], r)
  }

  lemma {:induction false} CancelReleases(st: State, sources: seq<nat>, r: Ref)
    requires ValidState(st) && forall k :: 0 <= k < |sources| ==> sources[k] < |st.subs|
    ensures forall k :: 0 <= k < |sources| ==> r !in RefSet(CancelSources(st, sources, r).subs[sources[k]])
    ensures forall k :: 0 <= k < |st.subs| ==> RefSet(CancelSources(st, sources, r).subs[k]) <= RefSet(st.subs[k])
    decreases sources
  {
    if sources != [] {
      CloseAllReleases(st, sources[0], r);
      CancelReleases(CloseAll(st, sources[0], r), sources[1..], r);
    }
  }

  lemma {:induction false} CancelWhenReleased(st: State, sources: seq<nat>, r: Ref)
    requires ValidState(st)
    requires forall k :: 0 <= k < |sources| ==> sources[k] < |st.subs| && r !in RefSet(st.subs[sources[k]])
    ensures CancelSources(st, sources, r) == st
    decreases sources
  {
    if sources != [] {
      NotHeld(st, sources[0], r);
      assert CloseAll(st, sources[0], r) == st;
      CancelWhenReleased(st, sources[1..], r);
    }
  }

  /** However often a topology is cancelled, the pool is left as one cancel leaves it. */
  lemma CancelTwice(st: State, sources: seq<nat>, r: Ref)
    requires ValidState(st) && forall k :: 0 <= k < |sources| ==> sources[k] < |st.subs|
    ensures CancelSources(CancelSources(st, sources, r), sources, r) == CancelSources(st, sources, r)
  {
    CancelReleases(st, sources, r);
    CancelWhenReleased(CancelSources(st, sources, r), sources, r);
  }
}
