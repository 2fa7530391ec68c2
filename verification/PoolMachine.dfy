/** Shared sub-topologies as a state machine: what each locked section does to the pool, and
    what stays true however the sections of concurrent rule runs interleave. */
module PoolMachine {
  import opened Tokens

  /** A reference is held by one run of one rule. */
  datatype Ref = Ref(rule: string, run: int)

  datatype Life = Init | Opened | Closed

  /** One sub-topology. `refs` nests run ids under rule ids; `source` is the sub-topology it reads
      from, if any; `calls` counts the calls of its cancel function. */
  datatype Sub = Sub(
    name: string,
    refs: map<string, set<int>>,
    life: Life,
    cancel: bool,
    calls: nat,
    source: Option<nat>)

  /** The pool names sub-topologies by their position in the list of all ever published. */
  datatype State = State(pool: map<string, nat>, subs: seq<Sub>)

  // ----- references -----

  function UpdateRef(s: Sub, r: Ref): Sub {
    if s.life.Closed? then s
    else s.(refs := s.refs[r.rule := (if r.rule in s.refs then s.refs[r.rule] else {}) + {r.run}])
  }

  /** Removes a run, then its rule if that was the last run, and reports whether that was the
      last rule. */
  function RemoveRef(s: Sub, r: Ref): (Sub, bool) {
    if r.rule !in s.refs then (s, false)
    else
      var runs := s.refs[r.rule] - {r.run};
      var refs := if runs == {} then s.refs - {r.rule} else s.refs[r.rule := runs];
      if refs == map[] then (s.(refs := refs, life := Closed), true) else (s.(refs := refs), false)
  }

  /** The references held, as pairs. */
  ghost function RefSet(s: Sub): iset<Ref> {
    iset r: Ref | r.rule in s.refs && r.run in s.refs[r.rule]
  }

  ghost predicate NoEmptyRule(s: Sub) {
    forall rule :: rule in s.refs ==> s.refs[rule] != {}
  }

  lemma UpdateRefAdds(s: Sub, r: Ref)
    requires NoEmptyRule(s)
    ensures NoEmptyRule(UpdateRef(s, r))
    ensures RefSet(UpdateRef(s, r)) == if s.life.Closed? then RefSet(s) else RefSet(s) + iset{r}
  {
  }

  /** The nested maps behave as the set of pairs: removal takes exactly the pair away, and the
      sub-topology is destroyed exactly when that pair was the last one. */
  lemma RemoveRefRemoves(s: Sub, r: Ref)
    requires NoEmptyRule(s)
    ensures NoEmptyRule(RemoveRef(s, r).0)
    ensures RefSet(RemoveRef(s, r).0) == RefSet(s) - iset{r}
    ensures RemoveRef(s, r).1 <==> RefSet(s) == iset{r}
  {
    if r.rule in s.refs {
      var runs := s.refs[r.rule] - {r.run};
      assert r.rule in s.refs[r.rule := runs];
      if RefSet(s) == iset{r} {
        forall rule, run | rule in s.refs && run in s.refs[rule]
          ensures rule == r.rule && run == r.run
        {
          assert Ref(rule, run) in RefSet(s);
        }
        assert runs == {};
        assert s.refs - {r.rule} == map[];
      }
      if RemoveRef(s, r).1 {
        assert runs == {} && s.refs - {r.rule} == map[];
        forall rule | rule in s.refs
          ensures rule == r.rule
        {
          assert rule != r.rule ==> rule in s.refs - {r.rule};
        }
        assert s.refs[r.rule] == {r.run};
      }
    } else {
      assert r !in RefSet(s);
    }
  }

  lemma Inhabitant<T>(runs: set<T>) returns (run: T)
    requires runs != {}
    ensures run in runs
  {
    run :| run in runs;
  }

  lemma NoRefs(s: Sub)
    requires NoEmptyRule(s)
    ensures s.refs == map[] <==> RefSet(s) == iset{}
  {
    if s.refs != map[] {
      var rule :| rule in s.refs;
      var run := Inhabitant(s.refs[rule]);
      assert Ref(rule, run) in RefSet(s);
    }
  }

  // ----- the locked sections -----

  /** What building a new sub-topology gives: an error, or a source that may be shared too. */
  datatype Build = Fails | Builds(source: Option<nat>)

  function GetOrCreate(st: State, name: string, r: Ref, build: Build): (res: (State, Option<nat>))
    requires build.Builds? && build.source.Some? ==> build.source.value < |st.subs|
    requires forall n :: n in st.pool ==> st.pool[n] < |st.subs|
  {
    if name in st.pool then
      var i := st.pool[name];
      (st.(subs := st.subs[i := UpdateRef(st.subs[i], r)]), Some(i))
    else if build.Fails? then (st, None)
    else
      var s := UpdateRef(Sub(name, map[], Init, false, 0, build.source), r);
      (State(st.pool[name := |st.subs|], st.subs + [s]), Some(|st.subs|))
  }

  /** The reference a sub-topology holds on its source. */
  function Key(name: string): Ref {
    Ref("$$subtopo_" + name, 0)
  }

  predicate SameIdentity(s: Sub, t: Sub) {
    s.name == t.name && s.source == t.source && s.calls == t.calls
  }

  /** Opening takes the reference; the first open also starts the operators and opens the
      source. `bad` are the sub-topologies whose preparation fails. */
  function Open(st: State, i: nat, r: Ref, bad: set<nat>): (st': State)
    requires i < |st.subs| && Sources(st)
    ensures |st'.subs| == |st.subs| && Sources(st') && st'.pool == st.pool
    ensures forall k :: 0 <= k < |st.subs| ==> SameIdentity(st.subs[k], st'.subs[k])
    ensures forall k :: i < k < |st.subs| ==> st'.subs[k] == st.subs[k]
    decreases i
  {
    var s := UpdateRef(st.subs[i], r);
    if st.subs[i].life.Closed? then st
    else if !s.life.Init? then st.(subs := st.subs[i := s])
    else if i in bad then st.(subs := st.subs[i := s.(life := Opened)])
    else if s.source.None? then st.(subs := st.subs[i := s.(life := Opened, cancel := true)])
    else
      var j := s.source.value;
      var st1 := Open(st.(subs := st.subs[i := s.(life := Opened)]), j, Key(s.name), bad);
      st1.(subs := st1.subs[i := s.(life := Opened, cancel := true)])
  }

  /** What the first open does once the sub-topology is marked as opened. */
  function Started(st: State, i: nat, bad: set<nat>): State
    requires i < |st.subs| && Sources(st)
  {
    var s := st.subs[i];
    if i in bad then st
    else if s.source.None? then st.(subs := st.subs[i := s.(cancel := true)])
    else var st1 := Open(st, s.source.value, Key(s.name), bad); st1.(subs := st1.subs[i := s.(cancel := true)])
  }

  lemma OpenStep(st: State, i: nat, r: Ref, bad: set<nat>)
    requires i < |st.subs| && Sources(st)
    ensures st.subs[i].life.Closed? ==> Open(st, i, r, bad) == st
    ensures var s := UpdateRef(st.subs[i], r);
            && (st.subs[i].life.Opened? ==> Open(st, i, r, bad) == st.(subs := st.subs[i := s]))
            && (st.subs[i].life.Init? ==> Open(st, i, r, bad) == Started(st.(subs := st.subs[i := s.(life := Opened)]), i, bad))
  {
  }

  /** A source is built before the sub-topology that reads from it. */
  predicate Sources(st: State) {
    forall k :: 0 <= k < |st.subs| && st.subs[k].source.Some? ==> st.subs[k].source.value < k
  }

  /** The running loop of an opened sub-topology ends by itself. */
  function Exit(st: State, i: nat): State
    requires i < |st.subs|
  {
    if st.subs[i].cancel then st.(subs := st.subs[i := st.subs[i].(life := Closed)]) else st
  }

  /** Releases a reference; the last one also calls cancel and takes the pool entry away. The
      second result is the source that is to be closed next. */
  function CloseOne(st: State, i: nat, r: Ref): (State, Option<nat>)
    requires i < |st.subs|
  {
    var (s, destroy) := RemoveRef(st.subs[i], r);
    if !destroy then (st.(subs := st.subs[i := s]), None)
    else
      var s' := s.(calls := s.calls + if s.cancel then 1 else 0);
      (State(st.pool - {s.name}, st.subs[i := s']), s.source)
  }

  // ----- runs -----

  /** `pending` are the destroyed sub-topologies whose source is still to be closed. */
  datatype World = World(st: State, pending: seq<nat>)

  datatype Event =
    | Get(name: string, r: Ref, build: Build)
    | Start(i: nat, r: Ref, bad: set<nat>)
    | Leave(i: nat)
    | Release(i: nat, r: Ref)
    | Chain(k: nat)

  ghost predicate Enabled(w: World, e: Event) {
    match e
    case Get(_, _, build) => build.Builds? && build.source.Some? ==> build.source.value < |w.st.subs|
    case Start(i, _, _) => i < |w.st.subs|
    case Leave(i) => i < |w.st.subs|
    case Release(i, _) => i < |w.st.subs|
    case Chain(k) => k < |w.pending|
  }

  function Closing(w: World, i: nat, r: Ref): World
    requires i < |w.st.subs|
  {
    var (st, source) := CloseOne(w.st, i, r);
    World(st, if source.Some? then w.pending + [i] else w.pending)
  }

  function Apply(w: World, e: Event): World
    requires Valid(w) && Enabled(w, e)
  {
    match e
    case Get(name, r, build) => w.(st := GetOrCreate(w.st, name, r, build).0)
    case Start(i, r, bad) => w.(st := Open(w.st, i, r, bad))
    case Leave(i) => w.(st := Exit(w.st, i))
    case Release(i, r) => Closing(w, i, r)
    case Chain(k) =>
      var s := w.st.subs[w.pending[k]];
      Closing(w.(pending := w.pending[..k] + w.pending[k + 1..]), s.source.value, Key(s.name))
  }

  // ----- what every step keeps -----

  /** A sub-topology is destroyed when its last reference is gone. */
  predicate Destroyed(s: Sub) {
    s.refs == map[]
  }

  /** The pool maps a name to a sub-topology exactly while that one is referenced; a destroyed
      one is closed, and its cancel, if it was set, has been called once. */
  ghost predicate ValidState(st: State) {
    && Sources(st)
    && (forall n :: n in st.pool ==> st.pool[n] < |st.subs| && st.subs[st.pool[n]].name == n && !Destroyed(st.subs[st.pool[n]]))
    && (forall k :: 0 <= k < |st.subs| ==> NoEmptyRule(st.subs[k]))
    && (forall k {:trigger st.subs[k]} :: 0 <= k < |st.subs| ==>
          if Destroyed(st.subs[k]) then Finished(st.subs[k])
          else st.subs[k].calls == 0 && st.subs[k].name in st.pool && st.pool[st.subs[k].name] == k)
  }

  predicate Finished(s: Sub) {
    s.life.Closed? && s.calls == if s.cancel then 1 else 0
  }

  ghost predicate Valid(w: World) {
    ValidState(w.st) && ValidPending(w.st.subs, w.pending)
  }

  lemma GetKeeps(st: State, name: string, r: Ref, build: Build)
    requires ValidState(st)
    requires build.Builds? && build.source.Some? ==> build.source.value < |st.subs|
    ensures ValidState(GetOrCreate(st, name, r, build).0)
    ensures |st.subs| <= |GetOrCreate(st, name, r, build).0.subs|
    ensures forall k :: 0 <= k < |st.subs| && Destroyed(st.subs[k]) ==> GetOrCreate(st, name, r, build).0.subs[k] == st.subs[k]
  {
    if name in st.pool {
      UpdateRefAdds(st.subs[st.pool[name]], r);
    }
  }

  /** One sub-topology may change as long as it stays referenced and keeps its identity. */
  predicate Evolves(s: Sub, t: Sub) {
    && SameIdentity(s, t)
    && (Destroyed(s) <==> Destroyed(t))
    && (s.life.Closed? ==> s == t)
  }

  lemma EvolveKeeps(st: State, st': State)
    requires ValidState(st) && st'.pool == st.pool && |st'.subs| == |st.subs|
    requires forall k :: 0 <= k < |st.subs| ==> Evolves(st.subs[k], st'.subs[k]) && NoEmptyRule(st'.subs[k])
    ensures ValidState(st')
  {
  }

  lemma {:induction false} OpenEvolves(st: State, i: nat, r: Ref, bad: set<nat>)
    requires i < |st.subs| && Sources(st)
    requires forall k :: 0 <= k < |st.subs| ==> NoEmptyRule(st.subs[k]) && (Destroyed(st.subs[k]) ==> st.subs[k].life.Closed?)
    ensures forall k :: 0 <= k < |st.subs| ==> Evolves(st.subs[k], Open(st, i, r, bad).subs[k]) && NoEmptyRule(Open(st, i, r, bad).subs[k])
    decreases i
  {
    var s := UpdateRef(st.subs[i], r);
    UpdateRefAdds(st.subs[i], r);
    if s.life.Init? && i !in bad && s.source.Some? {
      var st0 := st.(subs := st.subs[i := s.(life := Opened)]);
      OpenEvolves(st0, s.source.value, Key(s.name), bad);
    }
  }

  lemma CloseKeeps(st: State, i: nat, r: Ref)
    requires ValidState(st) && i < |st.subs|
    ensures ValidState(CloseOne(st, i, r).0)
    ensures var (st', source) := CloseOne(st, i, r);
            (source.Some? ==> !Destroyed(st.subs[i]) && Destroyed(st'.subs[i]) && source == st'.subs[i].source)
            && forall k :: 0 <= k < |st.subs| && Destroyed(st.subs[k]) ==> st'.subs[k] == st.subs[k]
  {
    RemoveRefRemoves(st.subs[i], r);
  }

  /** The pending closes stay what they are while nothing that is destroyed changes. */
  ghost predicate ValidPending(subs: seq<Sub>, pending: seq<nat>) {
    && (forall k :: 0 <= k < |pending| ==> pending[k] < |subs|)
    && (forall k :: 0 <= k < |pending| ==> Destroyed(subs[pending[k]]) && subs[pending[k]].source.Some?)
    && (forall j, k :: 0 <= j < k < |pending| ==> pending[j] != pending[k])
  }

  lemma PendingKept(subs: seq<Sub>, subs': seq<Sub>, pending: seq<nat>)
    requires ValidPending(subs, pending) && |subs| <= |subs'|
    requires forall k :: 0 <= k < |subs| && Destroyed(subs[k]) ==> subs'[k] == subs[k]
    ensures ValidPending(subs', pending)
  {
  }

  lemma ClosingKeeps(w: World, i: nat, r: Ref)
    requires Valid(w) && i < |w.st.subs|
    ensures Valid(Closing(w, i, r)) && |Closing(w, i, r).st.subs| == |w.st.subs|
    ensures forall k :: 0 <= k < |w.st.subs| && Destroyed(w.st.subs[k]) ==> Closing(w, i, r).st.subs[k] == w.st.subs[k]
  {
    CloseKeeps(w.st, i, r);
    PendingKept(w.st.subs, CloseOne(w.st, i, r).0.subs, w.pending);
  }

  /** The invariant holds over every step. */
  lemma StepKeeps(w: World, e: Event)
    requires Valid(w) && Enabled(w, e)
    ensures Valid(Apply(w, e))
    ensures |w.st.subs| <= |Apply(w, e).st.subs|
    ensures forall k :: 0 <= k < |w.st.subs| && Destroyed(w.st.subs[k]) ==> Apply(w, e).st.subs[k] == w.st.subs[k]
  {
    hide NoEmptyRule, CloseOne, Destroyed, GetOrCreate, Open;
    match e
    case Get(name, r, build) =>
      GetKeeps(w.st, name, r, build);
      PendingKept(w.st.subs, GetOrCreate(w.st, name, r, build).0.subs, w.pending);
    case Start(i, r, bad) =>
      StartKeeps(w.st, i, r, bad);
      PendingKept(w.st.subs, Open(w.st, i, r, bad).subs, w.pending);
    case Leave(i) =>
      LeaveKeeps(w.st, i);
      PendingKept(w.st.subs, Exit(w.st, i).subs, w.pending);
    case Release(i, r) =>
      ClosingKeeps(w, i, r);
    case Chain(k) =>
      var s := w.st.subs[w.pending[k]];
      var w0 := w.(pending := w.pending[..k] + w.pending[k + 1..]);
      DropPending(w, k);
      ClosingKeeps(w0, s.source.value, Key(s.name));
  }

  lemma DropPending(w: World, k: nat)
    requires Valid(w) && k < |w.pending|
    ensures Valid(w.(pending := w.pending[..k] + w.pending[k + 1..]))
    ensures w.st.subs[w.pending[k]].source.Some? && w.st.subs[w.pending[k]].source.value < |w.st.subs|
  {
  }

  lemma StartKeeps(st: State, i: nat, r: Ref, bad: set<nat>)
    requires ValidState(st) && i < |st.subs|
    ensures ValidState(Open(st, i, r, bad))
    ensures forall k :: 0 <= k < |st.subs| && Destroyed(st.subs[k]) ==> Open(st, i, r, bad).subs[k] == st.subs[k]
  {
    OpenEvolves(st, i, r, bad);
    EvolveKeeps(st, Open(st, i, r, bad));
  }

  lemma LeaveKeeps(st: State, i: nat)
    requires ValidState(st) && i < |st.subs|
    ensures ValidState(Exit(st, i))
    ensures forall k :: 0 <= k < |st.subs| && Destroyed(st.subs[k]) ==> Exit(st, i).subs[k] == st.subs[k]
  {
  }

  /** A run is a list of events, each possible when it comes. */
  ghost predicate Possible(w: World, es: seq<Event>)
    decreases es
  {
    es == [] || (Valid(w) && Enabled(w, es[0]) && Possible(Apply(w, es[0]), es[1..]))
  }

  ghost function Run(w: World, es: seq<Event>): World
    requires Possible(w, es)
    decreases es
  {
    if es == [] then w else Run(Apply(w, es[0]), es[1..])
  }

  /** Over every interleaving from an empty pool: the invariant holds, and destruction is final;
      what is destroyed never changes again, so it gains no reference and no second cancel. */
  lemma {:induction false} RunKeeps(w: World, es: seq<Event>)
    requires Valid(w) && Possible(w, es)
    ensures Valid(Run(w, es)) && |w.st.subs| <= |Run(w, es).st.subs|
    ensures forall k :: 0 <= k < |w.st.subs| && Destroyed(w.st.subs[k]) ==> Run(w, es).st.subs[k] == w.st.subs[k]
    decreases es
  {
    if es != [] {
      StepKeeps(w, es[0]);
      RunKeeps(Apply(w, es[0]), es[1..]);
    }
  }

  lemma EmptyPoolIsValid()
    ensures Valid(World(State(map[], []), []))
  {
  }
}
