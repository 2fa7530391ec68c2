/** The life of one shared sub-topology: created, opened, closed, and never back. */
module PoolLife {
  import opened Tokens
  import opened PoolMachine
  import opened PoolTheorems

  function Rank(life: Life): nat {
    match life
    case Init => 0
    case Opened => 1
    case Closed => 2
  }

  /** What may happen to a sub-topology: its life goes on, a cancel function that is set stays set,
      and its name and source are its own. Once it is closed it only loses references. */
  ghost predicate Ages(s: Sub, t: Sub) {
    && Rank(s.life) <= Rank(t.life) && (s.cancel ==> t.cancel)
    && s.name == t.name && s.source == t.source
    && (s.life.Closed? ==> RefSet(t) <= RefSet(s) && t.cancel == s.cancel)
  }

  lemma AgesOn(s: Sub, t: Sub, u: Sub)
    requires Ages(s, t) && Ages(t, u)
    ensures Ages(s, u)
  {
  }

  lemma {:induction false} OpenAges(st: State, o: nat, r: Ref, bad: set<nat>, i: nat)
    requires ValidState(st) && o < |st.subs| && i < |st.subs|
    ensures Ages(st.subs[i], Open(st, o, r, bad).subs[i])
  {
    OpenRefs(st, o, r, bad, i);
    OpenLives(st, o, r, bad, i);
    if st.subs[i].life.Closed? {
      TakesNothingClosed(st, o, r, bad, i);
    }
  }

  lemma {:induction false} OpenLives(st: State, o: nat, r: Ref, bad: set<nat>, i: nat)
    requires o < |st.subs| && Sources(st) && i < |st.subs|
    ensures var s, t := st.subs[i], Open(st, o, r, bad).subs[i];
            Rank(s.life) <= Rank(t.life) && (s.cancel ==> t.cancel) && (s.life.Closed? ==> t == s)
    decreases o
  {
    var s := UpdateRef(st.subs[o], r);
    if st.subs[o].life.Init? && o !in bad && s.source.Some? {
      OpenLives(st.(subs := st.subs[o := s.(life := Opened)]), s.source.value, Key(s.name), bad, i);
    }
  }

  lemma {:induction false} TakesNothingClosed(st: State, o: nat, r: Ref, bad: set<nat>, i: nat)
    requires o < |st.subs| && Sources(st) && i < |st.subs| && st.subs[i].life.Closed?
    ensures OpenTakes(st, o, r, bad, i) == iset{}
    decreases o
  {
    var s := st.subs[o];
    if !s.life.Closed? && s.source.Some? {
      TakesNothingClosed(st, s.source.value, Key(s.name), bad, i);
    }
  }

  lemma StepAges(w: World, e: Event, i: nat)
    requires Valid(w) && Enabled(w, e) && i < |w.st.subs|
    ensures i < |Apply(w, e).st.subs| && Ages(w.st.subs[i], Apply(w, e).st.subs[i])
  {
    StepRefs(w, e, i);
    match e
    case Get(_, _, _) =>
    case Start(o, r, bad) => OpenAges(w.st, o, r, bad, i);
    case Leave(_) =>
    case Release(_, _) =>
    case Chain(_) =>
  }

  /** Over every run, every sub-topology ages. */
  lemma {:induction false} RunAges(w: World, es: seq<Event>, i: nat)
    requires Possible(w, es) && Valid(w) && i < |w.st.subs|
    ensures i < |Run(w, es).st.subs| && Ages(w.st.subs[i], Run(w, es).st.subs[i])
    decreases es
  {
    hide Ages, Apply;
    if es == [] {
      NoAge(w.st.subs[i]);
    } else {
      StepKeeps(w, es[0]);
      StepAges(w, es[0], i);
      RunAges(Apply(w, es[0]), es[1..], i);
      AgesOn(w.st.subs[i], Apply(w, es[0]).st.subs[i], Run(w, es).st.subs[i]);
    }
  }

  lemma NoAge(s: Sub)
    ensures Ages(s, s)
  {
  }

  /** When the loop of a sub-topology that was started ends, it is closed, and however the run goes
      on it is never granted a reference again. */
  lemma {:induction false} AfterExit(w: World, i: nat, es: seq<Event>)
    requires Valid(w) && i < |w.st.subs| && w.st.subs[i].cancel && Possible(Apply(w, Leave(i)), es)
    ensures var t := Run(Apply(w, Leave(i)), es).st;
            i < |t.subs| && t.subs[i].life.Closed? && RefSet(t.subs[i]) <= RefSet(w.st.subs[i])
  {
    StepKeeps(w, Leave(i));
    StepAges(w, Leave(i), i);
    var w1 := Apply(w, Leave(i));
    assert w1.st.subs[i].life.Closed? && w1.st.subs[i].refs == w.st.subs[i].refs;
    RunAges(w1, es, i);
  }

  /** An exit touches nothing else: no reference, no pool entry, no other sub-topology. */
  lemma ExitIsLocal(st: State, i: nat, k: nat)
    requires i < |st.subs| && k < |st.subs|
    ensures var t := Exit(st, i);
            && t.pool == st.pool && |t.subs| == |st.subs| && (k != i ==> t.subs[k] == st.subs[k])
            && RefSet(t.subs[i]) == RefSet(st.subs[i]) && (t.subs[i].life.Closed? <==> st.subs[i].life.Closed? || st.subs[i].cancel)
  {
  }

  /** The first open starts a sub-topology unless preparing it fails: its cancel is set and it holds
      its reference on its source, if that is not closed. Any later open only takes a reference. */
  lemma {:induction false} OpenStarts(st: State, i: nat, r: Ref, bad: set<nat>)
    requires ValidState(st) && i < |st.subs| && !st.subs[i].life.Closed?
    ensures var t := Open(st, i, r, bad);
            && t.subs[i].life.Opened? && r in RefSet(t.subs[i])
            && (t.subs[i].cancel <==> st.subs[i].cancel || (st.subs[i].life.Init? && i !in bad))
            && (st.subs[i].life.Opened? || i in bad ==> forall k | 0 <= k < |st.subs| && k != i :: t.subs[k] == st.subs[k])
    ensures st.subs[i].life.Init? && i !in bad && st.subs[i].source.Some? && !st.subs[st.subs[i].source.value].life.Closed? ==>
              Key(st.subs[i].name) in RefSet(Open(st, i, r, bad).subs[st.subs[i].source.value])
  {
    OpenRefs(st, i, r, bad, i);
    if st.subs[i].source.Some? {
      OpenRefs(st, i, r, bad, st.subs[i].source.value);
    }
  }

  ghost predicate NewSub(s: Sub, r: Ref, build: Build) {
    s.life.Init? && !s.cancel && build.Builds? && s.source == build.source && RefSet(s) == iset{r}
  }

  /** Asking for a name gives the sub-topology the pool has under it, which then holds the reference
      unless it is closed; a new one is built only when there is none, and is not open yet. If
      building fails nothing changes. */
  lemma GetGives(st: State, name: string, r: Ref, build: Build)
    requires ValidState(st) && (build.Builds? && build.source.Some? ==> build.source.value < |st.subs|)
    ensures var (t, i) := GetOrCreate(st, name, r, build);
            && (i.None? <==> name !in st.pool && build.Fails?) && (i.None? ==> t == st)
            && (i.Some? ==> i.value < |t.subs| && name in t.pool && t.pool[name] == i.value && t.subs[i.value].name == name)
            && (i.Some? && !t.subs[i.value].life.Closed? ==> r in RefSet(t.subs[i.value]))
            && (name in st.pool ==> t.pool == st.pool && |t.subs| == |st.subs|)
    ensures name !in st.pool && build.Builds? ==>
              var (t, n) := (GetOrCreate(st, name, r, build).0, |st.subs|);
              t.subs == st.subs + [t.subs[n]] && NewSub(t.subs[n], r, build)
  {
    if name in st.pool {
      UpdateRefAdds(st.subs[st.pool[name]], r);
    } else if build.Builds? {
      UpdateRefAdds(Sub(name, map[], Init, false, 0, build.source), r);
    }
  }
}
