/** Whether a sub-topology keeps the source it reads from, and which steps take it away. */
module PoolSafety {
  import opened Tokens
  import opened PoolMachine
  import opened PoolTheorems

  /** `k` is referenced and reads from another sub-topology. */
  predicate Reader(st: State, k: nat) {
    k < |st.subs| && !Destroyed(st.subs[k]) && st.subs[k].source.Some?
  }

  /** A reader that has its reference on its source, opened or not. */
  predicate Holds(st: State, k: nat)
    requires Sources(st)
  {
    Reader(st, k) && HasRef(st.subs[st.subs[k].source.value], Key(st.subs[k].name))
  }

  predicate HasRef(s: Sub, r: Ref) {
    r.rule in s.refs && r.run in s.refs[r.rule]
  }

  /** Whoever is still in use keeps its reference on its source. */
  ghost predicate Keeps(st: State, st': State)
    requires Sources(st) && Sources(st')
  {
    forall k: nat :: Holds(st, k) && k < |st'.subs| && !Destroyed(st'.subs[k]) ==> Holds(st', k)
  }

  lemma KeyIsNoRule(name: string, r: Ref)
    requires !("$$subtopo_" <= r.rule)
    ensures Key(name) != r
  {
    assert "$$subtopo_" <= Key(name).rule;
  }

  lemma KeyIsInjective(a: string, b: string)
    requires Key(a) == Key(b)
    ensures a == b
  {
    var prefix := "$$subtopo_";
    assert a == (prefix + a)[|prefix|..];
    assert b == (prefix + b)[|prefix|..];
  }

  /** Releasing `r` at `i` takes away a reference somebody in use reads through. */
  predicate Robs(st: State, i: nat, r: Ref)
    requires i < |st.subs|
  {
    HasRef(st.subs[i], r) && exists k :: 0 <= k < |st.subs| && Reader(st, k) && st.subs[k].source == Some(i) && Key(st.subs[k].name) == r
  }

  /** What CloseSubTopo could look up before it closes the source of a destroyed sub-topology:
      the name is in the pool again, for one on the same source, and the reference is held. */
  predicate Replaced(st: State, name: string, source: nat)
    requires source < |st.subs| && forall n :: n in st.pool ==> st.pool[n] < |st.subs|
  {
    name in st.pool && st.subs[st.pool[name]].source == Some(source) && HasRef(st.subs[source], Key(name))
  }

  lemma RefsElsewhere(st: State, i: nat, r: Ref, k: nat)
    requires ValidState(st) && i < |st.subs| && k < |st.subs|
    ensures var st' := CloseOne(st, i, r).0;
            |st'.subs| == |st.subs| && SameReading(st.subs[k], st'.subs[k]) && (k != i ==> st'.subs[k] == st.subs[k])
    ensures forall q :: HasRef(CloseOne(st, i, r).0.subs[k], q) <==> HasRef(st.subs[k], q) && !(k == i && q == r)
  {
    RemoveRefRemoves(st.subs[i], r);
    assert forall q :: q in RefSet(RemoveRef(st.subs[i], r).0) <==> HasRef(RemoveRef(st.subs[i], r).0, q);
    assert forall q :: q in RefSet(st.subs[i]) <==> HasRef(st.subs[i], q);
  }

  predicate SameReading(s: Sub, t: Sub) {
    s.name == t.name && s.source == t.source
  }

  /** A release robs nobody exactly when everybody keeps the source. */
  lemma RobbingLoses(st: State, i: nat, r: Ref)
    requires ValidState(st) && i < |st.subs| && Robs(st, i, r)
    ensures ValidState(CloseOne(st, i, r).0) && !Keeps(st, CloseOne(st, i, r).0)
  {
    CloseKeeps(st, i, r);
    var k :| 0 <= k < |st.subs| && Reader(st, k) && st.subs[k].source == Some(i) && Key(st.subs[k].name) == r;
    var st' := CloseOne(st, i, r).0;
    RefsElsewhere(st, i, r, i);
    RefsElsewhere(st, i, r, k);
    assert Holds(st, k) && !Holds(st', k);
  }

  lemma OthersKeep(st: State, i: nat, r: Ref)
    requires ValidState(st) && i < |st.subs| && !Robs(st, i, r)
    ensures ValidState(CloseOne(st, i, r).0) && Keeps(st, CloseOne(st, i, r).0)
  {
    CloseKeeps(st, i, r);
    var st' := CloseOne(st, i, r).0;
    forall k: nat | Holds(st, k) && k < |st'.subs| && !Destroyed(st'.subs[k])
      ensures Holds(st', k)
    {
      RefsElsewhere(st, i, r, k);
      RefsElsewhere(st, i, r, st.subs[k].source.value);
    }
  }

  lemma ReleaseIsSafe(st: State, i: nat, r: Ref)
    requires ValidState(st) && i < |st.subs|
    ensures ValidState(CloseOne(st, i, r).0)
    ensures Keeps(st, CloseOne(st, i, r).0) <==> !Robs(st, i, r)
  {
    if Robs(st, i, r) { RobbingLoses(st, i, r); } else { OthersKeep(st, i, r); }
  }

  /** Closing a source for `name` takes it from nobody exactly when nobody replaced `name`. */
  lemma ChainedCloseIsSafe(st: State, name: string, source: nat)
    requires ValidState(st) && source < |st.subs|
    ensures ValidState(CloseOne(st, source, Key(name)).0)
    ensures Keeps(st, CloseOne(st, source, Key(name)).0) <==> !Replaced(st, name, source)
  {
    ReleaseIsSafe(st, source, Key(name));
    if Robs(st, source, Key(name)) {
      var k :| 0 <= k < |st.subs| && Reader(st, k) && st.subs[k].source == Some(source) && Key(st.subs[k].name) == Key(name);
      KeyIsInjective(st.subs[k].name, name);
      assert st.pool[name] == k;
    }
    if Replaced(st, name, source) {
      assert Reader(st, st.pool[name]);
    }
  }

  // ----- whole runs -----

  /** An event that takes a source away from somebody in use. */
  predicate RobsAt(w: World, e: Event)
    requires Valid(w) && Enabled(w, e)
  {
    match e
    case Release(i, r) => Robs(w.st, i, r)
    case Chain(k) => Replaced(w.st, w.st.subs[w.pending[k]].name, w.st.subs[w.pending[k]].source.value)
    case _ => false
  }

  lemma OthersStay(w: World, e: Event, k: nat)
    requires Valid(w) && Enabled(w, e) && (e.Get? || e.Start? || e.Leave?) && k < |w.st.subs|
    ensures var st' := Apply(w, e).st;
            k < |st'.subs| && SameReading(w.st.subs[k], st'.subs[k]) && (Destroyed(w.st.subs[k]) <==> Destroyed(st'.subs[k]))
    ensures forall q :: HasRef(w.st.subs[k], q) ==> HasRef(Apply(w, e).st.subs[k], q)
  {
    StepRefs(w, e, k);
    assert forall q :: HasRef(w.st.subs[k], q) <==> q in Held(w, k);
    StepKeeps(w, e);
    assert forall q :: HasRef(Apply(w, e).st.subs[k], q) <==> q in Held(Apply(w, e), k);
    match e
    case Get(name, r, build) =>
      if name in w.st.pool { UpdateRefAdds(w.st.subs[w.st.pool[name]], r); }
    case Start(i, r, bad) => OpenEvolves(w.st, i, r, bad);
    case Leave(i) =>
  }

  /** Every single step leaves everybody in use its source exactly when it does not rob. */
  lemma StepIsSafe(w: World, e: Event)
    requires Valid(w) && Enabled(w, e)
    ensures Valid(Apply(w, e)) && (Keeps(w.st, Apply(w, e).st) <==> !RobsAt(w, e))
  {
    StepKeeps(w, e);
    match e
    case Release(i, r) => ReleaseIsSafe(w.st, i, r);
    case Chain(k) => ChainedCloseIsSafe(w.st, w.st.subs[w.pending[k]].name, w.st.subs[w.pending[k]].source.value);
    case _ =>
      var st, st' := w.st, Apply(w, e).st;
      forall k: nat | Holds(st, k) && k < |st'.subs| && !Destroyed(st'.subs[k])
        ensures Holds(st', k)
      {
        OthersStay(w, e, k);
        OthersStay(w, e, st.subs[k].source.value);
      }
  }

  ghost predicate Careful(w: World, es: seq<Event>)
    requires Possible(w, es)
    decreases es
  {
    es == [] || (!RobsAt(w, es[0]) && Careful(Apply(w, es[0]), es[1..]))
  }

  lemma KeptInStep(w: World, e: Event, k: nat)
    requires Valid(w) && Enabled(w, e) && !RobsAt(w, e) && Holds(w.st, k)
    ensures Valid(Apply(w, e)) && k < |w.st.subs| <= |Apply(w, e).st.subs|
    ensures Destroyed(Apply(w, e).st.subs[k]) || Holds(Apply(w, e).st, k)
  {
    StepIsSafe(w, e);
    StepKeeps(w, e);
  }

  /** Over a run without a robbing step: who has a source and is still in use has it still. */
  lemma {:induction false} RunIsSafe(w: World, es: seq<Event>, k: nat)
    requires Valid(w) && Possible(w, es) && Careful(w, es) && Holds(w.st, k)
    ensures Valid(Run(w, es)) && k < |Run(w, es).st.subs|
    ensures Destroyed(Run(w, es).st.subs[k]) || Holds(Run(w, es).st, k)
    decreases es
  {
    assert k < |w.st.subs|;
    hide Apply, Enabled, RobsAt, Holds, Destroyed, ValidState, ValidPending;
    if es != [] {
      var w1 := Apply(w, es[0]);
      KeptInStep(w, es[0], k);
      RunKeeps(w1, es[1..]);
      if !Destroyed(w1.st.subs[k]) {
        RunIsSafe(w1, es[1..], k);
      }
    }
  }

  // ----- everybody in use has a source -----

  ghost predicate AllFed(st: State)
    requires Sources(st)
  {
    forall k: nat :: Reader(st, k) ==> Holds(st, k)
  }

  /** An event that leaves somebody in use without its source: it robs, or it publishes one whose
      reference on the source was never taken or is gone. */
  predicate Starves(w: World, e: Event)
    requires Valid(w) && Enabled(w, e)
  {
    RobsAt(w, e) ||
    (e.Get? && e.name !in w.st.pool && e.build.Builds? && e.build.source.Some? &&
     !HasRef(w.st.subs[e.build.source.value], Key(e.name)))
  }

  lemma PublishedFed(w: World, e: Event, k: nat)
    requires Valid(w) && Enabled(w, e) && e.Get? && AllFed(w.st) && Reader(Apply(w, e).st, k) && !Reader(w.st, k)
    ensures Valid(Apply(w, e)) && k == |w.st.subs| && e.name !in w.st.pool && e.build.Builds? && e.build.source.Some?
    ensures Holds(Apply(w, e).st, k) <==> HasRef(w.st.subs[e.build.source.value], Key(e.name))
  {
    StepKeeps(w, e);
    if k < |w.st.subs| {
      OthersStay(w, e, k);
      assert false;
    }
  }

  /** Every single step keeps everybody in use with a source exactly when it does not starve. */
  lemma StepFed(w: World, e: Event)
    requires Valid(w) && Enabled(w, e) && AllFed(w.st)
    ensures Valid(Apply(w, e)) && (AllFed(Apply(w, e).st) <==> !Starves(w, e))
  {
    StepIsSafe(w, e);
    StepKeeps(w, e);
    var st, st' := w.st, Apply(w, e).st;
    if RobsAt(w, e) {
      var k: nat :| Holds(st, k) && k < |st'.subs| && !Destroyed(st'.subs[k]) && !Holds(st', k);
      StillReads(w, e, k);
      assert Reader(st', k);
    } else {
      forall k: nat | Reader(st', k) && Reader(st, k) ensures Holds(st', k) {
        assert Holds(st, k);
      }
      if Starves(w, e) {
        assert Reader(st', |st.subs|) by { NewReader(w, e); }
        PublishedFed(w, e, |st.subs|);
      } else {
        forall k: nat | Reader(st', k) ensures Holds(st', k) {
          if !Reader(st, k) {
            NewReaders(w, e, k);
            PublishedFed(w, e, k);
          }
        }
      }
    }
  }

  lemma StillReads(w: World, e: Event, k: nat)
    requires Valid(w) && Enabled(w, e) && (e.Release? || e.Chain?) && k < |w.st.subs|
    ensures k < |Apply(w, e).st.subs| && SameReading(w.st.subs[k], Apply(w, e).st.subs[k])
  {
  }

  /** Nobody becomes a reader except by being published. */
  lemma NewReaders(w: World, e: Event, k: nat)
    requires Valid(w) && Enabled(w, e) && Reader(Apply(w, e).st, k) && !Reader(w.st, k)
    ensures e.Get?
  {
    StepKeeps(w, e);
    if e.Start? || e.Leave? {
      if k < |w.st.subs| { OthersStay(w, e, k); }
    } else if e.Release? || e.Chain? {
      StillReads(w, e, k);
    }
  }

  lemma NewReader(w: World, e: Event)
    requires Valid(w) && Enabled(w, e) && e.Get? && e.name !in w.st.pool && e.build.Builds? && e.build.source.Some?
    ensures Reader(Apply(w, e).st, |w.st.subs|)
  {
    var s := Sub(e.name, map[], Init, false, 0, e.build.source);
    assert e.r.rule in UpdateRef(s, e.r).refs;
  }

  ghost predicate Fair(w: World, es: seq<Event>)
    requires Possible(w, es)
    decreases es
  {
    es == [] || (!Starves(w, es[0]) && Fair(Apply(w, es[0]), es[1..]))
  }

  lemma {:induction false} RunFed(w: World, es: seq<Event>)
    requires Valid(w) && Possible(w, es) && AllFed(w.st) && Fair(w, es)
    ensures Valid(Run(w, es)) && AllFed(Run(w, es).st)
    decreases es
  {
    if es != [] {
      StepFed(w, es[0]);
      RunFed(Apply(w, es[0]), es[1..]);
    }
  }
}
