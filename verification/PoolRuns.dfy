/** Interleavings from an empty pool in which somebody in use loses its source. */
module PoolRuns {
  import opened Tokens
  import opened PoolMachine
  import opened PoolTheorems
  import opened PoolSafety
  import opened PoolCancel

  const Empty := World(State(map[], []), [])

  const First := Ref("rule1", 1)
  const Second := Ref("rule2", 2)

  ghost predicate Reached(w: World, es: seq<Event>) {
    Possible(Empty, es) && w == Run(Empty, es) && Valid(w)
  }

  lemma RunCons(w: World, e: Event, es: seq<Event>)
    requires Valid(w) && Enabled(w, e) && Possible(Apply(w, e), es)
    ensures Possible(w, [e] + es) && Run(w, [e] + es) == Run(Apply(w, e), es)
  {
    assert ([e] + es)[1..] == es;
  }

  lemma {:induction false} RunAppend(w: World, es: seq<Event>, fs: seq<Event>)
    requires Possible(w, es) && Possible(Run(w, es), fs)
    ensures Possible(w, es + fs) && Run(w, es + fs) == Run(Run(w, es), fs)
    decreases es
  {
    hide Valid, Enabled, Apply;
    if es == [] {
      assert es + fs == fs;
    } else {
      RunAppend(Apply(w, es[0]), es[1..], fs);
      RunCons(w, es[0], es[1..] + fs);
      assert es + fs == [es[0]] + (es[1..] + fs);
    }
  }

  /** One more step after what was reached. */
  lemma Then(w: World, es: seq<Event>, e: Event) returns (w': World)
    requires Reached(w, es) && Enabled(w, e)
    ensures w' == Apply(w, e) && Reached(w', es + [e])
  {
    w' := Apply(w, e);
    StepKeeps(w, e);
    RunCons(w, e, []);
    RunAppend(Empty, es, [e]);
  }

  /** A connection named "c" and a stream "s" that reads from it. */
  function Connection(refs: map<string, set<int>>, life: Life): Sub {
    Sub("c", refs, life, life.Opened?, 0, None)
  }

  function Stream(refs: map<string, set<int>>, life: Life): Sub {
    Sub("s", refs, life, life.Opened?, 0, Some(0))
  }

  const Shared := map[Key("s").rule := {0}]

  /** Adding a reference that is held changes nothing. */
  lemma SameRef(s: Sub, r: Ref)
    requires r.rule in s.refs && r.run in s.refs[r.rule]
    ensures UpdateRef(s, r) == s
  {
    assert s.refs[r.rule] + {r.run} == s.refs[r.rule] && s.refs[r.rule := s.refs[r.rule]] == s.refs;
  }

  /** The first rule plans "s" on "c", as the planner does, and opens it. */
  lemma OpenedOnce() returns (w: World, es: seq<Event>)
    ensures Reached(w, es)
    ensures w == World(State(map["c" := 0, "s" := 1], [Connection(Shared, Opened), Stream(map["rule1" := {1}], Opened)]), [])
  {
    hide ValidState, ValidPending, Open, Run, Possible;
    EmptyRun();
    assert {} + {0} == {0} && {} + {1} == {1};
    var c, s := Connection(Shared, Init), Stream(map["rule1" := {1}], Init);
    var e1, e2, e3 := Get("c", Key("s"), Builds(None)), Get("s", First, Builds(Some(0))), Start(1, First, {});
    var w1 := Then(Empty, [], e1);
    assert w1 == World(State(map["c" := 0], [c]), []);
    var w2 := Then(w1, [] + [e1], e2);
    assert w2 == World(State(map["c" := 0, "s" := 1], [c, s]), []);
    w := Then(w2, [] + [e1] + [e2], e3);
    OpensBoth(w2.st);
    es := [] + [e1] + [e2] + [e3];
  }

  lemma EmptyRun()
    ensures Reached(Empty, [])
  {
    EmptyPoolIsValid();
  }

  lemma OpensBoth(st: State)
    requires st.subs == [Connection(Shared, Init), Stream(map["rule1" := {1}], Init)]
    ensures Sources(st)
    ensures Open(st, 1, First, {}).subs == [Connection(Shared, Opened), Stream(map["rule1" := {1}], Opened)]
    ensures Open(st, 1, First, {}).pool == st.pool
  {
    SameRef(st.subs[1], First);
    SameRef(st.subs[0], Key("s"));
    var st0 := st.(subs := st.subs[1 := st.subs[1].(life := Opened)]);
    assert Open(st0, 0, Key("s"), {}).subs[0] == Connection(Shared, Opened);
  }

  const Publish := Get("s", Second, Builds(Some(0)))

  const Gone := Sub("s", map[], Closed, true, 1, Some(0))

  /** Then it releases "s"; the chained close of "c" is still to come. */
  lemma DestroyedButPending() returns (w: World, es: seq<Event>)
    ensures Reached(w, es)
    ensures w == World(State(map["c" := 0], [Connection(Shared, Opened), Gone]), [1])
  {
    hide ValidState, ValidPending, Possible, Run;
    var w3, before := OpenedOnce();
    var e := Release(1, First);
    w := Then(w3, before, e);
    es := before + [e];
    FirstReleased(w3.st);
  }

  /** Meanwhile a second rule plans "s" anew on the same connection. */
  lemma PlannedAgain() returns (w: World, es: seq<Event>)
    ensures Reached(w, es)
    ensures w == World(State(map["c" := 0, "s" := 2], [Connection(Shared, Opened), Gone, Stream(map["rule2" := {2}], Init)]), [1])
  {
    hide ValidState, ValidPending, Possible, Run;
    var w4, before := DestroyedButPending();
    var w5, e1 := ReferencedAgain(w4, before);
    w := Then(w5, before + [e1], Publish);
    es := before + [e1] + [Publish];
    assert {} + {2} == {2};
    assert w.st.subs == [Connection(Shared, Opened), Gone, Stream(map["rule2" := {2}], Init)];
  }

  /** Planning first takes the connection's reference, which is held already. */
  lemma ReferencedAgain(w: World, es: seq<Event>) returns (w': World, e: Event)
    requires Reached(w, es) && "c" in w.st.pool && w.st.pool["c"] == 0 && |w.st.subs| > 0
    requires w.st.subs[0] == Connection(Shared, Opened)
    ensures w' == w && Enabled(w, e) && e == Get("c", Key("s"), Builds(None)) && Reached(w', es + [e])
  {
    e := Get("c", Key("s"), Builds(None));
    w' := Then(w, es, e);
    SameRef(w.st.subs[0], Key("s"));
    assert w.st.subs[0 := w.st.subs[0]] == w.st.subs;
  }

  /** The chained close takes the reference and destroys the connection. */
  lemma LosesConnection(st: State, gone: map<string, nat>)
    requires |st.subs| > 0 && st.subs[0] == Connection(Shared, Opened) && gone == st.pool - {"c"}
    ensures CloseOne(st, 0, Key("s")) == (State(gone, st.subs[0 := Sub("c", map[], Closed, true, 1, None)]), None)
  {
    var k, c := Key("s"), st.subs[0];
    assert c.refs[k.rule] - {0} == {} && c.refs - {k.rule} == map[];
  }

  /** A replacement that is planned but not open: the chained close takes its source all the same,
      and it is then opened on a connection that is closed. */
  lemma ReplacedBeforeOpening() returns (before: seq<Event>, w: World, es: seq<Event>)
    ensures Possible(Empty, before) && Reached(w, es) && es == before + [Chain(0)] + [Start(2, Second, {})]
    ensures var w0 := Run(Empty, before); Valid(w0) && AllFed(w0.st) && Enabled(w0, Chain(0)) && RobsAt(w0, Chain(0))
    ensures |w.st.subs| == 3 && w.st.subs[2] == Stream(map["rule2" := {2}], Opened) && Destroyed(w.st.subs[0])
    ensures !AllFed(w.st)
  {
    hide ValidState, ValidPending, Possible, Run;
    var w6;
    w6, before := PlannedAgain();
    assert AllFed(w6.st) && RobsAt(w6, Chain(0));
    var w7 := Then(w6, before, Chain(0));
    LosesConnection(w6.st, map["s" := 2]);
    assert [1][..0] + [1][1..] == [];
    var dead := Sub("c", map[], Closed, true, 1, None);
    assert w7 == World(State(map["s" := 2], [dead, Gone, Stream(map["rule2" := {2}], Init)]), []);
    w := Then(w7, before + [Chain(0)], Start(2, Second, {}));
    OpensOnDead(w7.st, dead);
    es := before + [Chain(0)] + [Start(2, Second, {})];
    assert Reader(w.st, 2) && !Holds(w.st, 2);
  }

  lemma OpensOnDead(st: State, dead: Sub)
    requires st.subs == [dead, Gone, Stream(map["rule2" := {2}], Init)] && dead.life.Closed? && dead.source == None
    ensures Sources(st)
    ensures Open(st, 2, Second, {}).subs == [dead, Gone, Stream(map["rule2" := {2}], Opened)]
  {
    SameRef(st.subs[2], Second);
    var st0 := st.(subs := st.subs[2 := st.subs[2].(life := Opened)]);
    assert Open(st0, 0, Key("s"), {}) == st0;
  }

  /** The chained close comes after the second rule took the connection's reference and before it
      publishes "s": nothing in the pool tells, and "s" is published on a closed connection. */
  lemma PublishedTooLate() returns (before: seq<Event>, w: World, es: seq<Event>)
    ensures Possible(Empty, before) && Reached(w, es) && es == before + [Publish]
    ensures var w0 := Run(Empty, before); Valid(w0) && AllFed(w0.st) && Enabled(w0, Publish) && Starves(w0, Publish)
    ensures |w.st.subs| == 3 && Reader(w.st, 2) && Destroyed(w.st.subs[0]) && !AllFed(w.st)
  {
    hide ValidState, ValidPending, Possible, Run;
    var w4, es4 := DestroyedButPending();
    var w5, e1 := ReferencedAgain(w4, es4);
    var w6 := Then(w5, es4 + [e1], Chain(0));
    LosesConnection(w5.st, map[]);
    assert [1][..0] + [1][1..] == [];
    var dead := Sub("c", map[], Closed, true, 1, None);
    assert w6 == World(State(map[], [dead, Gone]), []);
    before := es4 + [e1] + [Chain(0)];
    w := Then(w6, before, Publish);
    es := before + [Publish];
    assert {} + {2} == {2};
    assert w.st.subs == [dead, Gone, Stream(map["rule2" := {2}], Init)];
    assert Reader(w.st, 2) && !Holds(w.st, 2);
  }

  const GiveBack := Release(0, Key("s"))

  /** A second rule whose planning fails after it took the connection's reference gives it back,
      and with it the one reference that the running "s" of the first rule reads through. */
  lemma FailedPlanRobs() returns (before: seq<Event>, w: World, es: seq<Event>)
    ensures Possible(Empty, before) && Reached(w, es) && es == before + [GiveBack]
    ensures var w0 := Run(Empty, before); Valid(w0) && AllFed(w0.st) && Enabled(w0, GiveBack) && RobsAt(w0, GiveBack)
    ensures |w.st.subs| == 2 && w.st.subs[1] == Stream(map["rule1" := {1}], Opened) && Destroyed(w.st.subs[0])
    ensures !AllFed(w.st)
  {
    hide ValidState, ValidPending, Possible, Run;
    var w3, es3 := OpenedOnce();
    var w4, e1 := ReferencedAgain(w3, es3);
    before := es3 + [e1];
    assert "rule1" in w4.st.subs[1].refs;
    assert Reader(w4.st, 1) && w4.st.subs[1].source == Some(0) && Key(w4.st.subs[1].name) == Key("s");
    assert AllFed(w4.st) && RobsAt(w4, GiveBack);
    w := Then(w4, before, GiveBack);
    LosesConnection(w4.st, map["s" := 1]);
    es := before + [GiveBack];
    assert Reader(w.st, 1) && !Holds(w.st, 1);
  }

  /** Two callers cancel the first rule: the second is through while the first still owes the
      chained close of the connection, and the pool is not yet what a cancel leaves. */
  lemma ThroughTooEarly() returns (w: World, es: seq<Event>)
    ensures Reached(w, es) && w.pending == [] && |w.st.subs| == 2
    ensures var c := MoveAll(Callers(w, map[]), [Turn(0), Turn(1)], [1], First);
            && Progress(c.done, 1) == 1 && c.w.pending == [1] && c.w.st != CancelSources(w.st, [1], First)
  {
    hide ValidState, ValidPending, Possible, Run;
    w, es := OpenedOnce();
    var c0 := Callers(w, map[]);
    var c1 := MoveOne(c0, Turn(0), [1], First);
    var gone := World(State(map["c" := 0], [Connection(Shared, Opened), Gone]), [1]);
    FirstReleased(w.st);
    assert c1 == Callers(gone, map[0 := 1]);
    var c2 := MoveOne(c1, Turn(1), [1], First);
    NothingReleased(gone.st);
    assert c2 == Callers(gone, map[0 := 1, 1 := 1]);
    assert [Turn(0), Turn(1)][1..] == [Turn(1)] && [Turn(1)][1..] == [];
    assert MoveAll(c0, [Turn(0), Turn(1)], [1], First) == MoveAll(c1, [Turn(1)], [1], First) == MoveAll(c2, [], [1], First);
    ConcurrentCancels(w.st, [Turn(0), Turn(1)], [1], First, 1);
    assert Key("s") in RefSet(gone.st.subs[0]);
  }

  lemma FirstReleased(st: State)
    requires st == State(map["c" := 0, "s" := 1], [Connection(Shared, Opened), Stream(map["rule1" := {1}], Opened)])
    ensures CloseOne(st, 1, First) == (State(map["c" := 0], [Connection(Shared, Opened), Gone]), Some(0))
  {
    var s := st.subs[1];
    assert s.refs["rule1"] - {1} == {} && s.refs - {"rule1"} == map[];
    assert st.pool - {"s"} == map["c" := 0];
    assert st.subs[1 := Gone] == [Connection(Shared, Opened), Gone];
  }

  lemma NothingReleased(st: State)
    requires |st.subs| == 2 && st.subs[1] == Gone
    ensures CloseOne(st, 1, First) == (st, None)
  {
    assert st.subs[1 := Gone] == st.subs;
  }
}
