/** The life of one rule run: opened once, closed once, whoever asks and how often. */
module Topos {
  import opened Tokens
  import opened PoolMachine
  import opened PoolTheorems
  import opened SubTopos

  datatype Phase = Initialized | Running | Stopped

  /** A caller that stops the run; a graceful stop may ask for a last save, which may be refused. */
  datatype Stop = Cancel | GracefulStop(saveRefused: bool)

  /** The run as concurrent callers see it. `stopper` is the one whose compare-and-swap won, and
      `finished` tells that it has gone through the rest of its call. */
  datatype Life = Life(phase: Phase, stopper: Option<Stop>, finished: bool, cleaned: nat)

  const Fresh := Life(Initialized, None, false, 0)

  /** The atomic steps: a caller's swap, and later the winner's clean-up. */
  datatype Step = Begin | Swap(stop: Stop) | Finish

  function Take(t: Life, s: Step): Life {
    match s
    case Begin => if t.phase.Initialized? then t.(phase := Running) else t
    case Swap(stop) => if t.phase.Running? then t.(phase := Stopped, stopper := Some(stop)) else t
    case Finish =>
      if t.stopper.None? || t.finished then t
      else if t.stopper == Some(GracefulStop(true)) then t.(finished := true)
      else t.(finished := true, cleaned := t.cleaned + 1)
  }

  function TakeAll(t: Life, steps: seq<Step>): Life
    decreases steps
  {
    if steps == [] then t else TakeAll(Take(t, steps[0]), steps[1..])
  }

  predicate Sound(t: Life) {
    && (t.stopper.Some? <==> t.phase.Stopped?)
    && (t.finished ==> t.stopper.Some?)
    && t.cleaned == if t.finished && t.stopper != Some(GracefulStop(true)) then 1 else 0
  }

  /** Over any interleaving of any callers the clean-up runs at most once, only after an open,
      and not at all exactly when the stop that won was refused its save. */
  lemma {:induction false} CleanedAtMostOnce(t: Life, steps: seq<Step>)
    requires Sound(t)
    ensures Sound(TakeAll(t, steps))
    ensures t.phase.Initialized? && Begin !in steps ==> TakeAll(t, steps).cleaned == 0
    ensures t.phase.Stopped? ==> TakeAll(t, steps).stopper == t.stopper && TakeAll(t, steps).phase.Stopped?
    decreases steps
  {
    if steps != [] {
      CleanedAtMostOnce(Take(t, steps[0]), steps[1..]);
    }
  }

  // ----- the life of a run from its steps -----

  lemma {:induction false} TakeMore(t: Life, a: seq<Step>, b: seq<Step>)
    ensures TakeAll(t, a + b) == TakeAll(TakeAll(t, a), b)
    decreases a
  {
    if a == [] {
      assert a + b == b;
    } else {
      TakeMore(Take(t, a[0]), a[1..], b);
      assert (a + b)[1..] == a[1..] + b;
    }
  }

  predicate NoSwap(steps: seq<Step>) {
    forall s | s in steps :: !s.Swap?
  }

  lemma {:induction false} BeforeOpen(a: seq<Step>)
    requires Begin !in a
    ensures TakeAll(Fresh, a) == Fresh
    decreases a
  {
    if a != [] {
      BeforeOpen(a[1..]);
    }
  }

  const Underway := Life(Running, None, false, 0)

  lemma {:induction false} WhileRunning(c: seq<Step>)
    requires NoSwap(c)
    ensures TakeAll(Underway, c) == Underway
    decreases c
  {
    if c != [] {
      WhileRunning(c[1..]);
    }
  }

  predicate Refused(stop: Stop) {
    stop == GracefulStop(true)
  }

  lemma {:induction false} AfterStop(t: Life, stop: Stop, d: seq<Step>)
    requires t.phase.Stopped? && t.stopper == Some(stop)
    ensures TakeAll(t, d) == if Finish !in d || t.finished then t
                             else t.(finished := true, cleaned := t.cleaned + if Refused(stop) then 0 else 1)
    decreases d
  {
    if d != [] {
      AfterStop(Take(t, d[0]), stop, d[1..]);
    }
  }

  /** Underway by the first `Begin` and stopped by the first swap after it, whatever else the steps
      hold: then a clean-up follows exactly when the winner goes on, unless it was refused. */
  lemma {:induction false} StoppedLife(a: seq<Step>, c: seq<Step>, stop: Stop, d: seq<Step>)
    requires Begin !in a && NoSwap(c)
    ensures TakeAll(Fresh, a + [Begin] + c + [Swap(stop)] + d)
         == Life(Stopped, Some(stop), Finish in d, if Finish in d && !Refused(stop) then 1 else 0)
  {
    OpenLife(a, c);
    var t := Life(Stopped, Some(stop), false, 0);
    OneStep(Underway, Swap(stop));
    TakeMore(Fresh, a + [Begin] + c, [Swap(stop)]);
    TakeMore(Fresh, a + [Begin] + c + [Swap(stop)], d);
    AfterStop(t, stop, d);
  }

  lemma OneStep(t: Life, s: Step)
    ensures TakeAll(t, [s]) == Take(t, s)
  {
    assert [s][1..] == [];
  }

  /** Underway and not stopped since: running. */
  lemma {:induction false} OpenLife(a: seq<Step>, c: seq<Step>)
    requires Begin !in a && NoSwap(c)
    ensures TakeAll(Fresh, a + [Begin] + c) == Underway
  {
    BeforeOpen(a);
    OneStep(Fresh, Begin);
    TakeMore(Fresh, a, [Begin]);
    TakeMore(Fresh, a + [Begin], c);
    WhileRunning(c);
  }

  ghost predicate IsOpenLife(steps: seq<Step>, a: seq<Step>, c: seq<Step>) {
    steps == a + [Begin] + c && Begin !in a && NoSwap(c)
  }

  ghost predicate IsStoppedLife(steps: seq<Step>, a: seq<Step>, c: seq<Step>, stop: Stop, d: seq<Step>) {
    steps == a + [Begin] + c + [Swap(stop)] + d && Begin !in a && NoSwap(c)
  }

  /** The place of the first step of a kind. */
  function FirstPlace(steps: seq<Step>, kind: Step -> bool): (i: nat)
    requires exists s :: s in steps && kind(s)
    ensures i < |steps| && kind(steps[i]) && forall s | s in steps[..i] :: !kind(s)
  {
    if kind(steps[0]) then 0 else 1 + FirstPlace(steps[1..], kind)
  }

  /** Over any interleaving of any callers: the run is initialized until the first `Begin`, running
      until the first swap after that, and stopped from then on; it has been cleaned up exactly when
      the caller that made this swap has gone on and was not refused its save. */
  lemma {:induction false} LifeExactly(steps: seq<Step>)
    ensures var t := TakeAll(Fresh, steps);
            && (t.phase.Initialized? <==> Begin !in steps)
            && (t.phase.Running? <==> exists a, c :: IsOpenLife(steps, a, c))
            && (t.phase.Stopped? <==> exists a, c, stop, d :: IsStoppedLife(steps, a, c, stop, d))
            && (t.cleaned == 1 <==> exists a, c, stop, d :: IsStoppedLife(steps, a, c, stop, d) && Finish in d && !Refused(stop))
            && t.cleaned <= 1
  {
    hide TakeAll, IsOpenLife, IsStoppedLife;
    forall a, c | IsOpenLife(steps, a, c)
      ensures TakeAll(Fresh, steps) == Underway && Begin in steps
    {
      OpenLifeIs(steps, a, c);
    }
    forall a, c, stop, d | IsStoppedLife(steps, a, c, stop, d)
      ensures TakeAll(Fresh, steps) == StoppedBy(stop, d) && Begin in steps
    {
      StoppedLifeIs(steps, a, c, stop, d);
    }
    if Begin !in steps {
      BeforeOpen(steps);
    } else {
      SomeLife(steps);
    }
  }

  function StoppedBy(stop: Stop, d: seq<Step>): Life {
    Life(Stopped, Some(stop), Finish in d, if Finish in d && !Refused(stop) then 1 else 0)
  }

  lemma OpenLifeIs(steps: seq<Step>, a: seq<Step>, c: seq<Step>)
    requires IsOpenLife(steps, a, c)
    ensures TakeAll(Fresh, steps) == Underway && Begin in steps
  {
    OpenLife(a, c);
  }

  lemma StoppedLifeIs(steps: seq<Step>, a: seq<Step>, c: seq<Step>, stop: Stop, d: seq<Step>)
    requires IsStoppedLife(steps, a, c, stop, d)
    ensures TakeAll(Fresh, steps) == StoppedBy(stop, d) && Begin in steps
  {
    StoppedLife(a, c, stop, d);
    hide TakeAll;
    assert (a + [Begin] + c + [Swap(stop)] + d)[|a|] == Begin;
  }

  lemma SomeLife(steps: seq<Step>)
    requires Begin in steps
    ensures (exists a, c :: IsOpenLife(steps, a, c)) || exists a, c, stop, d :: IsStoppedLife(steps, a, c, stop, d)
  {
    var i := FirstPlace(steps, (s: Step) => s == Begin);
    var a, b := steps[..i], steps[i + 1..];
    assert steps == a + [Begin] + b && Begin !in a;
    if NoSwap(b) {
      assert IsOpenLife(steps, a, b);
    } else {
      SomeSwap(steps, a, b);
    }
  }

  lemma SomeSwap(steps: seq<Step>, a: seq<Step>, b: seq<Step>)
    requires steps == a + [Begin] + b && Begin !in a && !NoSwap(b)
    ensures exists a, c, stop, d :: IsStoppedLife(steps, a, c, stop, d)
  {
    var j := FirstPlace(b, (s: Step) => s.Swap?);
    SplitAtSwap(a, b, j);
    assert NoSwap(b[..j]);
    assert IsStoppedLife(steps, a, b[..j], b[j].stop, b[j + 1..]);
  }

  lemma SplitAtSwap(a: seq<Step>, b: seq<Step>, j: nat)
    requires j < |b| && b[j].Swap?
    ensures a + [Begin] + b == a + [Begin] + b[..j] + [Swap(b[j].stop)] + b[j + 1..]
  {
    assert b == b[..j] + [b[j]] + b[j + 1..];
  }

  lemma ValidHasSources(st: State)
    requires ValidState(st)
    ensures Sources(st)
  {
  }

  /** A run opens its shared sources in order. */
  ghost function OpenSources(st: State, sources: seq<nat>, r: Ref, bad: set<nat>): (st': State)
    requires ValidState(st) && forall k :: 0 <= k < |sources| ==> sources[k] < |st.subs|
    ensures ValidState(st') && |st'.subs| == |st.subs|
    decreases sources
  {
    if sources == [] then st
    else
      StartKeeps(st, sources[0], r, bad);
      OpenSources(PoolMachine.Open(st, sources[0], r, bad), sources[1..], r, bad)
  }

  /** Opening takes references only, and at each source the run's own unless that is closed. */
  lemma {:induction false} OpenSourcesTakes(st: State, sources: seq<nat>, r: Ref, bad: set<nat>, i: nat)
    requires ValidState(st) && i < |st.subs| && forall k :: 0 <= k < |sources| ==> sources[k] < |st.subs|
    ensures RefSet(st.subs[i]) <= RefSet(OpenSources(st, sources, r, bad).subs[i])
    ensures i in sources && !st.subs[i].life.Closed? ==> r in RefSet(OpenSources(st, sources, r, bad).subs[i])
    decreases sources
  {
    if sources != [] {
      var st1 := PoolMachine.Open(st, sources[0], r, bad);
      StartKeeps(st, sources[0], r, bad);
      OpenRefs(st, sources[0], r, bad, i);
      StaysOpen(st, sources[0], r, bad, i);
      OpenSourcesTakes(st1, sources[1..], r, bad, i);
    }
  }

  lemma {:induction false} StaysOpen(st: State, o: nat, r: Ref, bad: set<nat>, i: nat)
    requires o < |st.subs| && i < |st.subs| && Sources(st)
    ensures PoolMachine.Open(st, o, r, bad).subs[i].life.Closed? <==> st.subs[i].life.Closed?
    decreases o
  {
    var s := UpdateRef(st.subs[o], r);
    if st.subs[o].life.Init? && o !in bad && s.source.Some? {
      StaysOpen(st.(subs := st.subs[o := s.(life := Opened)]), s.source.value, Key(s.name), bad, i);
    }
  }

  class Topo {
    const ref: Ref                        // rule id and run id
    const sources: seq<SrcSubTopo>        // the sources that are shared sub-topologies
    var phase: Phase
    var cleans: nat                       // how often the operators were told to exit
    ghost var life: Life

    ghost predicate Valid()
      reads this
    {
      Tracks() && (life.stopper.Some? ==> life.finished)
    }

    ghost predicate Tracks()
      reads this
    {
      phase == life.phase && cleans == life.cleaned && Sound(life)
    }

    constructor (ref: Ref, sources: seq<SrcSubTopo>)
      ensures Valid() && life == Fresh && this.ref == ref && this.sources == sources
    {
      this.ref, this.sources, phase, cleans, life := ref, sources, Initialized, 0, Fresh;
    }

    ghost predicate Reads(pool: SubTopoPool)
      reads pool
    {
      forall k :: 0 <= k < |sources| ==> pool.Known(sources[k])
    }

    ghost function SourceIds(): (ids: seq<nat>)
      ensures |ids| == |sources| && forall k :: 0 <= k < |ids| ==> ids[k] == sources[k].id
    {
      seq(|sources|, k requires 0 <= k < |sources| => sources[k].id)
    }

    /** Only an initialized run opens; it then opens each of its shared sources. `bad` are the
        sub-topologies whose preparation fails. */
    method Open(pool: SubTopoPool, bad: set<nat>)
      requires Valid() && pool.Valid() && Reads(pool)
      modifies this, pool.subs
      ensures Valid() && life == Take(old(life), Begin)
      ensures pool.Valid()
      ensures pool.Abs() == if old(phase).Initialized? then OpenSources(old(pool.Abs()), SourceIds(), ref, bad) else old(pool.Abs())
    {
      hide SubTopoPool.Valid, SubTopoPool.Abs, OpenSources;
      if phase.Initialized? {
        phase := Running;
        OpenAll(pool, bad);
      }
      life := Take(life, Begin);
    }

    method OpenAll(pool: SubTopoPool, bad: set<nat>)
      requires pool.Valid() && Reads(pool)
      modifies pool.subs
      ensures pool.Valid() && pool.Abs() == OpenSources(old(pool.Abs()), SourceIds(), ref, bad)
    {
      hide SubTopoPool.Linked, SubTopoPool.Pooled, ValidState, PoolMachine.Open;
      ghost var goal, ids := OpenSources(pool.Abs(), SourceIds(), ref, bad), SourceIds();
      var k := 0;
      while k < |sources|
        invariant 0 <= k <= |sources|
        invariant pool.Valid() && Reads(pool)
        invariant goal == OpenSources(pool.Abs(), ids[k..], ref, bad)
      {
        assert ids[k..][0] == ids[k] && ids[k..][1..] == ids[k + 1..];
        ghost var st := pool.Abs();
        ValidHasSources(st);
        pool.OpenSubTopo(sources[k], ref, bad);
        StartKeeps(st, sources[k].id, ref, bad);
        k := k + 1;
      }
      assert ids[k..] == [];
    }

    /** The swap, and then the close of every shared source, even when this call was not the
        one to stop the run. */
    method DoClose(pool: SubTopoPool, ghost stop: Stop) returns (closed: bool)
      requires Valid() && pool.Valid() && Reads(pool)
      modifies this, pool`pool, pool.subs
      ensures Tracks() && closed == !old(phase).Running?
      ensures life == Take(old(life), Swap(stop))
      ensures pool.Valid() && pool.Abs() == CancelSources(old(pool.Abs()), SourceIds(), ref)
    {
      hide SubTopoPool.Valid, SubTopoPool.Abs, CancelSources;
      closed := !phase.Running?;
      if !closed {
        phase := Stopped;
      }
      life := Take(life, Swap(stop));
      CloseSources(pool);
    }

    method CloseSources(pool: SubTopoPool)
      requires pool.Valid() && Reads(pool)
      modifies pool`pool, pool.subs
      ensures pool.Valid() && pool.Abs() == CancelSources(old(pool.Abs()), SourceIds(), ref)
    {
      hide SubTopoPool.Linked, SubTopoPool.Pooled, ValidState, CloseAll;
      ghost var goal, ids := CancelSources(pool.Abs(), SourceIds(), ref), SourceIds();
      var k := 0;
      while k < |sources|
        invariant 0 <= k <= |sources|
        invariant pool.Valid() && Reads(pool)
        invariant goal == CancelSources(pool.Abs(), ids[k..], ref)
      {
        assert ids[k..][0] == ids[k] && ids[k..][1..] == ids[k + 1..];
        pool.CloseSubTopo(sources[k], ref);
        k := k + 1;
      }
      assert ids[k..] == [];
    }

    /** Signals the end of the run and cancels its operators. */
    method DoClean()
      requires Tracks() && life.stopper.Some? && life.stopper != Some(GracefulStop(true)) && !life.finished
      modifies this
      ensures Valid() && life == Take(old(life), Finish)
    {
      cleans := cleans + 1;
      life := Take(life, Finish);
    }

    method CancelRun(pool: SubTopoPool)
      requires Valid() && pool.Valid() && Reads(pool)
      modifies this, pool`pool, pool.subs
      ensures Valid() && life == Take(Take(old(life), Swap(Cancel)), Finish)
      ensures pool.Valid() && pool.Abs() == CancelSources(old(pool.Abs()), SourceIds(), ref)
    {
      hide SubTopoPool.Valid, SubTopoPool.Abs, CancelSources;
      var done := DoClose(pool, Cancel);
      if done {
        return;
      }
      DoClean();
    }

    /** With `refused` the coordinator is active but does not accept a last save: the call then
        ends before the clean-up. */
    method StopGracefully(pool: SubTopoPool, refused: bool) returns (ok: bool)
      requires Valid() && pool.Valid() && Reads(pool)
      modifies this, pool`pool, pool.subs
      ensures Valid() && life == Take(Take(old(life), Swap(GracefulStop(refused))), Finish)
      ensures ok <==> !(old(phase).Running? && refused)
      ensures pool.Valid() && pool.Abs() == CancelSources(old(pool.Abs()), SourceIds(), ref)
    {
      hide SubTopoPool.Valid, SubTopoPool.Abs, CancelSources;
      var done := DoClose(pool, GracefulStop(refused));
      if done {
        return true;
      }
      if refused {
        life := Take(life, Finish);
        return false;
      }
      DoClean();
      return true;
    }
  }
}
