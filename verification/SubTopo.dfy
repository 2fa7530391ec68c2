/** The pool of shared sub-topologies as objects updated in place, proved against the machine. */
module SubTopos {
  import opened Tokens
  import opened PoolMachine
  import opened PoolTheorems

  class SrcSubTopo {
    const id: nat
    const name: string
    const source: SrcSubTopo?
    var refRules: map<string, set<int>>
    var life: Life
    var cancel: bool         // whether the cancel function is set
    ghost var calls: nat     // how often it was called

    constructor (id: nat, name: string, source: SrcSubTopo?)
      ensures this.id == id && this.name == name && this.source == source
      ensures Abs() == Sub(name, map[], Init, false, 0, if source == null then None else Some(source.id))
    {
      this.id, this.name, this.source := id, name, source;
      refRules, life, cancel, calls := map[], Init, false, 0;
    }

    ghost function Abs(): Sub
      reads this
    {
      Sub(name, refRules, life, cancel, calls, if source == null then None else Some(source.id))
    }

    /** Registers a run, unless closed. */
    method UpdateReference(r: Ref) returns (ok: bool)
      modifies this`refRules
      ensures Abs() == UpdateRef(old(Abs()), r) && ok == !life.Closed?
    {
      if life.Closed? {
        return false;
      }
      if r.rule !in refRules {
        refRules := refRules[r.rule := {}];
      }
      ghost var was := refRules;
      refRules := refRules[r.rule := refRules[r.rule] + {r.run}];
      assert refRules == old(refRules)[r.rule := refRules[r.rule]];
      return true;
    }

    /** Forgets a run, then its rule when that was the last run, and closes after the last rule. */
    method RemoveReference(r: Ref) returns (ruleClose: bool, destroy: bool)
      modifies this`refRules, this`life
      ensures (Abs(), destroy) == RemoveRef(old(Abs()), r)
      ensures ruleClose <==> r.rule in old(refRules) && old(refRules)[r.rule] <= {r.run}
    {
      ruleClose, destroy := false, false;
      if r.rule in refRules {
        var runs := refRules[r.rule] - {r.run};
        refRules := refRules[r.rule := runs];
        if runs == {} {
          refRules := refRules - {r.rule};
          ruleClose := true;
          assert refRules == old(refRules) - {r.rule};
        }
        if refRules == map[] {
          destroy := true;
          life := Closed;
        }
      }
    }
  }

  /** What the caller's init does to a new sub-topology. */
  datatype Built = Failed | With(source: SrcSubTopo?)

  /** The package-level pool, with the list of all sub-topologies ever published. */
  class SubTopoPool {
    var pool: map<string, SrcSubTopo>
    ghost var subs: seq<SrcSubTopo>
    var count: nat

    constructor ()
      ensures Valid() && Abs() == State(map[], []) && subs == []
    {
      pool, subs, count := map[], [], 0;
    }

    /** Position and sources never change, so the shape of the list is a fact about values. */
    static ghost predicate Linked(subs: seq<SrcSubTopo>) {
      forall k {:trigger subs[k]} :: 0 <= k < |subs| ==>
        subs[k].id == k && (subs[k].source != null ==> subs[k].source.id < k && subs[subs[k].source.id] == subs[k].source)
    }

    static ghost predicate Pooled(pool: map<string, SrcSubTopo>, subs: seq<SrcSubTopo>) {
      forall n :: n in pool ==> pool[n].id < |subs| && subs[pool[n].id] == pool[n]
    }

    static ghost function Ids(pool: map<string, SrcSubTopo>): (r: map<string, nat>)
      ensures forall n :: n in pool <==> n in r
      ensures forall n :: n in pool ==> r[n] == pool[n].id
    {
      map n | n in pool :: pool[n].id
    }

    ghost predicate Shape()
      reads this
    {
      count == |subs| && Linked(subs) && Pooled(pool, subs)
    }

    ghost predicate Known(s: SrcSubTopo)
      reads this
    {
      s.id < |subs| && subs[s.id] == s
    }

    ghost function Abs(): State
      reads this, subs
    {
      State(Ids(pool), AbsAll(subs))
    }

    static ghost function AbsAll(subs: seq<SrcSubTopo>): (r: seq<Sub>)
      reads subs
      ensures |r| == |subs|
      ensures forall k {:trigger r[k]} {:trigger subs[k]} :: 0 <= k < |subs| ==> r[k] == subs[k].Abs()
    {
      seq(|subs|, k requires 0 <= k < |subs| reads subs => subs[k].Abs())
    }

    /** A section that touches one sub-topology changes the list in one place. */
    twostate lemma OneChanged(s: SrcSubTopo)
      requires Linked(subs) && Known(s) && subs == old(subs)
      requires forall k {:trigger subs[k]} :: 0 <= k < |subs| && subs[k] != s ==> unchanged(subs[k])
      ensures AbsAll(subs) == old(AbsAll(subs))[s.id := s.Abs()]
    {
      forall k | 0 <= k < |subs|
        ensures AbsAll(subs)[k] == old(AbsAll(subs))[s.id := s.Abs()][k]
      {
        if k != s.id {
          assert subs[k].id == k;
        }
      }
    }

    lemma Published(s: SrcSubTopo)
      requires Shape() && s.id == count && (s.source != null ==> Known(s.source))
      ensures Linked(subs + [s]) && Pooled(pool[s.name := s], subs + [s])
      ensures Ids(pool[s.name := s]) == Ids(pool)[s.name := s.id]
    {
    }

    lemma Evicted(name: string)
      requires Shape()
      ensures Pooled(pool - {name}, subs) && Ids(pool - {name}) == Ids(pool) - {name}
    {
    }

    ghost predicate Valid()
      reads this, subs
    {
      Shape() && ValidState(Abs())
    }

    /** Looks a sub-topology up, or builds and publishes one; either way the caller gets a
        reference, unless it is closed. */
    method GetOrCreateSubTopo(name: string, r: Ref, built: Built) returns (s: SrcSubTopo?)
      requires Valid() && (built.With? && built.source != null ==> Known(built.source))
      modifies this, subs
      ensures Valid() && old(subs) <= subs
      ensures fresh(subs[|old(subs)|..])
      ensures var (st, i) := GetOrCreate(old(Abs()), name, r,
                if built.Failed? then Fails else Builds(if built.source == null then None else Some(built.source.id)));
              Abs() == st && if s == null then i.None? else Known(s) && i == Some(s.id)
    {
      hide ValidState, AbsAll, UpdateRef, Linked, Ids;
      ghost var st := Abs();
      ghost var build := if built.Failed? then Fails else Builds(if built.source == null then None else Some(built.source.id));
      GetKeeps(st, name, r, build);
      if name in pool {
        s := pool[name];
        var _ := s.UpdateReference(r);
        OneChanged(s);
        return;
      }
      if built.Failed? {
        return null;
      }
      s := Publish(name, r, built.source);
    }

    /** Builds a sub-topology, with the caller's reference, and makes it visible. */
    method Publish(name: string, r: Ref, source: SrcSubTopo?) returns (s: SrcSubTopo)
      requires Shape() && (source != null ==> Known(source))
      modifies this
      ensures fresh(s) && subs == old(subs) + [s] && Shape() && s.id == |old(subs)|
      ensures Abs().pool == old(Abs()).pool[name := s.id]
      ensures Abs().subs == old(Abs()).subs + [UpdateRef(Sub(name, map[], Init, false, 0, if source == null then None else Some(source.id)), r)]
    {
      hide AbsAll, UpdateRef, Linked, Ids;
      s := new SrcSubTopo(count, name, source);
      var _ := s.UpdateReference(r);
      Published(s);
      pool, subs, count := pool[name := s], subs + [s], count + 1;
    }

    /** Every rule that reads from `s` opens it; the first one starts it and opens its source.
        `bad` are the ones whose preparation fails. */
    method OpenSubTopo(s: SrcSubTopo, r: Ref, bad: set<nat>)
      requires Shape() && Known(s) && Sources(Abs())
      modifies subs
      ensures Shape() && Abs() == Open(old(Abs()), s.id, r, bad)
      decreases s.id, 1
    {
      hide AbsAll, UpdateRef, Pooled, Ids, Open, Started;
      ghost var st, i := Abs(), s.id;
      OpenStep(st, i, r, bad);
      UpdateRefShape(st.subs[i], r);
      var ok := s.UpdateReference(r);
      OneChanged(s);
      if !ok {
        assert st.subs[i := st.subs[i]] == st.subs;
        return;
      }
      if !s.life.Init? {
        return;
      }
      s.life := Opened;
      OneChanged(s);
      StartSubTopo(s, bad);
    }

    /** Starts the operators and opens the source. */
    method StartSubTopo(s: SrcSubTopo, bad: set<nat>)
      requires Shape() && Known(s) && Sources(Abs())
      modifies subs
      ensures Shape() && Abs() == Started(old(Abs()), s.id, bad)
      decreases s.id, 0
    {
      hide AbsAll, Pooled, Ids, Open;
      ghost var st0, i := Abs(), s.id;
      if s.id in bad {
        return;
      }
      if s.source != null {
        OpenSubTopo(s.source, Key(s.name), bad);
        ghost var st1 := Abs();
        assert st1.subs[i] == st0.subs[i];
        label L:
        s.cancel := true;
        OneChanged@L(s);
      } else {
        s.cancel := true;
        OneChanged(s);
      }
    }

    lemma UpdateRefShape(s: Sub, r: Ref)
      ensures UpdateRef(s, r) == s.(refs := UpdateRef(s, r).refs)
      ensures s.life.Closed? ==> UpdateRef(s, r) == s
    {
    }

    /** The running loop ends, after an error or a cancel. */
    method ExitSubTopo(s: SrcSubTopo)
      requires Valid() && Known(s)
      modifies subs
      ensures Valid() && Abs() == Exit(old(Abs()), s.id)
    {
      ghost var st := Abs();
      LeaveKeeps(st, s.id);
      if s.cancel {
        s.life := Closed;
      }
      OneChanged(s);
      assert Abs().subs == Exit(st, s.id).subs;
    }

    /** Releases a reference; the last one cancels the sub-topology, takes it out of the pool,
        and then closes its source in turn. */
    method CloseSubTopo(s: SrcSubTopo, r: Ref)
      requires Valid() && Known(s)
      modifies this`pool, subs
      ensures Valid() && Abs() == CloseAll(old(Abs()), s.id, r)
      decreases |pool|
    {
      hide ValidState, AbsAll, RemoveRef, CloseOne, NoEmptyRule, Pooled, Ids;
      ghost var st, i := Abs(), s.id;
      CloseKeeps(st, i, r);
      PoolSize();
      label Start:
      var destroy := Release(s, r);
      if destroy && s.source != null {
        PoolSize();
        Shrinks(st, i, r);
        CloseSubTopo(s.source, Key(s.name));
      }
    }

    /** The part under both locks. */
    method Release(s: SrcSubTopo, r: Ref) returns (destroy: bool)
      requires Valid() && Known(s)
      modifies this`pool, subs
      ensures Shape() && Abs() == CloseOne(old(Abs()), s.id, r).0
      ensures CloseOne(old(Abs()), s.id, r).1 == if destroy && s.source != null then Some(s.source.id) else None
    {
      hide ValidState, AbsAll, RemoveRef, Linked, Pooled, Ids;
      ghost var st, i := Abs(), s.id;
      ghost var removed := RemoveRef(st.subs[i], r).0;
      RemoveRefShape(st.subs[i], r);
      var _, last := s.RemoveReference(r);
      destroy := last;
      if destroy {
        if s.cancel {
          s.calls := s.calls + 1;
        }
        Evicted(s.name);
        pool := pool - {s.name};
        assert s.Abs() == removed.(calls := removed.calls + if removed.cancel then 1 else 0);
      }
      OneChanged(s);
    }

    lemma RemoveRefShape(s: Sub, r: Ref)
      ensures var t := RemoveRef(s, r).0; t == s.(refs := t.refs, life := t.life)
    {
    }

    /** Destroying takes one name out of the pool. */
    lemma Shrinks(st: State, i: nat, r: Ref)
      requires ValidState(st) && i < |st.subs| && CloseOne(st, i, r).1.Some?
      ensures |CloseOne(st, i, r).0.pool.Keys| < |st.pool.Keys|
    {
      CloseKeeps(st, i, r);
      assert CloseOne(st, i, r).0.pool.Keys == st.pool.Keys - {st.subs[i].name};
    }

    lemma PoolSize()
      ensures |Abs().pool| == |pool| == |pool.Keys|
    {
      assert Abs().pool.Keys == pool.Keys;
    }
  }
}
