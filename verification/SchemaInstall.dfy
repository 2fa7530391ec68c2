/** Installing schema files: replace several files or none, over a file system whose every
    operation may fail. */
module SchemaInstall {
  import opened Tokens

  /** A file is installed under its name, staged beside it, or kept as the backup of one
      replacement. A directory counts as one file. */
  datatype Path = Installed(name: string) | Staged(name: string) | Backup(k: nat)

  type Content = string

  datatype Stat = Present | Missing | StatError

  class FileSystem {
    var files: map<Path, Content>
    ghost var faults: nat   // how many operations failed through no fault of their caller

    constructor (files: map<Path, Content>)
      ensures this.files == files && faults == 0
    {
      this.files := files;
      faults := 0;
    }

    /** Any operation may fail. */
    method Try() returns (fails: bool)
      modifies this`faults
      ensures faults == old(faults) + if fails then 1 else 0
    {
      fails := *;
      if fails {
        faults := faults + 1;
      }
    }

    method Lstat(p: Path) returns (r: Stat)
      modifies this`faults
      ensures faults == old(faults) + if r.StatError? then 1 else 0
      ensures r.Present? ==> p in files
      ensures r.Missing? ==> p !in files
    {
      var fails := Try();
      r := if fails then StatError else if p in files then Present else Missing;
    }

    /** A rename that fails leaves everything as it was; without a fault it fails only when there
        is nothing to rename. */
    method Rename(src: Path, dst: Path) returns (ok: bool)
      requires src != dst
      modifies this
      ensures old(faults) <= faults <= old(faults) + 1
      ensures ok <==> src in old(files) && faults == old(faults)
      ensures files == if ok then (old(files) - {src})[dst := old(files)[src]] else old(files)
    {
      var fails := Try();
      ok := !fails && src in files;
      if ok {
        files := (files - {src})[dst := files[src]];
      }
    }

    /** Removing what is not there succeeds. */
    method RemoveAll(p: Path) returns (ok: bool)
      modifies this
      ensures faults == old(faults) + if ok then 0 else 1
      ensures files == if ok then old(files) - {p} else old(files)
    {
      var fails := Try();
      ok := !fails;
      if ok {
        files := files - {p};
      }
    }

    /** The directory for the backups. */
    method MakeBackups() returns (ok: bool)
      modifies this`faults
      ensures faults == old(faults) + if ok then 0 else 1
    {
      var fails := Try();
      ok := !fails;
    }
  }

  /** One file to replace: without a source its target is only taken away. */
  datatype Replacement = Replacement(source: Option<string>, target: string, backup: Option<nat>, installed: bool, hadTarget: bool)

  type View = map<string, Content>

  /** What is installed. */
  ghost function Visible(files: map<Path, Content>): (v: View)
    ensures forall n :: n in v <==> Installed(n) in files
    ensures forall n :: n in v ==> v[n] == files[Installed(n)]
  {
    var names := set p | p in files && p.Installed? :: p.name;
    assert forall p :: p in files && p.Installed? ==> p.name in names;
    map n | n in names :: files[Installed(n)]
  }

  ghost function Staging(files: map<Path, Content>): (v: View)
    ensures forall n :: n in v <==> Staged(n) in files
    ensures forall n :: n in v ==> v[n] == files[Staged(n)]
  {
    var names := set p | p in files && p.Staged? :: p.name;
    assert forall p :: p in files && p.Staged? ==> p.name in names;
    map n | n in names :: files[Staged(n)]
  }

  predicate AllStaged(rs: seq<Replacement>, staged: View) {
    forall k :: 0 <= k < |rs| && rs[k].source.Some? ==> rs[k].source.value in staged
  }

  ghost function Sources(rs: seq<Replacement>): set<string> {
    set k | 0 <= k < |rs| && rs[k].source.Some? :: rs[k].source.value
  }

  /** Every source is there, and no source is to be moved twice. */
  ghost predicate Installable(rs: seq<Replacement>, staged: View) {
    && AllStaged(rs, staged)
    && (forall j, k :: 0 <= j < k < |rs| && rs[k].source.Some? ==> rs[j].source != rs[k].source)
  }

  /** What the replacements ask for, in order. */
  ghost function Outcome(v: View, staged: View, rs: seq<Replacement>): View
    requires AllStaged(rs, staged)
    decreases rs
  {
    if rs == [] then v
    else
      var r, before := rs[|rs| - 1], Outcome(v, staged, rs[..|rs| - 1]);
      if r.source.Some? then before[r.target := staged[r.source.value]] else before - {r.target}
  }

  /** The last replacement that mentions a name. */
  function LastFor(rs: seq<Replacement>, name: string): (k: Option<nat>)
    ensures k.Some? ==> k.value < |rs| && rs[k.value].target == name
    ensures forall j :: (if k.Some? then k.value else -1) < j < |rs| ==> rs[j].target != name
    decreases rs
  {
    if rs == [] then None
    else if rs[|rs| - 1].target == name then Some(|rs| - 1)
    else LastFor(rs[..|rs| - 1], name)
  }

  predicate Same(v: View, w: View, name: string) {
    (name in v <==> name in w) && (name in v ==> v[name] == w[name])
  }

  /** For every name the last replacement that mentions it decides, and nothing else changes. */
  lemma {:induction false} OutcomeIsLast(v: View, staged: View, rs: seq<Replacement>, name: string)
    requires AllStaged(rs, staged)
    ensures match LastFor(rs, name)
            case None => Same(Outcome(v, staged, rs), v, name)
            case Some(k) =>
              if rs[k].source.None? then name !in Outcome(v, staged, rs)
              else name in Outcome(v, staged, rs) && Outcome(v, staged, rs)[name] == staged[rs[k].source.value]
    decreases rs
  {
    if rs != [] && rs[|rs| - 1].target != name {
      OutcomeIsLast(v, staged, rs[..|rs| - 1], name);
    }
  }

  /** One replacement carried out so far took what was visible from `v` to `v1`. */
  ghost predicate Moved(r: Replacement, k: nat, v: View, v1: View, files: map<Path, Content>) {
    && (r.hadTarget <==> r.target in v)
    && (r.hadTarget ==> r.backup == Some(k) && Backup(k) in files && files[Backup(k)] == v[r.target])
    && (if r.installed then r.target in v1 && v1 == v[r.target := v1[r.target]] else v1 == v - {r.target})
  }

  /** The replacements up to `n` are carried out, step by step through `views`. */
  ghost predicate History(rs: seq<Replacement>, n: nat, views: seq<View>, files: map<Path, Content>) {
    && n <= |rs| && |views| == n + 1
    && (forall k {:trigger rs[k]} :: 0 <= k < n ==> Moved(rs[k], k, views[k], views[k + 1], files))
  }

  /** The request behind a replacement, without what has been done about it. */
  predicate SameRequest(r: Replacement, s: Replacement) {
    r.source == s.source && r.target == s.target
  }

  ghost predicate SameRequests(a: seq<Replacement>, b: seq<Replacement>) {
    |a| == |b| && forall k :: 0 <= k < |a| ==> SameRequest(a[k], b[k])
  }

  /** `name` is not the target of one that failed. */
  predicate Untouched(name: string, rs: seq<Replacement>, failed: set<nat>) {
    forall k :: 0 <= k < |rs| && k in failed ==> rs[k].target != name
  }

  ghost predicate SameBackup(f: map<Path, Content>, g: map<Path, Content>, k: nat) {
    (Backup(k) in f <==> Backup(k) in g) && (Backup(k) in f ==> f[Backup(k)] == g[Backup(k)])
  }

  /** Undoes the first `n` replacements in reverse. An undo fails only by a fault, one for each; it
      is reported and spoils only its own target: every other name is as it was before the first
      replacement. */
  method RollbackFileReplacements(fs: FileSystem, a: array<Replacement>, n: nat, ghost views: seq<View>)
    returns (ok: bool, ghost failed: set<nat>)
    requires History(a[..], n, views, fs.files) && Visible(fs.files) == views[n]
    modifies fs, a
    ensures SameRequests(a[..], old(a[..]))
    ensures ok <==> failed == {}
    ensures fs.faults == old(fs.faults) + |failed| && forall k :: k in failed ==> k < n
    ensures forall name :: Untouched(name, old(a[..]), failed) ==> Same(Visible(fs.files), views[0], name)
    ensures ok ==> Visible(fs.files) == views[0]
    ensures ok ==> forall k :: 0 <= k < n ==> !a[k].installed && !a[k].hadTarget
  {
    hide Visible, Moved, Same, Untouched;
    ghost var rs, files := a[..], fs.files;
    ok, failed := true, {};
    ItselfSame(views[n]);
    var i := n;
    while i > 0
      invariant 0 <= i <= n <= a.Length
      invariant SameRequests(a[..], rs)
      invariant forall k :: 0 <= k < i ==> a[k] == rs[k]
      invariant forall k: nat :: k < i ==> SameBackup(fs.files, files, k)
      invariant ok <==> failed == {}
      invariant fs.faults == old(fs.faults) + |failed| && forall k :: k in failed ==> i <= k < n
      invariant forall name :: Untouched(name, rs, failed) ==> Same(Visible(fs.files), views[i], name)
      invariant ok ==> forall k :: i <= k < n ==> !a[k].installed && !a[k].hadTarget
    {
      i := i - 1;
      assert a[i] == rs[i] && Moved(rs[i], i, views[i], views[i + 1], files);
      MovedElsewhere(rs[i], i, views[i], views[i + 1], files, fs.files);
      ghost var before := fs.files;
      var done := UndoOne(fs, a, i, rs, views[i], views[i + 1], failed);
      forall k: nat | k < i
        ensures SameBackup(fs.files, files, k)
      {
        assert SameBackup(fs.files, before, k) && SameBackup(before, files, k);
      }
      if !done {
        ok, failed := false, failed + {i};
      }
    }
    if ok {
      AllSame(Visible(fs.files), views[0], rs);
    }
  }

  lemma ItselfSame(v: View)
    ensures forall name :: Same(v, v, name)
  {
  }

  lemma MovedElsewhere(r: Replacement, k: nat, v: View, v1: View, f: map<Path, Content>, g: map<Path, Content>)
    requires Moved(r, k, v, v1, f) && SameBackup(g, f, k)
    ensures Moved(r, k, v, v1, g)
  {
  }

  lemma AllSame(v: View, w: View, rs: seq<Replacement>)
    requires forall name :: Untouched(name, rs, {}) ==> Same(v, w, name)
    ensures v == w
  {
    forall name
      ensures Same(v, w, name)
    {
      assert Untouched(name, rs, {});
    }
    assert forall name :: name in v ==> Same(v, w, name);
    assert forall name :: name in w ==> Same(v, w, name);
  }

  /** Undoes one replacement: takes the new file away and puts the old one back. */
  method UndoOne(fs: FileSystem, a: array<Replacement>, i: nat, ghost rs: seq<Replacement>, ghost v: View,
      ghost v1: View, ghost failed: set<nat>) returns (done: bool)
    requires i < a.Length == |rs| && a[i] == rs[i] && SameRequests(a[..], rs) && Moved(a[i], i, v, v1, fs.files)
    requires forall name :: Untouched(name, rs, failed) ==> Same(Visible(fs.files), v1, name)
    modifies fs, a
    ensures SameRequest(a[i], rs[i]) && forall k :: 0 <= k < a.Length && k != i ==> a[k] == old(a[k])
    ensures forall k: nat :: k != i ==> SameBackup(fs.files, old(fs.files), k)
    ensures done ==> !a[i].installed && !a[i].hadTarget
    ensures fs.faults == old(fs.faults) + if done then 0 else 1
    ensures forall name :: Untouched(name, rs, if done then failed else failed + {i}) ==> Same(Visible(fs.files), v, name)
  {
    hide Visible;
    var r := a[i];
    if r.installed {
      var removed := fs.RemoveAll(Installed(r.target));
      if !removed {
        ExceptTarget(rs, i, failed, Visible(fs.files), v1, v);
        return false;
      }
      a[i] := a[i].(installed := false);
    }
    ghost var bare := Visible(fs.files);
    assert Untouched(r.target, rs, failed) ==> r.target !in bare;
    assert forall name :: name != r.target ==> Same(v1, v, name);
    assert forall name :: name != r.target && Untouched(name, rs, failed) ==> Same(bare, v1, name);
    if r.hadTarget {
      var restored := fs.Rename(Backup(r.backup.value), Installed(r.target));
      if !restored {
        ExceptTarget(rs, i, failed, Visible(fs.files), v, v);
        return false;
      }
      a[i] := a[i].(hadTarget := false);
      assert forall name :: name != r.target ==> Same(Visible(fs.files), bare, name);
      assert Same(Visible(fs.files), v, r.target);
    }
    PutBack(rs, failed, r.target, Visible(fs.files), bare, v1, v);
    return true;
  }

  /** From the last view back to `v`, by way of `bare` and `v1`, which differ from it at most at the target. */
  lemma PutBack(rs: seq<Replacement>, failed: set<nat>, target: string, w: View, bare: View, v1: View, v: View)
    requires Untouched(target, rs, failed) ==> Same(w, v, target)
    requires forall name :: name != target ==> Same(w, bare, name) && Same(v1, v, name)
    requires forall name :: name != target && Untouched(name, rs, failed) ==> Same(bare, v1, name)
    ensures forall name :: Untouched(name, rs, failed) ==> Same(w, v, name)
  {
    hide Untouched;
    forall name | Untouched(name, rs, failed)
      ensures Same(w, v, name)
    {
      if name != target {
        assert Same(w, bare, name) && Same(bare, v1, name) && Same(v1, v, name);
      }
    }
  }

  /** What is right but for the target of `i` is right for whatever a failure at `i` leaves. */
  lemma ExceptTarget(rs: seq<Replacement>, i: nat, failed: set<nat>, w: View, v1: View, v: View)
    requires i < |rs|
    requires forall name :: name != rs[i].target && Untouched(name, rs, failed) ==> Same(w, v1, name)
    requires forall name :: name != rs[i].target ==> Same(v1, v, name)
    ensures forall name :: Untouched(name, rs, failed + {i}) ==> Same(w, v, name)
  {
    forall name | Untouched(name, rs, failed + {i})
      ensures Same(w, v, name)
    {
      assert i in failed + {i};
      assert Untouched(name, rs, failed);
      assert Same(w, v1, name) && Same(v1, v, name);
    }
  }

  datatype Commit = Done | Failed(rolledBack: bool)

  /** Staged files are never written, only taken: all are there but the sources of `rs`. */
  ghost predicate StagedLeft(files: map<Path, Content>, staged: View, rs: seq<Replacement>) {
    && (forall n :: Staged(n) in files <==> n in staged && n !in Sources(rs))
    && (forall n :: Staged(n) in files ==> files[Staged(n)] == staged[n])
  }

  /** The first `i` replacements are carried out, with what they asked for as the result. */
  ghost predicate Progress(rs: seq<Replacement>, i: nat, views: seq<View>, files: map<Path, Content>, v: View,
      staged: View) {
    && History(rs, i, views, files) && views[0] == v && Visible(files) == views[i]
    && StagedLeft(files, staged, rs[..i])
    && (forall k: nat :: k >= i ==> Backup(k) !in files)
    && Installable(rs[..i], staged)
    && views[i] == Outcome(v, staged, rs[..i])
  }

  /** How one replacement changes the files: the old target goes to its backup, the source to
      the target. */
  ghost predicate BackedUp(r: Replacement, i: nat, files: map<Path, Content>, files1: map<Path, Content>) {
    && (r.hadTarget <==> Installed(r.target) in files)
    && (r.hadTarget ==> r.backup == Some(i))
    && files1 == if r.hadTarget then (files - {Installed(r.target)})[Backup(i) := files[Installed(r.target)]] else files
  }

  ghost predicate PutInPlace(r: Replacement, files1: map<Path, Content>, files2: map<Path, Content>) {
    if r.installed then
      && r.source.Some? && Staged(r.source.value) in files1
      && files2 == (files1 - {Staged(r.source.value)})[Installed(r.target) := files1[Staged(r.source.value)]]
    else files2 == files1
  }

  lemma OneMoved(r: Replacement, i: nat, files: map<Path, Content>, files1: map<Path, Content>,
      files2: map<Path, Content>, staged: View, before: seq<Replacement>)
    requires BackedUp(r, i, files, files1) && PutInPlace(r, files1, files2) && StagedLeft(files, staged, before)
    ensures Moved(r, i, Visible(files), Visible(files2), files2)
    ensures forall k: nat :: k != i ==> SameBackup(files2, files, k)
    ensures r.installed ==> r.source.value in staged && r.source.value !in Sources(before)
    ensures r.installed ==> Visible(files2) == Visible(files)[r.target := staged[r.source.value]]
    ensures !r.installed ==> Visible(files2) == Visible(files) - {r.target}
  {
    TargetLeaves(r, i, files, files1);
    SourcesStay(r, i, files, files1);
    SourceArrives(r, files1, files2);
    hide Visible, Staging, Sources;
  }

  lemma SourcesOneMore(rs: seq<Replacement>, r: Replacement)
    ensures Sources(rs + [r]) == Sources(rs) + if r.source.Some? then {r.source.value} else {}
  {
    var more := rs + [r];
    assert more[|rs|] == r && forall k :: 0 <= k < |rs| ==> more[k] == rs[k];
    assert forall k :: 0 <= k < |rs| && rs[k].source.Some? ==> more[k].source.value in Sources(more);
  }

  /** One source more is taken. */
  lemma OneTaken(r: Replacement, i: nat, files: map<Path, Content>, files1: map<Path, Content>,
      files2: map<Path, Content>, staged: View, before: seq<Replacement>)
    requires BackedUp(r, i, files, files1) && PutInPlace(r, files1, files2) && StagedLeft(files, staged, before)
    requires r.installed == r.source.Some? && Installable(before, staged)
    ensures StagedLeft(files2, staged, before + [r]) && Installable(before + [r], staged)
  {
    SourcesOneMore(before, r);
    SourcesStay(r, i, files, files1);
    forall j | 0 <= j < |before| && r.source.Some?
      ensures before[j].source != r.source
    {
      assert before[j].source.Some? ==> before[j].source.value in Sources(before);
    }
  }

  lemma TargetLeaves(r: Replacement, i: nat, files: map<Path, Content>, files1: map<Path, Content>)
    requires BackedUp(r, i, files, files1)
    ensures Visible(files1) == Visible(files) - {r.target}
  {
  }

  lemma SourcesStay(r: Replacement, i: nat, files: map<Path, Content>, files1: map<Path, Content>)
    requires BackedUp(r, i, files, files1)
    ensures forall n :: Staged(n) in files1 <==> Staged(n) in files
    ensures forall n :: Staged(n) in files1 ==> files1[Staged(n)] == files[Staged(n)]
  {
  }

  lemma SourceArrives(r: Replacement, files1: map<Path, Content>, files2: map<Path, Content>)
    requires PutInPlace(r, files1, files2)
    ensures Visible(files2) == if r.installed then Visible(files1)[r.target := files1[Staged(r.source.value)]] else Visible(files1)
  {
  }

  lemma StepHistory(rs: seq<Replacement>, i: nat, views: seq<View>, files: map<Path, Content>,
      files2: map<Path, Content>, r: Replacement)
    requires i < |rs| && History(rs, i, views, files) && Visible(files) == views[i]
    requires Moved(r, i, Visible(files), Visible(files2), files2)
    requires forall k: nat :: k != i ==> SameBackup(files2, files, k)
    ensures History(rs[i := r], i + 1, views + [Visible(files2)], files2)
  {
    var rs', views' := rs[i := r], views + [Visible(files2)];
    forall k {:trigger rs'[k]} | 0 <= k < i + 1
      ensures Moved(rs'[k], k, views'[k], views'[k + 1], files2)
    {
      if k < i {
        assert Moved(rs[k], k, views[k], views[k + 1], files) && SameBackup(files2, files, k);
      }
    }
  }

  lemma StepProgress(rs: seq<Replacement>, i: nat, views: seq<View>, files: map<Path, Content>,
      files1: map<Path, Content>, files2: map<Path, Content>, r: Replacement, v: View, staged: View)
    requires i < |rs| && Progress(rs, i, views, files, v, staged)
    requires BackedUp(r, i, files, files1) && PutInPlace(r, files1, files2) && r.installed == r.source.Some?
    ensures Progress(rs[i := r], i + 1, views + [Visible(files2)], files2, v, staged)
  {
    hide Visible, Moved, BackedUp, PutInPlace, Sources, Installable, StagedLeft;
    OneMoved(r, i, files, files1, files2, staged, rs[..i]);
    OneTaken(r, i, files, files1, files2, staged, rs[..i]);
    StepHistory(rs, i, views, files, files2, r);
    var rs' := rs[i := r];
    var done := rs'[..i + 1];
    assert done == rs[..i] + [r];
    assert done[|done| - 1] == r && done[..|done| - 1] == rs[..i];
    assert Outcome(v, staged, done) == if r.source.Some? then views[i][r.target := staged[r.source.value]] else views[i] - {r.target};
    forall k: nat | k > i
      ensures Backup(k) !in files2
    {
      assert SameBackup(files2, files, k);
    }
  }

  /** All is as before but for the targets of the undos that failed. */
  ghost predicate UndoneBut(rs: seq<Replacement>, failed: set<nat>, v: View, w: View) {
    && (forall k :: k in failed ==> k < |rs|)
    && (forall name :: Untouched(name, rs, failed) ==> Same(w, v, name))
  }

  /** Puts every source at its target, keeping what was there, or undoes what it has done. It
      succeeds exactly when the sources are there, each for one target, and nothing fails on the
      way; else all is undone that does not fail once more. */
  method CommitFileReplacements(fs: FileSystem, a: array<Replacement>)
    returns (res: Commit, ghost views: seq<View>, ghost failed: set<nat>)
    requires forall k :: 0 <= k < a.Length ==> !a[k].installed && !a[k].hadTarget
    requires forall k: nat :: Backup(k) !in fs.files
    modifies fs, a
    ensures SameRequests(a[..], old(a[..]))
    ensures res.Done? ==> Progress(a[..], a.Length, views, fs.files, Visible(old(fs.files)), Staging(old(fs.files)))
    ensures res.Done? <==> Installable(old(a[..]), Staging(old(fs.files))) && fs.faults == old(fs.faults)
    ensures res.Failed? ==> UndoneBut(old(a[..]), failed, Visible(old(fs.files)), Visible(fs.files))
    ensures res.Failed? ==> (res.rolledBack <==> failed == {})
    ensures res.Failed? ==> old(fs.faults) + |failed| <= fs.faults <= old(fs.faults) + |failed| + 1
    ensures res.Failed? && Installable(old(a[..]), Staging(old(fs.files))) ==> fs.faults == old(fs.faults) + |failed| + 1
    ensures res == Failed(true) ==> Visible(fs.files) == Visible(old(fs.files))
  {
    hide Moved, Outcome, Visible, Staging, Sources, Installable, StagedLeft;
    ghost var v, staged, all := Visible(fs.files), Staging(fs.files), a[..];
    views, failed := [v], {};
    StartProgress(a[..], fs.files);
    if a.Length == 0 {
      assert a[..] == a[..0];
      return Done, views, failed;
    }
    var made := fs.MakeBackups();
    if !made {
      return Failed(true), views, failed;
    }
    var i := 0;
    while i < a.Length
      invariant 0 <= i <= a.Length && SameRequests(a[..], all)
      invariant forall k :: i <= k < a.Length ==> !a[k].installed && !a[k].hadTarget
      invariant Progress(a[..], i, views, fs.files, v, staged)
      invariant fs.faults == old(fs.faults)
    {
      ghost var rs, files := a[..], fs.files;
      var backedUp := BackUp(fs, a, i);
      if !backedUp {
        OtherBackup(rs, a[..], i, views, files);
        SameRequestsStill(all, rs, a[..]);
        res, failed := GiveUp(fs, a, i, views, all);
        return res, views, failed;
      }
      ghost var files1 := fs.files;
      var put := Install(fs, a, i);
      assert a[..] == rs[i := a[i]];
      SameRequestsStill(all, rs, a[..]);
      if !put {
        OneMoved(a[i], i, files, files1, fs.files, staged, rs[..i]);
        StepHistory(rs, i, views, files, fs.files, a[i]);
        views := views + [Visible(fs.files)];
        if fs.faults == old(fs.faults) {
          StagedAfterBackup(a[i], i, files, files1, staged, rs[..i]);
          NothingToInstall(rs, i, staged);
          SameInstallable(all, rs, staged);
        }
        res, failed := GiveUp(fs, a, i + 1, views, all);
        return res, views, failed;
      }
      StepProgress(rs, i, views, files, files1, fs.files, a[i], v, staged);
      views := views + [Visible(fs.files)];
      i := i + 1;
    }
    assert a[..i] == a[..];
    SameInstallable(all, a[..], staged);
    return Done, views, failed;
  }

  /** Rolls back after an error and reports whether that went well. */
  method GiveUp(fs: FileSystem, a: array<Replacement>, n: nat, ghost views: seq<View>, ghost all: seq<Replacement>)
    returns (res: Commit, ghost failed: set<nat>)
    requires History(a[..], n, views, fs.files) && Visible(fs.files) == views[n] && SameRequests(a[..], all)
    modifies fs, a
    ensures SameRequests(a[..], all)
    ensures res == Failed(failed == {}) && UndoneBut(all, failed, views[0], Visible(fs.files))
    ensures fs.faults == old(fs.faults) + |failed|
    ensures failed == {} ==> Visible(fs.files) == views[0]
  {
    hide Visible;
    ghost var rs := a[..];
    var ok;
    ok, failed := RollbackFileReplacements(fs, a, n, views);
    SameRequestsStill(all, rs, a[..]);
    forall name | Untouched(name, all, failed)
      ensures Same(Visible(fs.files), views[0], name)
    {
      assert forall k :: 0 <= k < |all| ==> SameRequest(rs[k], all[k]);
      assert Untouched(name, rs, failed);
    }
    return Failed(ok), failed;
  }

  lemma SameRequestsStill(all: seq<Replacement>, rs: seq<Replacement>, rs': seq<Replacement>)
    requires SameRequests(rs, all) && SameRequests(rs', rs)
    ensures SameRequests(rs', all)
  {
    forall k | 0 <= k < |all|
      ensures SameRequest(rs'[k], all[k])
    {
      assert SameRequest(rs'[k], rs[k]) && SameRequest(rs[k], all[k]);
    }
  }

  lemma SameInstallable(a: seq<Replacement>, b: seq<Replacement>, staged: View)
    requires SameRequests(b, a)
    ensures Installable(a, staged) <==> Installable(b, staged)
  {
    assert forall k :: 0 <= k < |a| ==> SameRequest(b[k], a[k]);
  }

  /** Moving the old target away takes no source. */
  lemma StagedAfterBackup(r: Replacement, i: nat, files: map<Path, Content>, files1: map<Path, Content>, staged: View,
      before: seq<Replacement>)
    requires BackedUp(r, i, files, files1) && StagedLeft(files, staged, before)
    ensures StagedLeft(files1, staged, before)
  {
  }

  /** A source that is not there was never staged or has gone to an earlier target. */
  lemma NothingToInstall(rs: seq<Replacement>, i: nat, staged: View)
    requires i < |rs| && rs[i].source.Some?
    requires rs[i].source.value !in staged || rs[i].source.value in Sources(rs[..i])
    ensures !Installable(rs, staged)
  {
    if rs[i].source.value in Sources(rs[..i]) {
      var j :| 0 <= j < i && rs[..i][j].source == rs[i].source;
      assert rs[j].source == rs[i].source;
    }
  }

  lemma WhollyDone(rs: seq<Replacement>, views: seq<View>, files: map<Path, Content>, v: View, staged: View)
    requires Progress(rs, |rs|, views, files, v, staged)
    ensures AllStaged(rs, staged) && Visible(files) == Outcome(v, staged, rs)
  {
    assert rs[..|rs|] == rs;
  }

  lemma StartProgress(rs: seq<Replacement>, files: map<Path, Content>)
    requires forall k: nat :: Backup(k) !in files
    ensures Progress(rs, 0, [Visible(files)], files, Visible(files), Staging(files))
  {
  }

  lemma OtherBackup(rs: seq<Replacement>, rs': seq<Replacement>, i: nat, views: seq<View>, files: map<Path, Content>)
    requires History(rs, i, views, files) && |rs| == |rs'| && forall k :: 0 <= k < i ==> rs'[k] == rs[k]
    ensures History(rs', i, views, files)
  {
  }

  /** Moves what is at the target away; does nothing when there is nothing. */
  method BackUp(fs: FileSystem, a: array<Replacement>, i: nat) returns (ok: bool)
    requires i < a.Length && !a[i].installed && !a[i].hadTarget
    modifies fs, a
    ensures forall k :: 0 <= k < a.Length && k != i ==> a[k] == old(a[k])
    ensures SameRequest(a[i], old(a[i])) && !a[i].installed
    ensures fs.faults == old(fs.faults) + if ok then 0 else 1
    ensures if ok then BackedUp(a[i], i, old(fs.files), fs.files) else fs.files == old(fs.files) && !a[i].hadTarget
  {
    var r := a[i];
    var stat := fs.Lstat(Installed(r.target));
    if stat.Present? {
      a[i] := r.(backup := Some(i));
      ok := fs.Rename(Installed(r.target), Backup(i));
      if ok {
        a[i] := a[i].(hadTarget := true);
      }
    } else {
      ok := stat.Missing?;
    }
  }

  /** Moves the source, if there is one, to the target. */
  method Install(fs: FileSystem, a: array<Replacement>, i: nat) returns (ok: bool)
    requires i < a.Length && !a[i].installed
    modifies fs, a
    ensures forall k :: 0 <= k < a.Length && k != i ==> a[k] == old(a[k])
    ensures a[i] == old(a[i]).(installed := ok && old(a[i]).source.Some?)
    ensures old(fs.faults) <= fs.faults <= old(fs.faults) + 1
    ensures ok <==> (a[i].source.Some? ==> Staged(a[i].source.value) in old(fs.files)) && fs.faults == old(fs.faults)
    ensures PutInPlace(a[i], old(fs.files), fs.files)
  {
    if a[i].source.None? {
      return true;
    }
    ok := fs.Rename(Staged(a[i].source.value), Installed(a[i].target));
    if ok {
      a[i] := a[i].(installed := true);
    }
  }

  // ----- the install as a whole -----

  /** The files registered for a schema. */
  datatype Files = Files(schemaFile: Option<string>, soFile: Option<string>, version: string)

  /** What the caller asks for: the new registration and the file replacements it needs. */
  datatype Request = Request(key: string, ffs: Files)

  class Registry {
    var schemas: map<string, Files>
    var scripts: map<string, Files>   // the stored install scripts
    ghost var faults: nat             // how often storing a script has failed

    constructor ()
      ensures schemas == map[] && scripts == map[] && faults == 0
    {
      schemas, scripts, faults := map[], map[], 0;
    }

    method StoreScript(r: Request) returns (ok: bool)
      modifies this`scripts, this`faults
      ensures scripts == if ok then old(scripts)[r.key := r.ffs] else old(scripts)
      ensures faults == old(faults) + if ok then 0 else 1
    {
      ok := *;
      if ok {
        scripts := scripts[r.key := r.ffs];
      } else {
        faults := faults + 1;
      }
    }

    /** The tail of an install, from the staged files on. `keep` tells that the staging area, and
        the backups in it, must be kept. The registry changes only when everything is done. When
        nothing fails, the install succeeds if it can; after any failure all is as before but for
        the targets of undos that failed as well, and one failure alone leaves no trace. */
    method InstallSchema(fs: FileSystem, a: array<Replacement>, r: Request)
      returns (ok: bool, keep: bool, ghost failed: set<nat>)
      requires forall k :: 0 <= k < a.Length ==> !a[k].installed && !a[k].hadTarget
      requires forall k: nat :: Backup(k) !in fs.files
      modifies this, fs, a
      ensures schemas == if ok then old(schemas)[r.key := r.ffs] else old(schemas)
      ensures scripts == if ok then old(scripts)[r.key := r.ffs] else old(scripts)
      ensures ok ==> Installable(old(a[..]), Staging(old(fs.files))) && !keep && faults == old(faults)
      ensures ok ==>
                var done := Outcome(Visible(old(fs.files)), Staging(old(fs.files)), old(a[..]));
                var former := Obsolete(old(schemas), r);
                if former.None? then Visible(fs.files) == done && fs.faults == old(fs.faults)
                else if fs.faults == old(fs.faults) then Visible(fs.files) == done - {former.value}
                else Visible(fs.files) == done && fs.faults == old(fs.faults) + 1
      ensures !ok ==> UndoneBut(old(a[..]), failed, Visible(old(fs.files)), Visible(fs.files))
      ensures !ok ==> old(fs.faults) + old(faults) + |failed| <= fs.faults + faults
      ensures !ok && Installable(old(a[..]), Staging(old(fs.files))) ==> old(fs.faults) + old(faults) + |failed| < fs.faults + faults
      ensures !ok && failed == {} ==> Visible(fs.files) == Visible(old(fs.files))
      ensures !ok ==> (keep <==> faults == old(faults) || failed != {})
    {
      hide Visible, Staging, Moved, Outcome, Sources, Installable, StagedLeft;
      ghost var v, staged, rs := Visible(fs.files), Staging(fs.files), a[..];
      var obsolete := Obsolete(schemas, r);
      var res;
      ghost var views;
      res, views, failed := CommitFileReplacements(fs, a);
      if res.Failed? {
        return false, true, failed;
      }
      SameInstallable(rs, a[..], staged);
      WhollyDone(a[..], views, fs.files, v, staged);
      SameOutcome(v, staged, rs, a[..]);
      var stored := StoreScript(r);
      if !stored {
        res, failed := GiveUp(fs, a, a.Length, views, rs);
        return false, !res.rolledBack, failed;
      }
      schemas := schemas[r.key := r.ffs];
      if obsolete.Some? {
        ghost var files := fs.files;
        var _ := fs.RemoveAll(Installed(obsolete.value));
        RemovedOne(files, obsolete.value);
      }
      return true, false, {};
    }
  }

  /** The former schema file, when the new registration has a version and another file. */
  function Obsolete(schemas: map<string, Files>, r: Request): Option<string> {
    if r.key in schemas && r.ffs.version != "" && schemas[r.key].schemaFile.Some? && schemas[r.key].schemaFile != r.ffs.schemaFile
    then schemas[r.key].schemaFile else None
  }

  /** What is taken away is the schema file of the former registration: never one that has just been
      installed, and nothing when the new registration has no version. */
  lemma ObsoleteExactly(schemas: map<string, Files>, r: Request, f: string)
    ensures Obsolete(schemas, r) == Some(f) <==>
              r.key in schemas && schemas[r.key].schemaFile == Some(f) && r.ffs.version != "" && r.ffs.schemaFile != Some(f)
  {
  }

  lemma RemovedOne(files: map<Path, Content>, name: string)
    ensures Visible(files - {Installed(name)}) == Visible(files) - {name}
  {
  }

  /** The outcome depends on the requests only. */
  lemma {:induction false} SameOutcome(v: View, staged: View, a: seq<Replacement>, b: seq<Replacement>)
    requires SameRequests(a, b)
    requires AllStaged(b, staged)
    ensures AllStaged(a, staged)
    ensures Outcome(v, staged, a) == Outcome(v, staged, b)
    decreases a
  {
    forall k | 0 <= k < |a| && a[k].source.Some?
      ensures a[k].source.value in staged
    {
      assert SameRequest(a[k], b[k]);
    }
    if a != [] {
      var n := |a| - 1;
      assert SameRequest(a[n], b[n]);
      SameOutcome(v, staged, a[..n], b[..n]);
    }
  }
}
