/**
 Interleaved fetches over one cache directory, with faults, cancellation and crashes.

 Any number of fetches run at once. One transition is one file-system or object-store call of one of
 them, so another fetch may act between the existence check, the `mkdir` and the rename of `_publish`.
 */
module CacheRuns {
  import opened Prelude
  import opened CacheTree

  datatype Answer =
    | Served(files: map<Path, Bytes>)
    | NotFound
    | Clashed   // an OSError caused by the shape of the tree
    | Broken    // a storage error, another OSError, a cancellation or a crash
    | Vanished    // an object was listed and is gone: a missing template
    | Unreadable  // the manifest's file cannot be read: a missing template
  {
    /** Something other than the cache and the store went wrong. */
    predicate Faulty() {
      Broken? || Vanished? || Unreadable?
    }
  }

  datatype Pc =
    | Begin
    | Listing
    | Getting(tmp: string, next: nat)
    | Checking(tmp: string)
    | Making(tmp: string)
    | Renaming(tmp: string)
    | Loading
    | Finished(answer: Answer)
  {
    predicate Holding() {
      Getting? || Checking? || Making? || Renaming?
    }
  }

  /**
   How the next call goes. `name` is the temporary name `mkdtemp` would pick; `left` is what stays of the temporary
   directory if the call makes the fetch leave it: nothing after a clean `rmtree`, everything after a crash; `found`
   says whether the object to download is still there, and whether the manifest's file can be read.
   */
  datatype Choice = Go(name: string, left: set<Path>, found: bool) | Break(left: set<Path>)

  datatype Job = Job(prefix: Path, pc: Pc)

  /** What a read straight from the object store answers. */
  function Direct(s: Store, p: Path): Answer {
    if p + [MANIFEST] in s.content then Served(Below(s.content, p)) else NotFound
  }

  function Load(t: Tree, p: Path): Answer {
    if p + [MANIFEST] in t.files then Served(Below(t.files, p)) else NotFound
  }

  /** Where an object lands in the temporary directory. */
  function Landing(tmp: string, p: Path, q: Path): Path
    requires p < q
  {
    [tmp] + q[|p|..]
  }

  function GetStep(s: Store, t: Tree, p: Path, tmp: string, i: nat): (Tree, Pc) {
    var todo := Todo(s.listing, p);
    if i >= |todo| then (t, Checking(tmp))
    else
      TodoSpec(s.listing, p);
      assert todo[i] in todo;
      var target := Landing(tmp, p, todo[i]);
      if FileAbove(t, target) || target in t.dirs || todo[i] !in s.content then (t, Finished(Clashed))
      else (WriteFile(t, target, s.content[todo[i]]), Getting(tmp, i + 1))
  }

  /** The rename finds nothing, or an empty directory, at its target. */
  predicate Lands(t: Tree, p: Path) {
    !FileAbove(t, p) && p !in t.files && EmptyAt(t, p)
  }

  function RenameStep(t: Tree, p: Path, tmp: string): (Tree, Pc) {
    if Lands(t, p) then (Move(t, tmp, p), Loading)
    else (t, if FileAbove(t, p) then Finished(Clashed) else Loading)
  }

  /** One call that does not break, without the clean-up. */
  function Work(s: Store, t: Tree, p: Path, pc: Pc, name: string, found: bool): (Tree, Pc) {
    match pc
    case Begin => (t, if p + [MANIFEST] in t.files then Loading else Listing)
    case Listing =>
      if LooksPresent(s.listing, p) then (t.(dirs := t.dirs + {[], [name]}), Getting(name, 0))
      else (t, Finished(NotFound))
    case Getting(tmp, i) =>
      if i < |Todo(s.listing, p)| && !found then (t, Finished(Vanished)) else GetStep(s, t, p, tmp, i)
    case Checking(tmp) => (t, if Exists(t, p) then Loading else Making(tmp))
    case Making(tmp) =>
      if FileAbove(t, p) then (t, Finished(Clashed))
      else (t.(dirs := t.dirs + Ancestors(p)), Renaming(tmp))
    case Renaming(tmp) => RenameStep(t, p, tmp)
    case Loading => (t, Finished(if p + [MANIFEST] in t.files && !found then Unreadable else Load(t, p)))
    case Finished(_) => (t, pc)
  }

  function Outcome(s: Store, t: Tree, p: Path, pc: Pc, c: Choice): (Tree, Pc) {
    match c
    case Break(_) => (t, Finished(Broken))
    case Go(name, _, found) => Work(s, t, p, pc, name, found)
  }

  /** One call and, once the fetch is done with its temporary directory, the clean-up of the `finally` block. */
  function Step(s: Store, t: Tree, p: Path, pc: Pc, c: Choice): (Tree, Pc) {
    var (u, next) := Outcome(s, t, p, pc, c);
    (if pc.Holding() && !next.Holding() then Sweep(u, pc.tmp, c.left) else u, next)
  }

  // ---- the system of all fetches --------------------------------------------

  /** The immutable store and every prefix that is ever requested. */
  datatype Setting = Setting(store: Store, prefixes: set<Path>)

  /** `temps` and `roots` record the temporary names used and the prefixes published so far. */
  datatype Cache = Cache(tree: Tree, jobs: seq<Job>, temps: set<string>, roots: set<Path>)

  datatype Action = Action(job: nat, choice: Choice)

  /** `mkdtemp` picks a name that is free and is not the first component of a requested prefix. */
  ghost predicate FreshName(e: Setting, t: Tree, name: string) {
    !Exists(t, [name]) && forall p :: p in e.prefixes ==> p != [] && p[0] != name
  }

  ghost predicate Enabled(e: Setting, k: Cache, a: Action) {
    && a.job < |k.jobs|
    && !k.jobs[a.job].pc.Finished?
    && (a.choice.Go? && k.jobs[a.job].pc.Listing? ==> FreshName(e, k.tree, a.choice.name))
  }

  function TempsAfter(s: Store, job: Job, c: Choice): set<string> {
    if c.Go? && job.pc.Listing? && LooksPresent(s.listing, job.prefix) then {c.name} else {}
  }

  function RootsAfter(t: Tree, job: Job, c: Choice): set<Path> {
    if c.Go? && job.pc.Renaming? && Lands(t, job.prefix) then {job.prefix} else {}
  }

  function Next(e: Setting, k: Cache, a: Action): Cache
    requires a.job < |k.jobs|
  {
    var job := k.jobs[a.job];
    var (tree, pc) := Step(e.store, k.tree, job.prefix, job.pc, a.choice);
    Cache(tree, k.jobs[a.job := job.(pc := pc)],
          k.temps + TempsAfter(e.store, job, a.choice), k.roots + RootsAfter(k.tree, job, a.choice))
  }

  ghost predicate Allowed(e: Setting, k: Cache, run: seq<Action>)
    decreases |run|
  {
    run == [] || (Enabled(e, k, run[0]) && Allowed(e, Next(e, k, run[0]), run[1..]))
  }

  ghost function After(e: Setting, k: Cache, run: seq<Action>): Cache
    requires Allowed(e, k, run)
    decreases |run|
  {
    if run == [] then k else After(e, Next(e, k, run[0]), run[1..])
  }

  ghost predicate Initial(e: Setting, k: Cache) {
    && ValidStore(e.store)
    && (forall p :: p in e.prefixes ==> p != [])
    && k.tree == Tree({}, map[]) && k.temps == {} && k.roots == {}
    && forall j :: 0 <= j < |k.jobs| ==> k.jobs[j].prefix in e.prefixes && k.jobs[j].pc == Begin
  }

  // ---- what every step keeps ------------------------------------------------

  ghost predicate FileOk(e: Setting, t: Tree, temps: set<string>, roots: set<Path>, f: Path)
    requires f in t.files
  {
    && |f| >= 2
    && [f[0]] in t.dirs
    && (f[0] in temps || (f in e.store.content && t.files[f] == e.store.content[f] && exists r :: r in roots && r < f))
  }

  ghost predicate RootOk(e: Setting, t: Tree, r: Path) {
    && r in e.prefixes
    && LooksPresent(e.store.listing, r)
    && r in t.dirs
    && forall q :: q in e.store.content && r < q ==> q in t.files
  }

  /** Files outside temporary directories agree with the store, and published prefixes are complete. */
  ghost predicate TreeOk(e: Setting, t: Tree, temps: set<string>, roots: set<Path>) {
    && (forall p :: p in e.prefixes ==> p != [] && p[0] !in temps)
    && (forall f :: f in t.files ==> FileOk(e, t, temps, roots, f))
    && (forall r :: r in roots ==> RootOk(e, t, r))
  }

  /** The temporary directory holds store objects only, and at least the first `n` of the download list. */
  ghost predicate TempHolds(s: Store, t: Tree, p: Path, tmp: string, n: nat) {
    && (forall f :: f in t.files && [tmp] < f ==>
          p + f[1..] in s.content && t.files[f] == s.content[p + f[1..]])
    && n <= |Todo(s.listing, p)|
    && forall k :: 0 <= k < n ==> p < Todo(s.listing, p)[k] && Landing(tmp, p, Todo(s.listing, p)[k]) in t.files
  }

  function Progress(s: Store, job: Job): nat {
    if job.pc.Getting? then job.pc.next else |Todo(s.listing, job.prefix)|
  }

  ghost predicate AnswerOk(e: Setting, job: Job) {
    job.pc.Finished? && job.pc.answer.Served? ==> job.pc.answer == Direct(e.store, job.prefix)
  }

  ghost predicate JobOk(e: Setting, t: Tree, temps: set<string>, job: Job) {
    && job.prefix in e.prefixes
    && AnswerOk(e, job)
    && (job.pc.Holding() ==>
          && LooksPresent(e.store.listing, job.prefix)
          && job.pc.tmp in temps
          && [job.pc.tmp] in t.dirs
          && TempHolds(e.store, t, job.prefix, job.pc.tmp, Progress(e.store, job)))
  }

  /** No two fetches own the same temporary directory. */
  ghost predicate Apart(jobs: seq<Job>) {
    forall i, j :: 0 <= i < j < |jobs| && jobs[i].pc.Holding() && jobs[j].pc.Holding() ==>
      jobs[i].pc.tmp != jobs[j].pc.tmp
  }

  ghost predicate Sound(e: Setting, k: Cache) {
    && ValidStore(e.store)
    && TreeOk(e, k.tree, k.temps, k.roots)
    && (forall j :: 0 <= j < |k.jobs| ==> JobOk(e, k.tree, k.temps, k.jobs[j]))
    && Apart(k.jobs)
  }

  // ---- tree operations ------------------------------------------------------

  lemma SweepOk(e: Setting, t: Tree, temps: set<string>, roots: set<Path>, tmp: string, left: set<Path>)
    requires TreeOk(e, t, temps, roots) && tmp in temps
    ensures TreeOk(e, Sweep(t, tmp, left), temps, roots)
  {
    var u := Sweep(t, tmp, left);
    forall f | f in u.files
      ensures FileOk(e, u, temps, roots, f)
    {
      assert FileOk(e, t, temps, roots, f);
      assert [tmp] <= f ==> f[0] == tmp;
      assert Spared(f, left) ==> Spared([f[0]], left) by {
        if y :| y in left && f <= y { assert [f[0]] <= y; }
      }
      assert [tmp] <= [f[0]] ==> [tmp] <= f;
    }
    forall r | r in roots
      ensures RootOk(e, u, r)
    {
      assert RootOk(e, t, r);
      assert r[0] != tmp;
      assert forall q: Path :: r <= q ==> q[0] == r[0] && !([tmp] <= q);
    }
  }

  lemma WriteOk(e: Setting, t: Tree, temps: set<string>, roots: set<Path>, target: Path, data: Bytes)
    requires TreeOk(e, t, temps, roots)
    requires |target| >= 2 && target[0] in temps && [target[0]] in t.dirs
    ensures TreeOk(e, WriteFile(t, target, data), temps, roots)
  {
    var u := WriteFile(t, target, data);
    forall f | f in u.files
      ensures FileOk(e, u, temps, roots, f)
    {
      if f != target {
        assert FileOk(e, t, temps, roots, f);
      }
    }
    forall r | r in roots
      ensures RootOk(e, u, r)
    {
      assert RootOk(e, t, r);
    }
  }

  lemma GrowDirsOk(e: Setting, t: Tree, temps: set<string>, roots: set<Path>, more: set<Path>)
    requires TreeOk(e, t, temps, roots)
    ensures TreeOk(e, t.(dirs := t.dirs + more), temps, roots)
  {
    var u := t.(dirs := t.dirs + more);
    forall f | f in u.files
      ensures FileOk(e, u, temps, roots, f)
    {
      assert FileOk(e, t, temps, roots, f);
    }
    forall r | r in roots
      ensures RootOk(e, u, r)
    {
      assert RootOk(e, t, r);
    }
  }

  lemma NewTempOk(e: Setting, t: Tree, temps: set<string>, roots: set<Path>, name: string)
    requires TreeOk(e, t, temps, roots) && FreshName(e, t, name)
    ensures TreeOk(e, t, temps + {name}, roots)
    ensures forall f :: f in t.files ==> !([name] < f)
  {
    forall f | f in t.files
      ensures FileOk(e, t, temps + {name}, roots, f) && !([name] < f)
    {
      assert FileOk(e, t, temps, roots, f);
    }
  }

  /** Where the rename's files come from: the temporary directory, or outside it. */
  lemma MoveSource(t: Tree, tmp: string, p: Path)
    requires p != [] && p[0] != tmp
    ensures forall f :: f in Move(t, tmp, p).files ==>
      (if p < f && [tmp] + f[|p|..] in t.files
       then Move(t, tmp, p).files[f] == t.files[[tmp] + f[|p|..]]
       else f in t.files && !([tmp] <= f) && Move(t, tmp, p).files[f] == t.files[f])
  {
    var below := Below(t.files, [tmp]);
    var u := Move(t, tmp, p);
    forall f | f in u.files && p < f && [tmp] + f[|p|..] in t.files
      ensures u.files[f] == t.files[[tmp] + f[|p|..]]
    {
      var q := f[|p|..];
      assert f == p + q && q in below;
    }
  }

  /** What the rename keeps: everything outside the temporary directory, and its content under `p`. */
  lemma MoveKeeps(t: Tree, tmp: string, p: Path)
    requires p != [] && p[0] != tmp
    ensures forall f :: f in t.files && !([tmp] <= f) ==> f in Move(t, tmp, p).files
    ensures forall q :: q in Below(t.files, [tmp]) ==> p + q in Move(t, tmp, p).files
    ensures Sweep(t, tmp, {}).dirs + Ancestors(p) <= Move(t, tmp, p).dirs
    ensures [tmp] in t.dirs ==> p in Move(t, tmp, p).dirs
  {
    var below := Below(t.files, [tmp]);
    var u := Move(t, tmp, p);
    forall q | q in below
      ensures p + q in u.files
    {
      assert (p + q)[|p|..] == q;
    }
    if [tmp] in t.dirs {
      assert p + [tmp][1..] == p;
    }
  }

  lemma MoveOk(e: Setting, t: Tree, temps: set<string>, roots: set<Path>, tmp: string, p: Path)
    requires ValidStore(e.store)
    requires TreeOk(e, t, temps, roots) && tmp in temps && [tmp] in t.dirs && p in e.prefixes
    requires LooksPresent(e.store.listing, p)
    requires TempHolds(e.store, t, p, tmp, |Todo(e.store.listing, p)|)
    ensures TreeOk(e, Move(t, tmp, p), temps, roots + {p})
  {
    var u := Move(t, tmp, p);
    forall f | f in u.files
      ensures FileOk(e, u, temps, roots + {p}, f)
    {
      MovedFileOk(e, t, temps, roots, tmp, p, f);
    }
    forall r | r in roots + {p}
      ensures RootOk(e, u, r)
    {
      MovedRootOk(e, t, temps, roots, tmp, p, r);
    }
  }

  lemma MovedFileOk(e: Setting, t: Tree, temps: set<string>, roots: set<Path>, tmp: string, p: Path, f: Path)
    requires TreeOk(e, t, temps, roots) && tmp in temps && [tmp] in t.dirs && p in e.prefixes
    requires LooksPresent(e.store.listing, p)
    requires TempHolds(e.store, t, p, tmp, |Todo(e.store.listing, p)|)
    requires f in Move(t, tmp, p).files
    ensures FileOk(e, Move(t, tmp, p), temps, roots + {p}, f)
  {
    var u := Move(t, tmp, p);
    MoveSource(t, tmp, p);
    MoveKeeps(t, tmp, p);
    assert [p[0]] in u.dirs by {
      assert p[..1] == [p[0]];
      assert |p| > 1 ==> p[..1] in Ancestors(p);
      assert |p| == 1 ==> p == [p[0]];
    }
    if p < f && [tmp] + f[|p|..] in t.files {
      var g := [tmp] + f[|p|..];
      assert [tmp] < g && g[1..] == f[|p|..] && p + f[|p|..] == f;
      assert p in roots + {p};
    } else {
      assert FileOk(e, t, temps, roots, f);
      assert [tmp][0] == tmp && [f[0]][0] == f[0];
      assert forall r :: r in roots ==> r in roots + {p};
    }
  }

  lemma MovedRootOk(e: Setting, t: Tree, temps: set<string>, roots: set<Path>, tmp: string, p: Path, r: Path)
    requires ValidStore(e.store)
    requires TreeOk(e, t, temps, roots) && tmp in temps && [tmp] in t.dirs && p in e.prefixes
    requires LooksPresent(e.store.listing, p)
    requires TempHolds(e.store, t, p, tmp, |Todo(e.store.listing, p)|)
    requires r in roots + {p}
    ensures RootOk(e, Move(t, tmp, p), r)
  {
    MoveKeeps(t, tmp, p);
    if r == p {
      forall q | q in e.store.content && p < q
        ensures q in Move(t, tmp, p).files
      {
        CompleteTemp(e.store, t, p, tmp, q);
        assert p + q[|p|..] == q;
      }
    } else {
      assert RootOk(e, t, r);
      assert forall q :: r <= q ==> q[0] == r[0] && !([tmp] <= q);
    }
  }

  lemma CompleteTemp(s: Store, t: Tree, p: Path, tmp: string, q: Path)
    requires ValidStore(s) && TempHolds(s, t, p, tmp, |Todo(s.listing, p)|)
    requires q in s.content && p < q
    ensures q[|p|..] in Below(t.files, [tmp])
  {
    var todo := Todo(s.listing, p);
    TodoSpec(s.listing, p);
    assert q in todo;
    var k :| 0 <= k < |todo| && todo[k] == q;
    assert Landing(tmp, p, todo[k]) in t.files;
  }

  // ---- the step keeps the invariant ----------------------------------------

  /** A step of one fetch leaves another fetch's temporary directory alone. */
  ghost predicate SameAt(t: Tree, u: Tree, name: string) {
    && ([name] in t.dirs ==> [name] in u.dirs)
    && (forall f :: f in u.files && [name] < f ==> f in t.files && u.files[f] == t.files[f])
    && (forall f :: f in t.files && [name] < f ==> f in u.files)
  }

  lemma TempKept(s: Store, t: Tree, u: Tree, p: Path, tmp: string, n: nat)
    requires TempHolds(s, t, p, tmp, n) && SameAt(t, u, tmp)
    ensures TempHolds(s, u, p, tmp, n)
  {
    forall k | 0 <= k < n
      ensures Landing(tmp, p, Todo(s.listing, p)[k]) in u.files
    {
      assert [tmp] < Landing(tmp, p, Todo(s.listing, p)[k]);
    }
  }

  /** The files a published prefix serves are exactly the store's objects under it. */
  lemma ManifestMeansComplete(e: Setting, t: Tree, temps: set<string>, roots: set<Path>, p: Path)
    requires TreeOk(e, t, temps, roots)
    requires p != [] && p[0] !in temps && p + [MANIFEST] in t.files
    ensures exists r :: r in roots && r <= p
    ensures p + [MANIFEST] in e.store.content
    ensures Below(t.files, p) == Below(e.store.content, p)
  {
    var m := p + [MANIFEST];
    assert FileOk(e, t, temps, roots, m);
    var r :| r in roots && r < m;
    assert r <= p;
    assert RootOk(e, t, r);
    var have, want := Below(t.files, p), Below(e.store.content, p);
    forall q | q in have
      ensures q in want && have[q] == want[q]
    {
      assert FileOk(e, t, temps, roots, p + q);
    }
    forall q | q in want
      ensures q in have
    {
      assert r < p + q;
    }
    assert have.Keys == want.Keys;
  }

  lemma GetTempHolds(s: Store, t: Tree, p: Path, tmp: string, i: nat)
    requires ValidStore(s) && TempHolds(s, t, p, tmp, i)
    requires GetStep(s, t, p, tmp, i).1.Getting?
    ensures TempHolds(s, GetStep(s, t, p, tmp, i).0, p, tmp, i + 1)
    ensures forall name :: name != tmp ==> SameAt(t, GetStep(s, t, p, tmp, i).0, name)
  {
    var todo := Todo(s.listing, p);
    TodoSpec(s.listing, p);
    var target := Landing(tmp, p, todo[i]);
    var u := WriteFile(t, target, s.content[todo[i]]);
    assert GetStep(s, t, p, tmp, i) == (u, Getting(tmp, i + 1));
    assert target[1..] == todo[i][|p|..] && p + todo[i][|p|..] == todo[i];
    forall name, f | name != tmp && [name] < f
      ensures f in u.files <==> f in t.files
      ensures f in t.files ==> u.files[f] == t.files[f]
    {
      assert f[0] == name && target[0] == tmp;
    }
    forall k | 0 <= k < i + 1
      ensures p < todo[k] && Landing(tmp, p, todo[k]) in u.files
    {
      assert todo[k] in todo;
    }
  }

  /** The step's effect on the tree keeps the tree invariant. */
  lemma StepTree(e: Setting, t: Tree, temps: set<string>, roots: set<Path>, job: Job, c: Choice)
    requires ValidStore(e.store) && TreeOk(e, t, temps, roots) && JobOk(e, t, temps, job) && !job.pc.Finished?
    requires c.Go? && job.pc.Listing? ==> FreshName(e, t, c.name)
    ensures TreeOk(e, Step(e.store, t, job.prefix, job.pc, c).0, temps + TempsAfter(e.store, job, c),
                   roots + RootsAfter(t, job, c))
  {
    var temps', roots' := temps + TempsAfter(e.store, job, c), roots + RootsAfter(t, job, c);
    assert temps + {} == temps && roots + {} == roots;
    if c.Go? { WorkTree(e, t, temps, roots, job, c); }
    if job.pc.Holding() {
      SweepOk(e, Outcome(e.store, t, job.prefix, job.pc, c).0, temps', roots', job.pc.tmp, c.left);
    }
  }

  lemma WorkTree(e: Setting, t: Tree, temps: set<string>, roots: set<Path>, job: Job, c: Choice)
    requires ValidStore(e.store) && TreeOk(e, t, temps, roots) && JobOk(e, t, temps, job) && !job.pc.Finished? && c.Go?
    requires job.pc.Listing? ==> FreshName(e, t, c.name)
    ensures TreeOk(e, Work(e.store, t, job.prefix, job.pc, c.name, c.found).0, temps + TempsAfter(e.store, job, c),
                   roots + RootsAfter(t, job, c))
  {
    var p := job.prefix;
    assert temps + {} == temps && roots + {} == roots;
    match job.pc
    case Listing =>
      NewTempOk(e, t, temps, roots, c.name);
      GrowDirsOk(e, t, temps + {c.name}, roots, {[], [c.name]});
      if !LooksPresent(e.store.listing, p) {
        assert TempsAfter(e.store, job, c) == {};
      }
    case Getting(tmp, i) => GetTree(e, t, temps, roots, p, tmp, i);
    case Making(tmp) => GrowDirsOk(e, t, temps, roots, Ancestors(p));
    case Renaming(tmp) =>
      if Lands(t, p) { MoveOk(e, t, temps, roots, tmp, p); }
    case _ =>
  }

  lemma GetTree(e: Setting, t: Tree, temps: set<string>, roots: set<Path>, p: Path, tmp: string, i: nat)
    requires TreeOk(e, t, temps, roots) && tmp in temps && [tmp] in t.dirs
    ensures TreeOk(e, GetStep(e.store, t, p, tmp, i).0, temps, roots)
  {
    var todo := Todo(e.store.listing, p);
    if i < |todo| && todo[i] in e.store.content {
      TodoSpec(e.store.listing, p);
      assert todo[i] in todo;
      WriteOk(e, t, temps, roots, Landing(tmp, p, todo[i]), e.store.content[todo[i]]);
    }
  }

  lemma SweepSame(t: Tree, u: Tree, tmp: string, left: set<Path>, name: string)
    requires name != tmp && SameAt(t, u, name)
    ensures SameAt(t, Sweep(u, tmp, left), name)
  {
    assert forall f: Path :: [name] < f ==> f[0] == name;
    assert [tmp][0] != [name][0];
  }

  lemma MoveSame(t: Tree, tmp: string, p: Path, name: string)
    requires name != tmp && p != [] && p[0] != tmp && p[0] != name
    ensures SameAt(t, Move(t, tmp, p), name)
  {
    MoveSource(t, tmp, p);
    MoveKeeps(t, tmp, p);
    assert forall f: Path :: [name] < f ==> f[0] == name && !(p < f);
    assert [tmp][0] != [name][0];
  }

  lemma StepSame(e: Setting, t: Tree, temps: set<string>, job: Job, c: Choice, name: string)
    requires ValidStore(e.store) && JobOk(e, t, temps, job) && !job.pc.Finished?
    requires job.prefix != [] && job.prefix[0] !in temps && name in temps
    requires job.pc.Holding() ==> job.pc.tmp != name
    ensures SameAt(t, Step(e.store, t, job.prefix, job.pc, c).0, name)
  {
    var u := Outcome(e.store, t, job.prefix, job.pc, c).0;
    if !job.pc.Holding() {
      assert u.files == t.files && t.dirs <= u.dirs;
    } else {
      if c.Go? { HeldWorkSame(e.store, t, job.prefix, job.pc, c.name, c.found, name); }
      SweepSame(t, u, job.pc.tmp, c.left, name);
    }
  }

  lemma HeldWorkSame(s: Store, t: Tree, p: Path, pc: Pc, free: string, found: bool, name: string)
    requires ValidStore(s) && pc.Holding() && pc.tmp != name
    requires pc.Getting? ==> TempHolds(s, t, p, pc.tmp, pc.next)
    requires p != [] && p[0] != name && p[0] != pc.tmp
    ensures SameAt(t, Work(s, t, p, pc, free, found).0, name)
  {
    var u := Work(s, t, p, pc, free, found).0;
    match pc
    case Getting(tmp, i) =>
      GetSame(s, t, p, tmp, i, name);
      assert u == t || u == GetStep(s, t, p, tmp, i).0;
    case Checking(_) => assert u == t;
    case Making(_) => assert u.files == t.files && t.dirs <= u.dirs;
    case Renaming(tmp) =>
      MoveSame(t, tmp, p, name);
      assert u == t || u == Move(t, tmp, p);
  }

  lemma GetSame(s: Store, t: Tree, p: Path, tmp: string, i: nat, name: string)
    requires ValidStore(s) && TempHolds(s, t, p, tmp, i) && tmp != name
    ensures SameAt(t, GetStep(s, t, p, tmp, i).0, name)
  {
    if GetStep(s, t, p, tmp, i).1.Getting? {
      GetTempHolds(s, t, p, tmp, i);
    } else {
      assert GetStep(s, t, p, tmp, i).0 == t;
    }
  }

  /** The stepping fetch itself: its progress is real and what it serves is what the store holds. */
  lemma StepJob(e: Setting, t: Tree, temps: set<string>, roots: set<Path>, job: Job, c: Choice)
    requires ValidStore(e.store) && TreeOk(e, t, temps, roots) && JobOk(e, t, temps, job) && !job.pc.Finished?
    requires c.Go? && job.pc.Listing? ==> FreshName(e, t, c.name)
    ensures JobOk(e, Step(e.store, t, job.prefix, job.pc, c).0, temps + TempsAfter(e.store, job, c),
                  job.(pc := Step(e.store, t, job.prefix, job.pc, c).1))
  {
    var p := job.prefix;
    var (u, pc) := Step(e.store, t, p, job.pc, c);
    match c
    case Break(_) =>
    case Go(name, _, _) =>
      match job.pc
      case Listing => NewTempOk(e, t, temps, roots, name);
      case Getting(tmp, i) => GetJob(e.store, t, p, tmp, i);
      case Loading =>
        if p + [MANIFEST] in t.files { ManifestMeansComplete(e, t, temps, roots, p); }
      case Making(tmp) => assert pc.Holding() ==> SameAt(t, u, tmp);
      case _ =>
  }

  lemma GetJob(s: Store, t: Tree, p: Path, tmp: string, i: nat)
    requires ValidStore(s) && TempHolds(s, t, p, tmp, i) && [tmp] in t.dirs
    ensures var (u, pc) := GetStep(s, t, p, tmp, i);
      pc.Holding() ==> pc.tmp == tmp && [tmp] in u.dirs && TempHolds(s, u, p, tmp, Progress(s, Job(p, pc)))
    ensures GetStep(s, t, p, tmp, i).1.Finished? ==> GetStep(s, t, p, tmp, i).1.answer == Clashed
  {
    if GetStep(s, t, p, tmp, i).1.Getting? { GetTempHolds(s, t, p, tmp, i); }
  }

  lemma NextSound(e: Setting, k: Cache, a: Action)
    requires Sound(e, k) && Enabled(e, k, a)
    ensures Sound(e, Next(e, k, a))
  {
    var job := k.jobs[a.job];
    var m := Next(e, k, a);
    assert JobOk(e, k.tree, k.temps, job);
    StepTree(e, k.tree, k.temps, k.roots, job, a.choice);
    StepJob(e, k.tree, k.temps, k.roots, job, a.choice);
    forall j | 0 <= j < |m.jobs|
      ensures JobOk(e, m.tree, m.temps, m.jobs[j])
    {
      if j != a.job {
        OtherJob(e, k, a, j);
      }
    }
    NextApart(e, k, a);
  }

  lemma OtherJob(e: Setting, k: Cache, a: Action, j: nat)
    requires Sound(e, k) && Enabled(e, k, a) && j < |k.jobs| && j != a.job
    ensures JobOk(e, Next(e, k, a).tree, Next(e, k, a).temps, k.jobs[j])
  {
    var job, other := k.jobs[a.job], k.jobs[j];
    assert JobOk(e, k.tree, k.temps, job) && JobOk(e, k.tree, k.temps, other);
    if other.pc.Holding() {
      StepSame(e, k.tree, k.temps, job, a.choice, other.pc.tmp);
      TempKept(e.store, k.tree, Next(e, k, a).tree, other.prefix, other.pc.tmp, Progress(e.store, other));
    }
  }

  lemma NextApart(e: Setting, k: Cache, a: Action)
    requires Sound(e, k) && Enabled(e, k, a)
    ensures Apart(Next(e, k, a).jobs)
  {
    var job, pc := k.jobs[a.job], Next(e, k, a).jobs[a.job].pc;
    if pc.Holding() && !job.pc.Holding() {
      assert pc == Getting(a.choice.name, 0);
      forall j | 0 <= j < |k.jobs| && k.jobs[j].pc.Holding()
        ensures k.jobs[j].pc.tmp != pc.tmp
      {
        assert JobOk(e, k.tree, k.temps, k.jobs[j]);
      }
    } else {
      assert pc.Holding() ==> pc.tmp == job.pc.tmp;
    }
  }

  lemma {:induction false} RunSound(e: Setting, k: Cache, run: seq<Action>)
    requires Sound(e, k) && Allowed(e, k, run)
    ensures Sound(e, After(e, k, run))
    decreases |run|
  {
    if run != [] {
      NextSound(e, k, run[0]);
      RunSound(e, Next(e, k, run[0]), run[1..]);
    }
  }
}
