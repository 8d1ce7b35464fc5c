/** What the cache answers: never a partial download, and under an antichain of prefixes what the store answers. */
module CacheAnswers {
  import opened CacheTree
  import opened CacheRuns

  // ---- soundness, for every prefix, nested or not ---------------------------

  /**
   In every reachable state, for every prefix `p`: if `p`'s directory holds a manifest then the files below
   it are exactly the store's objects below `p`, whatever faults, crashes and interleavings came before.
   */
  lemma NoPartialDownload(e: Setting, init: Cache, run: seq<Action>, p: Path)
    requires Initial(e, init) && Allowed(e, init, run)
    requires p != [] && p[0] !in After(e, init, run).temps
    ensures var k := After(e, init, run);
      p + [MANIFEST] in k.tree.files ==>
        p + [MANIFEST] in e.store.content && Below(k.tree.files, p) == Below(e.store.content, p)
    ensures var k := After(e, init, run);
      forall j :: 0 <= j < |k.jobs| && k.jobs[j].pc.Finished? && k.jobs[j].pc.answer.Served? ==>
        k.jobs[j].pc.answer == Direct(e.store, k.jobs[j].prefix)
  {
    RunSound(e, init, run);
    var k := After(e, init, run);
    if p + [MANIFEST] in k.tree.files {
      ManifestMeansComplete(e, k.tree, k.temps, k.roots, p);
    }
    forall j | 0 <= j < |k.jobs|
      ensures AnswerOk(e, k.jobs[j])
    {
      assert JobOk(e, k.tree, k.temps, k.jobs[j]);
    }
  }

  /** A cached file outlives every later step of every fetch. */
  lemma FileStays(e: Setting, k: Cache, a: Action, f: Path)
    requires Sound(e, k) && Enabled(e, k, a)
    requires f in k.tree.files && f[0] !in k.temps
    ensures f in Next(e, k, a).tree.files && f[0] !in Next(e, k, a).temps
  {
    var job := k.jobs[a.job];
    assert JobOk(e, k.tree, k.temps, job) && FileOk(e, k.tree, k.temps, k.roots, f);
    var r :| r in k.roots && r < f;
    assert RootOk(e, k.tree, r);
    FileOutlivesWork(e.store, k.tree, job, a.choice, f);
    if job.pc.Holding() {
      assert !([job.pc.tmp] <= f);
    }
  }

  lemma FileOutlivesWork(s: Store, t: Tree, job: Job, c: Choice, f: Path)
    requires f in t.files && f != [] && job.prefix != []
    requires job.pc.Holding() ==> f[0] != job.pc.tmp && job.prefix[0] != job.pc.tmp
    ensures f in Outcome(s, t, job.prefix, job.pc, c).0.files
  {
    if job.pc.Renaming? {
      MoveKeeps(t, job.pc.tmp, job.prefix);
      assert !([job.pc.tmp] <= f);
    }
  }

  lemma {:induction false} FileStaysAlways(e: Setting, k: Cache, run: seq<Action>, f: Path)
    requires Sound(e, k) && Allowed(e, k, run)
    requires f in k.tree.files && f[0] !in k.temps
    ensures f in After(e, k, run).tree.files && f[0] !in After(e, k, run).temps
    decreases |run|
  {
    if run != [] {
      NextSound(e, k, run[0]);
      FileStays(e, k, run[0], f);
      FileStaysAlways(e, Next(e, k, run[0]), run[1..], f);
    }
  }

  /** A bundle stays complete for as long as its reader uses it: later steps never change what is below it. */
  lemma ServedBundleStays(e: Setting, init: Cache, run: seq<Action>, later: seq<Action>, p: Path)
    requires Initial(e, init) && Allowed(e, init, run) && Allowed(e, After(e, init, run), later)
    requires p != [] && p[0] !in After(e, init, run).temps
    requires p + [MANIFEST] in After(e, init, run).tree.files
    ensures Below(After(e, After(e, init, run), later).tree.files, p) == Below(After(e, init, run).tree.files, p)
  {
    var k := After(e, init, run);
    RunSound(e, init, run);
    RunSound(e, k, later);
    var m := After(e, k, later);
    assert (p + [MANIFEST])[0] == p[0];
    FileStaysAlways(e, k, later, p + [MANIFEST]);
    ManifestMeansComplete(e, k.tree, k.temps, k.roots, p);
    ManifestMeansComplete(e, m.tree, m.temps, m.roots, p);
  }

  // ---- transparency, for every layout that allows it ------------------------

  ghost predicate Antichain(e: Setting) {
    forall p, q :: p in e.prefixes && q in e.prefixes ==> !(p < q)
  }

  /** A prefix whose listing holds something called like a manifest, so that it is downloaded. */
  ghost predicate Wanted(e: Setting, p: Path) {
    p in e.prefixes && LooksPresent(e.store.listing, p)
  }

  /**
   The layouts the cache can serve: no downloaded prefix has one of its keys above another, and a prefix above a
   downloaded one holds neither a template of its own nor an object on the way to it.
   */
  ghost predicate LaidOut(e: Setting) {
    && (forall p :: Wanted(e, p) ==> !Nested(e.store, p))
    && forall p, q :: p in e.prefixes && Wanted(e, q) && p < q ==> Clear(e.store, p, q)
  }

  ghost predicate Clear(s: Store, p: Path, q: Path) {
    p + [MANIFEST] !in s.content && forall f :: f in s.content && p < f ==> !(f < q)
  }

  lemma AntichainIsLaidOut(e: Setting)
    requires Antichain(e) && NoNesting(e.store)
    ensures LaidOut(e)
  {
  }

  ghost predicate DirOk(e: Setting, temps: set<string>, roots: set<Path>, d: Path) {
    || d == []
    || d[0] in temps
    || (exists p :: Wanted(e, p) && d < p)
    || (exists r :: r in roots && r <= d)
  }

  /** Every directory inside a temporary one leads to a downloaded file. */
  ghost predicate NoBareDir(t: Tree, tmp: string) {
    forall d :: d in t.dirs && [tmp] < d ==> exists f :: f in t.files && d < f
  }

  ghost predicate JobTrue(e: Setting, t: Tree, job: Job) {
    var m := job.prefix + [MANIFEST];
    && (job.pc.Holding() ==> NoBareDir(t, job.pc.tmp))
    && (job.pc.Loading? && m in e.store.content ==> m in t.files)
    && (job.pc.Finished? ==> job.pc.answer.Faulty() || job.pc.answer == Direct(e.store, job.prefix))
  }

  ghost predicate HeadsPresent(t: Tree) {
    forall d :: d in t.dirs && d != [] ==> [d[0]] in t.dirs
  }

  ghost predicate Transparent(e: Setting, k: Cache) {
    && HeadsPresent(k.tree)
    && (forall d :: d in k.tree.dirs ==> DirOk(e, k.temps, k.roots, d))
    && forall j :: 0 <= j < |k.jobs| ==> JobTrue(e, k.tree, k.jobs[j])
  }

  /** With a proper layout no file is ever in the way of a prefix that is downloaded. */
  lemma NoFileAbove(e: Setting, t: Tree, temps: set<string>, roots: set<Path>, p: Path)
    requires TreeOk(e, t, temps, roots) && LaidOut(e) && Wanted(e, p)
    ensures !FileAbove(t, p)
  {
    forall f | f in t.files
      ensures !(f < p)
    {
      assert FileOk(e, t, temps, roots, f);
      assert forall r :: r in roots ==> RootOk(e, t, r) && (r < p ==> Clear(e.store, r, p));
      assert forall r :: r in roots && r < f && f < p ==> r < p;
    }
  }

  /** With a proper layout, a published prefix above or below one with a template of its own covers that template. */
  lemma RootCovers(e: Setting, t: Tree, p: Path, r: Path, x: Path)
    requires LaidOut(e) && p in e.prefixes && p + [MANIFEST] in e.store.content
    requires RootOk(e, t, r) && r <= x && p <= x
    ensures p + [MANIFEST] in t.files
  {
    AboveOrBelow(r, p, x);
    assert p < r ==> Clear(e.store, p, r);
    assert r <= p ==> r < p + [MANIFEST];
  }

  /** With a proper layout, a prefix with a template of its own finds its place occupied only by that template. */
  lemma OccupiedMeansPublished(e: Setting, t: Tree, temps: set<string>, roots: set<Path>, p: Path)
    requires TreeOk(e, t, temps, roots) && LaidOut(e) && p in e.prefixes && p + [MANIFEST] in e.store.content
    requires forall d :: d in t.dirs ==> DirOk(e, temps, roots, d)
    requires Exists(t, p) || !EmptyAt(t, p)
    ensures p + [MANIFEST] in t.files
  {
    if f :| f in t.files && p <= f {
      assert FileOk(e, t, temps, roots, f);
      var r :| r in roots && r < f;
      RootCovers(e, t, p, r, f);
    } else {
      var d :| d in t.dirs && p <= d;
      DirBelow(e, t, temps, roots, p, d);
    }
  }

  lemma DirBelow(e: Setting, t: Tree, temps: set<string>, roots: set<Path>, p: Path, d: Path)
    requires TreeOk(e, t, temps, roots) && LaidOut(e) && p in e.prefixes && p + [MANIFEST] in e.store.content
    requires DirOk(e, temps, roots, d) && p <= d
    ensures p + [MANIFEST] in t.files
  {
    assert forall q :: Wanted(e, q) && p < q ==> Clear(e.store, p, q);
    assert forall q :: Wanted(e, q) && d < q ==> p < q;
    var r :| r in roots && r <= d;
    RootCovers(e, t, p, r, d);
  }

  /** Two paths above the same one are above each other. */
  lemma AboveOrBelow(r: Path, p: Path, f: Path)
    requires r <= f && p <= f
    ensures r <= p || p < r
  {
    assert r == f[..|r|] && p == f[..|p|];
  }

  lemma Rebased(p: Path, f: Path, g: Path)
    requires f != [] && g != [] && f[0] == g[0]
    ensures f < g <==> p + f[1..] < p + g[1..]
  {
    assert f == [f[0]] + f[1..] && g == [f[0]] + g[1..];
    assert p + f[1..] < p + g[1..] ==> f[1..] == (p + f[1..])[|p|..] && g[1..] == (p + g[1..])[|p|..];
    assert f < g ==> f[1..] < g[1..];
  }

  lemma GetNoBareDir(s: Store, t: Tree, p: Path, tmp: string, i: nat)
    requires ValidStore(s) && NoBareDir(t, tmp) && GetStep(s, t, p, tmp, i).1.Getting?
    ensures NoBareDir(GetStep(s, t, p, tmp, i).0, tmp)
  {
    var todo := Todo(s.listing, p);
    TodoSpec(s.listing, p);
    assert todo[i] in todo;
    var target := Landing(tmp, p, todo[i]);
    var u := WriteFile(t, target, s.content[todo[i]]);
    assert GetStep(s, t, p, tmp, i).0 == u;
    forall d | d in u.dirs && [tmp] < d
      ensures exists f :: f in u.files && d < f
    {
      if d in t.dirs {
        var f :| f in t.files && d < f;
        assert f in u.files;
      } else {
        assert d < target && target in u.files;
      }
    }
  }

  /** A clash while writing shows two nested keys. */
  lemma ClashShowsNesting(s: Store, t: Tree, p: Path, tmp: string, i: nat)
    requires ValidStore(s) && TempHolds(s, t, p, tmp, i) && NoBareDir(t, tmp)
    requires forall f :: f in t.files ==> |f| >= 2
    requires GetStep(s, t, p, tmp, i).1.Finished?
    ensures Nested(s, p)
  {
    var todo := Todo(s.listing, p);
    TodoSpec(s.listing, p);
    assert todo[i] in todo;
    var target := Landing(tmp, p, todo[i]);
    assert p + target[1..] == todo[i];
    if FileAbove(t, target) {
      var k :| 0 <= k < |target| && target[..k] in t.files;
      var f := target[..k];
      Rebased(p, f, target);
      assert p < p + f[1..];
    } else {
      var f :| f in t.files && target < f;
      Rebased(p, target, f);
    }
  }

  /** Where no key under the prefix lies above another, a download never collides with itself. */
  lemma GetNeverClashes(e: Setting, t: Tree, temps: set<string>, roots: set<Path>, p: Path, tmp: string, i: nat)
    requires ValidStore(e.store) && !Nested(e.store, p) && TreeOk(e, t, temps, roots)
    requires TempHolds(e.store, t, p, tmp, i) && NoBareDir(t, tmp)
    ensures !GetStep(e.store, t, p, tmp, i).1.Finished?
    ensures GetStep(e.store, t, p, tmp, i).1.Getting? ==> NoBareDir(GetStep(e.store, t, p, tmp, i).0, tmp)
  {
    assert forall f :: f in t.files ==> FileOk(e, t, temps, roots, f);
    if GetStep(e.store, t, p, tmp, i).1.Finished? {
      ClashShowsNesting(e.store, t, p, tmp, i);
    }
    if GetStep(e.store, t, p, tmp, i).1.Getting? {
      GetNoBareDir(e.store, t, p, tmp, i);
    }
  }

  // ---- every step keeps transparency ----------------------------------------

  lemma DirsStayOk(e: Setting, k: Cache, a: Action)
    requires Sound(e, k) && Enabled(e, k, a)
    requires forall d :: d in k.tree.dirs ==> DirOk(e, k.temps, k.roots, d)
    ensures var m := Next(e, k, a); forall d :: d in m.tree.dirs ==> DirOk(e, m.temps, m.roots, d)
  {
    var job, m := k.jobs[a.job], Next(e, k, a);
    assert JobOk(e, k.tree, k.temps, job);
    forall d | d in m.tree.dirs
      ensures DirOk(e, m.temps, m.roots, d)
    {
      if d in k.tree.dirs {
        assert DirOk(e, k.temps, k.roots, d);
        assert k.roots <= m.roots && k.temps <= m.temps;
      } else {
        assert d in Outcome(e.store, k.tree, job.prefix, job.pc, a.choice).0.dirs;
        NewDirOk(e, k.tree, job, a.choice, d);
      }
    }
  }

  lemma NewDirOk(e: Setting, t: Tree, job: Job, c: Choice, d: Path)
    requires ValidStore(e.store) && job.prefix in e.prefixes
    requires job.pc.Holding() ==> LooksPresent(e.store.listing, job.prefix)
    requires d in Outcome(e.store, t, job.prefix, job.pc, c).0.dirs && d !in t.dirs
    ensures DirOk(e, TempsAfter(e.store, job, c) + (if job.pc.Holding() then {job.pc.tmp} else {}),
                  RootsAfter(t, job, c), d)
  {
    var p := job.prefix;
    if job.pc.Holding() && c.Go? {
      var tmp := job.pc.tmp;
      assert Wanted(e, p);
      if job.pc.Getting? && d != [] {
        TodoSpec(e.store.listing, p);
        assert d[0] == tmp;
      }
      if job.pc.Renaming? {
        assert d in Ancestors(p) || p <= d;
      }
    }
  }

  /** New directories are the temporary one, inside it, or on the way to the prefix. */
  lemma NewDirs(s: Store, t: Tree, job: Job, c: Choice, d: Path)
    requires ValidStore(s)
    requires d in Outcome(s, t, job.prefix, job.pc, c).0.dirs && d !in t.dirs
    ensures |d| <= 1 || (job.prefix != [] && d[0] == job.prefix[0]) || (job.pc.Holding() && d[0] == job.pc.tmp)
  {
    var p := job.prefix;
    if job.pc.Getting? { TodoSpec(s.listing, p); }
    if c.Go? && job.pc.Renaming? {
      assert d in Ancestors(p) || (exists x :: x in t.dirs && [job.pc.tmp] <= x && d == p + x[1..]);
    }
  }

  lemma BareDirKept(e: Setting, t: Tree, temps: set<string>, job: Job, c: Choice, name: string)
    requires ValidStore(e.store) && JobOk(e, t, temps, job) && !job.pc.Finished?
    requires job.prefix != [] && job.prefix[0] !in temps && name in temps
    requires job.pc.Holding() ==> job.pc.tmp != name
    requires NoBareDir(t, name)
    ensures NoBareDir(Step(e.store, t, job.prefix, job.pc, c).0, name)
  {
    var u := Step(e.store, t, job.prefix, job.pc, c).0;
    StepSame(e, t, temps, job, c, name);
    forall d | d in u.dirs && [name] < d
      ensures exists f :: f in u.files && d < f
    {
      assert d in Outcome(e.store, t, job.prefix, job.pc, c).0.dirs;
      if d !in t.dirs { NewDirs(e.store, t, job, c, d); }
      var f :| f in t.files && d < f;
      assert [name] < f;
    }
  }

  lemma OtherJobTrue(e: Setting, k: Cache, a: Action, j: nat)
    requires Sound(e, k) && Enabled(e, k, a) && j < |k.jobs| && j != a.job
    requires JobTrue(e, k.tree, k.jobs[j])
    ensures JobTrue(e, Next(e, k, a).tree, k.jobs[j])
  {
    var job, other := k.jobs[a.job], k.jobs[j];
    assert JobOk(e, k.tree, k.temps, job) && JobOk(e, k.tree, k.temps, other);
    if other.pc.Holding() {
      BareDirKept(e, k.tree, k.temps, job, a.choice, other.pc.tmp);
    }
    var m := other.prefix + [MANIFEST];
    assert m[0] == other.prefix[0];
    if other.pc.Loading? && m in e.store.content {
      FileStays(e, k, a, m);
    }
  }

  lemma OwnJobTrue(e: Setting, k: Cache, a: Action)
    requires Sound(e, k) && Enabled(e, k, a) && Transparent(e, k) && LaidOut(e)
    ensures JobTrue(e, Next(e, k, a).tree, Next(e, k, a).jobs[a.job])
  {
    var job, t := k.jobs[a.job], k.tree;
    var p, m := job.prefix, job.prefix + [MANIFEST];
    assert JobOk(e, t, k.temps, job) && JobTrue(e, t, job);
    if job.pc.Holding() {
      HeldJobTrue(e, k, a);
    } else if a.choice.Go? && job.pc.Listing? {
      ListingTrue(e, k, a);
    } else if a.choice.Go? && job.pc.Loading? && m in t.files {
      ManifestMeansComplete(e, t, k.temps, k.roots, p);
    }
  }

  /** What a downloading fetch finds in its way, with a proper layout. */
  lemma WayIsClear(e: Setting, k: Cache, job: Job)
    requires Sound(e, k) && Transparent(e, k) && LaidOut(e)
    requires job in k.jobs && job.pc.Holding()
    ensures !FileAbove(k.tree, job.prefix) && !Nested(e.store, job.prefix)
    ensures (job.prefix + [MANIFEST] in e.store.content
             && (Exists(k.tree, job.prefix) || !EmptyAt(k.tree, job.prefix))) ==>
      job.prefix + [MANIFEST] in k.tree.files
  {
    var t, p := k.tree, job.prefix;
    assert JobOk(e, t, k.temps, job);
    assert Wanted(e, p);
    NoFileAbove(e, t, k.temps, k.roots, p);
    if p + [MANIFEST] in e.store.content && (Exists(t, p) || !EmptyAt(t, p)) {
      OccupiedMeansPublished(e, t, k.temps, k.roots, p);
    }
  }

  lemma HeldJobTrue(e: Setting, k: Cache, a: Action)
    requires Sound(e, k) && Enabled(e, k, a) && Transparent(e, k) && LaidOut(e)
    requires k.jobs[a.job].pc.Holding()
    ensures JobTrue(e, Next(e, k, a).tree, Next(e, k, a).jobs[a.job])
  {
    var job := k.jobs[a.job];
    WayIsClear(e, k, job);
    if a.choice.Break? {
    } else if job.pc.Getting? {
      GettingTrue(e, k, a);
    } else if job.pc.Renaming? {
      RenamingTrue(e, k, a);
    } else {
      CheckingTrue(e, k, a);
    }
  }

  lemma GettingTrue(e: Setting, k: Cache, a: Action)
    requires Sound(e, k) && Enabled(e, k, a) && k.jobs[a.job].pc.Getting? && a.choice.Go?
    requires JobTrue(e, k.tree, k.jobs[a.job]) && !Nested(e.store, k.jobs[a.job].prefix)
    ensures JobTrue(e, Next(e, k, a).tree, Next(e, k, a).jobs[a.job])
  {
    var job, t := k.jobs[a.job], k.tree;
    assert JobOk(e, t, k.temps, job);
    var (u, pc) := Outcome(e.store, t, job.prefix, job.pc, a.choice);
    GetNeverClashes(e, t, k.temps, k.roots, job.prefix, job.pc.tmp, job.pc.next);
    assert (u, pc) == (t, Finished(Vanished)) || (u, pc) == GetStep(e.store, t, job.prefix, job.pc.tmp, job.pc.next);
    assert Next(e, k, a).jobs[a.job] == job.(pc := pc);
    assert pc.Holding() ==> Next(e, k, a).tree == u;
    assert pc.Checking? ==> u == t;
  }

  lemma CheckingTrue(e: Setting, k: Cache, a: Action)
    requires Sound(e, k) && Enabled(e, k, a) && a.choice.Go?
    requires k.jobs[a.job].pc.Checking? || k.jobs[a.job].pc.Making?
    requires var job := k.jobs[a.job];
      && JobTrue(e, k.tree, job) && !FileAbove(k.tree, job.prefix)
      && (job.prefix + [MANIFEST] in e.store.content && Exists(k.tree, job.prefix) ==>
            job.prefix + [MANIFEST] in k.tree.files)
    ensures JobTrue(e, Next(e, k, a).tree, Next(e, k, a).jobs[a.job])
  {
    var job := k.jobs[a.job];
    var p, tmp := job.prefix, job.pc.tmp;
    assert JobOk(e, k.tree, k.temps, job);
    ManifestOutlivesSweep(k.tree, p, tmp, a.choice.left);
    assert forall d :: d in Ancestors(p) && [tmp] < d ==> d[0] == tmp;
  }

  lemma ManifestOutlivesSweep(t: Tree, p: Path, tmp: string, left: set<Path>)
    requires p != [] && p[0] != tmp
    ensures p + [MANIFEST] in t.files ==> p + [MANIFEST] in Sweep(t, tmp, left).files
  {
    assert (p + [MANIFEST])[0] == p[0];
  }

  lemma ListingTrue(e: Setting, k: Cache, a: Action)
    requires Sound(e, k) && Enabled(e, k, a) && k.jobs[a.job].pc.Listing? && a.choice.Go?
    requires HeadsPresent(k.tree)
    ensures JobTrue(e, Next(e, k, a).tree, Next(e, k, a).jobs[a.job])
  {
    var p := k.jobs[a.job].prefix;
    var u, name := Next(e, k, a).tree, a.choice.name;
    assert JobOk(e, k.tree, k.temps, k.jobs[a.job]);
    if LooksPresent(e.store.listing, p) {
      assert forall d :: d in u.dirs && [name] < d ==> d in k.tree.dirs && d[0] == name;
    } else {
      var m := Key(p + [MANIFEST], false);
      assert Under(p, m) && m.path[|m.path| - 1] == MANIFEST;
    }
  }

  lemma RenamingTrue(e: Setting, k: Cache, a: Action)
    requires Sound(e, k) && Enabled(e, k, a) && k.jobs[a.job].pc.Renaming? && a.choice.Go?
    requires var job := k.jobs[a.job];
      && !FileAbove(k.tree, job.prefix)
      && (!Lands(k.tree, job.prefix) && job.prefix + [MANIFEST] in e.store.content ==>
            job.prefix + [MANIFEST] in k.tree.files)
    ensures JobTrue(e, Next(e, k, a).tree, Next(e, k, a).jobs[a.job])
  {
    var job, t := k.jobs[a.job], k.tree;
    var m, tmp := job.prefix + [MANIFEST], job.pc.tmp;
    assert JobOk(e, t, k.temps, job);
    assert m[0] == job.prefix[0] && !([tmp] <= m);
    if Lands(t, job.prefix) && m in e.store.content {
      MovedManifest(e.store, t, job.prefix, tmp);
    }
  }

  lemma MovedManifest(s: Store, t: Tree, p: Path, tmp: string)
    requires ValidStore(s) && p != [] && p[0] != tmp && p + [MANIFEST] in s.content
    requires TempHolds(s, t, p, tmp, |Todo(s.listing, p)|)
    ensures p + [MANIFEST] in Move(t, tmp, p).files
  {
    var m := p + [MANIFEST];
    MoveKeeps(t, tmp, p);
    CompleteTemp(s, t, p, tmp, m);
    assert p + m[|p|..] == m;
  }

  lemma HeadsStay(e: Setting, k: Cache, a: Action)
    requires Sound(e, k) && Enabled(e, k, a) && HeadsPresent(k.tree)
    ensures HeadsPresent(Next(e, k, a).tree)
  {
    var job, t := k.jobs[a.job], k.tree;
    var u := Outcome(e.store, t, job.prefix, job.pc, a.choice).0;
    assert JobOk(e, t, k.temps, job);
    if a.choice.Go? { WorkHeads(e.store, t, job, a.choice.name, a.choice.found); }
    if job.pc.Holding() { SweptHeads(u, job.pc.tmp, a.choice.left); }
  }

  lemma WorkHeads(s: Store, t: Tree, job: Job, name: string, found: bool)
    requires HeadsPresent(t) && job.prefix != []
    requires job.pc.Holding() ==> job.prefix[0] != job.pc.tmp && [job.pc.tmp] in t.dirs
    ensures HeadsPresent(Work(s, t, job.prefix, job.pc, name, found).0)
  {
    var p := job.prefix;
    if job.pc.Getting? { TodoSpec(s.listing, p); }
    assert p[..1] == [p[0]];
    assert |p| > 1 ==> [p[0]] in Ancestors(p);
    assert |p| == 1 ==> p == [p[0]] && forall d :: d in Ancestors(p) ==> d == [];
    if job.pc.Renaming? && Lands(t, p) {
      MovedHeads(t, job.pc.tmp, p);
    }
  }

  lemma SweptHeads(t: Tree, tmp: string, left: set<Path>)
    requires HeadsPresent(t)
    ensures HeadsPresent(Sweep(t, tmp, left))
  {
    var u := Sweep(t, tmp, left);
    forall d | d in u.dirs && d != []
      ensures [d[0]] in u.dirs
    {
      assert [tmp] <= [d[0]] ==> [tmp] <= d;
      if y :| y in left && d <= y {
        assert [d[0]] <= y && Spared([d[0]], left);
      }
    }
  }

  lemma MovedHeads(t: Tree, tmp: string, p: Path)
    requires p != [] && p[0] != tmp && HeadsPresent(t) && [tmp] in t.dirs
    ensures HeadsPresent(Move(t, tmp, p))
  {
    var u := Move(t, tmp, p);
    MoveKeeps(t, tmp, p);
    assert [p[0]] in u.dirs by {
      assert p[..1] == [p[0]];
      assert |p| > 1 ==> p[..1] in Ancestors(p);
      assert |p| == 1 ==> p == [p[0]];
    }
    forall d | d in u.dirs && d != []
      ensures [d[0]] in u.dirs
    {
      if d in Sweep(t, tmp, {}).dirs {
        assert [d[0]] in Sweep(t, tmp, {}).dirs by {
          assert [d[0]][0] == d[0] && !([tmp] <= d);
        }
      } else {
        assert d[0] == p[0];
      }
    }
  }

  lemma NextTransparent(e: Setting, k: Cache, a: Action)
    requires Sound(e, k) && Enabled(e, k, a) && Transparent(e, k) && LaidOut(e)
    ensures Transparent(e, Next(e, k, a))
  {
    var m := Next(e, k, a);
    HeadsStay(e, k, a);
    DirsStayOk(e, k, a);
    OwnJobTrue(e, k, a);
    forall j | 0 <= j < |m.jobs|
      ensures JobTrue(e, m.tree, m.jobs[j])
    {
      assert JobTrue(e, k.tree, k.jobs[j]);
      if j != a.job { OtherJobTrue(e, k, a, j); }
    }
  }

  lemma {:induction false} RunTransparent(e: Setting, k: Cache, run: seq<Action>)
    requires Sound(e, k) && Transparent(e, k) && Allowed(e, k, run) && LaidOut(e)
    ensures Transparent(e, After(e, k, run))
    decreases |run|
  {
    if run != [] {
      NextSound(e, k, run[0]);
      NextTransparent(e, k, run[0]);
      RunTransparent(e, Next(e, k, run[0]), run[1..]);
    }
  }

  /** Every fetch that was not broken by a fault answers what a direct read of the store answers, for every
      proper layout. */
  lemma LaidOutIsTransparent(e: Setting, init: Cache, run: seq<Action>, j: nat)
    requires Initial(e, init) && Allowed(e, init, run) && LaidOut(e)
    requires j < |After(e, init, run).jobs| && After(e, init, run).jobs[j].pc.Finished?
    ensures var job := After(e, init, run).jobs[j];
      job.pc.answer.Faulty() || job.pc.answer == Direct(e.store, job.prefix)
  {
    RunTransparent(e, init, run);
    assert JobTrue(e, After(e, init, run).tree, After(e, init, run).jobs[j]);
  }

  /**
   Cache transparency: when no requested prefix lies above another and no object key above another, every
   fetch that was not broken by a fault answers what a direct read of the store answers.
   */
  lemma CacheIsTransparent(e: Setting, init: Cache, run: seq<Action>, j: nat)
    requires Initial(e, init) && Allowed(e, init, run)
    requires Antichain(e) && NoNesting(e.store)
    requires j < |After(e, init, run).jobs| && After(e, init, run).jobs[j].pc.Finished?
    ensures var job := After(e, init, run).jobs[j];
      job.pc.answer.Faulty() || job.pc.answer == Direct(e.store, job.prefix)
  {
    AntichainIsLaidOut(e);
    LaidOutIsTransparent(e, init, run, j);
  }

  // ---- where faulty answers come from ---------------------------------------

  predicate BrokeIn(run: seq<Action>, j: nat) {
    exists i :: 0 <= i < |run| && run[i].job == j && run[i].choice.Break?
  }

  predicate MissedIn(run: seq<Action>, j: nat) {
    exists i :: 0 <= i < |run| && run[i].job == j && run[i].choice.Go? && !run[i].choice.found
  }

  /** What a job that is not faulty yet turns to in one call. */
  lemma FaultShows(s: Store, t: Tree, p: Path, pc: Pc, c: Choice)
    requires pc.Finished? ==> !pc.answer.Faulty()
    ensures var next := Step(s, t, p, pc, c).1;
      next.Finished? && next.answer.Faulty() ==>
        if next.answer.Broken? then c.Break? else c.Go? && !c.found
  {
  }

  /** A fetch is broken, or misses an object or the manifest's file, only by such a fault of its own. */
  lemma {:induction false} FaultsAreMet(e: Setting, k: Cache, run: seq<Action>, j: nat)
    requires Allowed(e, k, run) && j < |k.jobs| && j < |After(e, k, run).jobs|
    requires k.jobs[j].pc.Finished? ==> !k.jobs[j].pc.answer.Faulty()
    requires After(e, k, run).jobs[j].pc.Finished? && After(e, k, run).jobs[j].pc.answer.Faulty()
    ensures if After(e, k, run).jobs[j].pc.answer.Broken? then BrokeIn(run, j) else MissedIn(run, j)
    decreases |run|
  {
    if run != [] {
      var m := Next(e, k, run[0]);
      FaultShows(e.store, k.tree, k.jobs[run[0].job].prefix, k.jobs[run[0].job].pc, run[0].choice);
      if m.jobs[j].pc.Finished? && m.jobs[j].pc.answer.Faulty() {
        FinishedStays(e, m, run[1..], j);
        assert run[0].job == j;
      } else {
        FaultsAreMet(e, m, run[1..], j);
        assert forall i :: 0 <= i < |run[1..]| ==> run[1..][i] == run[i + 1];
      }
    }
  }

  /** An answered fetch takes no further call. */
  lemma {:induction false} FinishedStays(e: Setting, k: Cache, run: seq<Action>, j: nat)
    requires Allowed(e, k, run) && j < |k.jobs| && k.jobs[j].pc.Finished?
    ensures |After(e, k, run).jobs| == |k.jobs| && After(e, k, run).jobs[j] == k.jobs[j]
    decreases |run|
  {
    if run != [] {
      FinishedStays(e, Next(e, k, run[0]), run[1..], j);
    }
  }

  // ---- why the antichain is needed ------------------------------------------

  /** A directory below `p` was published and nothing that covers `p` was. */
  ghost predicate Starved(e: Setting, k: Cache, p: Path) {
    && (exists q :: q in k.roots && p < q)
    && forall r :: r in k.roots ==> !(r <= p)
  }

  lemma StarvedStays(e: Setting, k: Cache, a: Action, p: Path)
    requires Sound(e, k) && Enabled(e, k, a) && Starved(e, k, p)
    ensures Starved(e, Next(e, k, a), p)
  {
    var q :| q in k.roots && p < q;
    assert RootOk(e, k.tree, q);
    assert q in Next(e, k, a).roots;
    assert forall r :: r <= p ==> r < q && !EmptyAt(k.tree, r);
  }

  lemma {:induction false} StarvedStaysAlways(e: Setting, k: Cache, run: seq<Action>, p: Path)
    requires Sound(e, k) && Allowed(e, k, run) && Starved(e, k, p)
    ensures Sound(e, After(e, k, run)) && Starved(e, After(e, k, run), p)
    decreases |run|
  {
    if run != [] {
      NextSound(e, k, run[0]);
      StarvedStays(e, k, run[0], p);
      StarvedStaysAlways(e, Next(e, k, run[0]), run[1..], p);
    }
  }

  /** The manifest of every served prefix is in the cache. */
  ghost predicate ServedOnes(k: Cache) {
    forall j :: 0 <= j < |k.jobs| && k.jobs[j].pc.Finished? && k.jobs[j].pc.answer.Served? ==>
      k.jobs[j].prefix + [MANIFEST] in k.tree.files
  }

  lemma ServedNext(e: Setting, k: Cache, a: Action)
    requires Sound(e, k) && Enabled(e, k, a) && ServedOnes(k)
    ensures ServedOnes(Next(e, k, a))
  {
    var m := Next(e, k, a);
    forall j | 0 <= j < |m.jobs| && m.jobs[j].pc.Finished? && m.jobs[j].pc.answer.Served?
      ensures m.jobs[j].prefix + [MANIFEST] in m.tree.files
    {
      var job := k.jobs[j];
      assert JobOk(e, k.tree, k.temps, job);
      assert (job.prefix + [MANIFEST])[0] == job.prefix[0];
      if j != a.job {
        FileStays(e, k, a, job.prefix + [MANIFEST]);
      } else {
        ServedFromTree(e.store, k.tree, job.prefix, job.pc, a.choice);
      }
    }
  }

  /** A fetch is served by reading the tree, and leaves it as it is. */
  lemma ServedFromTree(s: Store, t: Tree, p: Path, pc: Pc, c: Choice)
    requires !pc.Finished?
    ensures var (u, next) := Step(s, t, p, pc, c);
      next.Finished? && next.answer.Served? ==> u == t && p + [MANIFEST] in t.files
  {
  }

  lemma {:induction false} ServedAlways(e: Setting, k: Cache, run: seq<Action>)
    requires Sound(e, k) && Allowed(e, k, run) && ServedOnes(k)
    ensures ServedOnes(After(e, k, run))
    decreases |run|
  {
    if run != [] {
      NextSound(e, k, run[0]);
      ServedNext(e, k, run[0]);
      ServedAlways(e, Next(e, k, run[0]), run[1..]);
    }
  }

  /**
   Once a nested prefix is published first, no fetch of the prefix above it is ever served, in that state or in any
   later one: `_publish` keeps the directory that the nested download created, and it never gets the manifest.
   */
  lemma StarvedForever(e: Setting, init: Cache, run: seq<Action>, later: seq<Action>, p: Path)
    requires Initial(e, init) && Allowed(e, init, run) && Allowed(e, After(e, init, run), later)
    requires p in e.prefixes && Starved(e, After(e, init, run), p)
    ensures var k := After(e, After(e, init, run), later);
      && p + [MANIFEST] !in k.tree.files
      && forall j :: 0 <= j < |k.jobs| && k.jobs[j].prefix == p && k.jobs[j].pc.Finished? ==>
           !k.jobs[j].pc.answer.Served?
  {
    RunSound(e, init, run);
    var first := After(e, init, run);
    ServedAlways(e, init, run);
    ServedAlways(e, first, later);
    StarvedStaysAlways(e, first, later, p);
    var k := After(e, first, later);
    if p + [MANIFEST] in k.tree.files {
      ManifestMeansComplete(e, k.tree, k.temps, k.roots, p);
    }
  }
}
