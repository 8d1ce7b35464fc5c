/**
 Which stores and prefixes the cache serves faithfully: exactly the proper layouts. For every other one an
 execution without faults in which two fetches at most run one after the other answers wrongly.
 */
module CacheLayout {
  import opened CacheTree
  import opened CacheRuns
  import opened CacheAnswers
  import opened CacheStore

  // ---- sequences of actions -------------------------------------------------

  lemma {:induction false} RunsJoin(e: Setting, k: Cache, run: seq<Action>, more: seq<Action>)
    requires Allowed(e, k, run) && Allowed(e, After(e, k, run), more)
    ensures Allowed(e, k, run + more) && After(e, k, run + more) == After(e, After(e, k, run), more)
    decreases |run|
  {
    if run == [] {
      assert run + more == more;
    } else {
      assert (run + more)[0] == run[0] && (run + more)[1..] == run[1..] + more;
      RunsJoin(e, Next(e, k, run[0]), run[1..], more);
    }
  }

  lemma OneAction(e: Setting, k: Cache, a: Action)
    requires Enabled(e, k, a)
    ensures Allowed(e, k, [a]) && After(e, k, [a]) == Next(e, k, a)
  {
    assert [a][1..] == [];
  }

  /** The fetch takes its next call, which succeeds; what it leaves behind is cleaned up. */
  function Smoothly(j: nat, name: string): Action {
    Action(j, Go(name, {}, true))
  }

  lemma {:induction false} LongerThanAll(names: set<string>) returns (n: nat)
    ensures forall x :: x in names ==> |x| < n
    decreases |names|
  {
    n := 0;
    if x :| x in names {
      n := LongerThanAll(names - {x});
      n := if |x| < n then n else |x| + 1;
    }
  }

  /** There is always a temporary name to pick. */
  lemma FreeNameExists(e: Setting, t: Tree) returns (name: string)
    requires forall p :: p in e.prefixes ==> p != []
    ensures FreshName(e, t, name)
  {
    var heads := set x | x in t.dirs + t.files.Keys + e.prefixes && x != [] :: x[0];
    var n := LongerThanAll(heads);
    name := seq(n, _ => 'x');
    assert name !in heads;
    forall x | x in t.dirs + t.files.Keys
      ensures x != [name]
    {
      assert x != [] ==> x[0] in heads;
    }
    forall p | p in e.prefixes
      ensures p != [] && p[0] != name
    {
      assert p[0] in heads;
    }
  }

  // ---- a download without faults --------------------------------------------

  lemma ExtendsMore(t: Tree, u: Tree, v: Tree, tmp: string)
    requires Extends(t, u, tmp) && Extends(u, v, tmp)
    ensures Extends(t, v, tmp)
  {
  }

  /** The state of a fetch that has downloaded the first `n` objects. */
  ghost predicate Downloading(e: Setting, k: Cache, j: nat, tmp: string, n: nat) {
    && j < |k.jobs| && Sound(e, k) && Closed(k.tree)
    && Unnested(e.store, k.tree, k.jobs[j].prefix, tmp, n)
    && TempHolds(e.store, k.tree, k.jobs[j].prefix, tmp, n)
  }

  function WithPc(k: Cache, j: nat, pc: Pc): seq<Job>
    requires j < |k.jobs|
  {
    k.jobs[j := k.jobs[j].(pc := pc)]
  }

  lemma GetsOne(e: Setting, k: Cache, j: nat, tmp: string, i: nat)
    requires j < |k.jobs| && k.jobs[j].pc == Getting(tmp, i) && i < |Todo(e.store.listing, k.jobs[j].prefix)|
    requires Downloading(e, k, j, tmp, i)
    ensures Enabled(e, k, Smoothly(j, ""))
    ensures var m := Next(e, k, Smoothly(j, ""));
      if m.jobs[j].pc.Getting? then
        && m.jobs == WithPc(k, j, Getting(tmp, i + 1)) && m.temps == k.temps && m.roots == k.roots
        && Downloading(e, m, j, tmp, i + 1) && Extends(k.tree, m.tree, tmp)
      else
        m.jobs == WithPc(k, j, Finished(Clashed)) && Nested(e.store, k.jobs[j].prefix)
  {
    var p := k.jobs[j].prefix;
    NextSound(e, k, Smoothly(j, ""));
    assert JobOk(e, k.tree, k.temps, k.jobs[j]);
    assert forall f :: f in k.tree.files ==> FileOk(e, k.tree, k.temps, k.roots, f);
    GetUnnested(e.store, k.tree, p, tmp, i);
    if GetStep(e.store, k.tree, p, tmp, i).1.Getting? {
      GetTempHolds(e.store, k.tree, p, tmp, i);
      GetExtends(e.store, k.tree, p, tmp, i);
    }
    assert k.temps + {} == k.temps && k.roots + {} == k.roots;
  }

  lemma GetExtends(s: Store, t: Tree, p: Path, tmp: string, i: nat)
    requires GetStep(s, t, p, tmp, i).1.Getting?
    ensures Extends(t, GetStep(s, t, p, tmp, i).0, tmp)
  {
    var todo := Todo(s.listing, p);
    TodoSpec(s.listing, p);
    assert todo[i] in todo;
    var target := Landing(tmp, p, todo[i]);
    assert forall d :: d in Ancestors(target) && d != [] ==> [tmp] <= d;
  }

  /** The loop of the download: it reaches the publication, or clashes on nested keys. */
  lemma {:induction false} GetsAll(e: Setting, k: Cache, j: nat, tmp: string, i: nat) returns (run: seq<Action>)
    requires j < |k.jobs| && k.jobs[j].pc == Getting(tmp, i) && Downloading(e, k, j, tmp, i)
    ensures Allowed(e, k, run)
    ensures var p, m := k.jobs[j].prefix, After(e, k, run);
      if Nested(e.store, p) then m.jobs == WithPc(k, j, Finished(Clashed))
      else
        && m.jobs == WithPc(k, j, Checking(tmp)) && m.temps == k.temps && m.roots == k.roots
        && Downloading(e, m, j, tmp, |Todo(e.store.listing, p)|) && Extends(k.tree, m.tree, tmp)
    decreases |Todo(e.store.listing, k.jobs[j].prefix)| - i
  {
    var p, a := k.jobs[j].prefix, Smoothly(j, "");
    var m := Next(e, k, a);
    OneAction(e, k, a);
    run := [a];
    if i == |Todo(e.store.listing, p)| {
      NextSound(e, k, a);
      UnnestedAll(e.store, k.tree, p, tmp);
      assert k.temps + {} == k.temps && k.roots + {} == k.roots;
    } else {
      GetsOne(e, k, j, tmp, i);
      if m.jobs[j].pc.Getting? {
        var rest := GetsAll(e, m, j, tmp, i + 1);
        RunsJoin(e, k, [a], rest);
        run := [a] + rest;
        if !Nested(e.store, p) { ExtendsMore(k.tree, m.tree, After(e, k, run).tree, tmp); }
      }
    }
  }

  /** A fetch of a prefix that is not cached, up to the publication. */
  lemma Downloads(e: Setting, k: Cache, j: nat, name: string) returns (run: seq<Action>)
    requires j < |k.jobs| && k.jobs[j].pc == Begin && Sound(e, k) && Closed(k.tree)
    requires LooksPresent(e.store.listing, k.jobs[j].prefix) && k.jobs[j].prefix + [MANIFEST] !in k.tree.files
    requires FreshName(e, k.tree, name)
    ensures Allowed(e, k, run)
    ensures var p, m := k.jobs[j].prefix, After(e, k, run);
      if Nested(e.store, p) then m.jobs == WithPc(k, j, Finished(Clashed))
      else
        && m.jobs == WithPc(k, j, Checking(name)) && m.roots == k.roots && m.temps == k.temps + {name}
        && Downloading(e, m, j, name, |Todo(e.store.listing, p)|) && Extends(k.tree, m.tree, name)
  {
    run := StartsDownload(e, k, j, name);
    var m := After(e, k, run);
    var rest := GetsAll(e, m, j, name, 0);
    RunsJoin(e, k, run, rest);
    run := run + rest;
    if !Nested(e.store, k.jobs[j].prefix) { ExtendsMore(k.tree, m.tree, After(e, k, run).tree, name); }
    assert forall pc :: WithPc(m, j, pc) == WithPc(k, j, pc);
  }

  lemma StartsDownload(e: Setting, k: Cache, j: nat, name: string) returns (run: seq<Action>)
    requires j < |k.jobs| && k.jobs[j].pc == Begin && Sound(e, k) && Closed(k.tree)
    requires LooksPresent(e.store.listing, k.jobs[j].prefix) && k.jobs[j].prefix + [MANIFEST] !in k.tree.files
    requires FreshName(e, k.tree, name)
    ensures Allowed(e, k, run)
    ensures var m := After(e, k, run);
      && m.jobs == WithPc(k, j, Getting(name, 0)) && m.roots == k.roots && m.temps == k.temps + {name}
      && Downloading(e, m, j, name, 0) && Extends(k.tree, m.tree, name)
  {
    var a := Smoothly(j, name);
    var l := Next(e, k, a);
    OneAction(e, k, a);
    NextSound(e, k, a);
    assert k.temps + {} == k.temps && k.roots + {} == k.roots;
    assert l == k.(jobs := WithPc(k, j, Listing));
    OneAction(e, l, a);
    ListsAndStarts(e, l, j, name);
    RunsJoin(e, k, [a], [a]);
    run := [a] + [a];
    assert WithPc(l, j, Getting(name, 0)) == WithPc(k, j, Getting(name, 0));
  }

  lemma ListsAndStarts(e: Setting, l: Cache, j: nat, name: string)
    requires j < |l.jobs| && l.jobs[j].pc == Listing && Sound(e, l) && Closed(l.tree)
    requires LooksPresent(e.store.listing, l.jobs[j].prefix) && FreshName(e, l.tree, name)
    ensures var m := Next(e, l, Smoothly(j, name));
      && m.jobs == WithPc(l, j, Getting(name, 0)) && m.temps == l.temps + {name} && m.roots == l.roots
      && Downloading(e, m, j, name, 0) && Extends(l.tree, m.tree, name)
  {
    var m := Next(e, l, Smoothly(j, name));
    NextSound(e, l, Smoothly(j, name));
    assert l.roots + {} == l.roots;
    assert Ancestors([name]) == {[]} by {
      assert [name][..0] == [];
    }
    ClosedKept(l.tree, m.tree, [name]);
    FreshMeansBare(l.tree, name);
    assert JobOk(e, m.tree, m.temps, m.jobs[j]);
    assert forall d :: d in m.tree.dirs && [name] < d ==> Exists(l.tree, d);
  }

  // ---- publishing into an empty cache ---------------------------------------

  /** Nothing is there but what belongs to one published prefix. */
  ghost predicate Holds(e: Setting, k: Cache, p: Path) {
    && p in k.roots && (forall r :: r in k.roots ==> r == p)
    && Sound(e, k) && Closed(k.tree)
    && (forall x :: x <= p ==> x in k.tree.dirs)
    && (forall d :: d in k.tree.dirs ==> d <= p || (p < d && exists f :: f in k.tree.files && d < f))
    && (forall f :: f in k.tree.files ==> p < f && f in e.store.content)
  }

  lemma MakesParents(e: Setting, k: Cache, j: nat, tmp: string)
    requires j < |k.jobs| && k.jobs[j].pc == Making(tmp) && Sound(e, k) && !FileAbove(k.tree, k.jobs[j].prefix)
    ensures Enabled(e, k, Smoothly(j, "")) && Sound(e, Next(e, k, Smoothly(j, "")))
    ensures Next(e, k, Smoothly(j, "")) ==
      k.(jobs := WithPc(k, j, Renaming(tmp)), tree := k.tree.(dirs := k.tree.dirs + Ancestors(k.jobs[j].prefix)))
  {
    assert k.temps + {} == k.temps && k.roots + {} == k.roots;
    NextSound(e, k, Smoothly(j, ""));
  }

  /** What the rename of a finished download into an otherwise empty cache leaves. */
  lemma MovedShape(e: Setting, t: Tree, u: Tree, tmp: string, p: Path)
    requires ValidStore(e.store) && p != [] && p[0] != tmp && [tmp] in t.dirs
    requires Extends(Tree({}, map[]), t, tmp) && NoBareDir(t, tmp)
    requires TempHolds(e.store, t, p, tmp, |Todo(e.store.listing, p)|)
    requires forall f :: f in t.files ==> |f| >= 2
    requires u == Move(t.(dirs := t.dirs + Ancestors(p)), tmp, p)
    ensures forall x :: x <= p ==> x in u.dirs
    ensures forall d :: d in u.dirs ==> d <= p || (p < d && exists f :: f in u.files && d < f)
    ensures forall f :: f in u.files ==> p < f && f in e.store.content
  {
    var t2 := t.(dirs := t.dirs + Ancestors(p));
    MoveKeeps(t2, tmp, p);
    MoveSource(t2, tmp, p);
    assert [tmp][0] == tmp;
    forall x | x <= p
      ensures x in u.dirs
    {
      PrefixIsAncestor(x, p);
      assert x < p || x == p;
    }
    forall d | d in u.dirs
      ensures d <= p || (p < d && exists f :: f in u.files && d < f)
    {
      MovedDir(e, t, u, tmp, p, d);
    }
    forall f | f in u.files
      ensures p < f && f in e.store.content
    {
      if p < f && [tmp] + f[|p|..] in t.files {
        var g := [tmp] + f[|p|..];
        assert [tmp] < g && p + g[1..] == f;
      }
    }
  }

  lemma MovedDir(e: Setting, t: Tree, u: Tree, tmp: string, p: Path, d: Path)
    requires p != [] && p[0] != tmp && Extends(Tree({}, map[]), t, tmp) && NoBareDir(t, tmp)
    requires u == Move(t.(dirs := t.dirs + Ancestors(p)), tmp, p) && d in u.dirs
    ensures d <= p || (p < d && exists f :: f in u.files && d < f)
  {
    var t2 := t.(dirs := t.dirs + Ancestors(p));
    MoveKeeps(t2, tmp, p);
    if d in Sweep(t2, tmp, {}).dirs || d in Ancestors(p) {
      assert d == [] || d in Ancestors(p);
    } else {
      var x :| x in t2.dirs && [tmp] <= x && d == p + x[1..];
      assert forall y :: y in Ancestors(p) && y != [] ==> y[0] == p[0];
      assert x[0] == tmp;
      if x != [tmp] { LeadsToFile(t, u, tmp, p, x); }
    }
  }

  lemma LeadsToFile(t: Tree, u: Tree, tmp: string, p: Path, x: Path)
    requires NoBareDir(t, tmp) && x in t.dirs && [tmp] < x
    requires forall q :: q in Below(t.files, [tmp]) ==> p + q in u.files
    ensures p < p + x[1..] && exists f :: f in u.files && p + x[1..] < f
  {
    var f :| f in t.files && x < f;
    assert [tmp] + f[1..] == f && f[1..] in Below(t.files, [tmp]);
    Rebased(p, x, f);
  }

  lemma TakesPlace(e: Setting, k: Cache, t: Tree, j: nat, tmp: string)
    requires j < |k.jobs| && k.jobs[j].pc == Renaming(tmp) && k.jobs[j].prefix != [] && k.jobs[j].prefix[0] != tmp
    requires Sound(e, k) && Closed(k.tree) && k.roots == {} && [tmp] in t.dirs
    requires k.tree == t.(dirs := t.dirs + Ancestors(k.jobs[j].prefix))
    requires Extends(Tree({}, map[]), t, tmp) && NoBareDir(t, tmp) && (forall f :: f in t.files ==> |f| >= 2)
    requires TempHolds(e.store, t, k.jobs[j].prefix, tmp, |Todo(e.store.listing, k.jobs[j].prefix)|)
    ensures Enabled(e, k, Smoothly(j, "")) && Next(e, k, Smoothly(j, "")).jobs == WithPc(k, j, Loading)
    ensures Holds(e, Next(e, k, Smoothly(j, "")), k.jobs[j].prefix)
  {
    var p, a := k.jobs[j].prefix, Smoothly(j, "");
    NothingThere(t, tmp, p);
    assert Lands(k.tree, p);
    var u := Move(k.tree, tmp, p);
    SweptByMove(k.tree, tmp, p);
    assert Next(e, k, a).tree == u && Next(e, k, a).roots == {p};
    MovedShape(e, t, u, tmp, p);
    MoveClosed(k.tree, tmp, p);
    NextSound(e, k, a);
  }

  lemma MakesAndTakes(e: Setting, k: Cache, j: nat, tmp: string) returns (run: seq<Action>)
    requires j < |k.jobs| && k.jobs[j].pc == Making(tmp) && k.jobs[j].prefix in e.prefixes && k.jobs[j].prefix != []
    requires Downloading(e, k, j, tmp, |Todo(e.store.listing, k.jobs[j].prefix)|)
    requires Extends(Tree({}, map[]), k.tree, tmp) && k.roots == {}
    ensures Allowed(e, k, run) && After(e, k, run).jobs == WithPc(k, j, Loading)
    ensures Holds(e, After(e, k, run), k.jobs[j].prefix)
  {
    var p, a := k.jobs[j].prefix, Smoothly(j, "");
    assert JobOk(e, k.tree, k.temps, k.jobs[j]);
    assert forall f :: f in k.tree.files ==> FileOk(e, k.tree, k.temps, k.roots, f);
    NothingThere(k.tree, tmp, p);
    MakesParents(e, k, j, tmp);
    OneAction(e, k, a);
    ParentsClosed(k.tree, p);
    var m := Next(e, k, a);
    TakesPlace(e, m, k.tree, j, tmp);
    OneAction(e, m, a);
    RunsJoin(e, k, [a], [a]);
    run := [a] + [a];
  }

  /** The last calls of the first fetch: it finds its place free and takes it. */
  lemma Publishes(e: Setting, k: Cache, j: nat, tmp: string) returns (run: seq<Action>)
    requires j < |k.jobs| && k.jobs[j].pc == Checking(tmp) && k.jobs[j].prefix in e.prefixes && k.jobs[j].prefix != []
    requires Downloading(e, k, j, tmp, |Todo(e.store.listing, k.jobs[j].prefix)|)
    requires Extends(Tree({}, map[]), k.tree, tmp) && k.roots == {}
    ensures Allowed(e, k, run) && After(e, k, run).jobs == WithPc(k, j, Loading)
    ensures Holds(e, After(e, k, run), k.jobs[j].prefix)
  {
    var p, a := k.jobs[j].prefix, Smoothly(j, "");
    assert JobOk(e, k.tree, k.temps, k.jobs[j]);
    assert forall f :: f in k.tree.files ==> FileOk(e, k.tree, k.temps, k.roots, f);
    NothingThere(k.tree, tmp, p);
    assert k.temps + {} == k.temps && k.roots + {} == k.roots;
    var m := Next(e, k, a);
    assert m == k.(jobs := WithPc(k, j, Making(tmp)));
    NextSound(e, k, a);
    OneAction(e, k, a);
    var rest := MakesAndTakes(e, m, j, tmp);
    RunsJoin(e, k, [a], rest);
    run := [a] + rest;
  }

  lemma NothingThere(t: Tree, tmp: string, p: Path)
    requires Extends(Tree({}, map[]), t, tmp) && p != [] && p[0] != tmp
    requires forall f :: f in t.files ==> |f| >= 2
    ensures !Exists(t, p) && !FileAbove(t, p) && EmptyAt(t, p)
  {
    assert forall x: Path :: p <= x ==> x[0] == p[0] && !([tmp] <= x);
    assert forall i :: 1 <= i < |p| ==> p[..i][0] == p[0] && !([tmp] <= p[..i]);
  }

  const NO_TREE := Tree({}, map[])

  /** A fetch of a prefix without nested keys publishes it into an empty cache. */
  lemma FirstFetchPublishes(e: Setting, k: Cache, j: nat) returns (run: seq<Action>)
    requires Initial(e, k) && j < |k.jobs|
    requires Wanted(e, k.jobs[j].prefix) && !Nested(e.store, k.jobs[j].prefix)
    ensures Allowed(e, k, run) && After(e, k, run).jobs == WithPc(k, j, Loading)
    ensures Holds(e, After(e, k, run), k.jobs[j].prefix)
  {
    var name := FreeNameExists(e, k.tree);
    run := Downloads(e, k, j, name);
    var m := After(e, k, run);
    var rest := Publishes(e, m, j, name);
    RunsJoin(e, k, run, rest);
    run := run + rest;
    assert WithPc(m, j, Loading) == WithPc(k, j, Loading);
  }

  // ---- every other layout is answered wrongly -------------------------------

  /** Some fetch that nothing broke answers something else than the store. */
  ghost predicate Misleads(e: Setting, k: Cache, run: seq<Action>, j: nat) {
    && Initial(e, k) && Allowed(e, k, run) && j < |After(e, k, run).jobs|
    && After(e, k, run).jobs[j].pc.Finished?
    && !After(e, k, run).jobs[j].pc.answer.Faulty()
    && After(e, k, run).jobs[j].pc.answer != Direct(e.store, After(e, k, run).jobs[j].prefix)
  }

  ghost predicate AlwaysTransparent(e: Setting) {
    forall k, run, j: nat :: !Misleads(e, k, run, j)
  }

  ghost predicate Proper(e: Setting) {
    ValidStore(e.store) && forall p :: p in e.prefixes ==> p != []
  }

  function FreshCache(jobs: seq<Job>): Cache {
    Cache(NO_TREE, jobs, {}, {})
  }

  /** Nested keys: the first fetch already collides with itself. */
  lemma NestedMisleads(e: Setting, p: Path) returns (k: Cache, run: seq<Action>)
    requires Proper(e) && Wanted(e, p) && Nested(e.store, p)
    ensures Misleads(e, k, run, 0)
  {
    k := FreshCache([Job(p, Begin)]);
    var name := FreeNameExists(e, k.tree);
    run := Downloads(e, k, 0, name);
  }

  /** The second of two fetches, after the first published its prefix, downloads up to its own publication. */
  lemma SecondDownload(e: Setting, k: Cache, run: seq<Action>, first: Path, second: Path)
    returns (more: seq<Action>, name: string)
    requires Proper(e) && Initial(e, k) && k.jobs == [Job(first, Begin), Job(second, Begin)]
    requires Allowed(e, k, run) && After(e, k, run).jobs == WithPc(k, 0, Loading) && Holds(e, After(e, k, run), first)
    requires Wanted(e, second) && !Nested(e.store, second)
    requires second + [MANIFEST] !in After(e, k, run).tree.files
    ensures Allowed(e, k, more)
    ensures var m := After(e, k, more);
      && m.jobs == [Job(first, Loading), Job(second, Checking(name))]
      && Sound(e, m) && Extends(After(e, k, run).tree, m.tree, name) && second[0] != name
  {
    var m := After(e, k, run);
    name := FreeNameExists(e, m.tree);
    var rest := Downloads(e, m, 1, name);
    RunsJoin(e, k, run, rest);
    more := run + rest;
    assert second in e.prefixes;
  }

  /** A fetch that finds its place taken by something else than its template. */
  lemma FindsPlaceTaken(e: Setting, k: Cache, j: nat, tmp: string) returns (run: seq<Action>)
    requires j < |k.jobs| && k.jobs[j].pc == Checking(tmp)
    requires Exists(k.tree, k.jobs[j].prefix) && k.jobs[j].prefix + [MANIFEST] !in k.tree.files
    ensures Allowed(e, k, run) && After(e, k, run).jobs == WithPc(k, j, Finished(NotFound))
  {
    var a := Smoothly(j, "");
    var m := Next(e, k, a);
    assert m.jobs == WithPc(k, j, Loading);
    OneAction(e, k, a);
    OneAction(e, m, a);
    RunsJoin(e, k, [a], [a]);
    run := [a] + [a];
  }

  /** A fetch that finds a file where a directory on its way would have to be. */
  lemma FindsFileAbove(e: Setting, k: Cache, j: nat, tmp: string) returns (run: seq<Action>)
    requires j < |k.jobs| && k.jobs[j].pc == Checking(tmp)
    requires !Exists(k.tree, k.jobs[j].prefix) && FileAbove(k.tree, k.jobs[j].prefix)
    ensures Allowed(e, k, run) && After(e, k, run).jobs == WithPc(k, j, Finished(Clashed))
  {
    var a := Smoothly(j, "");
    var m := Next(e, k, a);
    assert m.jobs == WithPc(k, j, Making(tmp)) && m.tree == k.tree;
    OneAction(e, k, a);
    OneAction(e, m, a);
    RunsJoin(e, k, [a], [a]);
    run := [a] + [a];
  }

  /** A template above a downloaded prefix: once the inner prefix is published, the outer template is not found. */
  lemma OuterTemplateMisleads(e: Setting, p: Path, q: Path) returns (k: Cache, run: seq<Action>)
    requires Proper(e) && Wanted(e, p) && Wanted(e, q) && !Nested(e.store, p) && !Nested(e.store, q)
    requires p < q && p + [MANIFEST] in e.store.content
    ensures Misleads(e, k, run, 1)
  {
    k := FreshCache([Job(q, Begin), Job(p, Begin)]);
    var first := FirstFetchPublishes(e, k, 0);
    var m := p + [MANIFEST];
    assert !(q < m);
    var name;
    run, name := SecondDownload(e, k, first, q, p);
    OuterOccupied(e, After(e, k, first), After(e, k, run).tree, name, q, p);
    var rest := FindsPlaceTaken(e, After(e, k, run), 1, name);
    RunsJoin(e, k, run, rest);
    run := run + rest;
  }

  lemma OuterOccupied(e: Setting, h: Cache, u: Tree, tmp: string, q: Path, p: Path)
    requires Holds(e, h, q) && Extends(h.tree, u, tmp) && p < q && p != [] && p[0] != tmp
    ensures Exists(u, p) && p + [MANIFEST] !in u.files
  {
    var m := p + [MANIFEST];
    assert p in h.tree.dirs;
    assert m[0] == p[0] && [tmp][0] == tmp && !(q < m);
  }

  /** An object on the way to a downloaded prefix: once the outer prefix is published, the inner one collides. */
  lemma ObjectOnTheWayMisleads(e: Setting, p: Path, q: Path, f: Path) returns (k: Cache, run: seq<Action>)
    requires Proper(e) && Wanted(e, p) && Wanted(e, q) && !Nested(e.store, p) && !Nested(e.store, q)
    requires f in e.store.content && p < f && f < q
    ensures Misleads(e, k, run, 1)
  {
    k := FreshCache([Job(p, Begin), Job(q, Begin)]);
    var first := FirstFetchPublishes(e, k, 0);
    run := SecondCollides(e, k, first, p, q, f);
  }

  lemma SecondCollides(e: Setting, k: Cache, first: seq<Action>, p: Path, q: Path, f: Path) returns (run: seq<Action>)
    requires Proper(e) && Initial(e, k) && k.jobs == [Job(p, Begin), Job(q, Begin)]
    requires Allowed(e, k, first) && After(e, k, first).jobs == WithPc(k, 0, Loading) && Holds(e, After(e, k, first), p)
    requires Wanted(e, q) && !Nested(e.store, p) && !Nested(e.store, q)
    requires f in e.store.content && p < f && f < q
    ensures Allowed(e, k, run) && After(e, k, run).jobs == [Job(p, Loading), Job(q, Finished(Clashed))]
  {
    var h := After(e, k, first);
    InnerNotCached(e, h, p, q, f);
    var name;
    run, name := SecondDownload(e, k, first, p, q);
    FileInTheWay(e, h, After(e, k, run).tree, name, p, q, f);
    var rest := FindsFileAbove(e, After(e, k, run), 1, name);
    RunsJoin(e, k, run, rest);
    run := run + rest;
  }

  lemma InnerNotCached(e: Setting, h: Cache, p: Path, q: Path, f: Path)
    requires Holds(e, h, p) && !Nested(e.store, p) && f in e.store.content && p < f && f < q
    ensures f in h.tree.files && q + [MANIFEST] !in h.tree.files
  {
    assert RootOk(e, h.tree, p);
    assert f < q + [MANIFEST];
  }

  lemma FileInTheWay(e: Setting, h: Cache, u: Tree, tmp: string, p: Path, q: Path, f: Path)
    requires Holds(e, h, p) && Extends(h.tree, u, tmp) && q != [] && q[0] != tmp
    requires !Nested(e.store, p) && f in e.store.content && f in h.tree.files && p < f && f < q
    ensures !Exists(u, q) && FileAbove(u, q)
  {
    assert [tmp][0] == tmp && !([tmp] <= q);
    assert !(q <= p);
    assert forall g :: g in h.tree.files && q <= g ==> f < g;
    PrefixIsAncestor(f, q);
  }

  /** A prefix above a downloaded one is downloaded too. */
  lemma OuterIsWanted(e: Setting, p: Path, q: Path)
    requires p in e.prefixes && Wanted(e, q) && p < q
    ensures Wanted(e, p)
  {
    var k :| k in e.store.listing && Under(q, k) && k.path != [] && k.path[|k.path| - 1] == MANIFEST;
    assert Under(p, k);
  }

  lemma ImproperMisleads(e: Setting) returns (k: Cache, run: seq<Action>, j: nat)
    requires Proper(e) && !LaidOut(e)
    ensures Misleads(e, k, run, j)
  {
    if p :| Wanted(e, p) && Nested(e.store, p) {
      k, run := NestedMisleads(e, p);
      j := 0;
    } else {
      var p, q :| p in e.prefixes && Wanted(e, q) && p < q && !Clear(e.store, p, q);
      OuterIsWanted(e, p, q);
      j := 1;
      if p + [MANIFEST] in e.store.content {
        k, run := OuterTemplateMisleads(e, p, q);
      } else {
        var f :| f in e.store.content && p < f && f < q;
        k, run := ObjectOnTheWayMisleads(e, p, q, f);
      }
    }
  }

  /**
   The exact condition for transparency, over all interleavings, faults and crashes: every fetch that nothing
   broke answers what the store answers if and only if no downloaded prefix has one of its keys above another, and
   no prefix above a downloaded one holds a template of its own or an object on the way to it.
   */
  lemma TransparentExactlyWhenLaidOut(e: Setting)
    requires Proper(e)
    ensures AlwaysTransparent(e) <==> LaidOut(e)
  {
    if LaidOut(e) {
      forall k, run, j: nat
        ensures !Misleads(e, k, run, j)
      {
        if Initial(e, k) && Allowed(e, k, run) && j < |After(e, k, run).jobs| && After(e, k, run).jobs[j].pc.Finished? {
          LaidOutIsTransparent(e, k, run, j);
        }
      }
    } else {
      var k, run, j := ImproperMisleads(e);
      assert Misleads(e, k, run, j);
    }
  }

  /** The starved state is reached by a single fetch: publishing a prefix below another one. */
  lemma StarvationIsReached(e: Setting, p: Path, q: Path) returns (k: Cache, run: seq<Action>)
    requires Proper(e) && p in e.prefixes && Wanted(e, q) && !Nested(e.store, q) && p < q
    ensures Initial(e, k) && Allowed(e, k, run) && Starved(e, After(e, k, run), p)
  {
    k := FreshCache([Job(q, Begin)]);
    run := FirstFetchPublishes(e, k, 0);
  }
}
