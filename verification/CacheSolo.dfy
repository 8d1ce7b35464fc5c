/**
 A fetch that the other fetches leave alone: whatever happened before, it answers what the template store object
 answers in the same directory, so the object is the machine without interference.
 */
module CacheSolo {
  import opened CacheTree
  import opened CacheRuns
  import opened CacheAnswers
  import opened CacheStore
  import opened CacheLayout

  // ---- directories stay closed ----------------------------------------------

  lemma SweepStaysClosed(t: Tree, tmp: string, left: set<Path>)
    requires Closed(t)
    ensures Closed(Sweep(t, tmp, left))
  {
    var u := Sweep(t, tmp, left);
    forall d, k | Exists(u, d) && 0 <= k < |d|
      ensures d[..k] in u.dirs
    {
      assert Exists(t, d) && d[..k] in t.dirs;
      if [tmp] <= d[..k] {
        var y :| y in left && d <= y;
        assert d[..k] <= y;
      }
    }
  }

  lemma WorkClosed(s: Store, t: Tree, p: Path, pc: CacheRuns.Pc, name: string, found: bool)
    requires Closed(t) && p != [] && (pc.Holding() ==> p[0] != pc.tmp)
    ensures Closed(Work(s, t, p, pc, name, found).0)
  {
    match pc
    case Listing =>
      assert Ancestors([name]) == {[]} by {
        assert [name][..0] == [];
      }
      ClosedKept(t, t.(dirs := t.dirs + {[], [name]}), [name]);
    case Getting(tmp, i) =>
      if GetStep(s, t, p, tmp, i).1.Getting? { GetClosed(s, t, p, tmp, i); }
    case Making(_) => ParentsClosed(t, p);
    case Renaming(tmp) => MoveClosed(t, tmp, p);
    case _ =>
  }

  lemma NextClosed(e: Setting, k: Cache, a: Action)
    requires Sound(e, k) && Enabled(e, k, a) && Closed(k.tree)
    ensures Closed(Next(e, k, a).tree)
  {
    var job := k.jobs[a.job];
    assert JobOk(e, k.tree, k.temps, job);
    if a.choice.Go? { WorkClosed(e.store, k.tree, job.prefix, job.pc, a.choice.name, a.choice.found); }
    var u := Outcome(e.store, k.tree, job.prefix, job.pc, a.choice).0;
    if job.pc.Holding() { SweepStaysClosed(u, job.pc.tmp, a.choice.left); }
  }

  lemma {:induction false} RunClosed(e: Setting, k: Cache, run: seq<Action>)
    requires Sound(e, k) && Allowed(e, k, run) && Closed(k.tree)
    ensures Sound(e, After(e, k, run)) && Closed(After(e, k, run).tree)
    decreases |run|
  {
    if run != [] {
      NextSound(e, k, run[0]);
      NextClosed(e, k, run[0]);
      RunClosed(e, Next(e, k, run[0]), run[1..]);
    }
  }

  // ---- one fetch on its own -------------------------------------------------

  lemma Calls(e: Setting, k: Cache, j: nat)
    requires j < |k.jobs| && !k.jobs[j].pc.Finished? && !k.jobs[j].pc.Listing?
    ensures Enabled(e, k, Smoothly(j, "")) && Allowed(e, k, [Smoothly(j, "")])
    ensures After(e, k, [Smoothly(j, "")]) == Next(e, k, Smoothly(j, ""))
  {
    OneAction(e, k, Smoothly(j, ""));
  }

  /** The last call of a fetch reads what is there. */
  lemma Loads(e: Setting, k: Cache, j: nat)
    requires Sound(e, k) && j < |k.jobs| && k.jobs[j].pc == Loading
    ensures Allowed(e, k, [Smoothly(j, "")])
    ensures var m := After(e, k, [Smoothly(j, "")]);
      && m.tree == k.tree && j < |m.jobs|
      && m.jobs[j].pc == Finished(if k.jobs[j].prefix + [MANIFEST] in k.tree.files
                                  then Direct(e.store, k.jobs[j].prefix) else NotFound)
  {
    Calls(e, k, j);
    assert JobOk(e, k.tree, k.temps, k.jobs[j]);
    if k.jobs[j].prefix + [MANIFEST] in k.tree.files {
      ManifestMeansComplete(e, k.tree, k.temps, k.roots, k.jobs[j].prefix);
    }
  }

  /** A cached prefix is served from the cache, which stays as it is. */
  lemma CachedFetch(e: Setting, k: Cache, j: nat) returns (run: seq<Action>)
    requires Sound(e, k) && j < |k.jobs| && k.jobs[j].pc == Begin && k.jobs[j].prefix + [MANIFEST] in k.tree.files
    ensures Allowed(e, k, run)
    ensures var m := After(e, k, run);
      m.tree == k.tree && j < |m.jobs| && m.jobs[j].pc == Finished(Direct(e.store, k.jobs[j].prefix))
  {
    var a := Smoothly(j, "");
    Calls(e, k, j);
    NextSound(e, k, a);
    Loads(e, Next(e, k, a), j);
    RunsJoin(e, k, [a], [a]);
    run := [a] + [a];
  }

  /** A prefix without anything called like a manifest is not found, and nothing is downloaded. */
  lemma AbsentFetch(e: Setting, k: Cache, j: nat) returns (run: seq<Action>)
    requires Sound(e, k) && j < |k.jobs| && k.jobs[j].pc == Begin && k.jobs[j].prefix + [MANIFEST] !in k.tree.files
    requires !LooksPresent(e.store.listing, k.jobs[j].prefix)
    ensures Allowed(e, k, run)
    ensures var m := After(e, k, run); m.tree == k.tree && j < |m.jobs| && m.jobs[j].pc == Finished(NotFound)
  {
    assert JobOk(e, k.tree, k.temps, k.jobs[j]);
    assert TreeOk(e, k.tree, k.temps, k.roots);
    var name := FreeNameExists(e, k.tree);
    var a, b := Smoothly(j, ""), Smoothly(j, name);
    Calls(e, k, j);
    var m := Next(e, k, a);
    assert m.tree == k.tree && m.jobs[j].pc == Listing;
    OneAction(e, m, b);
    RunsJoin(e, k, [a], [b]);
    run := [a] + [b];
  }

  /** The end of a download that finds its place free. */
  lemma TakesFreePlace(e: Setting, k: Cache, j: nat, tmp: string) returns (run: seq<Action>)
    requires j < |k.jobs| && k.jobs[j].pc == Checking(tmp) && Sound(e, k) && Closed(k.tree)
    requires !Exists(k.tree, k.jobs[j].prefix) && !FileAbove(k.tree, k.jobs[j].prefix)
    ensures Allowed(e, k, run)
    ensures var m := After(e, k, run); j < |m.jobs| && m.jobs[j].pc == Finished(Direct(e.store, k.jobs[j].prefix))
  {
    var p, a := k.jobs[j].prefix, Smoothly(j, "");
    assert JobOk(e, k.tree, k.temps, k.jobs[j]);
    Calls(e, k, j);
    var m := Next(e, k, a);
    NextSound(e, k, a);
    assert m.tree == k.tree && m.jobs[j] == Job(p, Making(tmp));
    MakesParents(e, m, j, tmp);
    Calls(e, m, j);
    var n := Next(e, m, a);
    NothingBelow(k.tree, p);
    assert Lands(n.tree, p);
    RenamesAndLoads(e, n, j, tmp);
    RunsJoin(e, m, [a], [a] + [a]);
    RunsJoin(e, k, [a], [a] + ([a] + [a]));
    run := [a] + ([a] + ([a] + [a]));
  }

  lemma RenamesAndLoads(e: Setting, n: Cache, j: nat, tmp: string)
    requires j < |n.jobs| && n.jobs[j].pc == Renaming(tmp) && Sound(e, n) && Lands(n.tree, n.jobs[j].prefix)
    ensures Allowed(e, n, [Smoothly(j, "")] + [Smoothly(j, "")])
    ensures var m := After(e, n, [Smoothly(j, "")] + [Smoothly(j, "")]);
      j < |m.jobs| && m.jobs[j].pc == Finished(Direct(e.store, n.jobs[j].prefix))
  {
    var p, a := n.jobs[j].prefix, Smoothly(j, "");
    assert JobOk(e, n.tree, n.temps, n.jobs[j]);
    Calls(e, n, j);
    var m := Next(e, n, a);
    NextSound(e, n, a);
    SweptByMove(n.tree, tmp, p);
    assert m.tree == Move(n.tree, tmp, p) && m.jobs[j] == Job(p, Loading);
    if p + [MANIFEST] in e.store.content { MovedManifest(e.store, n.tree, p, tmp); }
    Loads(e, m, j);
    RunsJoin(e, n, [a], [a]);
  }

  /** What a download leaves alone: whether the prefix's own place is taken, and by what. */
  lemma PlaceUntouched(t: Tree, u: Tree, tmp: string, p: Path)
    requires Extends(t, u, tmp) && p != [] && p[0] != tmp
    ensures Exists(u, p) <==> Exists(t, p)
    ensures FileAbove(u, p) ==> FileAbove(t, p) || [] in u.files
    ensures FileAbove(t, p) ==> FileAbove(u, p)
    ensures p + [MANIFEST] in u.files <==> p + [MANIFEST] in t.files
  {
    assert [tmp][0] == tmp && (p + [MANIFEST])[0] == p[0];
    if FileAbove(u, p) {
      var k :| 0 <= k < |p| && p[..k] in u.files;
      assert k > 0 ==> p[..k][0] == p[0];
    }
    if FileAbove(t, p) {
      var k :| 0 <= k < |p| && p[..k] in t.files;
    }
  }

  /** From the downloaded objects to the answer. */
  lemma PublishesAlone(e: Setting, t: Tree, k: Cache, j: nat, tmp: string) returns (run: seq<Action>)
    requires j < |k.jobs| && k.jobs[j].pc == Checking(tmp) && Sound(e, k) && Closed(k.tree)
    requires Extends(t, k.tree, tmp) && k.jobs[j].prefix + [MANIFEST] !in t.files
    requires LooksPresent(e.store.listing, k.jobs[j].prefix) && !Nested(e.store, k.jobs[j].prefix)
    ensures Allowed(e, k, run)
    ensures var m := After(e, k, run); j < |m.jobs| && m.jobs[j].pc == Finished(FaultFree(e.store, t, k.jobs[j].prefix))
  {
    var p := k.jobs[j].prefix;
    assert JobOk(e, k.tree, k.temps, k.jobs[j]);
    assert forall f :: f in k.tree.files ==> FileOk(e, k.tree, k.temps, k.roots, f);
    PlaceUntouched(t, k.tree, tmp, p);
    if Exists(k.tree, p) {
      run := FindsPlaceTaken(e, k, j, tmp);
    } else if FileAbove(k.tree, p) {
      run := FindsFileAbove(e, k, j, tmp);
    } else {
      run := TakesFreePlace(e, k, j, tmp);
    }
  }

  lemma DownloadingFetch(e: Setting, k: Cache, j: nat) returns (run: seq<Action>)
    requires Sound(e, k) && Closed(k.tree) && j < |k.jobs| && k.jobs[j].pc == Begin
    requires k.jobs[j].prefix + [MANIFEST] !in k.tree.files && LooksPresent(e.store.listing, k.jobs[j].prefix)
    ensures Allowed(e, k, run)
    ensures var m := After(e, k, run);
      j < |m.jobs| && m.jobs[j].pc == Finished(FaultFree(e.store, k.tree, k.jobs[j].prefix))
  {
    var p := k.jobs[j].prefix;
    assert TreeOk(e, k.tree, k.temps, k.roots);
    var name := FreeNameExists(e, k.tree);
    run := Downloads(e, k, j, name);
    if !Nested(e.store, p) {
      var m := After(e, k, run);
      var rest := PublishesAlone(e, k.tree, m, j, name);
      RunsJoin(e, k, run, rest);
      run := run + rest;
    }
  }

  /**
   In every reachable state of any number of interleaved fetches, with faults, crashes and partial clean-ups behind
   them, a fetch that has not begun can run on its own without a fault, and then answers what the template store object
   answers: a cached prefix from the cache, which stays as it is, and any other one by `FaultFree` in the directory as
   it is.
   */
  lemma FetchAloneAnswers(e: Setting, init: Cache, before: seq<Action>, j: nat) returns (run: seq<Action>)
    requires Initial(e, init) && Allowed(e, init, before) && j < |After(e, init, before).jobs|
    requires After(e, init, before).jobs[j].pc == Begin
    ensures Allowed(e, After(e, init, before), run)
    ensures var k, m := After(e, init, before), After(e, After(e, init, before), run);
      && j < |m.jobs| && m.jobs[j].pc == Finished(FaultFree(e.store, k.tree, k.jobs[j].prefix))
      && (k.jobs[j].prefix + ["manifest.json"] in k.tree.files ==>
            m.tree == k.tree && m.jobs[j].pc == Finished(Direct(e.store, k.jobs[j].prefix)))
      && (m.jobs[j].pc == Finished(Direct(e.store, k.jobs[j].prefix)) <==>
            !Stuck(e.store, k.tree, k.jobs[j].prefix))
  {
    RunClosed(e, init, before);
    var k := After(e, init, before);
    var p := k.jobs[j].prefix;
    DirectExactlyWhenNotStuck(e.store, k.tree, p);
    ListedKeyLooksPresent(e.store, p);
    if p + [MANIFEST] in k.tree.files {
      run := CachedFetch(e, k, j);
    } else if LooksPresent(e.store.listing, p) {
      run := DownloadingFetch(e, k, j);
    } else {
      run := AbsentFetch(e, k, j);
    }
  }
}
