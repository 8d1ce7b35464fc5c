/**
 The template store object: a cache directory as mutable state, and the methods that fetch, download and publish a
 prefix into it, one fetch at a time.

 `Fetch` is proved against the exact condition under which a fetch that meets no storage error answers
 something else than a direct read of the object store.
 */
module CacheStore {
  import opened Prelude
  import opened CacheTree
  import opened CacheRuns
  import opened CacheAnswers
  import Text

  /** The path components of a normalised prefix. */
  function Components(s: string): Path
    decreases |s|
  {
    if s == "" then []
    else
      var head := Text.UpTo(s, '/');
      [head] + if |head| < |s| then Components(s[|head| + 1..]) else []
  }

  lemma {:induction false} ComponentsInvertJoin(p: Path)
    requires SlashFree(p)
    ensures Components(Join(p)) == p
  {
    if p != [] {
      var s := p[0] + ['/'] + Join(p[1..]);
      assert Join(p) == s;
      Text.UpToUnique(p[0], Join(p[1..]), '/');
      assert s[|p[0]| + 1..] == Join(p[1..]);
      ComponentsInvertJoin(p[1..]);
    }
  }

  function UriOfPath(bucket: string, p: Path): string {
    Text.PrintUri(Text.Address(bucket, Join(p)))
  }

  /** Printing a canonical path as a URI and parsing it finds the path again. */
  lemma UriNamesPath(bucket: string, p: Path)
    requires bucket != "" && '/' !in bucket && SlashFree(p) && p != []
    ensures Text.ParseS3Uri(UriOfPath(bucket, p)) == Text.Address(bucket, Join(p))
    ensures Join(p) != "" && Components(Join(p)) == p
  {
    JoinEnds(p);
    ComponentsInvertJoin(p);
    assert Join(p)[0] == p[0][0] && p[0][0] in p[0];
    Text.ParseInvertsPrint(Text.Address(bucket, Join(p)));
  }

  /** However many slashes surround a path in a URI, the URI names that path. */
  lemma UriSpellsPath(bucket: string, p: Path, i: nat, j: nat)
    requires bucket != "" && '/' !in bucket && SlashFree(p) && p != []
    ensures Text.ParseS3Uri(Spelled(bucket, p, i, j)) == Text.Address(bucket, Join(p))
    ensures Join(p) != "" && Components(Join(p)) == p
  {
    JoinEnds(p);
    ComponentsInvertJoin(p);
    var text := KeyString(Key(p, false));
    assert Join(p)[0] == p[0][0] && p[0][0] in p[0];
    assert text + "/" == Join(p);
    Text.ParseTrimsPrefix(bucket, i, text, j);
  }

  /** A URI for a path of a bucket, with `i` extra slashes before the path and `j` slashes behind it. */
  function Spelled(bucket: string, p: Path, i: nat, j: nat): string
    requires p != []
  {
    "s3://" + bucket + "/" + Text.Repeat('/', i) + KeyString(Key(p, false)) + Text.Repeat('/', j)
  }

  /** The cache directory answers wrongly for `p`, or not at all. */
  ghost predicate Stuck(s: Store, t: Tree, p: Path) {
    var m := p + [MANIFEST];
    && m !in t.files
    && LooksPresent(s.listing, p)
    && (Nested(s, p) || (if Exists(t, p) then m in s.content else FileAbove(t, p)))
  }

  /** The answer of a fetch whose storage calls all succeed. */
  ghost function FaultFree(s: Store, t: Tree, p: Path): Answer {
    if !Stuck(s, t, p) then Direct(s, p)
    else if Nested(s, p) || !Exists(t, p) then Clashed
    else NotFound
  }

  /** Every directory on the way to something that exists, exists. */
  ghost predicate Closed(t: Tree) {
    forall d, k :: Exists(t, d) && 0 <= k < |d| ==> d[..k] in t.dirs
  }

  lemma ClosedKept(t: Tree, u: Tree, target: Path)
    requires Closed(t)
    requires t.dirs + Ancestors(target) <= u.dirs
    requires u.dirs <= t.dirs + Ancestors(target) + {target}
    requires u.files.Keys <= t.files.Keys + {target}
    ensures Closed(u)
  {
    forall d, k | Exists(u, d) && 0 <= k < |d|
      ensures d[..k] in u.dirs
    {
      if d in Ancestors(target) {
        assert d[..k] == target[..k];
      } else if d == target {
        assert d[..k] in Ancestors(target);
      }
    }
  }

  lemma ParentsClosed(t: Tree, target: Path)
    requires Closed(t)
    ensures Closed(t.(dirs := t.dirs + Ancestors(target)))
  {
    var u := t.(dirs := t.dirs + Ancestors(target));
    forall d, k | Exists(u, d) && 0 <= k < |d|
      ensures d[..k] in u.dirs
    {
      if d in Ancestors(target) {
        assert d[..k] == target[..k];
      } else {
        assert Exists(t, d);
      }
    }
  }

  lemma SweepClosed(t: Tree, tmp: string)
    requires Closed(t)
    ensures Closed(Sweep(t, tmp, {}))
  {
    var u := Sweep(t, tmp, {});
    forall d, k | Exists(u, d) && 0 <= k < |d|
      ensures d[..k] in u.dirs
    {
      assert Exists(t, d) && !([tmp] <= d);
      assert [tmp] <= d[..k] ==> [tmp] <= d;
    }
  }

  /** What exists after the rename, seen from its new place. */
  lemma MoveExists(t: Tree, tmp: string, p: Path, d: Path)
    requires p != [] && p[0] != tmp
    ensures Exists(Move(t, tmp, p), d) ==>
      Exists(Sweep(t, tmp, {}), d) || d in Ancestors(p) || (p <= d && Exists(t, [tmp] + d[|p|..]))
    ensures p <= d && [tmp] + d[|p|..] in t.dirs ==> d in Move(t, tmp, p).dirs
  {
    var u := Move(t, tmp, p);
    if d in u.files && d !in Sweep(t, tmp, {}).files {
      assert p <= d && d[|p|..] in Below(t.files, [tmp]);
    }
    if d in u.dirs && d !in Sweep(t, tmp, {}).dirs && d !in Ancestors(p) {
      var x :| x in t.dirs && [tmp] <= x && d == p + x[1..];
      assert [tmp] + d[|p|..] == x;
    }
    if p <= d {
      assert p + ([tmp] + d[|p|..])[1..] == d;
    }
  }

  lemma MoveClosed(t: Tree, tmp: string, p: Path)
    requires Closed(t) && p != [] && p[0] != tmp
    ensures Closed(Move(t, tmp, p))
  {
    var u := Move(t, tmp, p);
    SweepClosed(t, tmp);
    forall d, k | Exists(u, d) && 0 <= k < |d|
      ensures d[..k] in u.dirs
    {
      MoveExists(t, tmp, p, d);
      if Exists(Sweep(t, tmp, {}), d) {
        assert d[..k] in Sweep(t, tmp, {}).dirs;
      } else {
        MovedAncestor(t, tmp, p, d, k);
      }
    }
  }

  lemma MovedAncestor(t: Tree, tmp: string, p: Path, d: Path, k: nat)
    requires Closed(t) && p != [] && p[0] != tmp && k < |d|
    requires d in Ancestors(p) || (p <= d && Exists(t, [tmp] + d[|p|..]))
    ensures d[..k] in Move(t, tmp, p).dirs
  {
    if p <= d && k >= |p| {
      MoveExists(t, tmp, p, d[..k]);
      var x := [tmp] + d[|p|..];
      assert x[..k - |p| + 1] == [tmp] + d[..k][|p|..];
    } else {
      assert d[..k] == p[..k] && p[..k] in Ancestors(p);
    }
  }

  /** `u` is `t` with more below the temporary directory. */
  ghost predicate Extends(t: Tree, u: Tree, tmp: string) {
    && t.dirs <= u.dirs && (forall d :: d in u.dirs ==> d in t.dirs || d == [] || [tmp] <= d)
    && t.files.Keys <= u.files.Keys
    && forall f :: f in u.files ==> [tmp] <= f || (f in t.files && u.files[f] == t.files[f])
  }

  /** Sweeping what was put into a fresh temporary directory gives the tree back. */
  lemma SweepUndoes(t: Tree, u: Tree, tmp: string)
    requires Extends(t, u, tmp) && [] in u.dirs
    requires forall x :: Exists(t, x) ==> !([tmp] <= x)
    ensures Sweep(u, tmp, {}) == Tree(t.dirs + {[]}, t.files)
  {
    var v := Sweep(u, tmp, {});
    assert forall x :: x in t.dirs || x in t.files ==> Exists(t, x);
    assert v.dirs == t.dirs + {[]};
    assert v.files.Keys == t.files.Keys;
    assert v.files == t.files;
  }

  /** The part of the download list that is in place has no key above another, and every directory leads to a file. */
  ghost predicate Unnested(s: Store, t: Tree, p: Path, tmp: string, n: nat) {
    var todo := Todo(s.listing, p);
    && n <= |todo|
    && NoBareDir(t, tmp)
    && forall i, j :: 0 <= i < n && 0 <= j < n ==> !(todo[i] < todo[j])
  }

  lemma LandingAbove(tmp: string, p: Path, q: Path, r: Path)
    requires p < q && p < r
    ensures q < r ==> Landing(tmp, p, q) in Ancestors(Landing(tmp, p, r))
  {
    var a, b := Landing(tmp, p, q), Landing(tmp, p, r);
    if q < r {
      assert a == b[..|a|];
    }
  }

  /** Without a clash the new key is neither above nor below one already written. */
  lemma NoClashNoNesting(s: Store, t: Tree, p: Path, tmp: string, i: nat, j: nat)
    requires ValidStore(s) && Closed(t) && TempHolds(s, t, p, tmp, i) && j < i
    requires GetStep(s, t, p, tmp, i).1.Getting?
    ensures !(Todo(s.listing, p)[j] < Todo(s.listing, p)[i]) && !(Todo(s.listing, p)[i] < Todo(s.listing, p)[j])
  {
    var todo := Todo(s.listing, p);
    TodoSpec(s.listing, p);
    assert todo[i] in todo && todo[j] in todo;
    var f, target := Landing(tmp, p, todo[j]), Landing(tmp, p, todo[i]);
    LandingAbove(tmp, p, todo[i], todo[j]);
    LandingAbove(tmp, p, todo[j], todo[i]);
    assert Exists(t, f);
  }

  /** One object more: the write clashes exactly when the new key is above or below one already written. */
  lemma GetUnnested(s: Store, t: Tree, p: Path, tmp: string, i: nat)
    requires ValidStore(s) && Closed(t) && TempHolds(s, t, p, tmp, i) && i < |Todo(s.listing, p)|
    requires Unnested(s, t, p, tmp, i)
    requires forall f :: f in t.files ==> |f| >= 2
    ensures var (u, pc) := GetStep(s, t, p, tmp, i);
      if pc.Getting? then Closed(u) && Unnested(s, u, p, tmp, i + 1) else pc == Finished(Clashed) && Nested(s, p)
  {
    if GetStep(s, t, p, tmp, i).1.Getting? {
      GetNoBareDir(s, t, p, tmp, i);
      GetClosed(s, t, p, tmp, i);
      forall j | 0 <= j < i
        ensures !(Todo(s.listing, p)[j] < Todo(s.listing, p)[i]) && !(Todo(s.listing, p)[i] < Todo(s.listing, p)[j])
      {
        NoClashNoNesting(s, t, p, tmp, i, j);
      }
    } else {
      ClashShowsNesting(s, t, p, tmp, i);
    }
  }

  lemma GetClosed(s: Store, t: Tree, p: Path, tmp: string, i: nat)
    requires Closed(t) && i < |Todo(s.listing, p)| && GetStep(s, t, p, tmp, i).1.Getting?
    ensures Closed(GetStep(s, t, p, tmp, i).0)
  {
    TodoSpec(s.listing, p);
    assert Todo(s.listing, p)[i] in Todo(s.listing, p);
    ClosedKept(t, GetStep(s, t, p, tmp, i).0, Landing(tmp, p, Todo(s.listing, p)[i]));
  }

  /** A complete download list without nesting means no nested keys at all. */
  lemma UnnestedAll(s: Store, t: Tree, p: Path, tmp: string)
    requires ValidStore(s) && Unnested(s, t, p, tmp, |Todo(s.listing, p)|)
    ensures !Nested(s, p)
  {
    var todo := Todo(s.listing, p);
    TodoSpec(s.listing, p);
    forall q, r | q in s.content && r in s.content && p < q && p < r
      ensures !(q < r)
    {
      assert q in todo && r in todo;
    }
  }

  /** Nothing but perhaps the cache root was added. */
  ghost predicate NoTrace(t: Tree, u: Tree) {
    u.files == t.files && (u.dirs == t.dirs || u.dirs == t.dirs + {[]})
  }

  /** Everything new lies below `p`, apart from directories on the way there. */
  ghost predicate OnlyAdds(t: Tree, u: Tree, p: Path) {
    && (forall x :: Exists(u, x) ==> Exists(t, x) || x <= p || p <= x)
    && forall f :: f in u.files ==> f in t.files || p <= f
  }

  lemma MoveOnlyAdds(t: Tree, tmp: string, p: Path)
    requires p != [] && p[0] != tmp
    ensures OnlyAdds(Sweep(t, tmp, {}), Move(t, tmp, p), p)
  {
    MoveSource(t, tmp, p);
    forall x | Exists(Move(t, tmp, p), x)
      ensures Exists(Sweep(t, tmp, {}), x) || x <= p || p <= x
    {
      MoveExists(t, tmp, p, x);
    }
  }

  lemma PrefixIsAncestor(p: Path, d: Path)
    ensures p < d ==> p in Ancestors(d)
  {
    if p < d {
      assert p == d[..|p|];
    }
  }

  lemma NothingBelow(t: Tree, p: Path)
    requires Closed(t) && !Exists(t, p)
    ensures EmptyAt(t, p)
  {
    forall d | d in t.dirs || d in t.files
      ensures !(p < d)
    {
      assert Exists(t, d);
      PrefixIsAncestor(p, d);
    }
  }

  lemma SweptByMove(t: Tree, tmp: string, p: Path)
    requires p != [] && p[0] != tmp
    ensures Sweep(Move(t, tmp, p), tmp, {}) == Move(t, tmp, p)
  {
    var u := Move(t, tmp, p);
    forall d | d in u.dirs || d in u.files
      ensures !([tmp] <= d)
    {
      assert [tmp] <= d ==> d[0] == tmp && !(p <= d) && d !in Ancestors(p);
      MoveExists(t, tmp, p, d);
    }
  }

  lemma FreshMeansBare(t: Tree, name: string)
    requires Closed(t) && !Exists(t, [name])
    ensures forall x :: Exists(t, x) ==> !([name] <= x)
  {
    forall x | Exists(t, x)
      ensures !([name] <= x)
    {
      PrefixIsAncestor([name], x);
      assert x == [name] ==> !Exists(t, x);
      assert [name] <= x ==> x == [name] || [name] < x;
    }
  }

  /** Which reads go wrong: the listing, objects that are gone or cannot be read, and the manifest's file. */
  datatype Reads = Reads(listed: bool, gone: set<Path>, failing: set<Path>, loads: bool)

  const ALL_GOOD := Reads(true, {}, {}, true)

  class TemplateStore {
    const setting: Setting
    const bucket: string
    var dirs: set<Path>
    var files: map<Path, Bytes>
    ghost var temps: set<string>
    ghost var roots: set<Path>

    function Here(): Tree
      reads this
    {
      Tree(dirs, files)
    }

    ghost predicate Valid()
      reads this
    {
      ValidStore(setting.store) && TreeOk(setting, Here(), temps, roots) && Closed(Here())
    }

    constructor (setting: Setting, bucket: string)
      requires ValidStore(setting.store) && forall p :: p in setting.prefixes ==> p != []
      ensures Valid() && this.setting == setting && this.bucket == bucket
      ensures Here() == Tree({}, map[]) && temps == {}
    {
      this.setting, this.bucket := setting, bucket;
      dirs, files, temps, roots := {}, map[], {}, {};
    }

    method Become(t: Tree)
      modifies `dirs, `files
      ensures Here() == t
    {
      dirs, files := t.dirs, t.files;
    }

    /** Why a download stopped: nested keys, or an object that was gone or could not be read. */
    ghost predicate FailureShown(p: Path, io: Reads, failure: Option<Answer>) {
      match failure
      case None => true
      case Some(a) =>
        || (a == Clashed && Nested(setting.store, p))
        || (a == Vanished && exists q :: q in setting.store.content && p < q && q in io.gone)
        || (a == Broken && exists q :: q in setting.store.content && p < q && q in io.failing)
    }

    /** Makes room for one object below the temporary directory, reads it and writes it. */
    method GetOne(p: Path, tmp: string, i: nat, io: Reads) returns (failure: Option<Answer>)
      requires Valid() && tmp in temps && [tmp] in dirs && [] in dirs && i < |Todo(setting.store.listing, p)|
      requires TempHolds(setting.store, Here(), p, tmp, i) && Unnested(setting.store, Here(), p, tmp, i)
      modifies `dirs, `files
      ensures Valid() && [tmp] in dirs && Extends(old(Here()), Here(), tmp)
      ensures FailureShown(p, io, failure)
      ensures failure == None ==> Here() == GetStep(setting.store, old(Here()), p, tmp, i).0
      ensures failure == None ==>
        TempHolds(setting.store, Here(), p, tmp, i + 1) && Unnested(setting.store, Here(), p, tmp, i + 1)
    {
      var s, todo := setting.store, Todo(setting.store.listing, p);
      TodoSpec(s.listing, p);
      assert todo[i] in todo;
      assert forall f :: f in files ==> FileOk(setting, Here(), temps, roots, f);
      ghost var t := Here();
      GetUnnested(s, t, p, tmp, i);
      GetTree(setting, t, temps, roots, p, tmp, i);
      var target := Landing(tmp, p, todo[i]);
      if FileAbove(Here(), target) { return Some(Clashed); }
      var clash := target in dirs;
      GrowDirsOk(setting, t, temps, roots, Ancestors(target));
      ParentsClosed(t, target);
      Become(Here().(dirs := dirs + Ancestors(target)));
      if todo[i] in io.gone {
        failure := Some(Vanished);
      } else if todo[i] in io.failing {
        failure := Some(Broken);
      } else if clash {
        failure := Some(Clashed);
      } else {
        GetTempHolds(s, t, p, tmp, i);
        failure := None;
        Become(Tree(dirs, files[target := s.content[todo[i]]]));
        assert Here() == WriteFile(t, target, s.content[todo[i]]);
      }
    }

    /** Every object of the prefix goes into the temporary directory, until a read fails or the tree is in the way. */
    method FillTemp(p: Path, tmp: string, io: Reads) returns (failure: Option<Answer>)
      requires Valid() && p in setting.prefixes && tmp in temps && [tmp] in dirs && [] in dirs
      requires forall x :: Exists(Here(), x) && [tmp] <= x ==> x == [tmp]
      modifies `dirs, `files
      ensures Valid() && [tmp] in dirs && Extends(old(Here()), Here(), tmp)
      ensures failure == None ==>
        !Nested(setting.store, p) && TempHolds(setting.store, Here(), p, tmp, |Todo(setting.store.listing, p)|)
      ensures FailureShown(p, io, failure)
    {
      var todo := Todo(setting.store.listing, p);
      assert forall x :: x in dirs || x in files ==> Exists(Here(), x);
      var i := 0;
      failure := None;
      while i < |todo| && failure == None
        invariant 0 <= i <= |todo| && Valid() && [tmp] in dirs
        invariant Extends(old(Here()), Here(), tmp)
        invariant failure == None ==>
          TempHolds(setting.store, Here(), p, tmp, i) && Unnested(setting.store, Here(), p, tmp, i)
        invariant FailureShown(p, io, failure)
        decreases |todo| - i, failure == None
      {
        failure := GetOne(p, tmp, i, io);
        i := if failure == None then i + 1 else i;
      }
      if failure == None {
        UnnestedAll(setting.store, Here(), p, tmp);
      }
    }

    /** Renames the finished download into place, unless something is there already. */
    method Publish(tmp: string, p: Path) returns (failure: Option<Answer>)
      requires Valid() && p in setting.prefixes && tmp in temps && [tmp] in dirs
      requires LooksPresent(setting.store.listing, p)
      requires TempHolds(setting.store, Here(), p, tmp, |Todo(setting.store.listing, p)|)
      modifies `dirs, `files, `roots
      ensures Valid()
      ensures failure == if Exists(old(Here()), p) || !FileAbove(old(Here()), p) then None else Some(Clashed)
      ensures if Exists(old(Here()), p) || failure != None
        then Here() == old(Here()) && roots == old(roots)
        else p in roots && Sweep(Here(), tmp, {}) == Here() && OnlyAdds(Sweep(old(Here()), tmp, {}), Here(), p)
    {
      failure := None;
      if Exists(Here(), p) { return; }
      if FileAbove(Here(), p) { return Some(Clashed); }
      NothingBelow(Here(), p);
      GrowDirsOk(setting, Here(), temps, roots, Ancestors(p));
      var parents := Here().(dirs := dirs + Ancestors(p));
      ClosedKept(Here(), parents.(dirs := parents.dirs + {p}), p);
      Become(parents);
      assert Closed(Here()) && Lands(Here(), p);
      if Lands(Here(), p) {
        MoveOk(setting, Here(), temps, roots, tmp, p);
        MoveClosed(Here(), tmp, p);
        SweptByMove(Here(), tmp, p);
        MoveOnlyAdds(Here(), tmp, p);
        Become(Move(Here(), tmp, p));
        roots := roots + {p};
      } else if !Exists(Here(), p) {
        failure := Some(Clashed);
      }
    }

    /** Lists and downloads a prefix into a fresh temporary directory, publishes it, and cleans up. */
    method DownloadPrefix(p: Path, name: string, io: Reads) returns (failure: Option<Answer>)
      requires Valid() && p in setting.prefixes && FreshName(setting, Here(), name)
      modifies `dirs, `files, `roots, `temps
      ensures Valid() && p[0] !in temps
      ensures !io.listed ==> failure == Some(Broken)
      ensures io.listed ==> (failure == Some(NotFound) <==> !LooksPresent(setting.store.listing, p))
      ensures failure == Some(Clashed) ==>
        Nested(setting.store, p) || (!Exists(old(Here()), p) && FileAbove(old(Here()), p))
      ensures failure == Some(Vanished) ==> exists q :: q in setting.store.content && p < q && q in io.gone
      ensures failure == Some(Broken) ==>
        !io.listed || exists q :: q in setting.store.content && p < q && q in io.failing
      ensures failure == None ==> !Nested(setting.store, p)
      ensures failure == None && !Exists(old(Here()), p) ==> p in roots && !FileAbove(old(Here()), p)
      ensures failure == None && Exists(old(Here()), p) ==> NoTrace(old(Here()), Here())
      ensures failure != None ==> NoTrace(old(Here()), Here()) && roots == old(roots)
      ensures failure.Some? ==>
        failure.value == NotFound || failure.value == Clashed || failure.value == Vanished || failure.value == Broken
      ensures OnlyAdds(old(Here()), Here(), p) && temps <= old(temps) + {name}
    {
      if !io.listed { return Some(Broken); }
      if !LooksPresent(setting.store.listing, p) { return Some(NotFound); }
      NewTempOk(setting, Here(), temps, roots, name);
      GrowDirsOk(setting, Here(), temps + {name}, roots, {[], [name]});
      assert Ancestors([name]) == {[]} by {
        assert [name][..0] == [];
      }
      ClosedKept(Here(), Here().(dirs := dirs + {[], [name]}), [name]);
      FreshMeansBare(Here(), name);
      ghost var before := Here();
      Become(Here().(dirs := dirs + {[], [name]}));
      temps := temps + {name};
      assert forall x :: Exists(Here(), x) ==> Exists(before, x) || x == [] || x == [name];
      failure := FillTemp(p, name, io);
      ghost var filled := Here();
      if failure == None {
        failure := Publish(name, p);
      }
      SweepOk(setting, Here(), temps, roots, name, {});
      SweepClosed(Here(), name);
      SweepUndoes(before, filled, name);
      Become(Sweep(Here(), name, {}));
    }

    /** The directory a URI names, if the URI is well-formed and names a prefix of the templates bucket. */
    function Wanted(uri: string): Option<Path> {
      match Text.ParseS3Uri(uri)
      case Malformed => None
      case Address(b, prefix) => if b != bucket || prefix == "" then None else Some(Components(prefix))
    }

    /** A fault is answered only where a read went wrong. */
    ghost predicate FaultShown(p: Path, io: Reads, a: Answer) {
      && (a.Broken? ==> !io.listed || exists q :: q in setting.store.content && p < q && q in io.failing)
      && (a.Vanished? ==> exists q :: q in setting.store.content && p < q && q in io.gone)
      && (a.Unreadable? ==> !io.loads)
    }

    /** The body of `fetch` once the URI is parsed. */
    method FetchPath(p: Path, name: string, io: Reads) returns (a: Answer)
      requires Valid() && FreshName(setting, Here(), name)
      requires p in setting.prefixes && p[0] !in temps
      modifies `dirs, `files, `roots, `temps
      ensures Valid() && temps <= old(temps) + {name}
      ensures !a.Faulty() ==> a == FaultFree(setting.store, old(Here()), p)
      ensures FaultShown(p, io, a)
      ensures a.Broken? || a.Vanished? || a.Clashed? ==> NoTrace(old(Here()), Here())
      ensures p + [MANIFEST] in old(files) ==>
        Here() == old(Here()) && a == if io.loads then Served(Below(setting.store.content, p)) else Unreadable
      ensures OnlyAdds(old(Here()), Here(), p)
      ensures a.Served? ==> p + [MANIFEST] in files
    {
      var m := p + [MANIFEST];
      if m !in files {
        var failure := DownloadPrefix(p, name, io);
        ListedKeyLooksPresent(setting.store, p);
        if failure != None { return failure.value; }
        assert p in roots ==> RootOk(setting, Here(), p);
      }
      a := if m in files && !io.loads then Unreadable else Load(Here(), p);
      if m in files {
        ManifestMeansComplete(setting, Here(), temps, roots, p);
      }
    }

    /**
     A fetch in which nothing else goes wrong answers what a direct read of the store answers exactly when the cache
     directory is not stuck on the prefix, and `FaultFree` says what it answers otherwise. One that failed while
     downloading leaves no trace, and a cached one touches nothing. A malformed URI, another bucket or an empty
     prefix is a missing template.
     */
    method Fetch(uri: string, name: string, io: Reads) returns (a: Answer)
      requires Valid() && FreshName(setting, Here(), name)
      requires Wanted(uri).Some? ==> Wanted(uri).value in setting.prefixes && Wanted(uri).value[0] !in temps
      modifies `dirs, `files, `roots, `temps
      ensures Valid() && temps <= old(temps) + {name}
      ensures Wanted(uri) == None ==> a == NotFound && Here() == old(Here())
      ensures Wanted(uri).Some? ==> var p := Wanted(uri).value;
        && (!a.Faulty() ==> (a == Direct(setting.store, p) <==> !Stuck(setting.store, old(Here()), p)))
        && (!a.Faulty() ==> a == FaultFree(setting.store, old(Here()), p))
        && FaultShown(p, io, a)
        && (a.Broken? || a.Vanished? || a.Clashed? ==> NoTrace(old(Here()), Here()))
        && (p + ["manifest.json"] in old(files) ==>
              Here() == old(Here()) && a == if io.loads then Served(Below(setting.store.content, p)) else Unreadable)
    {
      var wanted := Wanted(uri);
      if wanted == None {
        a := NotFound;
      } else {
        DirectExactlyWhenNotStuck(setting.store, Here(), wanted.value);
        a := FetchPath(wanted.value, name, io);
      }
    }

    /** A fetch by URI, for a path of any bucket and any spelling of its slashes: another bucket has no template, and
        the store's own answers for the path. */
    method FetchSpelled(b: string, p: Path, i: nat, j: nat, name: string, io: Reads) returns (a: Answer)
      requires Valid() && FreshName(setting, Here(), name)
      requires b != "" && '/' !in b && SlashFree(p) && p != []
      requires b == bucket ==> p in setting.prefixes && p[0] !in temps
      modifies `dirs, `files, `roots, `temps
      ensures Valid()
      ensures b != bucket ==> a == NotFound && Here() == old(Here())
      ensures b == bucket ==>
        && (!a.Faulty() ==> (a == Direct(setting.store, p) <==> !Stuck(setting.store, old(Here()), p)))
        && FaultShown(p, io, a)
        && (p + ["manifest.json"] in old(files) ==>
              Here() == old(Here()) && a == if io.loads then Served(Below(setting.store.content, p)) else Unreadable)
    {
      UriSpellsPath(b, p, i, j);
      assert Wanted(Spelled(b, p, i, j)) == if b == bucket then Some(p) else None;
      a := Fetch(Spelled(b, p, i, j), name, io);
    }
  }

  /** Which URIs name nothing: those of another scheme or without a bucket, of another bucket, or without a prefix. */
  lemma NamesNothing(store: TemplateStore, uri: string, b: string, i: nat)
    ensures !("s3://" <= uri) || uri == "s3://" || "s3:///" <= uri ==> store.Wanted(uri) == None
    ensures b != "" && '/' !in b ==>
      store.Wanted("s3://" + b) == None && store.Wanted("s3://" + b + "/" + Text.Repeat('/', i)) == None
  {
    Text.MalformedExactly(uri);
    if b != "" && '/' !in b { Text.BucketAloneHasNoPrefix(b, i); }
  }

  /** A store that holds the manifest lists it. */
  lemma ListedKeyLooksPresent(s: Store, p: Path)
    requires ValidStore(s)
    ensures p + [MANIFEST] in s.content ==> LooksPresent(s.listing, p)
  {
    var m := Key(p + [MANIFEST], false);
    assert Under(p, m) && m.path[|m.path| - 1] == MANIFEST;
  }

  /**
   A fetch that meets no storage error answers what a direct read of the store answers exactly when the cache
   directory is not stuck on the prefix.
   */
  lemma DirectExactlyWhenNotStuck(s: Store, t: Tree, p: Path)
    requires ValidStore(s)
    ensures FaultFree(s, t, p) == Direct(s, p) <==> !Stuck(s, t, p)
  {
    ListedKeyLooksPresent(s, p);
  }

  // ---- the stuck state is reached -------------------------------------------

  /** A cached template below `p`, and not `p` itself, is what makes the cache stuck on `p`. */
  lemma InnerBlocksOuter(s: Store, t: Tree, p: Path, q: Path)
    requires ValidStore(s) && p + [MANIFEST] in s.content && p < q && !Nested(s, p)
    requires Closed(t) && q + [MANIFEST] in t.files && p + [MANIFEST] !in t.files
    ensures FaultFree(s, t, p) == NotFound && Direct(s, p).Served?
  {
    ListedKeyLooksPresent(s, p);
    assert Exists(t, q + [MANIFEST]);
    PrefixIsAncestor(p, q + [MANIFEST]);
  }

  /** An empty cache is stuck on nothing but nested keys. */
  lemma EmptyCacheIsDirect(s: Store, q: Path)
    requires ValidStore(s) && !Nested(s, q) && q + [MANIFEST] in s.content
    ensures FaultFree(s, Tree({}, map[]), q) == Direct(s, q) && Direct(s, q).Served?
  {
    DirectExactlyWhenNotStuck(s, Tree({}, map[]), q);
  }

  lemma InnerIsNotOuter(s: Store, p: Path, q: Path)
    requires !Nested(s, p) && p < q && p + [MANIFEST] in s.content && q + [MANIFEST] in s.content
    ensures !Nested(s, q) && !(q <= p + [MANIFEST])
  {
    var m, n := p + [MANIFEST], q + [MANIFEST];
    assert q <= m ==> q == m && m < n;
    forall f, g | f in s.content && g in s.content && q < f
      ensures !(f < g)
    {
      assert p < f;
    }
  }

  lemma AddedUnder(u: Tree, p: Path, q: Path, name: string)
    requires OnlyAdds(Tree({}, map[]), u, q) && p != [] && p < q && name != p[0]
    requires !(q <= p + [MANIFEST])
    ensures p + [MANIFEST] !in u.files && !Exists(u, [name])
  {
    assert q[0] == p[0];
    assert !([name] <= q) && !(q <= [name]);
  }

  lemma FreeName(s: Store, t: Tree, p: Path, q: Path, name: string)
    requires p != [] && p < q && name != p[0] && !Exists(t, [name])
    ensures FreshName(Setting(s, {p, q}), t, name)
    ensures q[0] == p[0]
  {
    assert q[0] == p[0];
  }

  /** Caching the inner template in an empty cache. */
  method CacheInner(s: Store, p: Path, q: Path, name: string) returns (cache: TemplateStore, first: Answer)
    requires ValidStore(s) && !Nested(s, p) && p != [] && p < q && name != p[0]
    requires p + [MANIFEST] in s.content && q + [MANIFEST] in s.content
    ensures fresh(cache) && cache.Valid() && cache.setting == Setting(s, {p, q})
    ensures first == Direct(s, q)
    ensures q + [MANIFEST] in cache.files && p + [MANIFEST] !in cache.files
    ensures !Exists(cache.Here(), [name]) && p[0] !in cache.temps
  {
    InnerIsNotOuter(s, p, q);
    EmptyCacheIsDirect(s, q);
    FreeName(s, Tree({}, map[]), p, q, name);
    cache := new TemplateStore(Setting(s, {p, q}), "t");
    assert cache.Here() == Tree({}, map[]);
    first := cache.FetchPath(q, name, ALL_GOOD);
    AddedUnder(cache.Here(), p, q, name);
  }

  /**
   The antichain is needed: whenever a template `q` lies under the prefix of a template `p` and is cached first,
   `p`, whose manifest is in the store, is answered as missing, though every storage call succeeds.
   */
  method NestedPrefixStarves(s: Store, p: Path, q: Path, name: string) returns (first: Answer, second: Answer)
    requires ValidStore(s) && !Nested(s, p) && p != [] && p < q && name != p[0]
    requires p + [MANIFEST] in s.content && q + [MANIFEST] in s.content
    ensures first == Direct(s, q)
    ensures Direct(s, p).Served? && second == NotFound
  {
    var cache;
    cache, first := CacheInner(s, p, q, name);
    InnerBlocksOuter(s, cache.Here(), p, q);
    FreeName(s, cache.Here(), p, q, name);
    second := cache.FetchPath(p, name, ALL_GOOD);
  }
}
