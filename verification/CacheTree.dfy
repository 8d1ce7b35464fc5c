/**
 The template cache directory as a tree of paths, and the object store it mirrors.

 Paths and object keys are sequences of components: this is the hypothesis that keys and prefixes are
 canonical (no empty, `.` or `..` components), see `StringPrefixIsPathPrefix` for what it buys.
 */
module CacheTree {
  import opened Prelude

  type Path = seq<string>

  const MANIFEST := "manifest.json"

  // ---- object store ---------------------------------------------------------

  /** An object key; a placeholder is a key that ends in a slash. */
  datatype Key = Key(path: Path, placeholder: bool)

  /** The immutable templates bucket: its listing and its contents. */
  datatype Store = Store(listing: seq<Key>, content: map<Path, Bytes>)

  ghost predicate ValidStore(s: Store) {
    && (forall q :: q in s.content <==> Key(q, false) in s.listing)
    && forall q :: q in s.content ==> q != []
  }

  /** No object key is a proper path-ancestor of another one. */
  ghost predicate NoNesting(s: Store) {
    forall q, r :: q in s.content && r in s.content ==> !(q < r)
  }

  /** Two object keys under the prefix, one above the other. */
  ghost predicate Nested(s: Store, p: Path) {
    exists q, r :: q in s.content && r in s.content && p < q && q < r
  }

  /** The key's string starts with the prefix's string. */
  predicate Under(p: Path, k: Key) {
    if k.placeholder then p <= k.path else p < k.path
  }

  /** Some listed key under the prefix is called like the manifest. */
  predicate LooksPresent(keys: seq<Key>, p: Path) {
    exists k :: k in keys && Under(p, k) && k.path != [] && k.path[|k.path| - 1] == MANIFEST
  }

  /** The objects to download, in listing order; placeholders are skipped. */
  function Todo(keys: seq<Key>, p: Path): seq<Path> {
    if keys == [] then []
    else
      var init := Todo(keys[..|keys| - 1], p);
      var k := keys[|keys| - 1];
      if !k.placeholder && p < k.path then init + [k.path] else init
  }

  lemma {:induction false} TodoSpec(keys: seq<Key>, p: Path)
    ensures forall q :: q in Todo(keys, p) <==> Key(q, false) in keys && p < q
  {
    if keys != [] {
      var init, k := keys[..|keys| - 1], keys[|keys| - 1];
      TodoSpec(init, p);
      assert forall x :: x in keys <==> x in init || x == k;
    }
  }

  // ---- prefixes as strings --------------------------------------------------

  /** A prefix's string: every component followed by a slash. */
  function Join(p: Path): string {
    if p == [] then [] else p[0] + "/" + Join(p[1..])
  }

  lemma {:induction false} JoinSpec(c: string, p: Path, q: Path)
    ensures Join([c]) == c + "/" && Join(p + q) == Join(p) + Join(q)
  {
    assert [c][1..] == [];
    if p == [] {
      assert p + q == q;
    } else {
      assert (p + q)[1..] == p[1..] + q;
      JoinSpec(c, p[1..], q);
    }
  }

  function KeyString(k: Key): string
    requires k.path != []
  {
    if k.placeholder then Join(k.path) else Join(k.path)[..|Join(k.path)| - 1]
  }

  ghost predicate SlashFree(p: Path) {
    forall i :: 0 <= i < |p| ==> p[i] != "" && '/' !in p[i]
  }

  lemma FirstComponent(c: string, d: string, x: string, y: string)
    requires '/' !in c && '/' !in d
    requires c + "/" + x <= d + "/" + y
    ensures c == d && x <= y
  {
    var s, t := c + "/" + x, d + "/" + y;
    assert s[|c|] == '/' && t[|d|] == '/';
    assert forall i :: 0 <= i < |s| ==> s[i] == t[i];
    assert forall i :: 0 <= i < |c| ==> s[i] == c[i] && s[i] in c;
    assert forall i :: 0 <= i < |d| ==> t[i] == d[i] && t[i] in d;
    assert c == s[..|c|] && d == t[..|d|];
    assert x == s[|c| + 1..] && y == t[|d| + 1..];
  }

  lemma {:induction false} JoinPrefix(p: Path, q: Path)
    requires SlashFree(p) && SlashFree(q)
    ensures Join(p) <= Join(q) <==> p <= q
  {
    if p != [] && q != [] {
      JoinPrefix(p[1..], q[1..]);
      if Join(p) <= Join(q) {
        FirstComponent(p[0], q[0], Join(p[1..]), Join(q[1..]));
      }
      assert p == [p[0]] + p[1..] && q == [q[0]] + q[1..];
    }
  }

  lemma {:induction false} JoinEnds(p: Path)
    requires p != [] && SlashFree(p)
    ensures |Join(p)| >= 2 && Join(p)[|Join(p)| - 1] == '/' && Join(p)[|Join(p)| - 2] != '/'
  {
    if |p| == 1 {
      assert p[1..] == [];
      assert Join(p) == p[0] + "/" && p[0][|p[0]| - 1] in p[0];
    } else {
      JoinEnds(p[1..]);
    }
  }

  lemma {:induction false} JoinGrows(p: Path, q: Path)
    requires p < q
    ensures |Join(p)| < |Join(q)|
  {
    if p != [] {
      assert p[1..] < q[1..];
      JoinGrows(p[1..], q[1..]);
    }
  }

  /** For canonical keys and prefixes, listing by string prefix is listing by path prefix. */
  lemma StringPrefixIsPathPrefix(p: Path, k: Key)
    requires SlashFree(p) && SlashFree(k.path) && k.path != []
    ensures Join(p) <= KeyString(k) <==> Under(p, k)
  {
    JoinPrefix(p, k.path);
    JoinEnds(k.path);
    if p < k.path { JoinGrows(p, k.path); }
    if !k.placeholder {
      var whole := Join(k.path);
      assert whole == KeyString(k) + whole[|whole| - 1..];
      assert Join(p) <= KeyString(k) <==> Join(p) <= whole && |Join(p)| < |whole|;
      if p <= k.path && |p| == |k.path| {
        assert p == k.path;
      }
    }
  }

  // ---- directory tree -------------------------------------------------------

  datatype Tree = Tree(dirs: set<Path>, files: map<Path, Bytes>)

  function Ancestors(p: Path): set<Path> {
    set k | 0 <= k < |p| :: p[..k]
  }

  predicate Exists(t: Tree, p: Path) {
    p in t.dirs || p in t.files
  }

  /** A regular file stands where a directory of `p` would have to be. */
  predicate FileAbove(t: Tree, p: Path) {
    exists k :: 0 <= k < |p| && p[..k] in t.files
  }

  predicate EmptyAt(t: Tree, p: Path) {
    (forall d :: d in t.dirs ==> !(p < d)) && (forall f :: f in t.files ==> !(p < f))
  }

  /** The files below `root`, by their path relative to it. */
  function Below(files: map<Path, Bytes>, root: Path): (b: map<Path, Bytes>)
    ensures forall q :: q in b <==> q != [] && root + q in files
    ensures forall q :: q in b ==> b[q] == files[root + q]
  {
    var rels := set f | f in files && root < f :: f[|root|..];
    assert forall f :: f in files && root < f ==> root + f[|root|..] == f;
    assert forall q :: q != [] && root + q in files ==> root < root + q && (root + q)[|root|..] == q;
    map q | q in rels :: files[root + q]
  }

  function WriteFile(t: Tree, target: Path, data: Bytes): Tree {
    Tree(t.dirs + Ancestors(target), t.files[target := data])
  }

  /** What is left over, and every directory above it. */
  predicate Spared(x: Path, left: set<Path>) {
    exists y :: y in left && x <= y
  }

  /** `rmtree` of a top-level directory that ignores errors and may leave some of it behind. */
  function Sweep(t: Tree, tmp: string, left: set<Path>): Tree {
    Tree(set d | d in t.dirs && (!([tmp] <= d) || Spared(d, left)),
         map f | f in t.files && (!([tmp] <= f) || Spared(f, left)) :: t.files[f])
  }

  /** `mkdir -p` of the parent and `rename` of a top-level directory onto `p`. */
  function Move(t: Tree, tmp: string, p: Path): Tree {
    var swept := Sweep(t, tmp, {});
    var subdirs := set d | d in t.dirs && [tmp] <= d :: p + d[1..];
    var below := Below(t.files, [tmp]);
    var moved := set q | q in below :: p + q;
    assert forall x :: x in moved ==> x[|p|..] in below;
    Tree(swept.dirs + Ancestors(p) + subdirs, swept.files + (map x | x in moved :: below[x[|p|..]]))
  }
}
