/**
 The two string normalisations: the object key of an artifact, and the
 `s3://bucket/prefix/` template address.
 */
module Text {

  /** `s.lstrip(c)` */
  function StripLeft(s: string, c: char): string {
    if s != [] && s[0] == c then StripLeft(s[1..], c) else s
  }

  /** `s.rstrip(c)` */
  function StripRight(s: string, c: char): string {
    if s != [] && s[|s| - 1] == c then StripRight(s[..|s| - 1], c) else s
  }

  /** Stripping removes exactly the leading run of `c`. */
  lemma {:induction false} StripLeftSpec(s: string, c: char)
    ensures var r := StripLeft(s, c);
            && (r == [] || r[0] != c)
            && |r| <= |s| && r == s[|s| - |r|..]
            && forall i :: 0 <= i < |s| - |r| ==> s[i] == c
  {
    if s != [] && s[0] == c {
      StripLeftSpec(s[1..], c);
      assert forall i :: 1 <= i < |s| ==> s[i] == s[1..][i - 1];
    }
  }

  /** Stripping removes exactly the trailing run of `c`. */
  lemma {:induction false} StripRightSpec(s: string, c: char)
    ensures var r := StripRight(s, c);
            && (r == [] || r[|r| - 1] != c)
            && |r| <= |s| && r == s[..|r|]
            && forall i :: |r| <= i < |s| ==> s[i] == c
  {
    if s != [] && s[|s| - 1] == c {
      StripRightSpec(s[..|s| - 1], c);
    }
  }

  function BuildObjectKey(keyPrefix: string, filename: string): string {
    StripRight(keyPrefix, '/') + "/" + StripLeft(filename, '/')
  }

  function Repeat(c: char, n: nat): (r: string)
    ensures |r| == n && forall i :: 0 <= i < n ==> r[i] == c
  {
    seq(n, i => c)
  }

  /** What is left after stripping is the same for every string that only adds stripped characters. */
  lemma StripRightUnique(s: string, core: string, c: char)
    requires |core| <= |s| && core == s[..|core|]
    requires core == [] || core[|core| - 1] != c
    requires forall i :: |core| <= i < |s| ==> s[i] == c
    ensures StripRight(s, c) == core
  {
    var r := StripRight(s, c);
    StripRightSpec(s, c);
    assert core != [] ==> core[|core| - 1] == s[|core| - 1];
    assert r != [] ==> r[|r| - 1] == s[|r| - 1];
  }

  /** Extra trailing slashes on the prefix never change the key. */
  lemma KeyIgnoresTrailingSlashes(keyPrefix: string, filename: string, n: nat)
    ensures BuildObjectKey(keyPrefix + Repeat('/', n), filename) == BuildObjectKey(keyPrefix, filename)
  {
    var core := StripRight(keyPrefix, '/');
    StripRightSpec(keyPrefix, '/');
    var longer := keyPrefix + Repeat('/', n);
    assert core == longer[..|core|];
    forall i | |core| <= i < |longer| ensures longer[i] == '/' {
      if i < |keyPrefix| {
        assert longer[i] == keyPrefix[i];
      } else {
        assert longer[i] == Repeat('/', n)[i - |keyPrefix|];
      }
    }
    StripRightUnique(longer, core, '/');
  }

  lemma {:induction false} StripLeftUnique(n: nat, core: string, c: char)
    requires core == [] || core[0] != c
    ensures StripLeft(Repeat(c, n) + core, c) == core
  {
    var s := Repeat(c, n) + core;
    if n > 0 {
      assert s[1..] == Repeat(c, n - 1) + core;
      StripLeftUnique(n - 1, core, c);
    } else {
      assert s == core;
    }
  }

  /** A prefix and a filename are joined by one slash, however many end the one and start the other. */
  lemma KeyJoinsByOneSlash(p: string, i: nat, j: nat, f: string)
    requires p == [] || p[|p| - 1] != '/'
    requires f == [] || f[0] != '/'
    ensures BuildObjectKey(p + Repeat('/', i), Repeat('/', j) + f) == p + "/" + f
  {
    StripRightUnique(p + Repeat('/', i), p, '/');
    StripLeftUnique(j, f, '/');
  }

  /** Split position: a slash-free tail is determined by the last slash. */
  lemma SplitAtLastSlash(a: string, b: string, f: string, g: string)
    requires '/' !in f && '/' !in g
    requires a + "/" + f == b + "/" + g
    ensures a == b && f == g
  {
    var s := a + "/" + f;
    assert s == b + "/" + g;
    assert s[|a|] == '/' && s[|b|] == '/';
    assert forall i :: |a| < i < |s| ==> s[i] == f[i - |a| - 1] && s[i] in f;
    assert forall i :: |b| < i < |s| ==> s[i] == g[i - |b| - 1] && s[i] in g;
    assert a == s[..|a|] && b == s[..|b|];
    assert f == s[|a| + 1..] && g == s[|b| + 1..];
  }

  /** For slash-free filenames the key determines the filename, and the prefix up to its trailing slashes;
      and conversely. */
  lemma KeyInjective(p: string, q: string, f: string, g: string)
    requires '/' !in f && '/' !in g
    ensures BuildObjectKey(p, f) == BuildObjectKey(q, g)
       <==> StripRight(p, '/') == StripRight(q, '/') && f == g
  {
    assert f != [] ==> f[0] in f;
    assert g != [] ==> g[0] in g;
    if BuildObjectKey(p, f) == BuildObjectKey(q, g) {
      SplitAtLastSlash(StripRight(p, '/'), StripRight(q, '/'), f, g);
    }
  }

  const SCHEME := "s3://"

  /** Characters of `s` before the first occurrence of `c` (all of `s` when there is none). */
  function UpTo(s: string, c: char): (r: string)
    ensures |r| <= |s| && r == s[..|r|] && c !in r
    ensures |r| < |s| ==> s[|r|] == c
  {
    if s == [] || s[0] == c then []
    else [s[0]] + UpTo(s[1..], c)
  }

  datatype Address = Address(bucket: string, prefix: string) | Malformed

  /** `prefix.strip("/")` followed by one slash, or nothing at all. */
  function NormalPrefix(raw: string): string {
    var inner := StripLeft(StripRight(raw, '/'), '/');
    if inner == [] then [] else inner + "/"
  }

  function ParseS3Uri(uri: string): Address {
    if !(SCHEME <= uri) then Malformed
    else
      var remainder := uri[|SCHEME|..];
      var bucket := UpTo(remainder, '/');
      if bucket == [] then Malformed
      else Address(bucket, NormalPrefix(if |bucket| < |remainder| then remainder[|bucket| + 1..] else []))
  }

  function PrintUri(a: Address): string
    requires a.Address?
  {
    SCHEME + a.bucket + "/" + a.prefix
  }

  /** What a printable address looks like: a slash-free bucket, and a prefix that is empty or
      ends in exactly one slash and does not start with one. */
  predicate Canonical(a: Address) {
    && a.Address? && a.bucket != [] && '/' !in a.bucket
    && (a.prefix == [] || (|a.prefix| >= 2 && a.prefix[0] != '/'
                           && a.prefix[|a.prefix| - 1] == '/' && a.prefix[|a.prefix| - 2] != '/'))
  }

  lemma UpToUnique(head: string, tail: string, c: char)
    requires c !in head
    ensures UpTo(head + [c] + tail, c) == head
  {
    var s := head + [c] + tail;
    var r := UpTo(s, c);
    assert forall i :: 0 <= i < |head| ==> s[i] == head[i] && s[i] in head;
    assert forall i :: 0 <= i < |r| ==> s[i] == r[i] && s[i] in r;
    assert s[|head|] == c;
    assert r == s[..|head|];
  }

  lemma NormalPrefixFixed(p: string)
    requires p == [] || (|p| >= 2 && p[0] != '/' && p[|p| - 1] == '/' && p[|p| - 2] != '/')
    ensures NormalPrefix(p) == p
  {
    if p != [] {
      StripRightUnique(p, p[..|p| - 1], '/');
    }
  }

  /** Whatever is accepted is canonical. */
  lemma ParsedIsCanonical(uri: string)
    requires ParseS3Uri(uri).Address?
    ensures Canonical(ParseS3Uri(uri))
  {
    var a := ParseS3Uri(uri);
    if a.prefix != [] {
      var remainder := uri[|SCHEME|..];
      var raw := if |a.bucket| < |remainder| then remainder[|a.bucket| + 1..] else [];
      var right := StripRight(raw, '/');
      var inner := StripLeft(right, '/');
      StripRightSpec(raw, '/');
      StripLeftSpec(right, '/');
      assert a.prefix == inner + "/";
      assert inner[|inner| - 1] == right[|right| - 1];
    }
  }

  /** Printing a canonical address and parsing it gives the address back. */
  lemma ParseInvertsPrint(a: Address)
    requires Canonical(a)
    ensures ParseS3Uri(PrintUri(a)) == a
  {
    var uri := PrintUri(a);
    var remainder := a.bucket + "/" + a.prefix;
    assert uri == SCHEME + remainder;
    assert uri[|SCHEME|..] == remainder;
    UpToUnique(a.bucket, a.prefix, '/');
    assert remainder[|a.bucket| + 1..] == a.prefix;
    NormalPrefixFixed(a.prefix);
  }

  /** Re-printing and re-parsing any accepted address is a fixed point. */
  lemma ReparseIsStable(uri: string)
    requires ParseS3Uri(uri).Address?
    ensures ParseS3Uri(PrintUri(ParseS3Uri(uri))) == ParseS3Uri(uri)
  {
    ParsedIsCanonical(uri);
    ParseInvertsPrint(ParseS3Uri(uri));
  }

  // ---- any spelling of an address -------------------------------------------

  /** Surrounding slashes of a prefix do not matter: it gets exactly one at its end. */
  lemma PrefixIsTrimmed(i: nat, p: string, j: nat)
    requires p != [] && p[0] != '/' && p[|p| - 1] != '/'
    ensures NormalPrefix(Repeat('/', i) + p + Repeat('/', j)) == p + "/"
  {
    var raw, inner := Repeat('/', i) + p + Repeat('/', j), Repeat('/', i) + p;
    assert inner == raw[..|inner|];
    assert forall k :: |inner| <= k < |raw| ==> raw[k] == Repeat('/', j)[k - |inner|];
    StripRightUnique(raw, inner, '/');
    StripLeftUnique(i, p, '/');
  }

  /** A URI with a prefix, whatever slashes surround it, names that prefix with one slash at its end. */
  lemma ParseTrimsPrefix(bucket: string, i: nat, p: string, j: nat)
    requires bucket != [] && '/' !in bucket && p != [] && p[0] != '/' && p[|p| - 1] != '/'
    ensures ParseS3Uri("s3://" + bucket + "/" + Repeat('/', i) + p + Repeat('/', j)) == Address(bucket, p + "/")
  {
    var tail := Repeat('/', i) + p + Repeat('/', j);
    var uri := "s3://" + bucket + "/" + Repeat('/', i) + p + Repeat('/', j);
    assert uri == "s3://" + (bucket + "/" + tail);
    ParseOfParts(bucket, tail);
    PrefixIsTrimmed(i, p, j);
  }

  lemma ParseOfParts(bucket: string, tail: string)
    requires bucket != [] && '/' !in bucket
    ensures ParseS3Uri("s3://" + (bucket + "/" + tail)) == Address(bucket, NormalPrefix(tail))
  {
    var remainder := bucket + "/" + tail;
    assert ("s3://" + remainder)[|SCHEME|..] == remainder;
    UpToUnique(bucket, tail, '/');
    assert remainder[|bucket| + 1..] == tail;
  }

  /** A bucket followed by nothing, or by slashes only, has the empty prefix. */
  lemma BucketAloneHasNoPrefix(bucket: string, i: nat)
    requires bucket != [] && '/' !in bucket
    ensures ParseS3Uri("s3://" + bucket) == Address(bucket, "")
    ensures ParseS3Uri("s3://" + bucket + "/" + Repeat('/', i)) == Address(bucket, "")
  {
    assert ("s3://" + bucket)[|SCHEME|..] == bucket;
    WholeIsUpTo(bucket, '/');
    assert "s3://" + bucket + "/" + Repeat('/', i) == "s3://" + (bucket + "/" + Repeat('/', i));
    ParseOfParts(bucket, Repeat('/', i));
    StripRightUnique(Repeat('/', i), [], '/');
  }

  lemma WholeIsUpTo(s: string, c: char)
    requires c !in s
    ensures UpTo(s, c) == s
  {
    assert forall k :: 0 <= k < |s| ==> s[k] in s;
  }

  /** A URI is refused exactly when its scheme is another one or its bucket is empty. */
  lemma MalformedExactly(uri: string)
    ensures ParseS3Uri(uri) == Malformed <==> !("s3://" <= uri) || uri == "s3://" || "s3:///" <= uri
  {
    if "s3://" <= uri {
      var remainder := uri[|SCHEME|..];
      assert uri == "s3://" + remainder;
      assert "s3:///" <= uri <==> remainder != [] && remainder[0] == '/';
      var bucket := UpTo(remainder, '/');
      assert bucket != [] ==> bucket[0] == remainder[0] && bucket[0] in bucket;
    }
  }
}
