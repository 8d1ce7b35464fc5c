/** Deterministic repacking of an OOXML package: entry order, entry dates and timestamps are normalised. */
module Ooxml {
  import opened Prelude
  import opened Timestamps
  import opened CoreProperties

  /** A zip member. */
  datatype Entry = Entry(name: string, date: (int, int, int, int, int, int), data: Bytes)

  const FIXED_ZIP_DATE := (1980, 1, 1, 0, 0, 0)
  const CORE_PROPS := "docProps/core.xml"
  const CONTENT_TYPES := "[Content_Types].xml"

  // ---- order of names -------------------------------------------------------

  /** Strict order by code points. */
  predicate Less(a: string, b: string) {
    b != [] && (a == [] || a[0] < b[0] || (a[0] == b[0] && Less(a[1..], b[1..])))
  }

  lemma LessIsStrict(a: string, b: string)
    ensures !(Less(a, b) && Less(b, a)) && !Less(a, a)
  {
  }

  lemma LessIsTransitive(a: string, b: string, c: string)
    requires Less(a, b) && Less(b, c)
    ensures Less(a, c)
  {
  }

  lemma {:induction false} LessIsTotal(a: string, b: string)
    ensures a == b || Less(a, b) || Less(b, a)
  {
    if a != [] && b != [] && a[0] == b[0] {
      LessIsTotal(a[1..], b[1..]);
      assert a == [a[0]] + a[1..] && b == [b[0]] + b[1..];
    }
  }

  /** `a` comes before `b` by code points: the first difference decides, and a name comes before its extensions. */
  ghost predicate Precedes(a: string, b: string) {
    exists k :: 0 <= k <= |a| && k < |b| && a[..k] == b[..k] && (k == |a| || a[k] < b[k])
  }

  lemma {:induction false} LessAt(a: string, b: string, k: nat)
    requires k <= |a| && k < |b| && a[..k] == b[..k] && (k == |a| || a[k] < b[k])
    ensures Less(a, b)
  {
    if k > 0 {
      assert a[0] == a[..k][0] && b[0] == b[..k][0];
      assert a[1..][..k - 1] == a[..k][1..] && b[1..][..k - 1] == b[..k][1..];
      LessAt(a[1..], b[1..], k - 1);
    }
  }

  lemma {:induction false} FirstDifference(a: string, b: string) returns (k: nat)
    requires Less(a, b)
    ensures k <= |a| && k < |b| && a[..k] == b[..k] && (k == |a| || a[k] < b[k])
  {
    k := 0;
    if a != [] && a[0] == b[0] {
      k := FirstDifference(a[1..], b[1..]);
      assert a[..k + 1] == [a[0]] + a[1..][..k] && b[..k + 1] == [b[0]] + b[1..][..k];
      k := k + 1;
    }
  }

  /** The recursive comparison is the order by code points. */
  lemma LessIsPrecedes(a: string, b: string)
    ensures Less(a, b) <==> Precedes(a, b)
  {
    if Less(a, b) {
      var k := FirstDifference(a, b);
    } else if Precedes(a, b) {
      var k :| 0 <= k <= |a| && k < |b| && a[..k] == b[..k] && (k == |a| || a[k] < b[k]);
      LessAt(a, b, k);
    }
  }

  ghost predicate Sorted(xs: seq<string>) {
    forall i, j :: 0 <= i < j < |xs| ==> Less(xs[i], xs[j])
  }

  function Insert(x: string, xs: seq<string>): seq<string> {
    if xs == [] then [x]
    else if x == xs[0] then xs
    else if Less(x, xs[0]) then [x] + xs
    else [xs[0]] + Insert(x, xs[1..])
  }

  function SortNames(xs: seq<string>): seq<string> {
    if xs == [] then [] else Insert(xs[0], SortNames(xs[1..]))
  }

  lemma {:induction false} InsertSorted(x: string, xs: seq<string>)
    requires Sorted(xs)
    ensures Sorted(Insert(x, xs)) && forall y :: y in Insert(x, xs) <==> y == x || y in xs
  {
    if xs != [] && x != xs[0] {
      if Less(x, xs[0]) {
        forall j | 0 <= j < |xs| ensures Less(x, xs[j]) {
          if j > 0 { LessIsTransitive(x, xs[0], xs[j]); }
        }
      } else {
        LessIsTotal(x, xs[0]);
        InsertSorted(x, xs[1..]);
        var rest := Insert(x, xs[1..]);
        assert forall y :: y in xs <==> y == xs[0] || y in xs[1..];
        forall j | 0 <= j < |rest| ensures Less(xs[0], rest[j]) {
          assert rest[j] in rest;
          if rest[j] != x {
            var i :| 0 <= i < |xs[1..]| && xs[1..][i] == rest[j];
            assert xs[i + 1] == rest[j];
          }
        }
      }
    }
  }

  lemma {:induction false} SortNamesSpec(xs: seq<string>)
    ensures Sorted(SortNames(xs)) && forall y :: y in SortNames(xs) <==> y in xs
  {
    if xs != [] {
      SortNamesSpec(xs[1..]);
      InsertSorted(xs[0], SortNames(xs[1..]));
      assert forall y :: y in xs <==> y == xs[0] || y in xs[1..];
    }
  }

  /** There is only one sorted listing of a set of names. */
  lemma {:induction false} SortedListingIsUnique(xs: seq<string>, ys: seq<string>)
    requires Sorted(xs) && Sorted(ys) && forall z :: z in xs <==> z in ys
    ensures xs == ys
  {
    if xs == [] {
      assert forall i :: 0 <= i < |ys| ==> ys[i] in ys;
    } else {
      assert xs[0] in xs;
      var k :| 0 <= k < |ys| && ys[k] == xs[0];
      assert ys[0] in ys;
      var i :| 0 <= i < |xs| && xs[i] == ys[0];
      LessIsStrict(xs[0], ys[0]);
      assert xs[0] == ys[0];
      forall z ensures z in xs[1..] <==> z in ys[1..] {
        LessIsStrict(xs[0], xs[0]);
        assert z in xs <==> z == xs[0] || z in xs[1..];
        assert z in ys <==> z == ys[0] || z in ys[1..];
        assert xs[0] !in xs[1..] && ys[0] !in ys[1..];
      }
      SortedListingIsUnique(xs[1..], ys[1..]);
    }
  }

  // ---- the repacked package -------------------------------------------------

  /** The members by name; the last entry of a name is the one that is read. */
  function Members(entries: seq<Entry>): map<string, Bytes> {
    if entries == [] then map[]
    else Members(entries[..|entries| - 1])[entries[|entries| - 1].name := entries[|entries| - 1].data]
  }

  /** What a member's bytes become. */
  function Content(name: string, data: Bytes): Bytes {
    if name == CORE_PROPS then FixTimestamps(data) else data
  }

  function HeadCount(members: map<string, Bytes>): nat {
    if CONTENT_TYPES in members then 1 else 0
  }

  /** The names behind the content types. */
  function Others(members: map<string, Bytes>, names: seq<string>): seq<string> {
    if HeadCount(members) <= |names| then names[HeadCount(members)..] else []
  }

  /** The content types first, if there are any, then all other names, each once and sorted. */
  ghost predicate InOrder(members: map<string, Bytes>, names: seq<string>) {
    && HeadCount(members) <= |names| && (HeadCount(members) == 1 ==> names[0] == CONTENT_TYPES)
    && Sorted(Others(members, names))
    && forall z :: z in Others(members, names) <==> z in members && z != CONTENT_TYPES
  }

  function Names(out: seq<Entry>): seq<string> {
    seq(|out|, i requires 0 <= i < |out| => out[i].name)
  }

  function Repacked(members: map<string, Bytes>, name: string): Entry
    requires name in members
  {
    Entry(name, FIXED_ZIP_DATE, Content(name, members[name]))
  }

  /** Each member once and in order, with the fixed date and its canonical bytes. */
  ghost predicate Canonical(members: map<string, Bytes>, out: seq<Entry>) {
    InOrder(members, Names(out)) && WrittenFrom(members, out)
  }

  lemma OrderIsUnique(members: map<string, Bytes>, xs: seq<string>, ys: seq<string>)
    requires InOrder(members, xs) && InOrder(members, ys)
    ensures xs == ys
  {
    var k := HeadCount(members);
    SortedListingIsUnique(Others(members, xs), Others(members, ys));
    assert xs == xs[..k] + xs[k..] && ys == ys[..k] + ys[k..];
  }

  /** The repacked package is determined by the members. */
  lemma CanonicalIsUnique(members: map<string, Bytes>, a: seq<Entry>, b: seq<Entry>)
    requires Canonical(members, a) && Canonical(members, b)
    ensures a == b
  {
    OrderIsUnique(members, Names(a), Names(b));
    assert |a| == |Names(a)| && |b| == |Names(b)|;
    forall i | 0 <= i < |a| ensures a[i] == b[i] {
      assert Names(a)[i] == a[i].name && Names(b)[i] == b[i].name;
    }
  }

  lemma SortedIsDistinct(xs: seq<string>)
    requires Sorted(xs)
    ensures Distinct(xs)
  {
    forall i, j | 0 <= i < j < |xs| ensures xs[i] != xs[j] {
      LessIsStrict(xs[i], xs[j]);
    }
  }

  lemma OrderIsDistinct(members: map<string, Bytes>, names: seq<string>)
    requires InOrder(members, names)
    ensures Distinct(names)
  {
    var k, tail := HeadCount(members), Others(members, names);
    SortedIsDistinct(tail);
    forall i, j | 0 <= i < j < |names| ensures names[i] != names[j] {
      assert names[j] == tail[j - k];
      if i >= k {
        assert names[i] == tail[i - k];
      } else {
        assert tail[j - k] in tail;
      }
    }
  }

  lemma EveryMemberListed(members: map<string, Bytes>, names: seq<string>)
    requires InOrder(members, names)
    ensures forall z :: z in names <==> z in members
  {
    var k, tail := HeadCount(members), Others(members, names);
    assert names == names[..k] + tail;
    forall z ensures z in names <==> z in members {
      assert z in names <==> z in names[..k] || z in tail;
    }
  }

  /** Keys of a dictionary in insertion order. */
  method ReadMembers(entries: seq<Entry>) returns (members: map<string, Bytes>, keys: seq<string>)
    ensures members == Members(entries)
    ensures forall name :: name in keys <==> name in members
  {
    members, keys := map[], [];
    for i := 0 to |entries|
      invariant members == Members(entries[..i])
      invariant forall name :: name in keys <==> name in members
    {
      assert entries[..i + 1][..i] == entries[..i];
      if entries[i].name !in members {
        keys := keys + [entries[i].name];
      }
      members := members[entries[i].name := entries[i].data];
    }
    assert entries[..|entries|] == entries;
  }

  /** The order in which the members are written. */
  method OrderMembers(members: map<string, Bytes>, keys: seq<string>) returns (ordered: seq<string>)
    requires forall name :: name in keys <==> name in members
    ensures InOrder(members, ordered)
  {
    var others := [];
    for i := 0 to |keys|
      invariant forall name :: name in others <==> name in keys[..i] && name != CONTENT_TYPES
    {
      assert keys[..i + 1] == keys[..i] + [keys[i]];
      if keys[i] != CONTENT_TYPES {
        others := others + [keys[i]];
      }
    }
    assert keys[..|keys|] == keys;
    SortNamesSpec(others);
    var head := if CONTENT_TYPES in members then [CONTENT_TYPES] else [];
    ordered := head + SortNames(others);
    assert Others(members, ordered) == SortNames(others);
  }

  /** The bytes written for one member. */
  method FixMember(name: string, data: Bytes) returns (fixed: Bytes)
    ensures fixed == Content(name, data)
  {
    fixed := data;
    if name == CORE_PROPS {
      CreatedIsTag();
      ModifiedIsTag();
      fixed := Substitute(CREATED, fixed);
      fixed := Substitute(MODIFIED, fixed);
    }
  }

  ghost predicate WrittenFrom(members: map<string, Bytes>, out: seq<Entry>) {
    forall i :: 0 <= i < |out| ==> out[i].name in members && out[i] == Repacked(members, out[i].name)
  }

  /** Write the members in the given order. */
  method WriteMembers(members: map<string, Bytes>, ordered: seq<string>) returns (out: seq<Entry>)
    requires forall name :: name in ordered ==> name in members
    ensures Names(out) == ordered && WrittenFrom(members, out)
  {
    out := [];
    for i := 0 to |ordered|
      invariant Names(out) == ordered[..i] && WrittenFrom(members, out)
    {
      var name := ordered[i];
      assert name in ordered;
      var data := FixMember(name, members[name]);
      var entry := Entry(name, FIXED_ZIP_DATE, data);
      assert entry == Repacked(members, name);
      assert Names(out + [entry]) == Names(out) + [name];
      assert ordered[..i + 1] == ordered[..i] + [name];
      out := out + [entry];
    }
    assert ordered[..|ordered|] == ordered;
  }

  lemma NamesAreSorted(members: map<string, Bytes>, names: seq<string>, i: nat, j: nat)
    requires InOrder(members, names) && HeadCount(members) <= i < j < |names|
    ensures Less(names[i], names[j])
  {
    var k, tail := HeadCount(members), Others(members, names);
    assert tail[i - k] == names[i] && tail[j - k] == names[j];
  }

  /** Of two later names of a repacked package the one written first precedes the other by code points. */
  lemma RepackedInOrder(members: map<string, Bytes>, out: seq<Entry>, i: nat, j: nat)
    requires Canonical(members, out) && i < j < |out|
    ensures i > 0 || "[Content_Types].xml" !in members ==> Precedes(out[i].name, out[j].name)
  {
    if HeadCount(members) <= i {
      NamesAreSorted(members, Names(out), i, j);
      LessIsPrecedes(Names(out)[i], Names(out)[j]);
    }
  }

  /** Every entry of a repacked package has the first of January 1980 for its date and the member's own bytes, except
      for the core properties. */
  lemma RepackedEntry(members: map<string, Bytes>, out: seq<Entry>, i: nat)
    requires Canonical(members, out) && i < |out|
    ensures out[i].name in members && out[i].date == (1980, 1, 1, 0, 0, 0)
    ensures out[i].data == if out[i].name == "docProps/core.xml" then FixTimestamps(members[out[i].name])
                           else members[out[i].name]
  {
    assert WrittenFrom(members, out);
  }

  /** `normalise_ooxml_bytes`: the content types first if there are any, and the later names by code points. */
  method NormalisePackage(entries: seq<Entry>) returns (out: seq<Entry>)
    ensures Canonical(Members(entries), out)
    ensures "[Content_Types].xml" in Members(entries) ==> out != [] && out[0].name == "[Content_Types].xml"
    ensures forall i, j :: 0 <= i < j < |out| && (i > 0 || "[Content_Types].xml" !in Members(entries)) ==>
      Precedes(out[i].name, out[j].name)
  {
    var members, keys := ReadMembers(entries);
    var ordered := OrderMembers(members, keys);
    EveryMemberListed(members, ordered);
    out := WriteMembers(members, ordered);
    assert ordered != [] ==> out[0].name == ordered[0];
    forall i, j | 0 <= i < j < |out| && (i > 0 || "[Content_Types].xml" !in members)
      ensures Precedes(out[i].name, out[j].name)
    {
      RepackedInOrder(members, out, i, j);
    }
  }

  // ---- canonicity -----------------------------------------------------------

  /** Same members, byte for byte, except for the timestamp text in the core properties. */
  ghost predicate SameUpToTimestamps(a: map<string, Bytes>, b: map<string, Bytes>) {
    && a.Keys == b.Keys
    && forall name :: name in a ==>
         if name == CORE_PROPS then Pieces(a[name]) == Pieces(b[name]) else a[name] == b[name]
  }

  lemma MembersOfCanonical(members: map<string, Bytes>, out: seq<Entry>, name: string)
    requires Canonical(members, out) && name in members
    ensures exists i :: 0 <= i < |out| && out[i] == Repacked(members, name)
  {
    EveryMemberListed(members, Names(out));
    var i :| 0 <= i < |Names(out)| && Names(out)[i] == name;
    assert out[i] == Repacked(members, name);
  }

  lemma CanonicalCarriesOver(a: map<string, Bytes>, b: map<string, Bytes>, out: seq<Entry>)
    requires a.Keys == b.Keys && Canonical(b, out)
    requires forall name :: name in a ==> Content(name, a[name]) == Content(name, b[name])
    ensures Canonical(a, out)
  {
    assert InOrder(a, Names(out)) by {
      assert forall z :: z in a <==> z in b;
    }
  }

  /** Two packages are repacked to the same entries exactly when they have the same members up to entry order,
      entry dates, shadowed duplicates and the text inside matched timestamp elements. */
  lemma SamePackageExactlyWhenSameMembers(a: map<string, Bytes>, b: map<string, Bytes>, x: seq<Entry>, y: seq<Entry>)
    requires Canonical(a, x) && Canonical(b, y)
    ensures x == y <==> SameUpToTimestamps(a, b)
  {
    if SameUpToTimestamps(a, b) {
      forall name | name in a ensures Content(name, a[name]) == Content(name, b[name]) {
        if name == CORE_PROPS { SameFormExactlyWhenSamePieces(a[name], b[name]); }
      }
      CanonicalCarriesOver(a, b, y);
      CanonicalIsUnique(a, x, y);
    }
    if x == y {
      EveryMemberListed(a, Names(x));
      EveryMemberListed(b, Names(y));
      forall name | name in a
        ensures if name == CORE_PROPS then Pieces(a[name]) == Pieces(b[name]) else a[name] == b[name]
      {
        MembersOfCanonical(a, x, name);
        if name == CORE_PROPS { SameFormExactlyWhenSamePieces(a[name], b[name]); }
      }
    }
  }

  lemma {:induction false} MembersByName(out: seq<Entry>)
    requires Distinct(Names(out))
    ensures forall name :: name in Members(out) <==> name in Names(out)
    ensures forall i :: 0 <= i < |out| ==> out[i].name in Members(out) && Members(out)[out[i].name] == out[i].data
    ensures |Members(out)| == |out|
  {
    if out != [] {
      var init, last := out[..|out| - 1], out[|out| - 1];
      assert Names(out) == Names(init) + [last.name];
      assert forall i :: 0 <= i < |init| ==> Names(out)[i] == Names(init)[i];
      MembersByName(init);
      forall i | 0 <= i < |init| ensures Names(init)[i] != last.name {
        assert Names(out)[|init|] == last.name;
      }
      assert Members(out) == Members(init)[last.name := last.data];
      forall i | 0 <= i < |out| ensures out[i].name in Members(out) && Members(out)[out[i].name] == out[i].data {
        if i < |init| { assert init[i] == out[i] && Names(init)[i] == out[i].name; }
      }
    }
  }

  lemma RepackedNames(members: map<string, Bytes>, out: seq<Entry>)
    requires InOrder(members, Names(out))
    ensures Distinct(Names(out)) && Members(out).Keys == members.Keys && |out| == |members|
  {
    EveryMemberListed(members, Names(out));
    OrderIsDistinct(members, Names(out));
    MembersByName(out);
    SameKeys(members, Members(out));
  }

  lemma SameKeys(a: map<string, Bytes>, b: map<string, Bytes>)
    requires forall z :: z in a <==> z in b
    ensures a.Keys == b.Keys && |a| == |b|
  {
    assert a.Keys == b.Keys;
    assert |a| == |a.Keys| && |b| == |b.Keys|;
  }

  /** Each member occurs exactly once in the repacked package, which reads back as the canonical members. */
  lemma RepackedReadsBack(members: map<string, Bytes>, out: seq<Entry>)
    requires Canonical(members, out)
    ensures Distinct(Names(out)) && |out| == |members|
    ensures Members(out).Keys == members.Keys
    ensures forall name :: name in members ==> Members(out)[name] == Content(name, members[name])
  {
    RepackedNames(members, out);
    forall name | name in members ensures Members(out)[name] == Content(name, members[name]) {
      ReadBack(members, out, name);
    }
  }

  lemma ReadBack(members: map<string, Bytes>, out: seq<Entry>, name: string)
    requires Canonical(members, out) && Distinct(Names(out)) && name in members
    ensures name in Members(out) && Members(out)[name] == Content(name, members[name])
  {
    MembersOfCanonical(members, out, name);
    var i :| 0 <= i < |out| && out[i] == Repacked(members, name);
    MembersByName(out);
  }

  /** Repacking a repacked package changes nothing. */
  lemma RepackingIsIdempotent(members: map<string, Bytes>, out: seq<Entry>, again: seq<Entry>)
    requires Canonical(members, out) && Canonical(Members(out), again)
    ensures again == out
  {
    RepackedReadsBack(members, out);
    var twice := Members(out);
    forall name | name in twice ensures Content(name, twice[name]) == Content(name, members[name]) {
      if name == CORE_PROPS { FixTimestampsIsIdempotent(members[name]); }
    }
    CanonicalCarriesOver(twice, members, out);
    CanonicalIsUnique(twice, out, again);
  }
}
