/** Filling an AcroForm: data keys become field values, and comb boxes spell a value out character by character. */
module AcroForm {
  import opened Prelude
  import opened Models

  const OFF := "/Off"

  /** What the form declares about a field: its export states matter for buttons only. */
  datatype FieldInfo = FieldInfo(button: bool, states: seq<string>)

  /** Pure functions of Python: `str(value)`, and `strip().lower()`. */
  datatype Library = Library(str: Json -> string, fold: string -> string)

  function TextOf(lib: Library, v: Json): string {
    match v
    case Str(s) => s
    case _ => lib.str(v)
  }

  // ---- single values --------------------------------------------------------

  function IsChecked(lib: Library, v: Json): bool {
    match v
    case Str(s) => lib.fold(s) in {"true", "yes", "oui", "on", "1", "x"}
    case _ => v.Truthy()
  }

  function FirstOn(states: seq<string>): string {
    if states == [] then "/Yes" else if states[0] != OFF then states[0] else FirstOn(states[1..])
  }

  function Coerce(lib: Library, field: FieldInfo, v: Json): string {
    if field.button then (if IsChecked(lib, v) then FirstOn(field.states) else OFF)
    else
      match v
      case Null => ""
      case Bool(b) => if b then "Oui" else "Non"
      case _ => TextOf(lib, v)
  }

  /** The characters a comb spells. */
  function Spelled(lib: Library, v: Json): string {
    if v == Null then "" else TextOf(lib, v)
  }

  /** The content of one comb box. */
  function Box(text: string, position: nat): string {
    if position < |text| then [text[position]] else ""
  }

  // ---- the mapping ----------------------------------------------------------

  function NamesOf(target: Target): seq<string> {
    match target
    case Field(name) => [name]
    case Comb(names) => names
  }

  predicate AllDeclared(declared: map<string, FieldInfo>, target: Target) {
    forall name :: name in NamesOf(target) ==> name in declared
  }

  /** The boxes of a comb, later boxes over earlier ones of the same name. */
  function Spread(names: seq<string>, text: string): map<string, string> {
    if names == [] then map[]
    else
      var n := |names| - 1;
      Spread(names[..n], text)[names[n] := Box(text, n)]
  }

  /** What one supplied entry contributes. */
  function EntryValues(lib: Library, declared: map<string, FieldInfo>, target: Target, v: Json): map<string, string>
    requires AllDeclared(declared, target)
  {
    match target
    case Field(name) => assert name in NamesOf(target); map[name := Coerce(lib, declared[name], v)]
    case Comb(names) => Spread(names, Spelled(lib, v))
  }

  ghost predicate Complete(mapping: seq<(string, Target)>, declared: map<string, FieldInfo>) {
    forall i :: 0 <= i < |mapping| ==> AllDeclared(declared, mapping[i].1)
  }

  /** A mapping is complete when the form declares its every field and box. */
  lemma CompleteSpec(mapping: seq<(string, Target)>, declared: map<string, FieldInfo>)
    ensures Complete(mapping, declared) <==> forall i :: 0 <= i < |mapping| ==>
      match mapping[i].1
      case Field(name) => name in declared
      case Comb(names) => forall k :: 0 <= k < |names| ==> names[k] in declared
  {
    forall i | 0 <= i < |mapping|
      ensures AllDeclared(declared, mapping[i].1) <==>
        match mapping[i].1
        case Field(name) => name in declared
        case Comb(names) => forall k :: 0 <= k < |names| ==> names[k] in declared
    {
      var names := NamesOf(mapping[i].1);
      assert mapping[i].1.Field? ==> names[0] == mapping[i].1.name;
      assert forall k :: 0 <= k < |names| ==> names[k] in names;
    }
  }

  /** The values of all supplied entries, later entries over earlier ones. */
  ghost function Values(lib: Library, mapping: seq<(string, Target)>, declared: map<string, FieldInfo>,
                        data: map<string, Json>): map<string, string>
    requires Complete(mapping, declared)
  {
    if mapping == [] then map[]
    else
      var n := |mapping| - 1;
      var (key, target) := mapping[n];
      var before := Values(lib, mapping[..n], declared, data);
      if key in data then before + EntryValues(lib, declared, target, data[key]) else before
  }

  // ---- what a value shows ---------------------------------------------------

  /** A button's first state other than the off state, or `/Yes` when it has none. */
  ghost predicate OnState(states: seq<string>, r: string) {
    || (r != "/Off"
        && exists k :: 0 <= k < |states| && states[k] == r && forall j :: 0 <= j < k ==> states[j] == "/Off")
    || (r == "/Yes" && forall k :: 0 <= k < |states| ==> states[k] == "/Off")
  }

  lemma {:induction false} FirstOnIsOnState(states: seq<string>)
    ensures OnState(states, FirstOn(states))
  {
    if states != [] {
      FirstOnIsOnState(states[1..]);
      var r := FirstOn(states);
      if states[0] == OFF && !(forall k :: 0 <= k < |states| ==> states[k] == "/Off") {
        var k :| 0 <= k < |states[1..]| && states[1..][k] == r
              && forall j :: 0 <= j < k ==> states[1..][j] == "/Off";
        assert states[k + 1] == r;
        assert forall j :: 0 <= j < k + 1 ==> states[j] == "/Off";
      }
    }
  }

  /** The values that leave a box unchecked: null, false, zero and everything empty, and every string but six. */
  ghost predicate Unchecked(lib: Library, v: Json) {
    match v
    case Null => true
    case Bool(b) => !b
    case Num(n) => n == 0
    case Str(s) =>
      var word := lib.fold(s);
      word != "true" && word != "yes" && word != "oui" && word != "on" && word != "1" && word != "x"
    case List(items) => |items| == 0
    case Obj(members) => |members| == 0
  }

  /** What a field given the value `v` holds. */
  ghost predicate FieldShows(lib: Library, field: FieldInfo, v: Json, r: string) {
    if field.button then (if Unchecked(lib, v) then r == "/Off" else OnState(field.states, r))
    else
      match v
      case Null => r == ""
      case Bool(b) => r == (if b then "Oui" else "Non")
      case Str(s) => r == s
      case other => r == lib.str(other)
  }

  /** The text a comb given the value `v` spells. */
  ghost predicate CombText(lib: Library, v: Json, text: string) {
    match v
    case Null => text == ""
    case Str(s) => text == s
    case other => text == lib.str(other)
  }

  lemma CheckedSpec(lib: Library, v: Json)
    ensures IsChecked(lib, v) <==> !Unchecked(lib, v)
  {
    if v.Obj? { assert |v.members| == 0 <==> v.members == map[]; }
  }

  lemma CoerceShows(lib: Library, field: FieldInfo, v: Json)
    ensures FieldShows(lib, field, v, Coerce(lib, field, v))
  {
    CheckedSpec(lib, v);
    FirstOnIsOnState(field.states);
  }

  /** What the target of an entry with the value `v` holds: a field what the value shows there, and each of a comb's
      distinct boxes its character of the value's text, or nothing when the text is too short. */
  ghost predicate EntryShows(lib: Library, declared: map<string, FieldInfo>, target: Target, v: Json,
                             values: map<string, string>) {
    match target
    case Field(f) => f in declared && f in values && FieldShows(lib, declared[f], v, values[f])
    case Comb(names) => Distinct(names) ==> forall k :: 0 <= k < |names| ==> BoxShows(lib, names, k, v, values)
  }

  ghost predicate BoxShows(lib: Library, names: seq<string>, k: nat, v: Json, values: map<string, string>)
    requires k < |names|
  {
    names[k] in values
    && forall text :: CombText(lib, v, text) ==> values[names[k]] == if k < |text| then [text[k]] else ""
  }

  // ---- what the values mean -------------------------------------------------

  lemma {:induction false} SpreadKeys(names: seq<string>, text: string)
    ensures forall f :: f in Spread(names, text) <==> f in names
  {
    if names != [] {
      var n := |names| - 1;
      SpreadKeys(names[..n], text);
      assert names == names[..n] + [names[n]];
    }
  }

  /** The result speaks of exactly the targets of the supplied keys. */
  lemma {:induction false} DomainIsSuppliedTargets(lib: Library, mapping: seq<(string, Target)>,
                                                   declared: map<string, FieldInfo>, data: map<string, Json>, f: string)
    requires Complete(mapping, declared)
    ensures f in Values(lib, mapping, declared, data) <==>
      exists i :: 0 <= i < |mapping| && mapping[i].0 in data && f in NamesOf(mapping[i].1)
  {
    if mapping != [] {
      var n := |mapping| - 1;
      DomainIsSuppliedTargets(lib, mapping[..n], declared, data, f);
      if mapping[n].1.Comb? && mapping[n].0 in data {
        SpreadKeys(mapping[n].1.names, Spelled(lib, data[mapping[n].0]));
      }
      assert forall i :: 0 <= i < n ==> mapping[..n][i] == mapping[i];
    }
  }

  /** No field is the target of two different entries. */
  ghost predicate DisjointTargets(mapping: seq<(string, Target)>) {
    forall i, j, f :: 0 <= i < j < |mapping| && f in NamesOf(mapping[i].1) ==> f !in NamesOf(mapping[j].1)
  }

  /** With disjoint targets every supplied entry has its own values in the result. */
  lemma {:induction false} EntryKept(lib: Library, mapping: seq<(string, Target)>, declared: map<string, FieldInfo>,
                                     data: map<string, Json>, i: nat, f: string)
    requires Complete(mapping, declared) && DisjointTargets(mapping)
    requires i < |mapping| && mapping[i].0 in data && f in NamesOf(mapping[i].1)
    ensures f in EntryValues(lib, declared, mapping[i].1, data[mapping[i].0])
    ensures f in Values(lib, mapping, declared, data)
    ensures Values(lib, mapping, declared, data)[f] == EntryValues(lib, declared, mapping[i].1, data[mapping[i].0])[f]
  {
    var n := |mapping| - 1;
    var (key, target) := mapping[n];
    if target.Comb? && key in data { SpreadKeys(target.names, Spelled(lib, data[key])); }
    if i < n {
      EntryKept(lib, mapping[..n], declared, data, i, f);
      assert f !in NamesOf(target);
    }
  }

  lemma {:induction false} SpreadBox(names: seq<string>, text: string, k: nat)
    requires k < |names| && Distinct(names)
    ensures names[k] in Spread(names, text) && Spread(names, text)[names[k]] == Box(text, k)
  {
    var n := |names| - 1;
    if k < n { SpreadBox(names[..n], text, k); }
  }

  /** With disjoint targets every supplied entry shows its value. */
  lemma SuppliedEntryShows(lib: Library, mapping: seq<(string, Target)>, declared: map<string, FieldInfo>,
                           data: map<string, Json>, i: nat)
    requires Complete(mapping, declared) && DisjointTargets(mapping)
    requires i < |mapping| && mapping[i].0 in data
    ensures EntryShows(lib, declared, mapping[i].1, data[mapping[i].0], Values(lib, mapping, declared, data))
  {
    var target, v := mapping[i].1, data[mapping[i].0];
    assert AllDeclared(declared, target);
    match target
    case Field(f) =>
      assert f in NamesOf(target);
      EntryKept(lib, mapping, declared, data, i, f);
      CoerceShows(lib, declared[f], v);
    case Comb(names) =>
      if Distinct(names) {
        forall k | 0 <= k < |names|
          ensures BoxShows(lib, names, k, v, Values(lib, mapping, declared, data))
        {
          EntryKept(lib, mapping, declared, data, i, names[k]);
          SpreadBox(names, Spelled(lib, v), k);
        }
      }
  }

  // ---- the fill -------------------------------------------------------------

  method CheckDeclared(declared: map<string, FieldInfo>, target: Target) returns (ok: bool)
    ensures ok <==> AllDeclared(declared, target)
  {
    var names := NamesOf(target);
    for j := 0 to |names|
      invariant forall k :: 0 <= k < j ==> names[k] in declared
    {
      if names[j] !in declared { return false; }
    }
    ok := true;
  }

  /** One character per box, left-aligned, the rest cleared. */
  method SpreadOver(values: map<string, string>, names: seq<string>, text: string) returns (r: map<string, string>)
    ensures r == values + Spread(names, text)
  {
    r := values;
    for position := 0 to |names|
      invariant r == values + Spread(names[..position], text)
    {
      assert names[..position + 1][..position] == names[..position];
      r := r[names[position] := Box(text, position)];
    }
    assert names[..|names|] == names;
  }

  method ResolveEntry(lib: Library, values: map<string, string>, target: Target,
                      declared: map<string, FieldInfo>, v: Json)
    returns (r: map<string, string>)
    requires AllDeclared(declared, target)
    ensures r == values + EntryValues(lib, declared, target, v)
  {
    match target
    case Field(name) =>
      assert name in NamesOf(target);
      r := values[name := Coerce(lib, declared[name], v)];
    case Comb(names) => r := SpreadOver(values, names, Spelled(lib, v));
  }

  /**
   `_resolve_values`: one undeclared target fails the whole fill, whether its key is supplied or not; otherwise
   the result holds the values of the supplied entries.
   */
  method ResolveValues(lib: Library, mapping: seq<(string, Target)>, declared: map<string, FieldInfo>,
                       data: map<string, Json>) returns (values: Option<map<string, string>>)
    ensures values.Some? <==> Complete(mapping, declared)
    ensures values.Some? ==> values.value == Values(lib, mapping, declared, data)
    ensures values.Some? && DisjointTargets(mapping) ==> forall i :: 0 <= i < |mapping| && mapping[i].0 in data ==>
      EntryShows(lib, declared, mapping[i].1, data[mapping[i].0], values.value)
  {
    var found: map<string, string> := map[];
    for i := 0 to |mapping|
      invariant Complete(mapping[..i], declared)
      invariant found == Values(lib, mapping[..i], declared, data)
    {
      assert mapping[..i + 1][..i] == mapping[..i];
      var (key, target) := mapping[i];
      var ok := CheckDeclared(declared, target);
      if !ok { return None; }
      if key in data {
        found := ResolveEntry(lib, found, target, declared, data[key]);
      }
    }
    assert mapping[..|mapping|] == mapping;
    values := Some(found);
    if DisjointTargets(mapping) {
      forall i | 0 <= i < |mapping| && mapping[i].0 in data
        ensures EntryShows(lib, declared, mapping[i].1, data[mapping[i].0], found)
      {
        SuppliedEntryShows(lib, mapping, declared, data, i);
      }
    }
  }

  /** The boxes read one after the other. */
  function ReadBack(values: map<string, string>, names: seq<string>): string
    requires forall f :: f in names ==> f in values
  {
    if names == [] then ""
    else
      var n := |names| - 1;
      ReadBack(values, names[..n]) + values[names[n]]
  }

  function Truncated(text: string, boxes: nat): string {
    if |text| <= boxes then text else text[..boxes]
  }

  lemma BoxExtends(text: string, n: nat)
    ensures Truncated(text, n) + Box(text, n) == Truncated(text, n + 1)
  {
  }

  lemma {:induction false} BoxesSpell(values: map<string, string>, names: seq<string>, text: string)
    requires forall f :: f in names ==> f in values
    requires forall k :: 0 <= k < |names| ==> values[names[k]] == Box(text, k)
    ensures ReadBack(values, names) == Truncated(text, |names|)
  {
    if names != [] {
      var n := |names| - 1;
      assert forall k :: 0 <= k < n ==> names[..n][k] == names[k];
      BoxesSpell(values, names[..n], text);
      BoxExtends(text, n);
    }
  }

  /**
   Comb round trip: with disjoint targets and distinct boxes, reading the boxes back gives the value's text truncated
   to the number of boxes, which is the text itself when it fits.
   */
  lemma CombRoundTrip(lib: Library, mapping: seq<(string, Target)>, declared: map<string, FieldInfo>,
                      data: map<string, Json>, i: nat, text: string)
    requires Complete(mapping, declared) && DisjointTargets(mapping)
    requires i < |mapping| && mapping[i].0 in data && mapping[i].1.Comb? && Distinct(mapping[i].1.names)
    requires CombText(lib, data[mapping[i].0], text)
    ensures var names := mapping[i].1.names;
      && (forall f :: f in names ==> f in Values(lib, mapping, declared, data))
      && ReadBack(Values(lib, mapping, declared, data), names) == if |text| <= |names| then text else text[..|names|]
  {
    SuppliedEntryShows(lib, mapping, declared, data, i);
    BoxesReadBack(lib, mapping[i].1.names, data[mapping[i].0], text, Values(lib, mapping, declared, data));
  }

  /** Boxes that show a value read back its text. */
  lemma BoxesReadBack(lib: Library, names: seq<string>, v: Json, text: string, values: map<string, string>)
    requires CombText(lib, v, text) && forall k :: 0 <= k < |names| ==> BoxShows(lib, names, k, v, values)
    ensures forall f :: f in names ==> f in values
    ensures ReadBack(values, names) == if |text| <= |names| then text else text[..|names|]
  {
    forall k | 0 <= k < |names|
      ensures names[k] in values && values[names[k]] == Box(text, k)
    {
      assert BoxShows(lib, names, k, v, values);
    }
    BoxesSpell(values, names, text);
  }

  lemma {:induction false} SpreadSingle(names: seq<string>, text: string)
    requires |names| <= |text|
    ensures forall f :: f in names ==> f in Spread(names, text) && |Spread(names, text)[f]| == 1
  {
    if names != [] {
      var n := |names| - 1;
      SpreadSingle(names[..n], text);
      assert names == names[..n] + [names[n]];
    }
  }

  lemma {:induction false} ReadBackAt(values: map<string, string>, names: seq<string>, k: nat)
    requires forall f :: f in names ==> f in values && |values[f]| == 1
    requires k < |names|
    ensures |ReadBack(values, names)| == |names| && ReadBack(values, names)[k] == values[names[k]][0]
  {
    var n := |names| - 1;
    if n > 0 { ReadBackAt(values, names[..n], if k < n then k else 0); }
  }

  /** A comb reads back every fitting value exactly when no box is named twice. */
  lemma RoundTripExactlyWhenDistinct(names: seq<string>)
    ensures Distinct(names) <==>
      forall text: string :: |text| <= |names| ==> ReadsBack(names, text)
  {
    if Distinct(names) {
      forall text: string | |text| <= |names|
        ensures ReadsBack(names, text)
      {
        SpreadKeys(names, text);
        forall k | 0 <= k < |names|
          ensures Spread(names, text)[names[k]] == Box(text, k)
        {
          SpreadBox(names, text, k);
        }
        BoxesSpell(Spread(names, text), names, text);
      }
    } else {
      var i, j :| 0 <= i < j < |names| && names[i] == names[j];
      var text := seq(|names|, k => if k == i then 'a' else 'b');
      SpreadSingle(names, text);
      ReadBackAt(Spread(names, text), names, i);
      ReadBackAt(Spread(names, text), names, j);
      assert text[i] != text[j];
      assert !ReadsBack(names, text);
    }
  }

  ghost predicate ReadsBack(names: seq<string>, text: string) {
    SpreadKeys(names, text);
    ReadBack(Spread(names, text), names) == text
  }

  // ---- the document ---------------------------------------------------------

  /** A fillable PDF: the fields with their values, and the fields shown on each page. */
  class FormDocument {
    const declared: map<string, FieldInfo>
    const pages: seq<set<string>>
    var fields: map<string, string>

    constructor (declared: map<string, FieldInfo>, pages: seq<set<string>>, fields: map<string, string>)
      ensures this.declared == declared && this.pages == pages && this.fields == fields
    {
      this.declared, this.pages, this.fields := declared, pages, fields;
    }

    /** Shown on one of the first `n` pages. */
    ghost predicate Shown(f: string, n: nat)
      requires n <= |pages|
    {
      exists k :: 0 <= k < n && f in pages[k]
    }

    /** The value of `f` after the given values went over the first `n` pages. */
    ghost predicate Updated(before: map<string, string>, values: map<string, string>, n: nat)
      reads this
      requires n <= |pages|
    {
      && fields.Keys == before.Keys
      && forall f :: f in fields ==> fields[f] == if f in values && Shown(f, n) then values[f] else before[f]
    }

    /** All fields of the target are there and shown. */
    ghost predicate Visible(target: Target, before: map<string, string>) {
      forall f :: f in NamesOf(target) ==> f in before && Shown(f, |pages|)
    }

    /**
     `_render`: a form without fields, or with an undeclared target, is a missing template and stays as it was;
     otherwise every field that is mapped, supplied and shown gets its value and all others keep theirs. With disjoint
     targets every supplied entry whose fields are shown then shows its value in the document.
     */
    method Render(lib: Library, m: Manifest, data: map<string, Json>) returns (failure: Option<ErrorCode>)
      modifies this
      ensures failure == None <==> declared != map[] && Complete(m.fields, declared)
      ensures failure.Some? ==> failure == Some(TemplateNotFound) && fields == old(fields)
      ensures failure == None ==> Updated(old(fields), Values(lib, m.fields, declared, data), |pages|)
      ensures failure == None && DisjointTargets(m.fields) ==>
        forall i :: 0 <= i < |m.fields| && m.fields[i].0 in data && Visible(m.fields[i].1, old(fields)) ==>
          EntryShows(lib, declared, m.fields[i].1, data[m.fields[i].0], fields)
    {
      if declared == map[] { return Some(TemplateNotFound); }
      var values := ResolveValues(lib, m.fields, declared, data);
      if values == None { return Some(TemplateNotFound); }
      failure := None;
      for n := 0 to |pages|
        invariant Updated(old(fields), values.value, n)
      {
        fields := map f | f in fields :: if f in pages[n] && f in values.value then values.value[f] else fields[f];
      }
      if DisjointTargets(m.fields) {
        forall i | 0 <= i < |m.fields| && m.fields[i].0 in data && Visible(m.fields[i].1, old(fields))
          ensures EntryShows(lib, declared, m.fields[i].1, data[m.fields[i].0], fields)
        {
          VisibleEntryShows(this, lib, m.fields[i].1, data[m.fields[i].0], values.value, old(fields));
        }
      }
    }
  }

  /** Shown fields of the document hold the values given for them. */
  lemma VisibleEntryShows(doc: FormDocument, lib: Library, target: Target, v: Json, values: map<string, string>,
                          before: map<string, string>)
    requires doc.Updated(before, values, |doc.pages|) && doc.Visible(target, before)
    requires EntryShows(lib, doc.declared, target, v, values)
    ensures EntryShows(lib, doc.declared, target, v, doc.fields)
  {
    match target
    case Field(f) => assert f in NamesOf(target);
    case Comb(names) =>
      if Distinct(names) {
        forall k | 0 <= k < |names|
          ensures BoxShows(lib, names, k, v, doc.fields)
        {
          assert names[k] in NamesOf(target) && BoxShows(lib, names, k, v, values);
        }
      }
  }

  /** A field that no supplied entry names, or that no page shows, keeps its value. */
  lemma DocumentKept(doc: FormDocument, before: map<string, string>, lib: Library, m: Manifest,
                     data: map<string, Json>, f: string)
    requires Complete(m.fields, doc.declared) && f in before
    requires doc.Updated(before, Values(lib, m.fields, doc.declared, data), |doc.pages|)
    requires !doc.Shown(f, |doc.pages|) || forall i :: 0 <= i < |m.fields| && m.fields[i].0 in data ==>
      match m.fields[i].1 case Field(name) => f != name case Comb(names) => f !in names
    ensures f in doc.fields && doc.fields[f] == before[f]
  {
    DomainIsSuppliedTargets(lib, m.fields, doc.declared, data, f);
  }
}
