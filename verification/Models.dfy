/** Message contracts, the template manifest and the error taxonomy. */
module Models {
  import opened Prelude
  import opened Text

  datatype OutputFormat = Pdf | Xlsx | Docx | Html {
    function Extension(): string {
      match this
      case Pdf => "pdf"
      case Xlsx => "xlsx"
      case Docx => "docx"
      case Html => "html"
    }
  }

  datatype Engine = JinjaHtml | XlsxEngine | DocxEngine | PdfForm

  // ---- errors ---------------------------------------------------------------

  datatype ErrorCode = ValidationError | TemplateNotFound | UnsupportedFormat | RenderFailed | StorageFailed {
    /** No retry can change the outcome. */
    predicate Permanent() {
      ValidationError? || TemplateNotFound? || UnsupportedFormat?
    }
  }

  /** A classified failure. */
  datatype DocGenError = DocGenError(code: ErrorCode, message: string)

  // ---- request --------------------------------------------------------------

  datatype Request = Request(
    requestId: string,
    templateUri: string,
    outputs: seq<OutputFormat>,
    data: map<string, Json>,
    keyPrefix: string,
    replyTo: string,
    locale: Option<string>,
    presignTtl: Option<nat>,
    metadata: map<string, Json>)

  // ---- result ---------------------------------------------------------------

  datatype Artifact = Artifact(
    format: OutputFormat,
    uri: string,
    presignedUrl: Option<string>,
    sizeBytes: nat,
    sha256: string)

  datatype ResultError = ResultError(code: ErrorCode, message: string, permanent: bool)

  datatype GenerationResult = GenerationResult(
    requestId: string,
    success: bool,
    artifacts: seq<Artifact>,
    error: Option<ResultError>,
    templateVersion: Option<string>,
    generatedAt: string,
    metadata: map<string, Json>)
  {
    /** A success, or a permanent failure. */
    predicate Terminal() {
      success || (error.Some? && error.value.permanent)
    }
  }

  function SuccessResult(req: Request, artifacts: seq<Artifact>, version: string, at: string): GenerationResult {
    GenerationResult(req.requestId, true, artifacts, None, Some(version), at, req.metadata)
  }

  function FailureResult(req: Request, error: ResultError, version: Option<string>, at: string): GenerationResult {
    GenerationResult(req.requestId, false, [], Some(error), version, at, req.metadata)
  }

  function FailureFromError(req: Request, e: DocGenError, version: Option<string>, at: string): GenerationResult {
    FailureResult(req, ResultError(e.code, e.message, e.code.Permanent()), version, at)
  }

  /** The result an unclassified exception is mapped to. */
  function UnhandledResult(req: Request, at: string): GenerationResult {
    FailureResult(req, ResultError(RenderFailed, "unhandled_worker_error", false), None, at)
  }

  // ---- manifest -------------------------------------------------------------

  datatype BlockSpec = BlockSpec(
    source: string,
    columns: seq<string>,
    anchor: Option<string>,
    anchorName: Option<string>,
    maxRows: Option<int>,
    hideUnusedRows: bool)

  /** A form field mapping: one field, or a comb of one-character boxes. */
  datatype Target = Field(name: string) | Comb(names: seq<string>)

  datatype Manifest = Manifest(
    id: string,
    version: string,
    engine: Engine,
    supportedFormats: seq<OutputFormat>,
    requiredFields: map<string, Json>,
    outputBasename: Option<string>,
    blocks: seq<BlockSpec>,
    fields: seq<(string, Target)>)

  function Lookup(j: Option<Json>, name: string): Option<Json> {
    if j.Some? && j.value.Obj? && name in j.value.members then Some(j.value.members[name]) else None
  }

  /** Rows reserved for a block: explicit, or the `maxItems` of its source in the schema; `None` when
      neither gives a positive number. A JSON `true` counts as the number one, as it does in Python. */
  function BlockCapacity(requiredFields: map<string, Json>, block: BlockSpec): (c: Option<int>)
    ensures c.Some? && (block.maxRows.Some? ==> block.maxRows.value >= 1) ==> c.value >= 1
  {
    if block.maxRows.Some? then block.maxRows
    else
      match Lookup(Lookup(Lookup(Some(Obj(requiredFields)), "properties"), block.source), "maxItems")
      case Some(Num(n)) => if n >= 1 then Some(n) else None
      case Some(Bool(b)) => if b then Some(1) else None
      case _ => None
  }

  /** A block that states its rows has that capacity; one that does not has the `maxItems` of its source in the schema
      if that is a positive number, and none if there is no such number. */
  lemma CapacitySpec(requiredFields: map<string, Json>, block: BlockSpec)
    ensures block.maxRows.Some? ==> BlockCapacity(requiredFields, block) == block.maxRows
    ensures block.maxRows.None? ==> forall n :: BlockCapacity(requiredFields, block) == Some(n) <==>
      n >= 1 && exists v :: SchemaLimit(requiredFields, block.source, v) && (v == Num(n) || (v == Bool(true) && n == 1))
  {
    var found := Lookup(Lookup(Lookup(Some(Obj(requiredFields)), "properties"), block.source), "maxItems");
    assert forall v :: SchemaLimit(requiredFields, block.source, v) <==> found == Some(v);
  }

  /** `v` stands at `properties`, the source, `maxItems` of the schema. */
  ghost predicate SchemaLimit(requiredFields: map<string, Json>, source: string, v: Json) {
    && "properties" in requiredFields && requiredFields["properties"].Obj?
    && var properties := requiredFields["properties"].members;
    && source in properties && properties[source].Obj?
    && "maxItems" in properties[source].members && properties[source].members["maxItems"] == v
  }

  /** What model validation accepts. */
  predicate ValidManifest(m: Manifest) {
    && m.supportedFormats != []
    && forall b <- m.blocks ::
         && b.columns != []
         && ((b.anchor.Some? && b.anchor.value != "") != (b.anchorName.Some? && b.anchorName.value != ""))
         && (b.maxRows.Some? ==> b.maxRows.value >= 1)
         && BlockCapacity(m.requiredFields, b).Some?
  }

  /** A validated manifest names a format, and each of its blocks a column, exactly one place to stand, and room for at
      least one row; a block that names no place, or two, is refused. */
  lemma ValidManifestSpec(m: Manifest, b: BlockSpec)
    requires b in m.blocks
    ensures ValidManifest(m) ==>
      |m.supportedFormats| >= 1 && |b.columns| >= 1
      && exists n :: n >= 1 && BlockCapacity(m.requiredFields, b) == Some(n)
    ensures b.anchor.Some? && |b.anchor.value| >= 1 && b.anchorName.Some? && |b.anchorName.value| >= 1 ==>
      !ValidManifest(m)
    ensures (b.anchor.Some? ==> |b.anchor.value| == 0) && (b.anchorName.Some? ==> |b.anchorName.value| == 0) ==>
      !ValidManifest(m)
  {
    if ValidManifest(m) {
      assert BlockCapacity(m.requiredFields, b) == Some(BlockCapacity(m.requiredFields, b).value);
    }
  }

  /** `s.rsplit(c, 1)[-1]` */
  function AfterLast(s: string, c: char): string {
    if s == [] || s[|s| - 1] == c then []
    else AfterLast(s[..|s| - 1], c) + [s[|s| - 1]]
  }

  lemma {:induction false} AfterLastOf(head: string, tail: string, c: char)
    requires c !in tail
    ensures AfterLast(head + [c] + tail, c) == tail
  {
    var s := head + [c] + tail;
    if tail == [] {
      assert s[|s| - 1] == c;
    } else {
      var n := |tail| - 1;
      assert s[|s| - 1] == tail[n] && tail[n] in tail;
      assert s[..|s| - 1] == head + [c] + tail[..n];
      AfterLastOf(head, tail[..n], c);
      assert tail == tail[..n] + [tail[n]];
    }
  }

  function OutputBasename(m: Manifest): string {
    if m.outputBasename.Some? && m.outputBasename.value != "" then m.outputBasename.value
    else AfterLast(m.id, '.')
  }

  function FilenameFor(m: Manifest, f: OutputFormat): string {
    OutputBasename(m) + "." + f.Extension()
  }

  /** Without an explicit basename, the part of the identifier behind its last dot names the files. */
  lemma DefaultBasename(m: Manifest, head: string, tail: string)
    requires m.outputBasename == None && '.' !in tail && (m.id == tail || m.id == head + "." + tail)
    ensures OutputBasename(m) == tail
  {
    if m.id == tail {
      AfterLastWhole(tail, '.');
    } else {
      AfterLastOf(head, tail, '.');
    }
  }

  /** A basename that is given and not empty names the files, with the format's own suffix. */
  lemma FilenameSpec(m: Manifest, base: string)
    requires base == OutputBasename(m)
    ensures m.outputBasename.Some? && m.outputBasename.value != "" ==> base == m.outputBasename.value
    ensures m.outputBasename == Some("") ==> base == OutputBasename(m.(outputBasename := None))
    ensures FilenameFor(m, Pdf) == base + ".pdf" && FilenameFor(m, Xlsx) == base + ".xlsx"
    ensures FilenameFor(m, Docx) == base + ".docx" && FilenameFor(m, Html) == base + ".html"
  {
    assert "." + "pdf" == ".pdf" && "." + "xlsx" == ".xlsx" && "." + "docx" == ".docx" && "." + "html" == ".html";
    forall f: OutputFormat
      ensures FilenameFor(m, f) == base + ("." + f.Extension())
    {
      assert base + "." + f.Extension() == base + ("." + f.Extension());
    }
  }

  lemma {:induction false} AfterLastWhole(s: string, c: char)
    requires c !in s
    ensures AfterLast(s, c) == s
  {
    if s != [] {
      var n := |s| - 1;
      assert s[n] in s && s == s[..n] + [s[n]];
      AfterLastWhole(s[..n], c);
    }
  }

  lemma StripLeftKeepsTail(s: string, tail: string, c: char)
    requires tail != [] && tail[0] != c
    ensures StripLeft(s + tail, c) == StripLeft(s, c) + tail
  {
    if s != [] && s[0] == c {
      assert (s + tail)[1..] == s[1..] + tail;
      StripLeftKeepsTail(s[1..], tail, c);
    }
  }

  lemma KeyEndsInExtension(prefix: string, base: string, ext: string)
    ensures BuildObjectKey(prefix, base + "." + ext)
         == StripRight(prefix, '/') + "/" + StripLeft(base, '/') + "." + ext
  {
    assert base + "." + ext == base + ("." + ext);
    StripLeftKeepsTail(base, "." + ext, '/');
    var p, b := StripRight(prefix, '/') + "/", StripLeft(base, '/');
    assert p + (b + ("." + ext)) == p + b + "." + ext;
  }

  lemma SameHeadSameTail(head: string, x: string, y: string)
    requires head + "." + x == head + "." + y
    ensures x == y
  {
    assert x == (head + "." + x)[|head| + 1..];
    assert y == (head + "." + y)[|head| + 1..];
  }

  lemma ExtensionsDiffer(f: OutputFormat, g: OutputFormat)
    requires f != g
    ensures f.Extension() != g.Extension()
  {
    assert f.Extension()[0] != g.Extension()[0];
  }

  /** Different formats of one request are stored under different keys, whatever the prefix and basename. */
  lemma FormatsHaveDistinctKeys(prefix: string, m: Manifest, f: OutputFormat, g: OutputFormat)
    requires f != g
    ensures BuildObjectKey(prefix, FilenameFor(m, f)) != BuildObjectKey(prefix, FilenameFor(m, g))
  {
    var base := OutputBasename(m);
    KeyEndsInExtension(prefix, base, f.Extension());
    KeyEndsInExtension(prefix, base, g.Extension());
    ExtensionsDiffer(f, g);
    var head := StripRight(prefix, '/') + "/" + StripLeft(base, '/');
    if head + "." + f.Extension() == head + "." + g.Extension() {
      SameHeadSameTail(head, f.Extension(), g.Extension());
    }
  }

  // ---- requested formats ----------------------------------------------------

  /** `r` lists the elements of `xs` once each, in the order of their first occurrence. */
  ghost predicate ListsFirstSeen<T(!new)>(xs: seq<T>, r: seq<T>) {
    && Distinct(r)
    && (forall x :: x in r <==> x in xs)
    && forall i, j :: 0 <= i < j < |r| ==> SeenBefore(xs, r[i], r[j])
  }

  /** Some occurrence of `x` precedes every occurrence of `y`. */
  ghost predicate SeenBefore<T(!new)>(xs: seq<T>, x: T, y: T) {
    exists i :: 0 <= i < |xs| && xs[i] == x && y !in xs[..i + 1]
  }

  function FirstSeen<T(==)>(xs: seq<T>): seq<T> {
    if xs == [] then []
    else
      var init := FirstSeen(xs[..|xs| - 1]);
      if xs[|xs| - 1] in init then init else init + [xs[|xs| - 1]]
  }

  lemma SeenBeforeExtends<T(!new)>(xs: seq<T>, z: T, x: T, y: T)
    requires SeenBefore(xs, x, y)
    ensures SeenBefore(xs + [z], x, y)
  {
    var i :| 0 <= i < |xs| && xs[i] == x && y !in xs[..i + 1];
    assert (xs + [z])[..i + 1] == xs[..i + 1];
    assert (xs + [z])[i] == x;
  }

  lemma {:induction false} FirstSeenSpec<T(!new)>(xs: seq<T>)
    ensures ListsFirstSeen(xs, FirstSeen(xs))
  {
    if xs != [] {
      var init, z := xs[..|xs| - 1], xs[|xs| - 1];
      FirstSeenSpec(init);
      assert xs == init + [z];
      var r := FirstSeen(xs);
      forall i, j | 0 <= i < j < |r| ensures SeenBefore(xs, r[i], r[j]) {
        if j < |FirstSeen(init)| {
          SeenBeforeExtends(init, z, r[i], r[j]);
        } else {
          assert r[i] in init;
          var k :| 0 <= k < |init| && init[k] == r[i];
          assert xs[..k + 1] == init[..k + 1];
          assert forall t :: t in init[..k + 1] ==> t in init;
          assert z !in init;
        }
      }
    }
  }

  /** Deduplication of the requested formats: a dictionary is filled in request order. */
  method RequestedFormats(outputs: seq<OutputFormat>) returns (seen: seq<OutputFormat>)
    ensures seen == FirstSeen(outputs)
    ensures ListsFirstSeen(outputs, seen)
  {
    seen := [];
    for i := 0 to |outputs|
      invariant seen == FirstSeen(outputs[..i])
    {
      assert outputs[..i + 1][..i] == outputs[..i];
      if outputs[i] !in seen {
        seen := seen + [outputs[i]];
      }
    }
    assert outputs[..|outputs|] == outputs;
    FirstSeenSpec(outputs);
  }
}
