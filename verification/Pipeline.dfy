/**
 The fault-free document pipeline: fetch, check formats, validate, render, store.

 The collaborators are the fields of a `World`: rendering, validation, decoding, hashing and the
 (immutable) template source are pure but otherwise arbitrary functions.
 `Outcome` says what the pipeline decides when nothing fails; everything that can go wrong at run
 time is added in module `Handler`.
 */
module Pipeline {
  import opened Prelude
  import opened Text
  import opened Models

  datatype Bundle = Bundle(manifest: Manifest, files: map<seq<string>, Bytes>)

  datatype FetchOutcome = Found(bundle: Bundle) | Missing(message: string)

  datatype ValidateOutcome = Valid | Invalid(message: string) | ValidatorBroke

  /** What a renderer does: bytes, a classified error of its own, or any other exception. */
  datatype RenderOutcome = Produced(content: Bytes) | Classified(e: DocGenError) | RendererBroke(text: string)

  /** A rendered artifact on its way to the output bucket. */
  datatype Rendered = Rendered(format: OutputFormat, filename: string, content: Bytes)

  datatype World = World(
    decode: Bytes -> Option<Request>,
    template: string -> FetchOutcome,
    validate: (map<string, Json>, map<string, Json>) -> ValidateOutcome,
    render: (Bundle, map<string, Json>, OutputFormat, Option<string>) -> RenderOutcome,
    sha256: Bytes -> string,
    outputBucket: string)

  // ---- formats --------------------------------------------------------------

  /** The renderer table: which formats each engine can produce. */
  predicate HasRenderer(e: Engine, f: OutputFormat) {
    match e
    case JinjaHtml => f.Pdf? || f.Html?
    case XlsxEngine => f.Xlsx?
    case DocxEngine => f.Docx?
    case PdfForm => f.Pdf?
  }

  predicate Supported(m: Manifest, f: OutputFormat) {
    f in m.supportedFormats && HasRenderer(m.engine, f)
  }

  function UnsupportedError(m: Manifest, f: OutputFormat): DocGenError {
    if f !in m.supportedFormats
    then DocGenError(UnsupportedFormat, "format " + f.Extension() + " not in template supported_formats")
    else DocGenError(UnsupportedFormat, "no renderer for the template's engine + format " + f.Extension())
  }

  /** The first requested format that cannot be produced. */
  function FirstUnsupported(m: Manifest, fmts: seq<OutputFormat>): Option<DocGenError> {
    if fmts == [] then None
    else if !Supported(m, fmts[0]) then Some(UnsupportedError(m, fmts[0]))
    else FirstUnsupported(m, fmts[1..])
  }

  // ---- render executor ------------------------------------------------------

  /** The executor lets a classified error through and turns every other exception into a transient one. */
  function Execute(w: World, req: Request, b: Bundle, f: OutputFormat): (o: RenderOutcome)
    ensures !o.RendererBroke?
  {
    match w.render(b, req.data, f, req.locale)
    case RendererBroke(text) => Classified(DocGenError(RenderFailed, "render failed: " + text))
    case other => other
  }

  function Pack(b: Bundle, f: OutputFormat, content: Bytes): Rendered {
    Rendered(f, FilenameFor(b.manifest, f), content)
  }

  // ---- outcome --------------------------------------------------------------

  /** `Stores`: the artifacts to be written.  `Refuses`: a classified failure, before anything is
      written.  `Breaks`: an unclassified exception, before anything is written. */
  datatype Outcome =
    | Stores(version: string, plan: seq<Rendered>)
    | Refuses(e: DocGenError, known: Option<string>)
    | Breaks

  function Formats(req: Request): seq<OutputFormat> {
    FirstSeen(req.outputs)
  }

  /** The outcome once the artifacts in `rendered` exist. */
  function RenderRest(w: World, req: Request, b: Bundle, rendered: seq<Rendered>): Outcome
    requires |rendered| <= |Formats(req)|
    decreases |Formats(req)| - |rendered|
  {
    if |rendered| == |Formats(req)| then Stores(b.manifest.version, rendered)
    else
      var f := Formats(req)[|rendered|];
      match Execute(w, req, b, f)
      case Produced(content) => RenderRest(w, req, b, rendered + [Pack(b, f, content)])
      case Classified(e) => Refuses(e, Some(b.manifest.version))
      case RendererBroke(_) => Breaks
  }

  /** The outcome once the template is at hand. */
  function Gate(w: World, req: Request, b: Bundle): Outcome {
    match FirstUnsupported(b.manifest, Formats(req))
    case Some(e) => Refuses(e, Some(b.manifest.version))
    case None =>
      match w.validate(req.data, b.manifest.requiredFields)
      case Invalid(message) => Refuses(DocGenError(ValidationError, message), Some(b.manifest.version))
      case ValidatorBroke => Breaks
      case Valid => RenderRest(w, req, b, [])
  }

  function Decide(w: World, req: Request): Outcome {
    match w.template(req.templateUri)
    case Missing(message) => Refuses(DocGenError(TemplateNotFound, message), None)
    case Found(b) => Gate(w, req, b)
  }

  // ---- stored artifacts and results -----------------------------------------

  function KeyOf(req: Request, r: Rendered): string {
    BuildObjectKey(req.keyPrefix, r.filename)
  }

  function UriOf(w: World, key: string): string {
    "s3://" + w.outputBucket + "/" + key
  }

  /** What the object store reports for one written artifact: the size and digest of the exact bytes. */
  function StoredAs(w: World, req: Request, r: Rendered, url: Option<string>): Artifact {
    Artifact(r.format, UriOf(w, KeyOf(req, r)), url, |r.content|, w.sha256(r.content))
  }

  /** A result without its two incidental parts: when it was generated, and presigned addresses. */
  function Essence(r: GenerationResult): GenerationResult {
    r.(generatedAt := "", artifacts := Unsigned(r.artifacts))
  }

  function Unsigned(arts: seq<Artifact>): seq<Artifact> {
    seq(|arts|, i requires 0 <= i < |arts| => arts[i].(presignedUrl := None))
  }

  /** The artifacts of a plan as a result lists them. */
  function Listing(w: World, req: Request, plan: seq<Rendered>): seq<Artifact> {
    seq(|plan|, i requires 0 <= i < |plan| => StoredAs(w, req, plan[i], None))
  }

  /** The result of the fault-free pipeline, without its incidental parts. */
  function Expected(w: World, req: Request): GenerationResult {
    match Decide(w, req)
    case Stores(version, plan) => SuccessResult(req, Listing(w, req, plan), version, "")
    case Refuses(e, known) => FailureFromError(req, e, known, "")
    case Breaks => UnhandledResult(req, "")
  }

  lemma {:induction false} RenderRestExtends(w: World, req: Request, b: Bundle, rendered: seq<Rendered>)
    requires |rendered| <= |Formats(req)|
    requires RenderRest(w, req, b, rendered).Stores?
    ensures var o := RenderRest(w, req, b, rendered);
            && o.version == b.manifest.version
            && |o.plan| == |Formats(req)| && rendered <= o.plan
            && forall i :: |rendered| <= i < |o.plan| ==>
                 && Execute(w, req, b, Formats(req)[i]).Produced?
                 && o.plan[i] == Pack(b, Formats(req)[i], Execute(w, req, b, Formats(req)[i]).content)
    decreases |Formats(req)| - |rendered|
  {
    if |rendered| < |Formats(req)| {
      var f := Formats(req)[|rendered|];
      var next := rendered + [Pack(b, f, Execute(w, req, b, f).content)];
      RenderRestExtends(w, req, b, next);
      var o := RenderRest(w, req, b, rendered);
      assert o.plan[|rendered|] == next[|rendered|];
    }
  }

  lemma {:induction false} RenderRestSucceeds(w: World, req: Request, b: Bundle, rendered: seq<Rendered>)
    requires |rendered| <= |Formats(req)|
    requires forall i :: |rendered| <= i < |Formats(req)| ==> Execute(w, req, b, Formats(req)[i]).Produced?
    ensures RenderRest(w, req, b, rendered).Stores?
    decreases |Formats(req)| - |rendered|
  {
    if |rendered| < |Formats(req)| {
      var f := Formats(req)[|rendered|];
      RenderRestSucceeds(w, req, b, rendered + [Pack(b, f, Execute(w, req, b, f).content)]);
    }
  }

  lemma {:induction false} NoneUnsupported(m: Manifest, fmts: seq<OutputFormat>)
    ensures FirstUnsupported(m, fmts).None? <==> forall i :: 0 <= i < |fmts| ==> Supported(m, fmts[i])
  {
    if fmts != [] {
      NoneUnsupported(m, fmts[1..]);
      assert forall i :: 1 <= i < |fmts| ==> fmts[i] == fmts[1..][i - 1];
      assert forall i :: 0 <= i < |fmts[1..]| ==> fmts[1..][i] == fmts[i + 1];
    }
  }

  /** All or nothing: something is stored exactly when the template exists, every requested format is
      supported, the data validates and every rendering succeeds. */
  lemma StoresOnlyAfterEveryGate(w: World, req: Request)
    ensures Decide(w, req).Stores? <==>
      && w.template(req.templateUri).Found?
      && var b := w.template(req.templateUri).bundle;
      && (forall i :: 0 <= i < |Formats(req)| ==> Supported(b.manifest, Formats(req)[i]))
      && w.validate(req.data, b.manifest.requiredFields).Valid?
      && (forall i :: 0 <= i < |Formats(req)| ==> Execute(w, req, b, Formats(req)[i]).Produced?)
  {
    if w.template(req.templateUri).Found? {
      var b := w.template(req.templateUri).bundle;
      NoneUnsupported(b.manifest, Formats(req));
      if Decide(w, req).Stores? {
        RenderRestExtends(w, req, b, []);
      } else if FirstUnsupported(b.manifest, Formats(req)).None?
                && w.validate(req.data, b.manifest.requiredFields).Valid? {
        if forall i :: 0 <= i < |Formats(req)| ==> Execute(w, req, b, Formats(req)[i]).Produced? {
          RenderRestSucceeds(w, req, b, []);
        }
      }
    }
  }

  /** A stored plan has one artifact per distinct requested format, in first-seen order, under pairwise
      distinct keys. */
  lemma PlanListsEachFormatOnce(w: World, req: Request)
    requires Decide(w, req).Stores?
    ensures var plan := Decide(w, req).plan;
            && |plan| == |Formats(req)|
            && (forall i :: 0 <= i < |plan| ==> plan[i].format == Formats(req)[i])
            && ListsFirstSeen(req.outputs, Formats(req))
            && forall i, j :: 0 <= i < j < |plan| ==> KeyOf(req, plan[i]) != KeyOf(req, plan[j])
  {
    var b := w.template(req.templateUri).bundle;
    var plan := Decide(w, req).plan;
    RenderRestExtends(w, req, b, []);
    FirstSeenSpec(req.outputs);
    forall i, j | 0 <= i < j < |plan| ensures KeyOf(req, plan[i]) != KeyOf(req, plan[j]) {
      FormatsHaveDistinctKeys(req.keyPrefix, b.manifest, Formats(req)[i], Formats(req)[j]);
    }
  }

  lemma UriInjective(w: World, k: string, l: string)
    requires UriOf(w, k) == UriOf(w, l)
    ensures k == l
  {
    var head := "s3://" + w.outputBucket + "/";
    assert k == (head + k)[|head|..];
    assert l == (head + l)[|head|..];
  }

  lemma EssenceKeepsMeaning(r: GenerationResult, e: GenerationResult)
    requires Essence(r) == e
    ensures r.success == e.success && r.error == e.error && r.Terminal() == e.Terminal()
    ensures r.requestId == e.requestId && r.metadata == e.metadata && r.templateVersion == e.templateVersion
    ensures |r.artifacts| == |e.artifacts|
    ensures forall i :: 0 <= i < |r.artifacts| ==> r.artifacts[i].(presignedUrl := None) == e.artifacts[i]
  {
    assert e.artifacts == Unsigned(r.artifacts);
  }
}
