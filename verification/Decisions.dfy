/**
 What the fault-free pipeline answers, case by case, in terms of the template, the validator and the renderers alone;
 and what a success in the running system therefore delivers.
 */
module Decisions {
  import opened Prelude
  import opened Text
  import opened Models
  import opened Pipeline
  import opened Handler
  import opened Delivery
  import opened Storage
  import opened Guarantees

  // ---- success --------------------------------------------------------------

  /** The engine has a renderer for the format. */
  ghost predicate CanRender(e: Engine, f: OutputFormat) {
    (e, f) in {(JinjaHtml, Pdf), (JinjaHtml, Html), (XlsxEngine, Xlsx), (DocxEngine, Docx), (PdfForm, Pdf)}
  }

  /** What is stored are the renderer's own bytes, one rendering for each requested format in first-seen order. */
  lemma StoredIsRendered(w: World, req: Request, i: nat)
    requires Decide(w, req).Stores? && i < |Decide(w, req).plan|
    ensures w.template(req.templateUri).Found?
    ensures var b := w.template(req.templateUri).bundle;
            var r := Decide(w, req).plan[i];
            && w.render(b, req.data, r.format, req.locale) == Produced(r.content)
            && r.filename == FilenameFor(b.manifest, r.format)
            && r.format in b.manifest.supportedFormats && CanRender(b.manifest.engine, r.format)
            && Decide(w, req).version == b.manifest.version
            && w.validate(req.data, b.manifest.requiredFields).Valid?
  {
    StoresOnlyAfterEveryGate(w, req);
    var b := w.template(req.templateUri).bundle;
    RenderRestExtends(w, req, b, []);
    assert Supported(b.manifest, Formats(req)[i]);
  }

  lemma StoredVersion(w: World, req: Request)
    requires Decide(w, req).Stores?
    ensures w.template(req.templateUri).Found?
    ensures Decide(w, req).version == w.template(req.templateUri).bundle.manifest.version
  {
    StoresOnlyAfterEveryGate(w, req);
    RenderRestExtends(w, req, w.template(req.templateUri).bundle, []);
  }

  function PlanFormats(plan: seq<Rendered>): seq<OutputFormat> {
    seq(|plan|, i requires 0 <= i < |plan| => plan[i].format)
  }

  lemma StoredFormats(w: World, req: Request)
    requires Decide(w, req).Stores?
    ensures ListsFirstSeen(req.outputs, PlanFormats(Decide(w, req).plan))
  {
    PlanListsEachFormatOnce(w, req);
    assert PlanFormats(Decide(w, req).plan) == Formats(req);
  }

  // ---- failure, in the order in which the pipeline finds it ------------------

  lemma MissingTemplateMeans(w: World, req: Request, message: string)
    requires w.template(req.templateUri) == FetchOutcome.Missing(message)
    ensures Expected(w, req) == GenerationResult(
      req.requestId, false, [], Some(ResultError(TemplateNotFound, message, true)), None, "", req.metadata)
  {
  }

  /** The first requested format the template does not list, or its engine cannot produce, decides. */
  lemma UnsupportedFormatMeans(w: World, req: Request, b: Bundle, k: nat)
    requires w.template(req.templateUri) == Found(b) && k < |Formats(req)|
    requires forall j :: 0 <= j < k ==>
      Formats(req)[j] in b.manifest.supportedFormats && CanRender(b.manifest.engine, Formats(req)[j])
    requires Formats(req)[k] !in b.manifest.supportedFormats || !CanRender(b.manifest.engine, Formats(req)[k])
    ensures exists message :: Expected(w, req) == GenerationResult(
      req.requestId, false, [], Some(ResultError(UnsupportedFormat, message, true)),
      Some(b.manifest.version), "", req.metadata)
  {
    forall j | 0 <= j < |Formats(req)|
      ensures Supported(b.manifest, Formats(req)[j]) <==>
        Formats(req)[j] in b.manifest.supportedFormats && CanRender(b.manifest.engine, Formats(req)[j])
    {
    }
    FirstUnsupportedAt(b.manifest, Formats(req), k);
    assert Expected(w, req).error.Some?;
  }

  lemma {:induction false} FirstUnsupportedAt(m: Manifest, fmts: seq<OutputFormat>, k: nat)
    requires k < |fmts| && !Supported(m, fmts[k]) && forall j :: 0 <= j < k ==> Supported(m, fmts[j])
    ensures FirstUnsupported(m, fmts).Some? && FirstUnsupported(m, fmts).value.code == UnsupportedFormat
  {
    if k > 0 { FirstUnsupportedAt(m, fmts[1..], k - 1); }
  }

  ghost predicate FormatsPass(req: Request, b: Bundle) {
    forall j :: 0 <= j < |Formats(req)| ==>
      Formats(req)[j] in b.manifest.supportedFormats && CanRender(b.manifest.engine, Formats(req)[j])
  }

  lemma PassingFormats(req: Request, b: Bundle)
    requires FormatsPass(req, b)
    ensures FirstUnsupported(b.manifest, Formats(req)) == None
  {
    NoneUnsupported(b.manifest, Formats(req));
  }

  lemma InvalidDataMeans(w: World, req: Request, b: Bundle, message: string)
    requires w.template(req.templateUri) == Found(b) && FormatsPass(req, b)
    requires w.validate(req.data, b.manifest.requiredFields) == Invalid(message)
    ensures Expected(w, req) == GenerationResult(
      req.requestId, false, [], Some(ResultError(ValidationError, message, true)),
      Some(b.manifest.version), "", req.metadata)
  {
    PassingFormats(req, b);
  }

  lemma BrokenValidatorMeans(w: World, req: Request, b: Bundle)
    requires w.template(req.templateUri) == Found(b) && FormatsPass(req, b)
    requires w.validate(req.data, b.manifest.requiredFields) == ValidatorBroke
    ensures Expected(w, req) == GenerationResult(
      req.requestId, false, [], Some(ResultError(RenderFailed, "unhandled_worker_error", false)),
      None, "", req.metadata)
  {
    PassingFormats(req, b);
  }

  /** The first rendering that fails decides: with its own error if it is a classified one, else for this time only. */
  lemma FailedRenderingMeans(w: World, req: Request, b: Bundle, k: nat)
    requires w.template(req.templateUri) == Found(b) && FormatsPass(req, b) && k < |Formats(req)|
    requires w.validate(req.data, b.manifest.requiredFields) == Valid
    requires forall j :: 0 <= j < k ==> w.render(b, req.data, Formats(req)[j], req.locale).Produced?
    ensures match w.render(b, req.data, Formats(req)[k], req.locale)
      case Produced(_) => true
      case Classified(e) => Expected(w, req) == GenerationResult(
        req.requestId, false, [],
        Some(ResultError(e.code, e.message, e.code in {ValidationError, TemplateNotFound, UnsupportedFormat})),
        Some(b.manifest.version), "", req.metadata)
      case RendererBroke(text) => Expected(w, req) == GenerationResult(
        req.requestId, false, [], Some(ResultError(RenderFailed, "render failed: " + text, false)),
        Some(b.manifest.version), "", req.metadata)
  {
    PassingFormats(req, b);
    if !w.render(b, req.data, Formats(req)[k], req.locale).Produced? {
      RenderRestFails(w, req, b, [], k);
    }
  }

  lemma {:induction false} RenderRestFails(w: World, req: Request, b: Bundle, rendered: seq<Rendered>, k: nat)
    requires |rendered| <= k < |Formats(req)|
    requires forall j :: |rendered| <= j < k ==> w.render(b, req.data, Formats(req)[j], req.locale).Produced?
    requires !w.render(b, req.data, Formats(req)[k], req.locale).Produced?
    ensures RenderRest(w, req, b, rendered)
         == Refuses(Execute(w, req, b, Formats(req)[k]).e, Some(b.manifest.version))
    decreases k - |rendered|
  {
    if |rendered| < k {
      var f := Formats(req)[|rendered|];
      RenderRestFails(w, req, b, rendered + [Pack(b, f, Execute(w, req, b, f).content)], k);
    }
  }

  lemma EveryRenderingStored(w: World, req: Request, b: Bundle, contents: seq<Bytes>)
    requires w.template(req.templateUri) == Found(b) && FormatsPass(req, b) && |contents| == |Formats(req)|
    requires w.validate(req.data, b.manifest.requiredFields) == Valid
    requires forall j :: 0 <= j < |contents| ==>
      w.render(b, req.data, Formats(req)[j], req.locale) == Produced(contents[j])
    ensures Decide(w, req).Stores? && |Decide(w, req).plan| == |contents|
    ensures forall j :: 0 <= j < |contents| ==>
      Decide(w, req).plan[j] == Rendered(Formats(req)[j], FilenameFor(b.manifest, Formats(req)[j]), contents[j])
  {
    forall j | 0 <= j < |Formats(req)|
      ensures Supported(b.manifest, Formats(req)[j])
    {
      assert CanRender(b.manifest.engine, Formats(req)[j]);
    }
    StoresOnlyAfterEveryGate(w, req);
    PlanListsEachFormatOnce(w, req);
    forall j | 0 <= j < |contents|
      ensures Decide(w, req).plan[j] == Rendered(Formats(req)[j], FilenameFor(b.manifest, Formats(req)[j]), contents[j])
    {
      StoredIsRendered(w, req, j);
    }
  }

  /** And when nothing fails, the answer lists each rendering at its place with its size and digest. */
  lemma SuccessMeans(w: World, req: Request, b: Bundle, contents: seq<Bytes>, artifacts: seq<Artifact>)
    requires w.template(req.templateUri) == Found(b) && FormatsPass(req, b)
    requires w.validate(req.data, b.manifest.requiredFields) == Valid
    requires |contents| == |Formats(req)| == |artifacts|
    requires forall j :: 0 <= j < |contents| ==>
      w.render(b, req.data, Formats(req)[j], req.locale) == Produced(contents[j])
    requires forall j :: 0 <= j < |artifacts| ==> artifacts[j] == Artifact(
      Formats(req)[j], "s3://" + w.outputBucket + "/" + PlaceOf(req, b, Formats(req)[j]), None,
      |contents[j]|, w.sha256(contents[j]))
    ensures Expected(w, req)
         == GenerationResult(req.requestId, true, artifacts, None, Some(b.manifest.version), "", req.metadata)
  {
    EveryRenderingStored(w, req, b, contents);
    StoredVersion(w, req);
    assert Listing(w, req, Decide(w, req).plan) == artifacts;
  }

  /** The object key of a rendering. */
  function PlaceOf(req: Request, b: Bundle, f: OutputFormat): string {
    BuildObjectKey(req.keyPrefix, FilenameFor(b.manifest, f))
  }

  // ---- what a success delivers ----------------------------------------------

  /** The artifact names these bytes by size and digest, and so does its object, which is in the bucket. */
  ghost predicate DeliversBytes(w: World, req: Request, b: Bundle, bucket: map<string, Bytes>, a: Artifact,
                                content: Bytes) {
    var place := PlaceOf(req, b, a.format);
    && a.uri == "s3://" + w.outputBucket + "/" + place
    && a.sizeBytes == |content| && a.sha256 == w.sha256(content)
    && place in bucket && |bucket[place]| == |content| && w.sha256(bucket[place]) == w.sha256(content)
  }

  /** The artifact delivers what the renderer produces for its format, which the template's engine supports. */
  ghost predicate Delivers(w: World, req: Request, b: Bundle, bucket: map<string, Bytes>, a: Artifact) {
    && CanRender(b.manifest.engine, a.format) && w.render(b, req.data, a.format, req.locale).Produced?
    && DeliversBytes(w, req, b, bucket, a, w.render(b, req.data, a.format, req.locale).content)
  }

  /**
   In every execution with agreeing keys, a success on the results stream names its request, the template's version and
   each requested format once in first-seen order, and from then on the object of each format holds, up to its size and
   digest, the bytes the renderer produces for that format.
   */
  lemma SuccessDelivers(w: World, max: nat, s: System, es: seq<Event>, fs: seq<Event>, i: nat)
    requires Initial(s) && KeysAgree(w, s) && Allowed(w, max, s, es + fs)
    requires Allowed(w, max, s, es) && i < |After(w, max, s, es).env.results|
    requires After(w, max, s, es).env.results[i].result.success
    ensures var p := After(w, max, s, es).env.results[i];
            && p.origin < |s.messages| && w.decode(s.messages[p.origin].raw).Some?
            && var req := w.decode(s.messages[p.origin].raw).value;
            && p.subject == req.replyTo && w.template(req.templateUri).Found?
            && var b := w.template(req.templateUri).bundle;
            && p.result.requestId == req.requestId && p.result.metadata == req.metadata && p.result.error == None
            && p.result.templateVersion == Some(b.manifest.version)
            && ListsFirstSeen(req.outputs, ArtifactFormats(p.result.artifacts))
            && (req.presignTtl.None? ==>
                  forall k :: 0 <= k < |p.result.artifacts| ==> p.result.artifacts[k].presignedUrl == None)
            && forall k :: 0 <= k < |p.result.artifacts| ==>
                 Delivers(w, req, b, After(w, max, s, es + fs).env.bucket, p.result.artifacts[k])
  {
    ResultIsExplained(w, max, s, es, i);
    SuccessStaysBacked(w, max, s, es, fs, i);
    var p, bucket := After(w, max, s, es).env.results[i], After(w, max, s, es + fs).env.bucket;
    var req := w.decode(s.messages[p.origin].raw).value;
    EssenceKeepsMeaning(p.result, Expected(w, req));
    StoredFormats(w, req);
    StoredVersion(w, req);
    forall k | 0 <= k < |p.result.artifacts|
      ensures p.result.artifacts[k].format == Decide(w, req).plan[k].format
      ensures Delivers(w, req, w.template(req.templateUri).bundle, bucket, p.result.artifacts[k])
    {
      ArtifactDelivers(w, req, bucket, p.result, k);
    }
    assert ArtifactFormats(p.result.artifacts) == PlanFormats(Decide(w, req).plan);
  }

  function ArtifactFormats(artifacts: seq<Artifact>): seq<OutputFormat> {
    seq(|artifacts|, i requires 0 <= i < |artifacts| => artifacts[i].format)
  }

  lemma ArtifactDelivers(w: World, req: Request, bucket: map<string, Bytes>, r: GenerationResult, k: nat)
    requires Decide(w, req).Stores? && Essence(r) == Expected(w, req) && Honest(w, bucket, r) && k < |r.artifacts|
    ensures w.template(req.templateUri).Found? && k < |Decide(w, req).plan|
    ensures r.artifacts[k].format == Decide(w, req).plan[k].format
    ensures Delivers(w, req, w.template(req.templateUri).bundle, bucket, r.artifacts[k])
  {
    EssenceKeepsMeaning(r, Expected(w, req));
    StoredIsRendered(w, req, k);
    var a, planned := r.artifacts[k], Decide(w, req).plan[k];
    assert Expected(w, req).artifacts[k] == StoredAs(w, req, planned, None);
    assert InBucket(w, bucket, a);
    var key :| key in bucket && a.uri == UriOf(w, key)
            && a.sizeBytes == |bucket[key]| && a.sha256 == w.sha256(bucket[key]);
    UriInjective(w, key, KeyOf(req, planned));
  }
}
