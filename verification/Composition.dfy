/**
 The renderers and the template cache plugged into the delivery protocol: what a bad list, a bad mapping or an
 interleaved cache means for everything the worker ever stores and posts.
 */
module Composition {
  import opened Prelude
  import opened Models
  import opened Pipeline
  import opened Handler
  import opened Delivery
  import opened Guarantees
  import Storage
  import Decisions
  import Workbook
  import WorkbookLaws
  import WorkbookBands
  import AcroForm
  import CacheTree
  import CacheRuns
  import CacheAnswers

  // ---- a request that cannot be stored --------------------------------------

  lemma FailedRenderingStoresNothing(w: World, req: Request, b: Bundle, f: OutputFormat)
    requires w.template(req.templateUri) == Found(b) && f in req.outputs
    requires !Execute(w, req, b, f).Produced?
    ensures !Decide(w, req).Stores?
  {
    StoresOnlyAfterEveryGate(w, req);
    FirstSeenSpec(req.outputs);
    assert f in Formats(req);
  }

  /**
   A request whose fault-free pipeline stores nothing: in every execution, whatever overlaps, fails or crashes,
   none of its deliveries ever changes the bucket, and no success is ever posted for it.
   */
  lemma NothingStoredNothingClaimed(w: World, max: nat, s: System, es: seq<Event>, m: nat, k: nat)
    requires Initial(s) && Allowed(w, max, s, es) && m < |s.messages|
    requires w.decode(s.messages[m].raw).Some? && !Decide(w, w.decode(s.messages[m].raw).value).Stores?
    requires k < |es| && es[k].m == m
    ensures Allowed(w, max, s, es[..k]) && Allowed(w, max, s, es[..k + 1])
    ensures After(w, max, s, es[..k + 1]).env.bucket == After(w, max, s, es[..k]).env.bucket
    ensures forall p :: p in After(w, max, s, es).env.results && p.origin == m ==> !p.result.success
  {
    NoPlanNoWriteAt(w, max, s, es, k);
    forall p | p in After(w, max, s, es).env.results && p.origin == m
      ensures !p.result.success
    {
      NoFalseSuccess(w, max, s, es, p);
    }
  }

  lemma NoFalseSuccess(w: World, max: nat, s: System, es: seq<Event>, p: Posting)
    requires Initial(s) && Allowed(w, max, s, es) && p in After(w, max, s, es).env.results && p.origin < |s.messages|
    requires w.decode(s.messages[p.origin].raw).Some? && !Decide(w, w.decode(s.messages[p.origin].raw).value).Stores?
    ensures !p.result.success
  {
    var i :| 0 <= i < |After(w, max, s, es).env.results| && After(w, max, s, es).env.results[i] == p;
    if p.result.success {
      SuccessIsExpected(w, max, s, es, i);
      EssenceKeepsMeaning(p.result, Expected(w, w.decode(s.messages[p.origin].raw).value));
    }
  }

  // ---- workbooks ------------------------------------------------------------

  /** A loaded workbook template, and how a filled page is saved. */
  datatype Excel = Excel(
    load: Bundle -> Option<(Workbook.Template, Workbook.Page)>,
    lib: Workbook.Library,
    save: (Bundle, Workbook.Page) -> Bytes,
    text: ErrorCode -> string)

  function Fill(x: Excel, b: Bundle, data: map<string, Json>): RenderOutcome {
    match x.load(b)
    case None => RendererBroke("unreadable template")
    case Some((t, page)) =>
      match Workbook.Run(page, Workbook.Plan(t, x.lib, b.manifest, data))
      case (filled, None) => Produced(x.save(b, filled))
      case (_, Some(code)) => Classified(DocGenError(code, x.text(code)))
  }

  /** The world renders workbooks by filling them. */
  ghost predicate RendersByFilling(w: World, x: Excel) {
    forall b: Bundle, data: map<string, Json>, f: OutputFormat, l: Option<string> ::
      b.manifest.engine.XlsxEngine? && f.Xlsx? ==> w.render(b, data, f, l) == Fill(x, b, data)
  }

  lemma BadRowsFailTheFill(x: Excel, b: Bundle, data: map<string, Json>, block: BlockSpec)
    requires block in b.manifest.blocks && WorkbookBands.BadRows(b.manifest, data, block)
    ensures !Fill(x, b, data).Produced?
  {
    if x.load(b).Some? {
      var (t, page) := x.load(b).value;
      WorkbookBands.BadRowsYieldNothing(page, t, x.lib, b.manifest, data, block);
    }
  }

  /**
   A list with more rows than the template reserves, or a source that is no list: however often the request is
   delivered, nothing of it is stored, in any format, and no success is posted.
   */
  lemma BadListsNeverReachTheBucket(w: World, max: nat, s: System, es: seq<Event>, m: nat, k: nat, x: Excel, b: Bundle,
                                    block: BlockSpec)
    requires Initial(s) && Allowed(w, max, s, es) && m < |s.messages| && RendersByFilling(w, x)
    requires w.decode(s.messages[m].raw).Some?
    requires var req := w.decode(s.messages[m].raw).value;
      && w.template(req.templateUri) == Found(b) && b.manifest.engine.XlsxEngine? && Xlsx in req.outputs
      && block in b.manifest.blocks && WorkbookBands.BadRows(b.manifest, req.data, block)
    requires k < |es| && es[k].m == m
    ensures Allowed(w, max, s, es[..k]) && Allowed(w, max, s, es[..k + 1])
    ensures After(w, max, s, es[..k + 1]).env.bucket == After(w, max, s, es[..k]).env.bucket
    ensures forall p :: p in After(w, max, s, es).env.results && p.origin == m ==> !p.result.success
  {
    var req := w.decode(s.messages[m].raw).value;
    assert w.render(b, req.data, Xlsx, req.locale) == Fill(x, b, req.data);
    BadRowsFailTheFill(x, b, req.data, block);
    FailedRenderingStoresNothing(w, req, b, Xlsx);
    NothingStoredNothingClaimed(w, max, s, es, m, k);
  }

  /**
   The first block with bad rows, when nothing before it fails, is answered for good: by a permanent validation error
   with the template's version.
   */
  lemma BadListsAreRefused(w: World, req: Request, x: Excel, b: Bundle, t: Workbook.Template, page: Workbook.Page,
                           i: nat)
    requires RendersByFilling(w, x) && x.load(b) == Some((t, page)) && ValidManifest(b.manifest)
    requires w.template(req.templateUri) == Found(b) && b.manifest.engine.XlsxEngine? && Xlsx in req.outputs
    requires Decisions.FormatsPass(req, b) && w.validate(req.data, b.manifest.requiredFields).Valid?
    requires i < |b.manifest.blocks| && WorkbookBands.BadRows(b.manifest, req.data, b.manifest.blocks[i])
    requires WorkbookLaws.Clean(Workbook.NamesStage(t, x.lib, b.manifest, req.data))
    requires WorkbookLaws.Clean(Workbook.Flat(Workbook.BlockChunks(t, x.lib, b.manifest, req.data)[..i]))
    ensures exists message :: Expected(w, req) == GenerationResult(
      req.requestId, false, [], Some(ResultError(ValidationError, message, true)),
      Some(b.manifest.version), "", req.metadata)
  {
    WorkbookBands.BadRowsArePermanent(page, t, x.lib, b.manifest, req.data, i);
    OnlyWorkbooks(req, b);
    assert w.render(b, req.data, Xlsx, req.locale) == Fill(x, b, req.data);
    Decisions.FailedRenderingMeans(w, req, b, 0);
  }

  /** A workbook template produces workbooks only. */
  lemma OnlyWorkbooks(req: Request, b: Bundle)
    requires b.manifest.engine.XlsxEngine? && Decisions.FormatsPass(req, b) && Xlsx in req.outputs
    ensures |Formats(req)| > 0 && Formats(req)[0] == Xlsx
  {
    FirstSeenSpec(req.outputs);
    assert Xlsx in Formats(req);
    assert Decisions.CanRender(b.manifest.engine, Formats(req)[0]);
  }

  /** What a filled workbook is: the saved page on which all planned edits have run without a halt. */
  ghost predicate SavedFill(x: Excel, b: Bundle, data: map<string, Json>, content: Bytes) {
    && x.load(b).Some?
    && var (t, page) := x.load(b).value;
    && Workbook.Run(page, Workbook.Plan(t, x.lib, b.manifest, data)).1 == None
    && content == x.save(b, Workbook.Run(page, Workbook.Plan(t, x.lib, b.manifest, data)).0)
  }

  /**
   In every execution with agreeing keys, the workbook of a success on the results stream is, from then on and up to its
   size and digest, the template with every name, block and cell of the request filled in.
   */
  lemma DeliveredWorkbookIsFilled(w: World, max: nat, s: System, es: seq<Event>, fs: seq<Event>, i: nat, k: nat,
                                  x: Excel)
    requires Initial(s) && Storage.KeysAgree(w, s) && Allowed(w, max, s, es + fs) && RendersByFilling(w, x)
    requires Allowed(w, max, s, es) && i < |After(w, max, s, es).env.results|
    requires var r := After(w, max, s, es).env.results[i].result;
      r.success && k < |r.artifacts| && r.artifacts[k].format == Xlsx
    ensures var p := After(w, max, s, es).env.results[i];
      && p.origin < |s.messages| && w.decode(s.messages[p.origin].raw).Some?
      && var req := w.decode(s.messages[p.origin].raw).value;
      && w.template(req.templateUri).Found?
      && var b := w.template(req.templateUri).bundle;
      && exists content :: SavedFill(x, b, req.data, content)
           && Decisions.DeliversBytes(w, req, b, After(w, max, s, es + fs).env.bucket, p.result.artifacts[k], content)
  {
    Decisions.SuccessDelivers(w, max, s, es, fs, i);
    var p := After(w, max, s, es).env.results[i];
    var req := w.decode(s.messages[p.origin].raw).value;
    var b, a := w.template(req.templateUri).bundle, p.result.artifacts[k];
    assert Decisions.Delivers(w, req, b, After(w, max, s, es + fs).env.bucket, a);
    assert b.manifest.engine.XlsxEngine?;
    assert w.render(b, req.data, Xlsx, req.locale) == Fill(x, b, req.data);
    assert SavedFill(x, b, req.data, Fill(x, b, req.data).content);
  }

  // ---- forms ----------------------------------------------------------------

  /** A loaded form, and how resolved values are written into it. */
  datatype Forms = Forms(
    declared: Bundle -> Option<map<string, AcroForm.FieldInfo>>,
    lib: AcroForm.Library,
    write: (Bundle, map<string, string>) -> Bytes,
    text: string)

  ghost function FillForm(x: Forms, b: Bundle, data: map<string, Json>): RenderOutcome {
    match x.declared(b)
    case None => RendererBroke("unreadable form")
    case Some(declared) =>
      if declared == map[] || !AcroForm.Complete(b.manifest.fields, declared)
      then Classified(DocGenError(TemplateNotFound, x.text))
      else Produced(x.write(b, AcroForm.Values(x.lib, b.manifest.fields, declared, data)))
  }

  ghost predicate RendersByFormFilling(w: World, x: Forms) {
    forall b: Bundle, data: map<string, Json>, f: OutputFormat, l: Option<string> ::
      b.manifest.engine.PdfForm? && f.Pdf? ==> w.render(b, data, f, l) == FillForm(x, b, data)
  }

  /**
   A manifest that maps any key to a field the form lacks: no request with that template, whatever data it
   supplies, is ever answered with a success or stores anything.
   */
  lemma BadMappingsNeverReachTheBucket(w: World, max: nat, s: System, es: seq<Event>, m: nat, k: nat, x: Forms,
                                       b: Bundle, declared: map<string, AcroForm.FieldInfo>)
    requires Initial(s) && Allowed(w, max, s, es) && m < |s.messages| && RendersByFormFilling(w, x)
    requires w.decode(s.messages[m].raw).Some?
    requires var req := w.decode(s.messages[m].raw).value;
      && w.template(req.templateUri) == Found(b) && b.manifest.engine.PdfForm? && Pdf in req.outputs
      && x.declared(b) == Some(declared) && !AcroForm.Complete(b.manifest.fields, declared)
    requires k < |es| && es[k].m == m
    ensures Allowed(w, max, s, es[..k]) && Allowed(w, max, s, es[..k + 1])
    ensures After(w, max, s, es[..k + 1]).env.bucket == After(w, max, s, es[..k]).env.bucket
    ensures forall p :: p in After(w, max, s, es).env.results && p.origin == m ==> !p.result.success
  {
    var req := w.decode(s.messages[m].raw).value;
    assert w.render(b, req.data, Pdf, req.locale) == FillForm(x, b, req.data);
    FailedRenderingStoresNothing(w, req, b, Pdf);
    NothingStoredNothingClaimed(w, max, s, es, m, k);
  }

  /** A form without fields, or with a mapping to a field it lacks, is answered for good: as a missing template. */
  lemma BadMappingsAreRefused(w: World, req: Request, x: Forms, b: Bundle, declared: map<string, AcroForm.FieldInfo>)
    requires RendersByFormFilling(w, x) && x.declared(b) == Some(declared)
    requires w.template(req.templateUri) == Found(b) && b.manifest.engine.PdfForm? && Pdf in req.outputs
    requires Decisions.FormatsPass(req, b) && w.validate(req.data, b.manifest.requiredFields).Valid?
    requires declared == map[] || !AcroForm.Complete(b.manifest.fields, declared)
    ensures exists message :: Expected(w, req) == GenerationResult(
      req.requestId, false, [], Some(ResultError(TemplateNotFound, message, true)),
      Some(b.manifest.version), "", req.metadata)
  {
    OnlyForms(req, b);
    assert w.render(b, req.data, Pdf, req.locale) == FillForm(x, b, req.data);
    Decisions.FailedRenderingMeans(w, req, b, 0);
  }

  lemma OnlyForms(req: Request, b: Bundle)
    requires b.manifest.engine.PdfForm? && Decisions.FormatsPass(req, b) && Pdf in req.outputs
    ensures |Formats(req)| > 0 && Formats(req)[0] == Pdf
  {
    FirstSeenSpec(req.outputs);
    assert Pdf in Formats(req);
    assert Decisions.CanRender(b.manifest.engine, Formats(req)[0]);
  }

  /** What a filled form is: the template with the resolved values written into it. */
  ghost predicate WrittenForm(x: Forms, b: Bundle, data: map<string, Json>, content: Bytes) {
    && x.declared(b).Some? && AcroForm.Complete(b.manifest.fields, x.declared(b).value)
    && content == x.write(b, AcroForm.Values(x.lib, b.manifest.fields, x.declared(b).value, data))
  }

  /** The same for the form of a success: its template with exactly the resolved values written into it. */
  lemma DeliveredFormIsFilled(w: World, max: nat, s: System, es: seq<Event>, fs: seq<Event>, i: nat, k: nat, x: Forms)
    requires Initial(s) && Storage.KeysAgree(w, s) && Allowed(w, max, s, es + fs) && RendersByFormFilling(w, x)
    requires Allowed(w, max, s, es) && i < |After(w, max, s, es).env.results|
    requires var p := After(w, max, s, es).env.results[i];
      && p.result.success && k < |p.result.artifacts| && p.result.artifacts[k].format == Pdf
      && (p.origin < |s.messages| && w.decode(s.messages[p.origin].raw).Some? ==>
            var t := w.template(w.decode(s.messages[p.origin].raw).value.templateUri);
            t.Found? ==> t.bundle.manifest.engine.PdfForm?)
    ensures var p := After(w, max, s, es).env.results[i];
      && p.origin < |s.messages| && w.decode(s.messages[p.origin].raw).Some?
      && var req := w.decode(s.messages[p.origin].raw).value;
      && w.template(req.templateUri).Found?
      && var b := w.template(req.templateUri).bundle;
      && exists content :: WrittenForm(x, b, req.data, content)
           && Decisions.DeliversBytes(w, req, b, After(w, max, s, es + fs).env.bucket, p.result.artifacts[k], content)
  {
    Decisions.SuccessDelivers(w, max, s, es, fs, i);
    var p := After(w, max, s, es).env.results[i];
    var req := w.decode(s.messages[p.origin].raw).value;
    var b, a := w.template(req.templateUri).bundle, p.result.artifacts[k];
    assert Decisions.Delivers(w, req, b, After(w, max, s, es + fs).env.bucket, a);
    assert w.render(b, req.data, Pdf, req.locale) == FillForm(x, b, req.data);
    assert WrittenForm(x, b, req.data, FillForm(x, b, req.data).content);
  }

  // ---- templates ------------------------------------------------------------

  /** What the pipeline makes of a fetch's answer; `parse` is manifest validation. */
  function Template(parse: Bytes -> Option<Manifest>, text: string, a: CacheRuns.Answer): FetchOutcome {
    match a
    case Served(files) =>
      var manifest := if [CacheTree.MANIFEST] in files then parse(files[[CacheTree.MANIFEST]]) else None;
      if manifest == None then Missing(text) else Found(Bundle(manifest.value, files))
    case _ => Missing(text)
  }

  /** A fetch that is served hands over the parsed manifest and all files; anything else, or a manifest that does not
      validate, is a missing template. */
  lemma TemplateSpec(parse: Bytes -> Option<Manifest>, text: string, a: CacheRuns.Answer, b: Bundle)
    ensures Template(parse, text, a) == Found(b) <==>
      && a == CacheRuns.Served(b.files)
      && ["manifest.json"] in b.files && parse(b.files[["manifest.json"]]) == Some(b.manifest)
    ensures !a.Served? ==> Template(parse, text, a) == FetchOutcome.Missing(text)
  {
  }

  /**
   The pipeline may take the template source to be an immutable function: any two fetches of one prefix, in any
   interleaving and at any two moments of an execution, that were not broken and missed no file hand it the same
   template.
   */
  lemma TemplatesAreImmutable(e: CacheRuns.Setting, init: CacheRuns.Cache, run: seq<CacheRuns.Action>,
                              later: seq<CacheRuns.Action>, i: nat, j: nat,
                              parse: Bytes -> Option<Manifest>, text: string)
    requires CacheRuns.Initial(e, init) && CacheRuns.Allowed(e, init, run) && CacheRuns.Allowed(e, init, later)
    requires CacheAnswers.LaidOut(e)
    requires var k := CacheRuns.After(e, init, run);
      i < |k.jobs| && k.jobs[i].pc.Finished? && !k.jobs[i].pc.answer.Faulty()
    requires var k := CacheRuns.After(e, init, later);
      j < |k.jobs| && k.jobs[j].pc.Finished? && !k.jobs[j].pc.answer.Faulty()
    requires CacheRuns.After(e, init, run).jobs[i].prefix == CacheRuns.After(e, init, later).jobs[j].prefix
    ensures var first, second := CacheRuns.After(e, init, run).jobs[i], CacheRuns.After(e, init, later).jobs[j];
      Template(parse, text, first.pc.answer) == Template(parse, text, second.pc.answer)
      == Template(parse, text, CacheRuns.Direct(e.store, first.prefix))
  {
    CacheAnswers.LaidOutIsTransparent(e, init, run, i);
    CacheAnswers.LaidOutIsTransparent(e, init, later, j);
  }

  /** What the handler does once a fetch that was not broken has answered. */
  function AfterAnswer(w: World, max: nat, req: Request, run: Run, at: string, clock: string,
                       parse: Bytes -> Option<Manifest>, text: string, a: CacheRuns.Answer): Handler.Pc
    requires !a.Broken?
  {
    match a
    case Clashed => Emit(max, run, UnhandledResult(req, clock))
    case _ =>
      match Template(parse, text, a)
      case Missing(message) => Emit(max, run, MissingResult(req, message, None, at))
      case Found(b) => AfterFetch(w, max, req, run, at, clock, b)
  }

  /**
   The delivery machine covers the cache: where the fault-free pipeline's templates are direct reads of the store, what
   the handler does with any answer that was not broken is a step of the machine. The step is a misread only if the
   fetch missed a file or the layout is improper and the fetch calls a template missing that is in the store.
   */
  lemma AnswersAreFates(e: CacheRuns.Setting, init: CacheRuns.Cache, actions: seq<CacheRuns.Action>, j: nat,
                        w: World, max: nat, req: Request, run: Run, at: string, clock: string,
                        parse: Bytes -> Option<Manifest>, text: string) returns (c: Choice)
    requires CacheRuns.Initial(e, init) && CacheRuns.Allowed(e, init, actions)
    requires var k := CacheRuns.After(e, init, actions);
      && j < |k.jobs| && j < |init.jobs| && k.jobs[j].pc.Finished? && !k.jobs[j].pc.answer.Broken?
      && w.template(req.templateUri) == Template(parse, text, CacheRuns.Direct(e.store, k.jobs[j].prefix))
    ensures !c.Cancels?
    ensures var job := CacheRuns.After(e, init, actions).jobs[j];
      && FetchPc(w, max, req, run, c, at) == AfterAnswer(w, max, req, run, at, clock, parse, text, job.pc.answer)
      && (Misreads(Fetch(at), c) ==>
            || CacheAnswers.MissedIn(actions, j)
            || (job.pc.answer.NotFound? && CacheRuns.Direct(e.store, job.prefix).Served? && !CacheAnswers.LaidOut(e)))
  {
    var job := CacheRuns.After(e, init, actions).jobs[j];
    var a, direct := job.pc.answer, CacheRuns.Direct(e.store, job.prefix);
    if CacheAnswers.LaidOut(e) { CacheAnswers.LaidOutIsTransparent(e, init, actions, j); }
    if a.Faulty() { CacheAnswers.FaultsAreMet(e, init, actions, j); }
    ServedIsDirect(e, init, actions, j);
    c := if a.Clashed? then Raises(Unexpected, false, "", clock)
         else if a.Faulty() || (a.NotFound? && direct.Served?) then Raises(Misread, false, text, clock)
         else Returns(true, clock, "");
  }

  lemma ServedIsDirect(e: CacheRuns.Setting, init: CacheRuns.Cache, actions: seq<CacheRuns.Action>, j: nat)
    requires CacheRuns.Initial(e, init) && CacheRuns.Allowed(e, init, actions)
    requires j < |CacheRuns.After(e, init, actions).jobs|
    ensures CacheRuns.AnswerOk(e, CacheRuns.After(e, init, actions).jobs[j])
  {
    CacheRuns.RunSound(e, init, actions);
    var k := CacheRuns.After(e, init, actions);
    assert CacheRuns.JobOk(e, k.tree, k.temps, k.jobs[j]);
  }
}
