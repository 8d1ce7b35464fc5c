/**
 One handler run as a program-counter machine.

 A run stops at every `await` of `_handle_message` and the functions it calls.  What the awaited call
 does is a `Choice`: it returns, it raises, or the task is cancelled there (a crash of the process is a
 cancellation of all its runs).  A write that raised or was cancelled may or may not have landed, and
 an acknowledgement that returned may still be lost on its way.

 `Advance` is the control state after the await, `EffectOf` the write the await attempts.
 */
module Handler {
  import opened Prelude
  import opened Models
  import opened Pipeline

  /** What a raised exception is: a classified transient error, any unclassified exception, or a local template file
      that could not be found or read, which fetching and rendering take for a missing template. */
  datatype Fault = Transient | Unexpected | Misread

  datatype Choice =
    | Returns(landed: bool, clock: string, url: string)
    | Raises(fault: Fault, landed: bool, text: string, clock: string)
    | Cancels(landed: bool)

  datatype Finish = Acked | AckedPermanent | Nakked | DeadLettered | EmitErrorNak | EmitErrorDlq | DropDecode

  datatype Pc =
    | Start
    | Fetch(at: string)
    | Render(at: string, bundle: Bundle, rendered: seq<Rendered>)
    | Put(at: string, version: string, rendered: seq<Rendered>, stored: seq<Artifact>)
    | Presign(at: string, version: string, rendered: seq<Rendered>, stored: seq<Artifact>)
    | Publish(result: GenerationResult)
    | Ack(result: GenerationResult)
    | Nak(result: GenerationResult)
    | LastPublish(result: GenerationResult)
    | LastDlq(result: GenerationResult)
    | LastAck(result: GenerationResult)
    | FailNak
    | FailDlq
    | FailAck
    | DropDlq
    | DropAck
    | Done(finish: Finish)
    | Cancelled
    | Crashed

  /** History of a run: how many publishes, naks and dead-letter publishes it attempted, whether the result
      publish and the dead-letter publish made outside `_emit` raised, and whether a template file was misread. */
  datatype Tally = Tally(publishes: nat, naks: nat, dlqs: nat, publishLost: bool, lastDlqLost: bool, misread: bool)

  /** `_num_delivered`: one when the metadata cannot be read. */
  function NumDelivered(n: nat, readable: bool): nat {
    if readable then n else 1
  }

  /** `n` is the delivery count the broker attached; `readable` says whether the metadata can be read. */
  datatype Run = Run(n: nat, readable: bool, pc: Pc, tally: Tally)
  {
    predicate Live() {
      !pc.Done? && !pc.Cancelled? && !pc.Crashed?
    }

    function Count(): nat {
      NumDelivered(n, readable)
    }
  }

  const NO_TALLY := Tally(0, 0, 0, false, false, false)

  function NewRun(n: nat, readable: bool): Run {
    Run(n, readable, Start, NO_TALLY)
  }

  // ---- effects --------------------------------------------------------------

  datatype Reason = Decode | EmitFailure | Failed(code: ErrorCode) | Unknown

  datatype DeadLetter = DeadLetter(payload: Bytes, requestId: Option<string>, reason: Reason)

  datatype Effect =
    | Nothing
    | Write(key: string, content: Bytes)
    | Post(subject: string, result: GenerationResult)
    | Bury(letter: DeadLetter)
    | Settle

  function ReasonOf(r: GenerationResult): Reason {
    if r.error.Some? then Failed(r.error.value.code) else Unknown
  }

  /** The write attempted at this point of a run, if any. */
  function EffectOf(w: World, raw: Bytes, pc: Pc): Effect {
    match (w.decode(raw), pc)
    case (Some(req), Put(_, _, rendered, stored)) =>
      if |stored| < |rendered| then Write(KeyOf(req, rendered[|stored|]), rendered[|stored|].content) else Nothing
    case (Some(req), Publish(r)) => Post(req.replyTo, r)
    case (Some(req), LastPublish(r)) => Post(req.replyTo, r)
    case (Some(req), LastDlq(r)) => Bury(DeadLetter(raw, Some(req.requestId), ReasonOf(r)))
    case (Some(req), FailDlq) => Bury(DeadLetter(raw, Some(req.requestId), EmitFailure))
    case (None, DropDlq) => Bury(DeadLetter(raw, None, Decode))
    case (_, Ack(_)) => Settle
    case (_, LastAck(_)) => Settle
    case (_, FailAck) => Settle
    case (_, DropAck) => Settle
    case _ => Nothing
  }

  /** A write that returned has landed; an acknowledgement is fire-and-forget. */
  predicate Lands(e: Effect, c: Choice) {
    if c.Returns? && !e.Settle? then true else c.landed
  }

  // ---- control --------------------------------------------------------------

  /** `_emit`: where a result is taken. */
  function Emit(max: nat, run: Run, r: GenerationResult): Pc {
    if r.Terminal() then Publish(r)
    else if run.Count() < max then Nak(r)
    else LastPublish(r)
  }

  /** `_handle_emit_failure`. */
  function EmitFailed(max: nat, run: Run): Pc {
    if run.Count() < max then FailNak else FailDlq
  }

  function EnterPut(max: nat, req: Request, run: Run, at: string, version: string,
                    rendered: seq<Rendered>, stored: seq<Artifact>): Pc {
    if |stored| < |rendered| then Put(at, version, rendered, stored)
    else Emit(max, run, SuccessResult(req, stored, version, at))
  }

  function EnterRender(max: nat, req: Request, run: Run, at: string, b: Bundle, rendered: seq<Rendered>): Pc {
    if |rendered| < |Formats(req)| then Render(at, b, rendered)
    else EnterPut(max, req, run, at, b.manifest.version, rendered, [])
  }

  function AfterFetch(w: World, max: nat, req: Request, run: Run, at: string, clock: string, b: Bundle): Pc {
    var version := Some(b.manifest.version);
    match FirstUnsupported(b.manifest, Formats(req))
    case Some(e) => Emit(max, run, FailureFromError(req, e, version, at))
    case None =>
      match w.validate(req.data, b.manifest.requiredFields)
      case Invalid(message) => Emit(max, run, FailureFromError(req, DocGenError(ValidationError, message), version, at))
      case ValidatorBroke => Emit(max, run, UnhandledResult(req, clock))
      case Valid => EnterRender(max, req, run, at, b, [])
  }

  function StorageFault(req: Request, version: Option<string>, at: string, c: Choice): GenerationResult
    requires c.Raises?
  {
    if c.fault.Transient? then FailureFromError(req, DocGenError(StorageFailed, c.text), version, at)
    else UnhandledResult(req, c.clock)
  }

  /** The permanent failure of a template that is missing, or is taken to be. */
  function MissingResult(req: Request, text: string, version: Option<string>, at: string): GenerationResult {
    FailureFromError(req, DocGenError(TemplateNotFound, text), version, at)
  }

  function FetchPc(w: World, max: nat, req: Request, run: Run, c: Choice, at: string): Pc
    requires !c.Cancels?
  {
    if c.Raises? then
      Emit(max, run, if c.fault.Misread? then MissingResult(req, c.text, None, at) else StorageFault(req, None, at, c))
    else
      match w.template(req.templateUri)
      case Missing(message) => Emit(max, run, MissingResult(req, message, None, at))
      case Found(b) => AfterFetch(w, max, req, run, at, c.clock, b)
  }

  /** The executor classifies every exception; a template file the renderer misses stays a missing template. */
  function RenderFault(req: Request, version: Option<string>, at: string, c: Choice): GenerationResult
    requires c.Raises?
  {
    if c.fault.Misread? then MissingResult(req, c.text, version, at)
    else FailureFromError(req, DocGenError(RenderFailed, c.text), version, at)
  }

  function RenderPc(w: World, max: nat, req: Request, run: Run, c: Choice, at: string,
                    b: Bundle, rendered: seq<Rendered>): Pc
    requires !c.Cancels?
  {
    var version := Some(b.manifest.version);
    if c.Raises? then Emit(max, run, RenderFault(req, version, at, c))
    else if |rendered| < |Formats(req)| then
      var f := Formats(req)[|rendered|];
      match Execute(w, req, b, f)
      case Produced(content) => EnterRender(max, req, run, at, b, rendered + [Pack(b, f, content)])
      case Classified(e) => Emit(max, run, FailureFromError(req, e, version, at))
      case RendererBroke(_) => Crashed
    else Crashed
  }

  function StoredNext(w: World, max: nat, req: Request, run: Run, at: string, version: string,
                      rendered: seq<Rendered>, stored: seq<Artifact>, url: Option<string>): Pc
  {
    if |stored| < |rendered| then
      EnterPut(max, req, run, at, version, rendered, stored + [StoredAs(w, req, rendered[|stored|], url)])
    else Crashed
  }

  function PutPc(w: World, max: nat, req: Request, run: Run, c: Choice, at: string, version: string,
                 rendered: seq<Rendered>, stored: seq<Artifact>): Pc
    requires !c.Cancels?
  {
    if c.Raises? then Emit(max, run, StorageFault(req, Some(version), at, c))
    else if req.presignTtl.Some? then Presign(at, version, rendered, stored)
    else StoredNext(w, max, req, run, at, version, rendered, stored, None)
  }

  /** Signing is best-effort: a raised fault only leaves the address out. */
  function PresignPc(w: World, max: nat, req: Request, run: Run, c: Choice, at: string, version: string,
                     rendered: seq<Rendered>, stored: seq<Artifact>): Pc
  {
    StoredNext(w, max, req, run, at, version, rendered, stored, if c.Returns? then Some(c.url) else None)
  }

  /** The awaits inside `process_request`; a raised storage or render fault becomes a failure result. */
  function PipelinePc(w: World, max: nat, req: Request, run: Run, c: Choice): Pc
    requires !c.Cancels? && InPipeline(run.pc)
  {
    match run.pc
    case Start => Fetch(c.clock)
    case Fetch(at) => FetchPc(w, max, req, run, c, at)
    case Render(at, b, rendered) => RenderPc(w, max, req, run, c, at, b, rendered)
    case Put(at, version, rendered, stored) => PutPc(w, max, req, run, c, at, version, rendered, stored)
    case Presign(at, version, rendered, stored) => PresignPc(w, max, req, run, c, at, version, rendered, stored)
  }

  /** The awaits of `_emit`, `_handle_emit_failure` and `_drop_undecodable`. */
  function EmitPc(max: nat, run: Run, c: Choice): Pc
    requires !c.Cancels?
  {
    match run.pc
    case Publish(r) => if c.Returns? then Ack(r) else EmitFailed(max, run)
    case Ack(r) => if c.Returns? then Done(if r.success then Acked else AckedPermanent) else EmitFailed(max, run)
    case Nak(_) => if c.Returns? then Done(Nakked) else EmitFailed(max, run)
    case LastPublish(r) => if c.Returns? then LastDlq(r) else EmitFailed(max, run)
    case LastDlq(r) => if c.Returns? then LastAck(r) else EmitFailed(max, run)
    case LastAck(_) => if c.Returns? then Done(DeadLettered) else EmitFailed(max, run)
    case FailNak => Done(EmitErrorNak)
    case FailDlq => FailAck
    case FailAck => Done(EmitErrorDlq)
    case DropDlq => DropAck
    case DropAck => if c.Returns? then Done(DropDecode) else Crashed
    case _ => Crashed
  }

  predicate InPipeline(pc: Pc) {
    pc.Start? || pc.Fetch? || pc.Render? || pc.Put? || pc.Presign?
  }

  function NextPc(w: World, max: nat, raw: Bytes, run: Run, c: Choice): Pc {
    if c.Cancels? then Cancelled
    else if InPipeline(run.pc) then
      match w.decode(raw)
      case Some(req) => PipelinePc(w, max, req, run, c)
      case None => if run.pc.Start? then DropDlq else Crashed
    else EmitPc(max, run, c)
  }

  /** The await reads local template files, and misses one. */
  predicate Misreads(pc: Pc, c: Choice) {
    (pc.Fetch? || pc.Render?) && c.Raises? && c.fault.Misread?
  }

  function Note(run: Run, c: Choice): Tally {
    var t := run.tally;
    match run.pc
    case Publish(_) => t.(publishes := t.publishes + 1, publishLost := t.publishLost || c.Raises?)
    case LastPublish(_) => t.(publishes := t.publishes + 1, publishLost := t.publishLost || c.Raises?)
    case Nak(_) => t.(naks := t.naks + 1)
    case FailNak => t.(naks := t.naks + 1)
    case LastDlq(_) => t.(dlqs := t.dlqs + 1)
    case FailDlq => t.(dlqs := t.dlqs + 1, lastDlqLost := c.Raises?)
    case DropDlq => t.(dlqs := t.dlqs + 1, lastDlqLost := c.Raises?)
    case Fetch(_) => t.(misread := t.misread || Misreads(run.pc, c))
    case Render(_, _, _) => t.(misread := t.misread || Misreads(run.pc, c))
    case _ => t
  }

  function Advance(w: World, max: nat, raw: Bytes, run: Run, c: Choice): Run {
    run.(pc := NextPc(w, max, raw, run, c), tally := Note(run, c))
  }

  // ---- what every run keeps -------------------------------------------------

  /** A permanent failure that says the template is missing. */
  predicate CallsMissing(r: GenerationResult) {
    && !r.success && r.artifacts == []
    && r.error.Some? && r.error.value.code.TemplateNotFound? && r.error.value.permanent
  }

  /** A result of this request; a terminal one is what the fault-free pipeline decides, or says the template is
      missing. */
  ghost predicate Faithful(w: World, req: Request, r: GenerationResult) {
    && r.requestId == req.requestId && r.metadata == req.metadata && SignedOnDemand(req, r.artifacts)
    && (r.Terminal() ==> Essence(r) == Expected(w, req) || CallsMissing(r))
    && (!r.Terminal() ==>
          && !r.success && r.error.Some?
          && (r.error.value.code.RenderFailed? || r.error.value.code.StorageFailed?))
  }

  /** No artifact has a presigned address unless the request asks for them. */
  ghost predicate SignedOnDemand(req: Request, artifacts: seq<Artifact>) {
    req.presignTtl.None? ==> forall i :: 0 <= i < |artifacts| ==> artifacts[i].presignedUrl == None
  }

  ghost predicate ListedSoFar(w: World, req: Request, rendered: seq<Rendered>, stored: seq<Artifact>) {
    && |stored| <= |rendered| && SignedOnDemand(req, stored)
    && forall i :: 0 <= i < |stored| ==> stored[i].(presignedUrl := None) == StoredAs(w, req, rendered[i], None)
  }

  /** A pipeline await holds what the fault-free pipeline has decided so far. */
  ghost predicate Prepared(w: World, req: Request, pc: Pc) {
    match pc
    case Start => true
    case Fetch(_) => true
    case Render(_, b, rendered) =>
      && w.template(req.templateUri) == Found(b) && |rendered| < |Formats(req)|
      && Decide(w, req) == RenderRest(w, req, b, rendered)
    case Put(_, version, rendered, stored) =>
      Decide(w, req) == Stores(version, rendered) && ListedSoFar(w, req, rendered, stored) && |stored| < |rendered|
    case Presign(_, version, rendered, stored) =>
      && req.presignTtl.Some?
      && Decide(w, req) == Stores(version, rendered) && ListedSoFar(w, req, rendered, stored) && |stored| < |rendered|
    case _ => false
  }

  /** An emitting await holds a faithful result, and dead-letters only from the last allowed delivery on. */
  ghost predicate Emitting(w: World, max: nat, req: Request, run: Run) {
    match run.pc
    case Publish(r) => Faithful(w, req, r) && r.Terminal()
    case Ack(r) => Faithful(w, req, r) && r.Terminal()
    case Nak(r) => Faithful(w, req, r) && !r.Terminal() && run.Count() < max
    case LastPublish(r) => Faithful(w, req, r) && !r.Terminal() && run.Count() >= max
    case LastDlq(r) => Faithful(w, req, r) && !r.Terminal() && run.Count() >= max
    case LastAck(r) => Faithful(w, req, r) && !r.Terminal() && run.Count() >= max
    case FailNak => run.Count() < max
    case FailDlq => run.Count() >= max
    case FailAck => run.Count() >= max
    case Done(f) =>
      && !f.DropDecode?
      && (f.Nakked? || f.EmitErrorNak? ==> run.Count() < max)
      && (f.DeadLettered? || f.EmitErrorDlq? ==> run.Count() >= max)
    case Cancelled => true
    case _ => false
  }

  predicate Dropping(pc: Pc) {
    pc.Start? || pc.DropDlq? || pc.DropAck? || pc == Done(DropDecode) || pc.Cancelled? || pc.Crashed?
  }

  ghost predicate Sane(w: World, max: nat, req: Request, run: Run) {
    if InPipeline(run.pc) then Prepared(w, req, run.pc) else Emitting(w, max, req, run)
  }

  /** The control state is consistent with the request. */
  ghost predicate OnTrack(w: World, max: nat, raw: Bytes, run: Run) {
    && run.n >= 1
    && match w.decode(raw)
       case None => Dropping(run.pc)
       case Some(req) => Sane(w, max, req, run)
  }

  /** A terminal result about to be published is the fault-free pipeline's. */
  ghost predicate Meant(w: World, req: Request, pc: Pc) {
    pc.Publish? ==> Essence(pc.result) == Expected(w, req)
  }

  lemma EmitSane(w: World, max: nat, run: Run, req: Request, r: GenerationResult)
    requires Faithful(w, req, r)
    ensures Sane(w, max, req, run.(pc := Emit(max, run, r)))
    ensures (r.Terminal() ==> Essence(r) == Expected(w, req)) ==> Meant(w, req, Emit(max, run, r))
  {
  }

  /** A successful listing is what the plan promises. */
  lemma ListingIsExpected(w: World, req: Request, version: string, rendered: seq<Rendered>,
                          stored: seq<Artifact>, at: string)
    requires Decide(w, req) == Stores(version, rendered)
    requires ListedSoFar(w, req, rendered, stored) && |stored| == |rendered|
    ensures Faithful(w, req, SuccessResult(req, stored, version, at))
    ensures Essence(SuccessResult(req, stored, version, at)) == Expected(w, req)
  {
    assert Unsigned(stored) == Listing(w, req, rendered);
  }

  lemma EnterPutSane(w: World, max: nat, run: Run, req: Request, at: string, version: string,
                     rendered: seq<Rendered>, stored: seq<Artifact>)
    requires Decide(w, req) == Stores(version, rendered) && ListedSoFar(w, req, rendered, stored)
    ensures Sane(w, max, req, run.(pc := EnterPut(max, req, run, at, version, rendered, stored)))
    ensures Meant(w, req, EnterPut(max, req, run, at, version, rendered, stored))
  {
    if |stored| == |rendered| {
      ListingIsExpected(w, req, version, rendered, stored, at);
      EmitSane(w, max, run, req, SuccessResult(req, stored, version, at));
    }
  }

  lemma StoredNextSane(w: World, max: nat, run: Run, req: Request, at: string, version: string,
                       rendered: seq<Rendered>, stored: seq<Artifact>, url: Option<string>)
    requires Decide(w, req) == Stores(version, rendered)
    requires ListedSoFar(w, req, rendered, stored) && |stored| < |rendered|
    requires req.presignTtl.None? ==> url == None
    ensures Sane(w, max, req, run.(pc := StoredNext(w, max, req, run, at, version, rendered, stored, url)))
    ensures Meant(w, req, StoredNext(w, max, req, run, at, version, rendered, stored, url))
  {
    var longer := stored + [StoredAs(w, req, rendered[|stored|], url)];
    forall i | 0 <= i < |longer| ensures longer[i].(presignedUrl := None) == StoredAs(w, req, rendered[i], None) {
      if i < |stored| { assert longer[i] == stored[i]; }
    }
    EnterPutSane(w, max, run, req, at, version, rendered, longer);
  }

  lemma EnterRenderSane(w: World, max: nat, run: Run, req: Request, at: string, b: Bundle, rendered: seq<Rendered>)
    requires w.template(req.templateUri) == Found(b) && |rendered| <= |Formats(req)|
    requires Decide(w, req) == RenderRest(w, req, b, rendered)
    ensures Sane(w, max, req, run.(pc := EnterRender(max, req, run, at, b, rendered)))
    ensures Meant(w, req, EnterRender(max, req, run, at, b, rendered))
  {
    if |rendered| == |Formats(req)| {
      EnterPutSane(w, max, run, req, at, b.manifest.version, rendered, []);
    }
  }

  /** A transient failure, a missing template, or the refusal the fault-free pipeline gives, is faithful. */
  lemma RefusalSane(w: World, max: nat, run: Run, req: Request, e: DocGenError, known: Option<string>, at: string)
    requires e.code.RenderFailed? || e.code.StorageFailed? || e.code.TemplateNotFound?
          || Decide(w, req) == Refuses(e, known)
    ensures Sane(w, max, req, run.(pc := Emit(max, run, FailureFromError(req, e, known, at))))
    ensures !e.code.TemplateNotFound? || Decide(w, req) == Refuses(e, known) ==>
      Meant(w, req, Emit(max, run, FailureFromError(req, e, known, at)))
  {
    assert Unsigned([]) == [];
    EmitSane(w, max, run, req, FailureFromError(req, e, known, at));
  }

  lemma FaultSane(w: World, max: nat, run: Run, req: Request, version: Option<string>, at: string, c: Choice)
    requires c.Raises?
    ensures Sane(w, max, req, run.(pc := Emit(max, run, StorageFault(req, version, at, c))))
    ensures Meant(w, req, Emit(max, run, StorageFault(req, version, at, c)))
  {
    if c.fault.Transient? {
      RefusalSane(w, max, run, req, DocGenError(StorageFailed, c.text), version, at);
    } else {
      EmitSane(w, max, run, req, UnhandledResult(req, c.clock));
    }
  }

  lemma FetchSane(w: World, max: nat, run: Run, c: Choice, req: Request, at: string)
    requires !c.Cancels?
    ensures Sane(w, max, req, run.(pc := FetchPc(w, max, req, run, c, at)))
    ensures !Misreads(Fetch(at), c) ==> Meant(w, req, FetchPc(w, max, req, run, c, at))
  {
    if c.Raises? && c.fault.Misread? {
      RefusalSane(w, max, run, req, DocGenError(TemplateNotFound, c.text), None, at);
    } else if c.Raises? {
      FaultSane(w, max, run, req, None, at, c);
    } else if w.template(req.templateUri).Missing? {
      RefusalSane(w, max, run, req, DocGenError(TemplateNotFound, w.template(req.templateUri).message), None, at);
    } else {
      var b := w.template(req.templateUri).bundle;
      var version := Some(b.manifest.version);
      var bad := FirstUnsupported(b.manifest, Formats(req));
      if bad.Some? {
        RefusalSane(w, max, run, req, bad.value, version, at);
      } else {
        match w.validate(req.data, b.manifest.requiredFields)
        case Invalid(message) => RefusalSane(w, max, run, req, DocGenError(ValidationError, message), version, at);
        case ValidatorBroke => EmitSane(w, max, run, req, UnhandledResult(req, c.clock));
        case Valid => EnterRenderSane(w, max, run, req, at, b, []);
      }
    }
  }

  lemma RenderSane(w: World, max: nat, run: Run, c: Choice, req: Request, at: string,
                   b: Bundle, rendered: seq<Rendered>)
    requires !c.Cancels?
    requires w.template(req.templateUri) == Found(b) && |rendered| < |Formats(req)|
    requires Decide(w, req) == RenderRest(w, req, b, rendered)
    ensures Sane(w, max, req, run.(pc := RenderPc(w, max, req, run, c, at, b, rendered)))
    ensures !Misreads(Render(at, b, rendered), c) ==> Meant(w, req, RenderPc(w, max, req, run, c, at, b, rendered))
  {
    var f := Formats(req)[|rendered|];
    if c.Raises? {
      var code := if c.fault.Misread? then TemplateNotFound else RenderFailed;
      RefusalSane(w, max, run, req, DocGenError(code, c.text), Some(b.manifest.version), at);
    } else {
      match Execute(w, req, b, f)
      case Produced(content) => EnterRenderSane(w, max, run, req, at, b, rendered + [Pack(b, f, content)]);
      case Classified(e) => RefusalSane(w, max, run, req, e, Some(b.manifest.version), at);
    }
  }

  lemma PutSane(w: World, max: nat, run: Run, c: Choice, req: Request, at: string, version: string,
                rendered: seq<Rendered>, stored: seq<Artifact>)
    requires !c.Cancels?
    requires Decide(w, req) == Stores(version, rendered)
    requires ListedSoFar(w, req, rendered, stored) && |stored| < |rendered|
    ensures Sane(w, max, req, run.(pc := PutPc(w, max, req, run, c, at, version, rendered, stored)))
    ensures Meant(w, req, PutPc(w, max, req, run, c, at, version, rendered, stored))
  {
    if c.Raises? {
      FaultSane(w, max, run, req, Some(version), at, c);
    } else if req.presignTtl.None? {
      StoredNextSane(w, max, run, req, at, version, rendered, stored, None);
    }
  }

  lemma PipelineSane(w: World, max: nat, run: Run, c: Choice, req: Request)
    requires Prepared(w, req, run.pc) && !c.Cancels?
    ensures Sane(w, max, req, run.(pc := PipelinePc(w, max, req, run, c)))
    ensures !Misreads(run.pc, c) ==> Meant(w, req, PipelinePc(w, max, req, run, c))
  {
    match run.pc
    case Start =>
    case Fetch(at) => FetchSane(w, max, run, c, req, at);
    case Render(at, b, rendered) => RenderSane(w, max, run, c, req, at, b, rendered);
    case Put(at, version, rendered, stored) => PutSane(w, max, run, c, req, at, version, rendered, stored);
    case Presign(at, version, rendered, stored) =>
      StoredNextSane(w, max, run, req, at, version, rendered, stored, if c.Returns? then Some(c.url) else None);
  }

  lemma EmitStepSane(w: World, max: nat, run: Run, c: Choice, req: Request)
    requires Emitting(w, max, req, run) && !c.Cancels? && run.Live()
    ensures Emitting(w, max, req, run.(pc := EmitPc(max, run, c)))
  {
  }

  /** Every step of a run, whatever goes wrong in it, keeps it on track. */
  lemma AdvanceOnTrack(w: World, max: nat, raw: Bytes, run: Run, c: Choice)
    requires OnTrack(w, max, raw, run) && run.Live()
    ensures OnTrack(w, max, raw, Advance(w, max, raw, run, c))
  {
    if !c.Cancels? && w.decode(raw).Some? {
      var req := w.decode(raw).value;
      var next := run.(pc := NextPc(w, max, raw, run, c));
      if InPipeline(run.pc) {
        PipelineSane(w, max, run, c, req);
      } else {
        EmitStepSane(w, max, run, c, req);
      }
      SaneIgnoresTally(w, max, req, next, Note(run, c));
    }
  }

  lemma SaneIgnoresTally(w: World, max: nat, req: Request, run: Run, t: Tally)
    requires Sane(w, max, req, run)
    ensures Sane(w, max, req, run.(tally := t))
  {
  }

  // ---- what a run has attempted ---------------------------------------------

  /** The history agrees with the control state: publishes, naks and dead letters of a decodable request. */
  ghost predicate Counted(w: World, max: nat, raw: Bytes, run: Run) {
    var t := run.tally;
    if w.decode(raw).None? then
      t.publishes == 0 && t.naks == 0 && t.dlqs <= 1 && (t.lastDlqLost ==> t.dlqs >= 1)
      && (run.pc.Start? || run.pc.DropDlq? ==> t.dlqs == 0)
    else
      && t.publishes <= 1 && t.naks <= 2 && t.dlqs <= 2
      && (t.publishLost ==> t.publishes == 1)
      && (t.lastDlqLost ==> t.dlqs >= 1)
      && (run.Count() < max ==> t.dlqs == 0)
      && (run.Count() >= max ==> t.naks == 0)
      && (InPipeline(run.pc) || run.pc.Nak? || run.pc.LastPublish? ==> t == NO_TALLY)
      && (run.pc.Publish? ==> t == NO_TALLY.(misread := t.misread))
      && (run.pc.Ack? ==> t == NO_TALLY.(publishes := 1, misread := t.misread))
      && (run.pc.LastDlq? ==> t == NO_TALLY.(publishes := 1))
      && (run.pc.LastAck? ==> t == NO_TALLY.(publishes := 1, dlqs := 1))
      && (run.pc.FailNak? ==> t.naks <= 1)
      && (run.pc.FailDlq? ==> t.publishes == 1 && t.dlqs <= 1 && !t.lastDlqLost)
      && (run.pc.FailAck? ==> t.publishes == 1)
  }

  /** Where a pipeline await can lead. */
  lemma PipelineLeadsTo(w: World, max: nat, req: Request, run: Run, c: Choice)
    requires InPipeline(run.pc) && !c.Cancels?
    ensures var p := PipelinePc(w, max, req, run, c);
            && (InPipeline(p) || p.Publish? || p.Nak? || p.LastPublish? || p.Crashed?)
            && (Misreads(run.pc, c) ==> p.Publish?)
  {
    match run.pc
    case Start =>
    case Fetch(_) =>
    case Render(_, _, _) =>
    case Put(_, _, _, _) =>
    case Presign(_, _, _, _) =>
  }

  lemma EmitStepCounted(w: World, max: nat, raw: Bytes, run: Run, c: Choice)
    requires OnTrack(w, max, raw, run) && Counted(w, max, raw, run)
    requires run.Live() && !InPipeline(run.pc) && !c.Cancels?
    ensures Counted(w, max, raw, Advance(w, max, raw, run, c))
  {
  }

  lemma CancelCounted(w: World, max: nat, raw: Bytes, run: Run, c: Choice)
    requires OnTrack(w, max, raw, run) && Counted(w, max, raw, run)
    requires run.Live() && c.Cancels?
    ensures Counted(w, max, raw, Advance(w, max, raw, run, c))
  {
  }

  /** Leaving a pipeline await changes the history by a misread at most. */
  lemma StepsOnCounted(w: World, max: nat, raw: Bytes, run: Run, next: Pc, misread: bool)
    requires Counted(w, max, raw, run) && InPipeline(run.pc) && w.decode(raw).Some?
    requires InPipeline(next) || next.Publish? || next.Nak? || next.LastPublish? || next.Crashed?
    requires misread ==> next.Publish?
    ensures Counted(w, max, raw, run.(pc := next, tally := run.tally.(misread := misread)))
  {
  }

  lemma PipelineStepCounted(w: World, max: nat, raw: Bytes, run: Run, c: Choice)
    requires OnTrack(w, max, raw, run) && Counted(w, max, raw, run)
    requires InPipeline(run.pc) && !c.Cancels? && w.decode(raw).Some?
    ensures Counted(w, max, raw, Advance(w, max, raw, run, c))
  {
    var next, misread := PipelinePc(w, max, w.decode(raw).value, run, c), Misreads(run.pc, c);
    PipelineLeadsTo(w, max, w.decode(raw).value, run, c);
    StepsOnCounted(w, max, raw, run, next, misread);
    assert Note(run, c) == run.tally.(misread := misread);
    assert Advance(w, max, raw, run, c) == run.(pc := next, tally := run.tally.(misread := misread));
  }

  lemma AdvanceCounted(w: World, max: nat, raw: Bytes, run: Run, c: Choice)
    requires OnTrack(w, max, raw, run) && Counted(w, max, raw, run) && run.Live()
    ensures Counted(w, max, raw, Advance(w, max, raw, run, c))
  {
    if c.Cancels? {
      CancelCounted(w, max, raw, run, c);
    } else if !InPipeline(run.pc) {
      EmitStepCounted(w, max, raw, run, c);
    } else if w.decode(raw).Some? {
      PipelineStepCounted(w, max, raw, run, c);
    }
  }

  // ---- what a stored artifact looks like ------------------------------------

  /** The pipeline goes on with one more artifact in its list. */
  ghost predicate GoesOnWith(next: Pc, rendered: seq<Rendered>, stored: seq<Artifact>) {
    if |stored| < |rendered| then next.Put? && next.rendered == rendered && next.stored == stored
    else next.Publish? && next.result.success && next.result.artifacts == stored
  }

  /** A put that returns, without a request for addresses, lists its artifact without one. */
  lemma PutLists(w: World, max: nat, req: Request, run: Run, c: Choice)
    requires run.pc.Put? && |run.pc.stored| < |run.pc.rendered| && c.Returns? && req.presignTtl.None?
    ensures var Put(at, version, rendered, stored) := run.pc;
      GoesOnWith(PipelinePc(w, max, req, run, c), rendered,
                 stored + [StoredAs(w, req, rendered[|stored|], None)])
  {
  }

  /** Signing lists the artifact with the address that was signed, or without one when signing failed. */
  lemma PresignLists(w: World, max: nat, req: Request, run: Run, c: Choice)
    requires run.pc.Presign? && |run.pc.stored| < |run.pc.rendered| && !c.Cancels?
    ensures var Presign(at, version, rendered, stored) := run.pc;
      GoesOnWith(PipelinePc(w, max, req, run, c), rendered,
                 stored + [StoredAs(w, req, rendered[|stored|], None)
                           .(presignedUrl := if c.Returns? then Some(c.url) else None)])
  {
  }

  // ---- work left ------------------------------------------------------------

  /** An upper bound on the steps a run can still take. */
  function WorkLeft(w: World, raw: Bytes, run: Run): nat {
    match run.pc
    case Start => if w.decode(raw).Some? then 7 + 3 * |Formats(w.decode(raw).value)| else 3
    case Fetch(_) => if w.decode(raw).Some? then 6 + 3 * |Formats(w.decode(raw).value)| else 3
    case Render(_, _, rendered) =>
      if w.decode(raw).Some? && |rendered| <= |Formats(w.decode(raw).value)|
      then 5 + 2 * |rendered| + 3 * (|Formats(w.decode(raw).value)| - |rendered|) else 3
    case Put(_, _, rendered, stored) => if |stored| <= |rendered| then 5 + 2 * (|rendered| - |stored|) else 3
    case Presign(_, _, rendered, stored) => if |stored| < |rendered| then 4 + 2 * (|rendered| - |stored|) else 3
    case Publish(_) => 4
    case Ack(_) => 3
    case Nak(_) => 3
    case LastPublish(_) => 5
    case LastDlq(_) => 4
    case LastAck(_) => 3
    case FailNak => 1
    case FailDlq => 2
    case FailAck => 1
    case DropDlq => 2
    case DropAck => 1
    case Done(_) => 0
    case Cancelled => 0
    case Crashed => 0
  }

  lemma EnterPutWork(w: World, max: nat, raw: Bytes, run: Run, req: Request, at: string, version: string,
                     rendered: seq<Rendered>, stored: seq<Artifact>)
    requires |stored| <= |rendered|
    ensures WorkLeft(w, raw, run.(pc := EnterPut(max, req, run, at, version, rendered, stored)))
         <= 5 + 2 * (|rendered| - |stored|)
  {
  }

  lemma EnterRenderWork(w: World, max: nat, raw: Bytes, run: Run, req: Request, at: string,
                        b: Bundle, rendered: seq<Rendered>)
    requires w.decode(raw) == Some(req) && |rendered| <= |Formats(req)|
    ensures WorkLeft(w, raw, run.(pc := EnterRender(max, req, run, at, b, rendered)))
         <= 5 + 2 * |rendered| + 3 * (|Formats(req)| - |rendered|)
  {
    if |rendered| == |Formats(req)| {
      EnterPutWork(w, max, raw, run, req, at, b.manifest.version, rendered, []);
    }
  }

  lemma StoredNextWork(w: World, max: nat, raw: Bytes, run: Run, req: Request, at: string, version: string,
                       rendered: seq<Rendered>, stored: seq<Artifact>, url: Option<string>)
    requires |stored| < |rendered|
    ensures WorkLeft(w, raw, run.(pc := StoredNext(w, max, req, run, at, version, rendered, stored, url)))
         < 4 + 2 * (|rendered| - |stored|)
  {
    EnterPutWork(w, max, raw, run, req, at, version, rendered, stored + [StoredAs(w, req, rendered[|stored|], url)]);
  }

  lemma FetchWork(w: World, max: nat, raw: Bytes, run: Run, c: Choice, req: Request, at: string)
    requires w.decode(raw) == Some(req) && !c.Cancels?
    ensures WorkLeft(w, raw, run.(pc := FetchPc(w, max, req, run, c, at))) < 6 + 3 * |Formats(req)|
  {
    if c.Returns? && w.template(req.templateUri).Found? {
      EnterRenderWork(w, max, raw, run, req, at, w.template(req.templateUri).bundle, []);
    }
  }

  lemma RenderWork(w: World, max: nat, raw: Bytes, run: Run, c: Choice, req: Request, at: string,
                   b: Bundle, rendered: seq<Rendered>)
    requires w.decode(raw) == Some(req) && !c.Cancels? && |rendered| < |Formats(req)|
    ensures WorkLeft(w, raw, run.(pc := RenderPc(w, max, req, run, c, at, b, rendered)))
          < 5 + 2 * |rendered| + 3 * (|Formats(req)| - |rendered|)
  {
    var f := Formats(req)[|rendered|];
    if c.Returns? && Execute(w, req, b, f).Produced? {
      EnterRenderWork(w, max, raw, run, req, at, b, rendered + [Pack(b, f, Execute(w, req, b, f).content)]);
    }
  }

  lemma PipelineUsesWork(w: World, max: nat, raw: Bytes, run: Run, c: Choice, req: Request)
    requires w.decode(raw) == Some(req) && Prepared(w, req, run.pc) && !c.Cancels?
    ensures WorkLeft(w, raw, run.(pc := PipelinePc(w, max, req, run, c))) < WorkLeft(w, raw, run)
  {
    match run.pc
    case Start =>
    case Fetch(at) =>
      assert PipelinePc(w, max, req, run, c) == FetchPc(w, max, req, run, c, at);
      FetchWork(w, max, raw, run, c, req, at);
    case Render(at, b, rendered) =>
      assert PipelinePc(w, max, req, run, c) == RenderPc(w, max, req, run, c, at, b, rendered);
      RenderWork(w, max, raw, run, c, req, at, b, rendered);
    case Put(at, version, rendered, stored) =>
      assert PipelinePc(w, max, req, run, c) == PutPc(w, max, req, run, c, at, version, rendered, stored);
      StoredNextWork(w, max, raw, run, req, at, version, rendered, stored, None);
    case Presign(at, version, rendered, stored) =>
      var url := if c.Returns? then Some(c.url) else None;
      assert PipelinePc(w, max, req, run, c) == StoredNext(w, max, req, run, at, version, rendered, stored, url);
      StoredNextWork(w, max, raw, run, req, at, version, rendered, stored, url);
  }

  lemma EmitUsesWork(w: World, max: nat, raw: Bytes, run: Run, c: Choice)
    requires !InPipeline(run.pc) && run.Live() && !c.Cancels?
    ensures WorkLeft(w, raw, run.(pc := EmitPc(max, run, c))) < WorkLeft(w, raw, run)
  {
  }

  lemma WorkIgnoresTally(w: World, raw: Bytes, run: Run, pc: Pc, t: Tally)
    ensures WorkLeft(w, raw, run.(pc := pc, tally := t)) == WorkLeft(w, raw, run.(pc := pc))
  {
  }

  /** Every step of a run uses up work. */
  lemma AdvanceUsesWork(w: World, max: nat, raw: Bytes, run: Run, c: Choice)
    requires OnTrack(w, max, raw, run) && run.Live()
    ensures WorkLeft(w, raw, Advance(w, max, raw, run, c)) < WorkLeft(w, raw, run)
  {
    WorkIgnoresTally(w, raw, run, NextPc(w, max, raw, run, c), Note(run, c));
    if !c.Cancels? {
      if !InPipeline(run.pc) {
        EmitUsesWork(w, max, raw, run, c);
      } else if w.decode(raw).Some? {
        PipelineUsesWork(w, max, raw, run, c, w.decode(raw).value);
      }
    }
  }
}
