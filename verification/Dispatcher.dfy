/**
 The message handler as structured code: nested calls, loops, early returns, raised exceptions and
 `try`/`except` blocks, updating the message, the bucket and the two streams in place.

 `Session` runs one handler; `faults(i)` is what its `i`-th await meets.  Every method is proved to take
 exactly the steps of the program-counter machine of module `Handler`, so everything proved about the
 machine in an interleaved system holds of this code.
 */
module Dispatcher {
  import opened Prelude
  import opened Models
  import opened Pipeline
  import opened Handler
  import opened Delivery
  import opened Guarantees

  // ---- a run on its own -----------------------------------------------------

  /** The shared state and one run. */
  datatype Scene = Scene(env: Env, acked: bool, run: Run)

  function PlayOne(w: World, max: nat, m: nat, raw: Bytes, s: Scene, c: Choice): Scene {
    var e := EffectOf(w, raw, s.run.pc);
    Scene(LandEffect(s.env, m, e, c), s.acked || (e.Settle? && Lands(e, c)), Advance(w, max, raw, s.run, c))
  }

  /** The scene after `k` awaits. */
  function Play(w: World, max: nat, m: nat, raw: Bytes, s: Scene, faults: nat -> Choice, k: nat): Scene {
    if k == 0 then s
    else PlayOne(w, max, m, raw, Play(w, max, m, raw, s, faults, k - 1), faults(k - 1))
  }

  /** The run is still going at each of the first `k` awaits. */
  ghost predicate Plays(w: World, max: nat, m: nat, raw: Bytes, s: Scene, faults: nat -> Choice, k: nat) {
    forall i :: 0 <= i < k ==> Play(w, max, m, raw, s, faults, i).run.Live()
  }

  function SceneOf(s: System, m: nat, r: nat): Scene
    requires m < |s.messages| && r < |s.messages[m].runs|
  {
    Scene(s.env, s.messages[m].acked, s.messages[m].runs[r])
  }

  function Script(m: nat, r: nat, faults: nat -> Choice, k: nat): seq<Event> {
    seq(k, i requires 0 <= i < k => Act(m, r, faults(i)))
  }

  lemma FireIsPlayOne(w: World, max: nat, s: System, m: nat, r: nat, c: Choice)
    requires Enabled(max, s, Act(m, r, c))
    ensures var t := Fire(w, max, s, Act(m, r, c));
            && |t.messages| == |s.messages| && t.messages[m].raw == s.messages[m].raw
            && |t.messages[m].runs| == |s.messages[m].runs|
            && SceneOf(t, m, r) == PlayOne(w, max, m, s.messages[m].raw, SceneOf(s, m, r), c)
  {
  }

  /** One more await of a run that is still going. */
  lemma PlayStep(w: World, max: nat, m: nat, raw: Bytes, s: Scene, faults: nat -> Choice, k: nat,
                 now: Scene, after: Scene)
    requires Plays(w, max, m, raw, s, faults, k) && now == Play(w, max, m, raw, s, faults, k) && now.run.Live()
    requires after == PlayOne(w, max, m, raw, now, faults(k))
    ensures Play(w, max, m, raw, s, faults, k + 1) == after && Plays(w, max, m, raw, s, faults, k + 1)
    ensures after.run.n == now.run.n && after.run.readable == now.run.readable
  {
  }

  /** A run played on its own is an execution of the system in which nothing else moves. */
  lemma {:induction false} PlayIsExecution(w: World, max: nat, s: System, m: nat, r: nat, faults: nat -> Choice, k: nat)
    requires m < |s.messages| && r < |s.messages[m].runs|
    requires Plays(w, max, m, s.messages[m].raw, SceneOf(s, m, r), faults, k)
    ensures Allowed(w, max, s, Script(m, r, faults, k))
    ensures var t := After(w, max, s, Script(m, r, faults, k));
            && |t.messages| == |s.messages| && t.messages[m].raw == s.messages[m].raw
            && |t.messages[m].runs| == |s.messages[m].runs|
            && SceneOf(t, m, r) == Play(w, max, m, s.messages[m].raw, SceneOf(s, m, r), faults, k)
  {
    if k > 0 {
      PlayIsExecution(w, max, s, m, r, faults, k - 1);
      var es, e := Script(m, r, faults, k - 1), Act(m, r, faults(k - 1));
      var t := After(w, max, s, es);
      assert SceneOf(t, m, r).run.Live();
      FireIsPlayOne(w, max, t, m, r, faults(k - 1));
      AfterOne(w, max, t, e);
      AfterJoins(w, max, s, es, [e]);
      AfterSplits(w, max, s, es, [e]);
      assert Script(m, r, faults, k) == es + [e];
    }
  }

  // ---- how a call ends ------------------------------------------------------

  /** A call returns, raises an exception (`clock` is read by the handler of the exception), or is cancelled. */
  datatype Flow<T> = Ended(value: T) | Threw(clock: string) | Aborted

  class Session {
    const w: World
    const max: nat
    const m: nat
    const raw: Bytes
    const n: nat
    const readable: bool
    const faults: nat -> Choice

    var bucket: map<string, Bytes>
    var results: seq<Posting>
    var dlq: seq<DeadLetter>
    var acked: bool
    var awaits: nat

    /** Where the machine stands, and where the session started. */
    ghost var run: Run
    ghost const start: Scene

    constructor (w: World, max: nat, m: nat, raw: Bytes, n: nat, readable: bool,
                 faults: nat -> Choice, env: Env, acked: bool)
      ensures this.w == w && this.max == max && this.m == m && this.raw == raw && this.n == n
      ensures this.readable == readable && this.faults == faults
      ensures start == Scene(env, acked, NewRun(n, readable)) && run == NewRun(n, readable) && awaits == 0
      ensures Env(bucket, results, dlq) == env && this.acked == acked
      ensures Synced()
    {
      this.w, this.max, this.m, this.raw, this.n, this.readable := w, max, m, raw, n, readable;
      this.faults := faults;
      this.bucket, this.results, this.dlq, this.acked := env.bucket, env.results, env.dlq, acked;
      this.awaits := 0;
      this.run := NewRun(n, readable);
      this.start := Scene(env, acked, NewRun(n, readable));
    }

    /** The fields are what the machine would have produced after as many awaits. */
    ghost predicate Synced()
      reads this
    {
      && Scene(Env(bucket, results, dlq), acked, run) == Play(w, max, m, raw, start, faults, awaits)
      && Plays(w, max, m, raw, start, faults, awaits)
      && run.n == n && run.readable == readable
    }

    // -- awaits ---------------------------------------------------------------

    /** Count an await and move the machine, once the fields show what landed. */
    method Tick(ghost next: Run)
      requires Scene(Env(bucket, results, dlq), acked, next) == Play(w, max, m, raw, start, faults, awaits + 1)
      requires Plays(w, max, m, raw, start, faults, awaits + 1) && next.n == n && next.readable == readable
      modifies this`run, this`awaits
      ensures Synced() && run == next
    {
      awaits := awaits + 1;
      run := next;
    }

    /** An await that writes nothing: task start, template fetch, render, presigning, nak. */
    method Await() returns (c: Choice)
      requires Synced() && run.Live() && EffectOf(w, raw, run.pc).Nothing?
      modifies this
      ensures Synced() && run == Advance(w, max, raw, old(run), c)
    {
      c := faults(awaits);
      ghost var now, next := Scene(Env(bucket, results, dlq), acked, run), Advance(w, max, raw, run, c);
      PlayStep(w, max, m, raw, start, faults, awaits, now, Scene(Env(bucket, results, dlq), acked, next));
      Tick(next);
    }

    method PutBytes(key: string, content: Bytes) returns (c: Choice)
      requires Synced() && run.Live() && EffectOf(w, raw, run.pc) == Write(key, content)
      modifies this
      ensures Synced() && run == Advance(w, max, raw, old(run), c)
    {
      c := faults(awaits);
      ghost var now, next := Scene(Env(bucket, results, dlq), acked, run), Advance(w, max, raw, run, c);
      if c.Returns? || c.landed {
        bucket := bucket[key := content];
      }
      PlayStep(w, max, m, raw, start, faults, awaits, now, Scene(Env(bucket, results, dlq), acked, next));
      Tick(next);
    }

    method PublishResult(subject: string, result: GenerationResult) returns (c: Choice)
      requires Synced() && run.Live() && EffectOf(w, raw, run.pc) == Post(subject, result)
      modifies this
      ensures Synced() && run == Advance(w, max, raw, old(run), c)
    {
      c := faults(awaits);
      ghost var now, next := Scene(Env(bucket, results, dlq), acked, run), Advance(w, max, raw, run, c);
      if c.Returns? || c.landed {
        results := results + [Posting(m, subject, result)];
      }
      PlayStep(w, max, m, raw, start, faults, awaits, now, Scene(Env(bucket, results, dlq), acked, next));
      Tick(next);
    }

    method PublishDlq(requestId: Option<string>, reason: Reason) returns (c: Choice)
      requires Synced() && run.Live() && EffectOf(w, raw, run.pc) == Bury(DeadLetter(raw, requestId, reason))
      modifies this
      ensures Synced() && run == Advance(w, max, raw, old(run), c)
    {
      c := faults(awaits);
      ghost var now, next := Scene(Env(bucket, results, dlq), acked, run), Advance(w, max, raw, run, c);
      if c.Returns? || c.landed {
        dlq := dlq + [DeadLetter(raw, requestId, reason)];
      }
      PlayStep(w, max, m, raw, start, faults, awaits, now, Scene(Env(bucket, results, dlq), acked, next));
      Tick(next);
    }

    method AckMessage() returns (c: Choice)
      requires Synced() && run.Live() && EffectOf(w, raw, run.pc).Settle?
      modifies this
      ensures Synced() && run == Advance(w, max, raw, old(run), c)
    {
      c := faults(awaits);
      ghost var now, next := Scene(Env(bucket, results, dlq), acked, run), Advance(w, max, raw, run, c);
      if c.landed {
        acked := true;
      }
      PlayStep(w, max, m, raw, start, faults, awaits, now, Scene(Env(bucket, results, dlq), acked, next));
      Tick(next);
    }

    // -- process_request ------------------------------------------------------

    /** Store one rendered artifact: write it, then sign an address if one was asked for. Signing faults are
        swallowed. */
    method StoreArtifact(req: Request, at: string, version: string, rendered: seq<Rendered>, stored: seq<Artifact>)
      returns (o: Flow<Option<Artifact>>, text: string)
      requires Synced() && w.decode(raw) == Some(req)
      requires |stored| < |rendered| && run.pc == Put(at, version, rendered, stored)
      modifies this
      ensures Synced()
      ensures o.Aborted? ==> run.pc == Cancelled
      ensures o.Threw? ==> run.pc == Emit(max, run, UnhandledResult(req, o.clock))
      ensures o.Ended? && o.value.None? ==>
                run.pc == Emit(max, run, FailureFromError(req, DocGenError(StorageFailed, text), Some(version), at))
      ensures o.Ended? && o.value.Some? ==>
                run.pc == EnterPut(max, req, run, at, version, rendered, stored + [o.value.value])
    {
      var art := rendered[|stored|];
      text := "";
      var c := PutBytes(KeyOf(req, art), art.content);
      if c.Cancels? { return Aborted, text; }
      if c.Raises? {
        if c.fault.Transient? { return Ended(None), c.text; }
        return Threw(c.clock), text;
      }
      var presigned := None;
      if req.presignTtl.Some? {
        c := Await();
        if c.Cancels? { return Aborted, text; }
        if c.Returns? { presigned := Some(c.url); }
      }
      o := Ended(Some(Artifact(art.format, UriOf(w, KeyOf(req, art)), presigned,
                               |art.content|, w.sha256(art.content))));
    }

    /** Check every requested format against the template and the renderer table. */
    method CheckFormats(manifest: Manifest, fmts: seq<OutputFormat>) returns (problem: Option<DocGenError>)
      ensures problem == FirstUnsupported(manifest, fmts)
    {
      for i := 0 to |fmts|
        invariant FirstUnsupported(manifest, fmts) == FirstUnsupported(manifest, fmts[i..])
      {
        var fmt := fmts[i];
        assert fmts[i..][0] == fmt && fmts[i..][1..] == fmts[i + 1..];
        if fmt !in manifest.supportedFormats {
          return Some(UnsupportedError(manifest, fmt));
        }
        if !HasRenderer(manifest.engine, fmt) {
          return Some(UnsupportedError(manifest, fmt));
        }
      }
      problem := None;
    }

    /** Render every requested format; a classified error or a pool fault ends the pipeline. */
    method RenderAll(req: Request, at: string, b: Bundle, fmts: seq<OutputFormat>)
      returns (o: Flow<GenerationResult>, rendered: seq<Rendered>, complete: bool)
      requires Synced() && w.decode(raw) == Some(req) && fmts == Formats(req)
      requires run.pc == EnterRender(max, req, run, at, b, [])
      modifies this
      ensures Synced() && !o.Threw?
      ensures o.Aborted? ==> run.pc == Cancelled
      ensures o.Ended? && !complete ==> run.pc == Emit(max, run, o.value)
      ensures o.Ended? && complete ==> run.pc == EnterPut(max, req, run, at, b.manifest.version, rendered, [])
    {
      rendered, complete := [], false;
      var version := Some(b.manifest.version);
      while |rendered| < |fmts|
        invariant |rendered| <= |fmts|
        invariant Synced() && run.pc == EnterRender(max, req, run, at, b, rendered)
        decreases |fmts| - |rendered|
      {
        var fmt := fmts[|rendered|];
        var c := Await();
        if c.Cancels? { return Aborted, rendered, false; }
        if c.Raises? {
          var code := if c.fault.Misread? then TemplateNotFound else RenderFailed;
          return Ended(FailureFromError(req, DocGenError(code, c.text), version, at)), rendered, false;
        }
        match Execute(w, req, b, fmt) {
          case Produced(content) =>
            rendered := rendered + [Pack(b, fmt, content)];
          case Classified(e) =>
            return Ended(FailureFromError(req, e, version, at)), rendered, false;
        }
      }
      complete := true;
      o := Ended(UnhandledResult(req, at));
    }

    /** Store every artifact in order. */
    method StoreAll(req: Request, at: string, version: string, rendered: seq<Rendered>)
      returns (o: Flow<GenerationResult>)
      requires Synced() && w.decode(raw) == Some(req)
      requires run.pc == EnterPut(max, req, run, at, version, rendered, [])
      modifies this
      ensures Synced()
      ensures o.Aborted? ==> run.pc == Cancelled
      ensures o.Threw? ==> run.pc == Emit(max, run, UnhandledResult(req, o.clock))
      ensures o.Ended? ==> run.pc == Emit(max, run, o.value)
    {
      var artifacts: seq<Artifact> := [];
      while |artifacts| < |rendered|
        invariant |artifacts| <= |rendered|
        invariant Synced() && run.pc == EnterPut(max, req, run, at, version, rendered, artifacts)
        decreases |rendered| - |artifacts|
      {
        var put, text := StoreArtifact(req, at, version, rendered, artifacts);
        match put {
          case Aborted => return Aborted;
          case Threw(clock) => return Threw(clock);
          case Ended(art) =>
            if art.None? {
              return Ended(FailureFromError(req, DocGenError(StorageFailed, text), Some(version), at));
            }
            artifacts := artifacts + [art.value];
        }
      }
      o := Ended(SuccessResult(req, artifacts, version, at));
    }

    method ProcessRequest(req: Request, at: string) returns (o: Flow<GenerationResult>)
      requires Synced() && w.decode(raw) == Some(req) && run.pc == Fetch(at)
      modifies this
      ensures Synced()
      ensures o.Aborted? ==> run.pc == Cancelled
      ensures o.Threw? ==> run.pc == Emit(max, run, UnhandledResult(req, o.clock))
      ensures o.Ended? ==> run.pc == Emit(max, run, o.value)
    {
      var c := Await();
      if c.Cancels? { return Aborted; }
      if c.Raises? {
        match c.fault {
          case Transient =>
            return Ended(FailureFromError(req, DocGenError(StorageFailed, c.text), None, at));
          case Misread =>
            return Ended(FailureFromError(req, DocGenError(TemplateNotFound, c.text), None, at));
          case Unexpected =>
            return Threw(c.clock);
        }
      }
      match w.template(req.templateUri) {
        case Missing(message) =>
          return Ended(FailureFromError(req, DocGenError(TemplateNotFound, message), None, at));
        case Found(bundle) =>
          var manifest := bundle.manifest;
          var version := Some(manifest.version);
          var fmts := RequestedFormats(req.outputs);
          var problem := CheckFormats(manifest, fmts);
          if problem.Some? { return Ended(FailureFromError(req, problem.value, version, at)); }
          match w.validate(req.data, manifest.requiredFields) {
            case Invalid(message) =>
              return Ended(FailureFromError(req, DocGenError(ValidationError, message), version, at));
            case ValidatorBroke =>
              return Threw(c.clock);
            case Valid =>
              var ended, rendered, complete := RenderAll(req, at, bundle, fmts);
              if ended.Aborted? || !complete { return ended; }
              o := StoreAll(req, at, manifest.version, rendered);
          }
      }
    }

    /** `_build_result`: an unclassified exception becomes a transient failure. */
    method BuildResult(req: Request, at: string) returns (o: Flow<GenerationResult>)
      requires Synced() && w.decode(raw) == Some(req) && run.pc == Fetch(at)
      modifies this
      ensures Synced() && !o.Threw?
      ensures o.Aborted? ==> run.pc == Cancelled
      ensures o.Ended? ==> run.pc == Emit(max, run, o.value)
    {
      o := ProcessRequest(req, at);
      if o.Threw? {
        o := Ended(UnhandledResult(req, o.clock));
      }
    }

    // -- emitting -------------------------------------------------------------

    /** The last allowed delivery: publish the failed result, dead-letter the message, acknowledge. */
    method DeadLetterMessage(req: Request, result: GenerationResult) returns (o: Flow<Finish>)
      requires Synced() && w.decode(raw) == Some(req) && run.pc == LastPublish(result)
      modifies this
      ensures Synced()
      ensures o.Aborted? ==> run.pc == Cancelled
      ensures o.Threw? ==> run.pc == EmitFailed(max, run)
      ensures o.Ended? ==> run.pc == Done(o.value)
    {
      var c := PublishResult(req.replyTo, result);
      if c.Cancels? { return Aborted; }
      if c.Raises? { return Threw(c.clock); }
      o := BuryAndAck(req, result);
    }

    /** The rest of `_emit` at the bound: the raw payload into the dead-letter stream, then the acknowledgement. */
    method BuryAndAck(req: Request, result: GenerationResult) returns (o: Flow<Finish>)
      requires Synced() && w.decode(raw) == Some(req) && run.pc == LastDlq(result)
      modifies this
      ensures Synced()
      ensures o.Aborted? ==> run.pc == Cancelled
      ensures o.Threw? ==> run.pc == EmitFailed(max, run)
      ensures o.Ended? ==> run.pc == Done(o.value)
    {
      var c := PublishDlq(Some(req.requestId), ReasonOf(result));
      if c.Cancels? { return Aborted; }
      if c.Raises? { return Threw(c.clock); }
      c := AckMessage();
      if c.Cancels? { return Aborted; }
      if c.Raises? { return Threw(c.clock); }
      o := Ended(DeadLettered);
    }

    /** `_emit` */
    method EmitResult(req: Request, result: GenerationResult) returns (o: Flow<Finish>)
      requires Synced() && w.decode(raw) == Some(req) && run.pc == Emit(max, run, result)
      modifies this
      ensures Synced()
      ensures o.Aborted? ==> run.pc == Cancelled
      ensures o.Threw? ==> run.pc == EmitFailed(max, run)
      ensures o.Ended? ==> run.pc == Done(o.value)
    {
      if result.Terminal() {
        var c := PublishResult(req.replyTo, result);
        if c.Cancels? { return Aborted; }
        if c.Raises? { return Threw(c.clock); }
        c := AckMessage();
        if c.Cancels? { return Aborted; }
        if c.Raises? { return Threw(c.clock); }
        return Ended(if result.success then Acked else AckedPermanent);
      }
      if NumDelivered(n, readable) < max {
        var c := Await();
        if c.Cancels? { return Aborted; }
        if c.Raises? { return Threw(c.clock); }
        return Ended(Nakked);
      }
      o := DeadLetterMessage(req, result);
    }

    /** `_handle_emit_failure`: every exception in it is suppressed; a cancellation is not. */
    method HandleEmitFailure(req: Request) returns (o: Flow<Finish>)
      requires Synced() && w.decode(raw) == Some(req) && run.pc == EmitFailed(max, run)
      modifies this
      ensures Synced() && !o.Threw?
      ensures o.Aborted? ==> run.pc == Cancelled
      ensures o.Ended? ==> run.pc == Done(o.value)
    {
      if NumDelivered(n, readable) < max {
        var c := Await();
        if c.Cancels? { return Aborted; }
        return Ended(EmitErrorNak);
      }
      var c := PublishDlq(Some(req.requestId), EmitFailure);
      if c.Cancels? { return Aborted; }
      c := AckMessage();
      if c.Cancels? { return Aborted; }
      o := Ended(EmitErrorDlq);
    }

    /** `_drop_undecodable` */
    method DropUndecodable() returns (o: Flow<Finish>)
      requires Synced() && w.decode(raw) == None && run.pc == DropDlq
      modifies this
      ensures Synced()
      ensures o.Aborted? ==> run.pc == Cancelled
      ensures o.Threw? ==> run.pc == Crashed
      ensures o.Ended? ==> run.pc == Done(o.value)
    {
      var c := PublishDlq(None, Decode);
      if c.Cancels? { return Aborted; }
      c := AckMessage();
      if c.Cancels? { return Aborted; }
      if c.Raises? { return Threw(c.clock); }
      o := Ended(DropDecode);
    }

    /** `_handle_message`, from the start of its task to its end: the bucket, both streams and the message are
        what the machine produces after as many awaits, and the machine has stopped there. */
    method HandleMessage() returns (o: Flow<Finish>)
      requires Synced() && run == NewRun(n, readable)
      modifies this
      ensures Synced() && !run.Live()
      ensures o.Aborted? ==> run.pc == Cancelled
      ensures o.Threw? ==> run.pc == Crashed
      ensures o.Ended? ==> run.pc == Done(o.value)
    {
      var c := Await();
      if c.Cancels? { return Aborted; }
      match w.decode(raw) {
        case None =>
          o := DropUndecodable();
        case Some(req) =>
          var built := BuildResult(req, c.clock);
          if built.Aborted? { return Aborted; }
          o := EmitResult(req, built.value);
          if o.Threw? {
            o := HandleEmitFailure(req);
          }
      }
    }
  }
}
