/**
 Which delivery a posted result comes from, and whether that delivery misread its template: a success never does,
 and a terminal result that is not the fault-free pipeline's always does.
 */
module Attribution {
  import opened Prelude
  import opened Models
  import opened Pipeline
  import opened Handler
  import opened Delivery

  /** What a result says about the delivery that computed it. */
  ghost predicate Explains(w: World, req: Request, r: GenerationResult, misread: bool) {
    && (r.success ==> !misread)
    && (r.Terminal() && Essence(r) != Expected(w, req) ==> misread)
  }

  /** A run that holds a terminal result, or may still come to one, knows whether it misread its template. */
  ghost predicate Aware(w: World, req: Request, run: Run) {
    match run.pc
    case Publish(r) => Explains(w, req, r, run.tally.misread)
    case Ack(r) => Explains(w, req, r, run.tally.misread)
    case _ => true
  }

  /** Some delivery of the message has attempted a publish, and the result speaks for it. */
  ghost predicate Published(w: World, req: Request, msg: Message, r: GenerationResult) {
    exists k :: 0 <= k < |msg.runs| && msg.runs[k].tally.publishes > 0 && Explains(w, req, r, msg.runs[k].tally.misread)
  }

  ghost predicate Traced(w: World, s: System, p: Posting) {
    p.origin < |s.messages| && w.decode(s.messages[p.origin].raw).Some? ==>
      Published(w, w.decode(s.messages[p.origin].raw).value, s.messages[p.origin], p.result)
  }

  /** Some delivery of the message misread its template. */
  ghost predicate EverMisread(msg: Message) {
    exists k :: 0 <= k < |msg.runs| && msg.runs[k].tally.misread
  }

  /** The result is on the stream. */
  ghost predicate Sent(env: Env, m: nat, r: GenerationResult) {
    exists i :: 0 <= i < |env.results| && env.results[i].origin == m && env.results[i].result == r
  }

  /** A dead letter that names an error repeats the one of a result on the stream that answers the same payload. */
  ghost predicate Repeats(s: System, d: DeadLetter) {
    d.reason.Failed? ==> exists i :: 0 <= i < |s.env.results| && SameCause(s, s.env.results[i], d)
  }

  ghost predicate SameCause(s: System, p: Posting, d: DeadLetter) {
    && p.origin < |s.messages| && s.messages[p.origin].raw == d.payload
    && p.result.error.Some? && Failed(p.result.error.value.code) == d.reason
  }

  /** Dead letters follow their results. */
  ghost predicate Announced(s: System) {
    && (forall m, r :: 0 <= m < |s.messages| && 0 <= r < |s.messages[m].runs| && s.messages[m].runs[r].pc.LastDlq? ==>
          Sent(s.env, m, s.messages[m].runs[r].pc.result))
    && forall i :: 0 <= i < |s.env.dlq| ==> Repeats(s, s.env.dlq[i])
  }

  ghost predicate Attributed(w: World, s: System) {
    && Announced(s)
    && (forall m, r :: 0 <= m < |s.messages| && 0 <= r < |s.messages[m].runs| && w.decode(s.messages[m].raw).Some? ==>
          Aware(w, w.decode(s.messages[m].raw).value, s.messages[m].runs[r]))
    && forall i :: 0 <= i < |s.env.results| ==> Traced(w, s, s.env.results[i])
  }

  // ---- every step keeps it --------------------------------------------------

  /** A result emitted inside the pipeline is the fault-free pipeline's, unless a template file was misread. */
  lemma PipelineAware(w: World, max: nat, raw: Bytes, run: Run, c: Choice, req: Request)
    requires w.decode(raw) == Some(req) && OnTrack(w, max, raw, run) && Counted(w, max, raw, run)
    requires InPipeline(run.pc) && !c.Cancels?
    ensures Aware(w, req, Advance(w, max, raw, run, c))
  {
    PipelineSane(w, max, run, c, req);
    PipelineLeadsTo(w, max, req, run, c);
    assert Advance(w, max, raw, run, c).pc == PipelinePc(w, max, req, run, c);
    if !Misreads(run.pc, c) {
      assert Note(run, c).misread == run.tally.misread;
    }
  }

  lemma StepAware(w: World, max: nat, raw: Bytes, run: Run, c: Choice, req: Request)
    requires w.decode(raw) == Some(req) && OnTrack(w, max, raw, run) && Counted(w, max, raw, run) && run.Live()
    requires Aware(w, req, run)
    ensures Aware(w, req, Advance(w, max, raw, run, c))
  {
    if InPipeline(run.pc) && !c.Cancels? {
      PipelineAware(w, max, raw, run, c, req);
    }
  }

  /** A run that has published goes on without reading templates. */
  lemma PublishedStays(w: World, max: nat, raw: Bytes, run: Run, c: Choice, req: Request)
    requires w.decode(raw) == Some(req) && Counted(w, max, raw, run) && run.tally.publishes > 0
    ensures var next := Advance(w, max, raw, run, c);
            next.tally.publishes > 0 && next.tally.misread == run.tally.misread
  {
  }

  lemma FireTraced(w: World, max: nat, s: System, e: Event, p: Posting)
    requires Local(w, max, s) && Enabled(max, s, e) && Traced(w, s, p)
    ensures Traced(w, Fire(w, max, s, e), p)
  {
    var t := Fire(w, max, s, e);
    if p.origin < |s.messages| && w.decode(s.messages[p.origin].raw).Some? {
      var msg, msg', req := s.messages[p.origin], t.messages[p.origin], w.decode(s.messages[p.origin].raw).value;
      assert RunsOk(w, max, msg);
      var k :| 0 <= k < |msg.runs| && msg.runs[k].tally.publishes > 0
            && Explains(w, req, p.result, msg.runs[k].tally.misread);
      if e.Act? && e.m == p.origin && e.r == k {
        PublishedStays(w, max, msg.raw, msg.runs[k], e.choice, req);
      }
      assert msg'.runs[k].tally.publishes > 0 && msg'.runs[k].tally.misread == msg.runs[k].tally.misread;
    }
  }

  /** The result a step posts comes from the run that takes it. */
  lemma NewTraced(w: World, max: nat, s: System, e: Event)
    requires Local(w, max, s) && Attributed(w, s) && Enabled(max, s, e)
    requires |Fire(w, max, s, e).env.results| > |s.env.results|
    ensures var t := Fire(w, max, s, e); Traced(w, t, t.env.results[|s.env.results|])
  {
    var t := Fire(w, max, s, e);
    var msg := s.messages[e.m];
    var run, req := msg.runs[e.r], w.decode(msg.raw).value;
    assert RunsOk(w, max, msg) && Aware(w, req, run);
    var run' := t.messages[e.m].runs[e.r];
    assert run' == Advance(w, max, msg.raw, run, e.choice) && run'.tally.publishes > 0;
    assert Explains(w, req, t.env.results[|s.env.results|].result, run'.tally.misread);
  }

  lemma SentStays(env: Env, env': Env, m: nat, r: GenerationResult)
    requires Sent(env, m, r) && env.results <= env'.results
    ensures Sent(env', m, r)
  {
    var i :| 0 <= i < |env.results| && env.results[i].origin == m && env.results[i].result == r;
    assert env'.results[i] == env.results[i];
  }

  lemma RepeatsStays(w: World, max: nat, s: System, e: Event, d: DeadLetter)
    requires Enabled(max, s, e) && Repeats(s, d)
    ensures Repeats(Fire(w, max, s, e), d)
  {
    var t := Fire(w, max, s, e);
    if d.reason.Failed? {
      var i :| 0 <= i < |s.env.results| && SameCause(s, s.env.results[i], d);
      assert t.env.results[i] == s.env.results[i] && SameCause(t, t.env.results[i], d);
    }
  }

  /** A run comes to its dead letter only behind a publish that returned. */
  lemma StepSends(w: World, max: nat, s: System, e: Event)
    requires Local(w, max, s) && Enabled(max, s, e) && e.Act?
    requires Fire(w, max, s, e).messages[e.m].runs[e.r].pc.LastDlq?
    ensures var t := Fire(w, max, s, e); Sent(t.env, e.m, t.messages[e.m].runs[e.r].pc.result)
  {
    var raw, run := s.messages[e.m].raw, s.messages[e.m].runs[e.r];
    assert RunsOk(w, max, s.messages[e.m]);
    var t := Fire(w, max, s, e);
    assert t.messages[e.m].runs[e.r] == Advance(w, max, raw, run, e.choice);
    if InPipeline(run.pc) && w.decode(raw).Some? {
      PipelineLeadsTo(w, max, w.decode(raw).value, run, e.choice);
    }
    assert run.pc.LastPublish? && w.decode(raw).Some?;
    assert t.env.results[|s.env.results|] == Posting(e.m, w.decode(raw).value.replyTo, run.pc.result);
  }

  lemma NewLetterRepeats(w: World, max: nat, s: System, e: Event)
    requires Local(w, max, s) && Announced(s) && Enabled(max, s, e)
    requires |Fire(w, max, s, e).env.dlq| > |s.env.dlq|
    ensures var t := Fire(w, max, s, e); Repeats(t, t.env.dlq[|s.env.dlq|])
  {
    var t, run := Fire(w, max, s, e), s.messages[e.m].runs[e.r];
    assert RunsOk(w, max, s.messages[e.m]);
    if run.pc.LastDlq? {
      var i :| 0 <= i < |s.env.results| && s.env.results[i].origin == e.m && s.env.results[i].result == run.pc.result;
      assert t.env.results[i] == s.env.results[i] && SameCause(t, t.env.results[i], t.env.dlq[|s.env.dlq|]);
    }
  }

  lemma FireAnnounced(w: World, max: nat, s: System, e: Event)
    requires Local(w, max, s) && Announced(s) && Enabled(max, s, e)
    ensures Announced(Fire(w, max, s, e))
  {
    var t := Fire(w, max, s, e);
    forall m, r | 0 <= m < |t.messages| && 0 <= r < |t.messages[m].runs| && t.messages[m].runs[r].pc.LastDlq?
      ensures Sent(t.env, m, t.messages[m].runs[r].pc.result)
    {
      if e.Act? && e.m == m && e.r == r {
        StepSends(w, max, s, e);
      } else {
        assert r < |s.messages[m].runs| && t.messages[m].runs[r] == s.messages[m].runs[r];
        SentStays(s.env, t.env, m, s.messages[m].runs[r].pc.result);
      }
    }
    forall i | 0 <= i < |t.env.dlq|
      ensures Repeats(t, t.env.dlq[i])
    {
      if i < |s.env.dlq| {
        RepeatsStays(w, max, s, e, s.env.dlq[i]);
      } else {
        NewLetterRepeats(w, max, s, e);
      }
    }
  }

  lemma FireAttributed(w: World, max: nat, s: System, e: Event)
    requires Local(w, max, s) && Attributed(w, s) && Enabled(max, s, e)
    ensures Attributed(w, Fire(w, max, s, e))
  {
    var t := Fire(w, max, s, e);
    FireAnnounced(w, max, s, e);
    forall m, r | 0 <= m < |t.messages| && 0 <= r < |t.messages[m].runs| && w.decode(t.messages[m].raw).Some?
      ensures Aware(w, w.decode(t.messages[m].raw).value, t.messages[m].runs[r])
    {
      if e.Act? && e.m == m && e.r == r {
        assert RunsOk(w, max, s.messages[m]);
        StepAware(w, max, s.messages[m].raw, s.messages[m].runs[r], e.choice, w.decode(s.messages[m].raw).value);
      } else if r < |s.messages[m].runs| {
        assert t.messages[m].runs[r] == s.messages[m].runs[r];
      }
    }
    forall i | 0 <= i < |t.env.results|
      ensures Traced(w, t, t.env.results[i])
    {
      if i < |s.env.results| {
        FireTraced(w, max, s, e, s.env.results[i]);
      } else {
        NewTraced(w, max, s, e);
      }
    }
  }
}
