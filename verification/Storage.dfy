/**
 What overlapping, failing and cancelled runs do to the output bucket.

 Every put writes exactly what the fault-free pipeline plans for that key, so a success result on the
 results stream is backed by the bucket from the moment it is posted, as long as no two messages plan
 bytes of different size or digest for one key.
 */
module Storage {
  import opened Prelude
  import opened Models
  import opened Pipeline
  import opened Handler
  import opened Delivery

  // ---- plans ----------------------------------------------------------------

  /** The artifacts the fault-free pipeline stores for a message. */
  function PlanOf(w: World, raw: Bytes): seq<Rendered> {
    match w.decode(raw)
    case None => []
    case Some(req) => if Decide(w, req).Stores? then Decide(w, req).plan else []
  }

  function KeyIn(w: World, raw: Bytes, i: nat): string
    requires i < |PlanOf(w, raw)|
  {
    KeyOf(w.decode(raw).value, PlanOf(w, raw)[i])
  }

  ghost predicate Planned(w: World, raw: Bytes, key: string, content: Bytes) {
    exists i :: 0 <= i < |PlanOf(w, raw)| && KeyIn(w, raw, i) == key && PlanOf(w, raw)[i].content == content
  }

  /** Same size and same digest. */
  predicate SameDigest(w: World, x: Bytes, y: Bytes) {
    |x| == |y| && w.sha256(x) == w.sha256(y)
  }

  /** No two messages plan bytes of different size or digest for one key. */
  ghost predicate KeysAgree(w: World, s: System) {
    forall m, n, key, x, y ::
      (0 <= m < |s.messages| && 0 <= n < |s.messages|
       && Planned(w, s.messages[m].raw, key, x) && Planned(w, s.messages[n].raw, key, y))
      ==> SameDigest(w, x, y)
  }

  /** Messages with different payloads plan different keys. */
  ghost predicate KeysDisjoint(w: World, s: System) {
    forall m, n, key, x, y ::
      (0 <= m < |s.messages| && 0 <= n < |s.messages|
       && Planned(w, s.messages[m].raw, key, x) && Planned(w, s.messages[n].raw, key, y))
      ==> s.messages[m].raw == s.messages[n].raw
  }

  /** Within one message every key is planned once. */
  lemma PlanIsFunctional(w: World, raw: Bytes, key: string, x: Bytes, y: Bytes)
    requires Planned(w, raw, key, x) && Planned(w, raw, key, y)
    ensures x == y
  {
    PlanListsEachFormatOnce(w, w.decode(raw).value);
  }

  /** Distinct requests writing under distinct keys agree, duplicates of one request included. */
  lemma DisjointKeysAgree(w: World, s: System)
    requires KeysDisjoint(w, s)
    ensures KeysAgree(w, s)
  {
    forall m, n, key, x, y | 0 <= m < |s.messages| && 0 <= n < |s.messages|
      && Planned(w, s.messages[m].raw, key, x) && Planned(w, s.messages[n].raw, key, y)
      ensures x == y
    {
      PlanIsFunctional(w, s.messages[m].raw, key, x, y);
    }
  }

  // ---- the bucket -----------------------------------------------------------

  /** The first `k` planned artifacts of the message are in the bucket, up to their size and digest. */
  ghost predicate Holds(w: World, raw: Bytes, bucket: map<string, Bytes>, k: nat) {
    && k <= |PlanOf(w, raw)|
    && forall i :: 0 <= i < k ==>
         && KeyIn(w, raw, i) in bucket
         && SameDigest(w, bucket[KeyIn(w, raw, i)], PlanOf(w, raw)[i].content)
  }

  /** A run between its puts has the artifacts it already stored in the bucket; a run about to report
      success has all of them. */
  ghost predicate RunHolds(w: World, raw: Bytes, pc: Pc, bucket: map<string, Bytes>) {
    match pc
    case Put(_, _, _, stored) => Holds(w, raw, bucket, |stored|)
    case Presign(_, _, _, stored) => Holds(w, raw, bucket, |stored| + 1)
    case Publish(r) => r.success ==> Holds(w, raw, bucket, |PlanOf(w, raw)|)
    case Ack(r) => r.success ==> Holds(w, raw, bucket, |PlanOf(w, raw)|)
    case _ => true
  }

  /** A posted result answers its message, faithfully and on the right subject. */
  ghost predicate Answers(w: World, s: System, p: Posting) {
    && p.origin < |s.messages|
    && match w.decode(s.messages[p.origin].raw)
       case None => false
       case Some(req) => p.subject == req.replyTo && Faithful(w, req, p.result)
  }

  /** A posted success is backed by the bucket. */
  ghost predicate Backs(w: World, s: System, p: Posting) {
    p.origin < |s.messages| && p.result.success ==>
      Holds(w, s.messages[p.origin].raw, s.env.bucket, |PlanOf(w, s.messages[p.origin].raw)|)
  }

  /** A dead letter is the unchanged payload of a message; it names the request when there is one, and gives the code of
      a transient failure or a failed emission for a reason. */
  ghost predicate LetterOk(w: World, s: System, d: DeadLetter) {
    exists m :: 0 <= m < |s.messages| && s.messages[m].raw == d.payload
      && match w.decode(d.payload)
         case None => d.requestId == None && d.reason == Decode
         case Some(req) =>
           d.requestId == Some(req.requestId) && d.reason in {EmitFailure, Failed(RenderFailed), Failed(StorageFailed)}
  }

  /** Everything in the bucket was there before or is planned by some message, and nothing disappears. */
  ghost predicate BucketOk(w: World, s: System, before: map<string, Bytes>) {
    && (forall key :: key in before ==> key in s.env.bucket)
    && forall key :: key in s.env.bucket ==>
         || (key in before && s.env.bucket[key] == before[key])
         || exists m :: 0 <= m < |s.messages| && Planned(w, s.messages[m].raw, key, s.env.bucket[key])
  }

  /** Everything written has a legitimate origin. */
  ghost predicate Sourced(w: World, s: System, before: map<string, Bytes>) {
    && (forall i :: 0 <= i < |s.env.results| ==> Answers(w, s, s.env.results[i]))
    && (forall i :: 0 <= i < |s.env.dlq| ==> LetterOk(w, s, s.env.dlq[i]))
    && BucketOk(w, s, before)
  }

  ghost predicate Stored(w: World, s: System) {
    && (forall m, r :: 0 <= m < |s.messages| && 0 <= r < |s.messages[m].runs| ==>
          RunHolds(w, s.messages[m].raw, s.messages[m].runs[r].pc, s.env.bucket))
    && (forall i :: 0 <= i < |s.env.results| ==> Backs(w, s, s.env.results[i]))
  }

  // ---- every step keeps it --------------------------------------------------

  lemma WriteIsPlanned(w: World, max: nat, raw: Bytes, run: Run)
    requires OnTrack(w, max, raw, run) && EffectOf(w, raw, run.pc).Write?
    ensures var e := EffectOf(w, raw, run.pc); Planned(w, raw, e.key, e.content)
    ensures run.pc.Put? && |run.pc.stored| < |PlanOf(w, raw)| && PlanOf(w, raw) == run.pc.rendered
  {
    assert PlanOf(w, raw) == run.pc.rendered;
    var e := EffectOf(w, raw, run.pc);
    var i := |run.pc.stored|;
    assert KeyIn(w, raw, i) == e.key && PlanOf(w, raw)[i].content == e.content;
  }

  /** Writing planned bytes keeps what any message has already stored. */
  lemma HoldsSurvives(w: World, s: System, raw: Bytes, k: nat, key: string, content: Bytes, writer: Bytes)
    requires KeysAgree(w, s) && Holds(w, raw, s.env.bucket, k)
    requires exists m :: 0 <= m < |s.messages| && s.messages[m].raw == raw
    requires exists m :: 0 <= m < |s.messages| && s.messages[m].raw == writer
    requires Planned(w, writer, key, content)
    ensures Holds(w, raw, s.env.bucket[key := content], k)
  {
    var m :| 0 <= m < |s.messages| && s.messages[m].raw == raw;
    var n :| 0 <= n < |s.messages| && s.messages[n].raw == writer;
    forall i | 0 <= i < k && KeyIn(w, raw, i) == key
      ensures SameDigest(w, content, PlanOf(w, raw)[i].content)
    {
      assert Planned(w, s.messages[m].raw, key, PlanOf(w, raw)[i].content);
      assert Planned(w, s.messages[n].raw, key, content);
    }
  }

  /** Same, for whatever the step at hand writes. */
  lemma HoldsStep(w: World, max: nat, s: System, e: Event, m: nat, k: nat)
    requires Local(w, max, s) && KeysAgree(w, s) && Enabled(max, s, e)
    requires m < |s.messages| && Holds(w, s.messages[m].raw, s.env.bucket, k)
    ensures Holds(w, s.messages[m].raw, Fire(w, max, s, e).env.bucket, k)
  {
    if e.Act? {
      var msg := s.messages[e.m];
      var eff := EffectOf(w, msg.raw, msg.runs[e.r].pc);
      if eff.Write? {
        WriteIsPlanned(w, max, msg.raw, msg.runs[e.r]);
        HoldsSurvives(w, s, s.messages[m].raw, k, eff.key, eff.content, msg.raw);
      }
    }
  }

  lemma StoredNextHolds(w: World, max: nat, raw: Bytes, run: Run, req: Request, at: string, version: string,
                        rendered: seq<Rendered>, stored: seq<Artifact>, url: Option<string>, bucket: map<string, Bytes>)
    requires PlanOf(w, raw) == rendered && |stored| < |rendered|
    requires Holds(w, raw, bucket, |stored| + 1)
    ensures RunHolds(w, raw, StoredNext(w, max, req, run, at, version, rendered, stored, url), bucket)
  {
  }

  lemma EnterRenderHolds(w: World, max: nat, raw: Bytes, run: Run, req: Request, at: string, b: Bundle,
                         rendered: seq<Rendered>, bucket: map<string, Bytes>)
    requires w.decode(raw) == Some(req) && |rendered| <= |Formats(req)|
    requires Decide(w, req) == RenderRest(w, req, b, rendered)
    ensures RunHolds(w, raw, EnterRender(max, req, run, at, b, rendered), bucket)
  {
    if |rendered| == |Formats(req)| {
      assert PlanOf(w, raw) == rendered;
    }
  }

  lemma FetchHolds(w: World, max: nat, raw: Bytes, run: Run, c: Choice, req: Request, at: string,
                   bucket: map<string, Bytes>)
    requires w.decode(raw) == Some(req) && !c.Cancels?
    ensures RunHolds(w, raw, FetchPc(w, max, req, run, c, at), bucket)
  {
    if c.Returns? && w.template(req.templateUri).Found? {
      var b := w.template(req.templateUri).bundle;
      if FirstUnsupported(b.manifest, Formats(req)).None? && w.validate(req.data, b.manifest.requiredFields).Valid? {
        EnterRenderHolds(w, max, raw, run, req, at, b, [], bucket);
      }
    }
  }

  lemma RenderHolds(w: World, max: nat, raw: Bytes, run: Run, c: Choice, req: Request, bucket: map<string, Bytes>)
    requires w.decode(raw) == Some(req) && !c.Cancels? && run.pc.Render? && Prepared(w, req, run.pc)
    ensures RunHolds(w, raw, RenderPc(w, max, req, run, c, run.pc.at, run.pc.bundle, run.pc.rendered), bucket)
  {
    var Render(at, b, rendered) := run.pc;
    var f := Formats(req)[|rendered|];
    if c.Returns? && Execute(w, req, b, f).Produced? {
      EnterRenderHolds(w, max, raw, run, req, at, b, rendered + [Pack(b, f, Execute(w, req, b, f).content)], bucket);
    }
  }

  /** After its own step a run still has in the bucket what it believes it stored. */
  lemma StepHolds(w: World, max: nat, s: System, e: Event)
    requires Local(w, max, s) && KeysAgree(w, s) && Enabled(max, s, e) && e.Act?
    requires RunHolds(w, s.messages[e.m].raw, s.messages[e.m].runs[e.r].pc, s.env.bucket)
    ensures var s' := Fire(w, max, s, e);
            RunHolds(w, s.messages[e.m].raw, s'.messages[e.m].runs[e.r].pc, s'.env.bucket)
  {
    var raw, run, c := s.messages[e.m].raw, s.messages[e.m].runs[e.r], e.choice;
    if !c.Cancels? && w.decode(raw).Some? {
      if InPipeline(run.pc) {
        PipelineHolds(w, max, s, e, w.decode(raw).value);
      } else if run.pc.Publish? && run.pc.result.success {
        HoldsStep(w, max, s, e, e.m, |PlanOf(w, raw)|);
      }
    }
  }

  lemma PipelineHolds(w: World, max: nat, s: System, e: Event, req: Request)
    requires Local(w, max, s) && KeysAgree(w, s) && Enabled(max, s, e) && e.Act? && !e.choice.Cancels?
    requires w.decode(s.messages[e.m].raw) == Some(req) && InPipeline(s.messages[e.m].runs[e.r].pc)
    requires RunHolds(w, s.messages[e.m].raw, s.messages[e.m].runs[e.r].pc, s.env.bucket)
    ensures var s' := Fire(w, max, s, e);
            RunHolds(w, s.messages[e.m].raw, s'.messages[e.m].runs[e.r].pc, s'.env.bucket)
  {
    var raw, run, c := s.messages[e.m].raw, s.messages[e.m].runs[e.r], e.choice;
    var bucket' := Fire(w, max, s, e).env.bucket;
    assert Advance(w, max, raw, run, c).pc == PipelinePc(w, max, req, run, c);
    match run.pc
    case Start =>
    case Fetch(at) => FetchHolds(w, max, raw, run, c, req, at, bucket');
    case Render(_, _, _) => RenderHolds(w, max, raw, run, c, req, bucket');
    case Put(_, _, _, _) => PutHolds(w, max, s, e, req);
    case Presign(at, version, rendered, stored) =>
      StoredNextHolds(w, max, raw, run, req, at, version, rendered, stored,
                      if c.Returns? then Some(c.url) else None, bucket');
  }

  lemma PutHolds(w: World, max: nat, s: System, e: Event, req: Request)
    requires Local(w, max, s) && KeysAgree(w, s) && Enabled(max, s, e) && e.Act? && !e.choice.Cancels?
    requires w.decode(s.messages[e.m].raw) == Some(req) && s.messages[e.m].runs[e.r].pc.Put?
    requires RunHolds(w, s.messages[e.m].raw, s.messages[e.m].runs[e.r].pc, s.env.bucket)
    ensures var s' := Fire(w, max, s, e);
            RunHolds(w, s.messages[e.m].raw, s'.messages[e.m].runs[e.r].pc, s'.env.bucket)
  {
    var raw, run, c := s.messages[e.m].raw, s.messages[e.m].runs[e.r], e.choice;
    var Put(at, version, rendered, stored) := run.pc;
    var bucket' := Fire(w, max, s, e).env.bucket;
    assert Advance(w, max, raw, run, c).pc == PutPc(w, max, req, run, c, at, version, rendered, stored);
    if c.Returns? {
      PutLands(w, max, s, e, req);
      if req.presignTtl.None? {
        StoredNextHolds(w, max, raw, run, req, at, version, rendered, stored, None, bucket');
      }
    }
  }

  /** A put that returned is in the bucket, next to the artifacts stored before it. */
  lemma PutLands(w: World, max: nat, s: System, e: Event, req: Request)
    requires Local(w, max, s) && KeysAgree(w, s) && Enabled(max, s, e) && e.Act? && e.choice.Returns?
    requires w.decode(s.messages[e.m].raw) == Some(req) && s.messages[e.m].runs[e.r].pc.Put?
    requires RunHolds(w, s.messages[e.m].raw, s.messages[e.m].runs[e.r].pc, s.env.bucket)
    ensures Holds(w, s.messages[e.m].raw, Fire(w, max, s, e).env.bucket, |s.messages[e.m].runs[e.r].pc.stored| + 1)
  {
    WriteIsPlanned(w, max, s.messages[e.m].raw, s.messages[e.m].runs[e.r]);
    HoldsStep(w, max, s, e, e.m, |s.messages[e.m].runs[e.r].pc.stored|);
  }

  lemma RunHoldsStep(w: World, max: nat, s: System, e: Event, m: nat, r: nat)
    requires Local(w, max, s) && KeysAgree(w, s) && Enabled(max, s, e)
    requires m < |s.messages| && r < |s.messages[m].runs|
    requires RunHolds(w, s.messages[m].raw, s.messages[m].runs[r].pc, s.env.bucket)
    ensures RunHolds(w, s.messages[m].raw, s.messages[m].runs[r].pc, Fire(w, max, s, e).env.bucket)
  {
    var raw := s.messages[m].raw;
    match s.messages[m].runs[r].pc
    case Put(_, _, _, stored) => HoldsStep(w, max, s, e, m, |stored|);
    case Presign(_, _, _, stored) => HoldsStep(w, max, s, e, m, |stored| + 1);
    case Publish(res) => if res.success { HoldsStep(w, max, s, e, m, |PlanOf(w, raw)|); }
    case Ack(res) => if res.success { HoldsStep(w, max, s, e, m, |PlanOf(w, raw)|); }
    case _ =>
  }

  lemma AnswersStep(w: World, max: nat, s: System, e: Event)
    requires Local(w, max, s) && Enabled(max, s, e)
    requires forall i :: 0 <= i < |s.env.results| ==> Answers(w, s, s.env.results[i])
    ensures var s' := Fire(w, max, s, e);
            forall i :: 0 <= i < |s'.env.results| ==> Answers(w, s', s'.env.results[i])
  {
    var s' := Fire(w, max, s, e);
    forall i | 0 <= i < |s'.env.results| ensures Answers(w, s', s'.env.results[i]) {
      if i < |s.env.results| {
        assert s'.env.results[i] == s.env.results[i];
        assert Answers(w, s, s.env.results[i]);
      }
    }
  }

  lemma BacksStep(w: World, max: nat, s: System, e: Event)
    requires Local(w, max, s) && Stored(w, s) && KeysAgree(w, s) && Enabled(max, s, e)
    ensures var s' := Fire(w, max, s, e);
            forall i :: 0 <= i < |s'.env.results| ==> Backs(w, s', s'.env.results[i])
  {
    var s' := Fire(w, max, s, e);
    forall i | 0 <= i < |s'.env.results| ensures Backs(w, s', s'.env.results[i]) {
      if i < |s.env.results| {
        var p := s.env.results[i];
        assert s'.env.results[i] == p;
        assert Backs(w, s, p);
        if p.result.success && p.origin < |s.messages| {
          HoldsStep(w, max, s, e, p.origin, |PlanOf(w, s.messages[p.origin].raw)|);
        }
      } else {
        assert RunHolds(w, s.messages[e.m].raw, s.messages[e.m].runs[e.r].pc, s.env.bucket);
      }
    }
  }

  lemma LettersStep(w: World, max: nat, s: System, e: Event)
    requires Local(w, max, s) && Enabled(max, s, e)
    requires forall i :: 0 <= i < |s.env.dlq| ==> LetterOk(w, s, s.env.dlq[i])
    ensures var s' := Fire(w, max, s, e);
            forall i :: 0 <= i < |s'.env.dlq| ==> LetterOk(w, s', s'.env.dlq[i])
  {
    var s' := Fire(w, max, s, e);
    forall i | 0 <= i < |s'.env.dlq| ensures LetterOk(w, s', s'.env.dlq[i]) {
      if i < |s.env.dlq| {
        var d := s.env.dlq[i];
        assert LetterOk(w, s, d);
        var m :| 0 <= m < |s.messages| && s.messages[m].raw == d.payload;
        assert s'.messages[m].raw == d.payload;
      } else {
        assert s'.messages[e.m].raw == s'.env.dlq[i].payload;
      }
    }
  }

  lemma BucketStep(w: World, max: nat, s: System, e: Event, before: map<string, Bytes>)
    requires Local(w, max, s) && BucketOk(w, s, before) && Enabled(max, s, e)
    ensures BucketOk(w, Fire(w, max, s, e), before)
  {
    var s' := Fire(w, max, s, e);
    assert forall m :: 0 <= m < |s.messages| ==> s'.messages[m].raw == s.messages[m].raw;
    if e.Act? && EffectOf(w, s.messages[e.m].raw, s.messages[e.m].runs[e.r].pc).Write? {
      WriteIsPlanned(w, max, s.messages[e.m].raw, s.messages[e.m].runs[e.r]);
    }
    forall key | key in s'.env.bucket
      ensures (key in before && s'.env.bucket[key] == before[key])
           || exists m :: 0 <= m < |s'.messages| && Planned(w, s'.messages[m].raw, key, s'.env.bucket[key])
    {
      if key in s.env.bucket && s.env.bucket[key] == s'.env.bucket[key] {
        if !(key in before && s.env.bucket[key] == before[key]) {
          var m :| 0 <= m < |s.messages| && Planned(w, s.messages[m].raw, key, s.env.bucket[key]);
          assert Planned(w, s'.messages[m].raw, key, s'.env.bucket[key]);
        }
      } else {
        assert Planned(w, s'.messages[e.m].raw, key, s'.env.bucket[key]);
      }
    }
  }

  lemma FireSourced(w: World, max: nat, s: System, e: Event, before: map<string, Bytes>)
    requires Local(w, max, s) && Sourced(w, s, before) && Enabled(max, s, e)
    ensures Sourced(w, Fire(w, max, s, e), before)
  {
    AnswersStep(w, max, s, e);
    LettersStep(w, max, s, e);
    BucketStep(w, max, s, e, before);
  }

  lemma FireStored(w: World, max: nat, s: System, e: Event)
    requires Local(w, max, s) && Stored(w, s) && KeysAgree(w, s) && Enabled(max, s, e)
    ensures Stored(w, Fire(w, max, s, e))
  {
    var s' := Fire(w, max, s, e);
    BacksStep(w, max, s, e);
    forall m, r | 0 <= m < |s'.messages| && 0 <= r < |s'.messages[m].runs|
      ensures RunHolds(w, s'.messages[m].raw, s'.messages[m].runs[r].pc, s'.env.bucket)
    {
      if e.Act? && e.m == m && e.r == r {
        StepHolds(w, max, s, e);
      } else if r < |s.messages[m].runs| {
        RunHoldsStep(w, max, s, e, m, r);
      }
    }
  }

  lemma FireKeepsAgreement(w: World, max: nat, s: System, e: Event)
    requires KeysAgree(w, s) && Enabled(max, s, e)
    ensures KeysAgree(w, Fire(w, max, s, e))
  {
    var s' := Fire(w, max, s, e);
    assert |s'.messages| == |s.messages|;
    assert forall m :: 0 <= m < |s.messages| ==> s'.messages[m].raw == s.messages[m].raw;
  }
}
