/**
 Undisturbed runs, and why key agreement is exactly what a backed success needs: when two requests plan
 different bytes for one key, an ordinary fault-free execution leaves one of their results wrong.
 */
module Clashes {
  import opened Prelude
  import opened Models
  import opened Pipeline
  import opened Handler
  import opened Delivery
  import opened Storage
  import opened Guarantees

  const SMOOTH := Returns(true, "", "")

  /** Without a fault, a pipeline that decides on a terminal result never turns to another one. */
  lemma SmoothStep(w: World, max: nat, run: Run, req: Request)
    requires Prepared(w, req, run.pc) && Expected(w, req).Terminal()
    ensures ReachesExpected(w, req, PipelinePc(w, max, req, run, SMOOTH))
  {
    assert Unsigned([]) == [];
    match run.pc
    case Start =>
    case Fetch(at) => SmoothFetch(w, max, run, req, at);
    case Render(at, b, rendered) =>
      var f := Formats(req)[|rendered|];
      if Execute(w, req, b, f).Produced? {
        SmoothRender(w, max, run, req, at, b, rendered + [Pack(b, f, Execute(w, req, b, f).content)]);
      }
    case Put(at, version, rendered, stored) =>
      if req.presignTtl.None? { SmoothStored(w, max, run, req, at, version, rendered, stored, None); }
    case Presign(at, version, rendered, stored) =>
      SmoothStored(w, max, run, req, at, version, rendered, stored, Some(""));
  }

  /** Still in the pipeline, or about to publish what it decides. */
  ghost predicate ReachesExpected(w: World, req: Request, pc: Pc) {
    InPipeline(pc) || (pc.Publish? && Essence(pc.result) == Expected(w, req))
  }

  lemma SmoothFetch(w: World, max: nat, run: Run, req: Request, at: string)
    requires Expected(w, req).Terminal()
    ensures ReachesExpected(w, req, FetchPc(w, max, req, run, SMOOTH, at))
  {
    assert Unsigned([]) == [];
    if w.template(req.templateUri).Found? {
      var b := w.template(req.templateUri).bundle;
      if FirstUnsupported(b.manifest, Formats(req)).None? && w.validate(req.data, b.manifest.requiredFields).Valid? {
        SmoothRender(w, max, run, req, at, b, []);
      }
    }
  }

  lemma SmoothRender(w: World, max: nat, run: Run, req: Request, at: string, b: Bundle, rendered: seq<Rendered>)
    requires w.template(req.templateUri) == Found(b) && |rendered| <= |Formats(req)|
    requires Decide(w, req) == RenderRest(w, req, b, rendered)
    ensures ReachesExpected(w, req, EnterRender(max, req, run, at, b, rendered))
  {
    EnterRenderSane(w, max, run, req, at, b, rendered);
  }

  lemma SmoothStored(w: World, max: nat, run: Run, req: Request, at: string, version: string,
                     rendered: seq<Rendered>, stored: seq<Artifact>, url: Option<string>)
    requires Decide(w, req) == Stores(version, rendered)
    requires ListedSoFar(w, req, rendered, stored) && |stored| < |rendered|
    requires req.presignTtl.None? ==> url == None
    ensures ReachesExpected(w, req, StoredNext(w, max, req, run, at, version, rendered, stored, url))
  {
    StoredNextSane(w, max, run, req, at, version, rendered, stored, url);
  }

  /** Only message `m` has moved, and nothing has been posted or dead-lettered. */
  ghost predicate Quietly(s: System, t: System, m: nat) {
    && t.env.results == s.env.results && t.env.dlq == s.env.dlq
    && |t.messages| == |s.messages|
    && forall k :: 0 <= k < |s.messages| && k != m ==> t.messages[k] == s.messages[k]
  }

  /** Message `m` has moved by run `r` only, which has published nothing. */
  ghost predicate OneRunMoved(s: System, t: System, m: nat, r: nat)
    requires m < |s.messages| && r < |s.messages[m].runs|
  {
    && Quietly(s, t, m)
    && t.messages[m].raw == s.messages[m].raw && t.messages[m].acked == s.messages[m].acked
    && |t.messages[m].runs| == |s.messages[m].runs|
    && (forall k :: 0 <= k < |s.messages[m].runs| && k != r ==> t.messages[m].runs[k] == s.messages[m].runs[k])
    && t.messages[m].runs[r].readable == s.messages[m].runs[r].readable
    && t.messages[m].runs[r].tally == s.messages[m].runs[r].tally
  }

  /** A run whose pipeline decides on a terminal result, left alone, comes to publish it. */
  lemma {:induction false} SmoothRunReachesPublish(w: World, max: nat, s: System, m: nat, r: nat)
    returns (es: seq<Event>)
    requires Local(w, max, s) && m < |s.messages| && r < |s.messages[m].runs|
    requires w.decode(s.messages[m].raw).Some? && Expected(w, w.decode(s.messages[m].raw).value).Terminal()
    requires ReachesExpected(w, w.decode(s.messages[m].raw).value, s.messages[m].runs[r].pc)
    ensures Allowed(w, max, s, es)
    ensures var t := After(w, max, s, es);
            && Local(w, max, t) && OneRunMoved(s, t, m, r)
            && t.messages[m].runs[r].pc.Publish?
            && Essence(t.messages[m].runs[r].pc.result) == Expected(w, w.decode(s.messages[m].raw).value)
    decreases WorkLeft(w, s.messages[m].raw, s.messages[m].runs[r])
  {
    var raw, run := s.messages[m].raw, s.messages[m].runs[r];
    assert RunsOk(w, max, s.messages[m]);
    es := [];
    if !run.pc.Publish? {
      var e := Act(m, r, SMOOTH);
      var s' := Fire(w, max, s, e);
      FireLocal(w, max, s, e);
      AdvanceUsesWork(w, max, raw, run, SMOOTH);
      assert s'.messages[m].runs[r] == Advance(w, max, raw, run, SMOOTH);
      SmoothStep(w, max, run, w.decode(raw).value);
      var rest := SmoothRunReachesPublish(w, max, s', m, r);
      es := [e] + rest;
      AfterCons(w, max, s, e, rest);
    }
  }

  /** Deliver a message for the first time and let its run go undisturbed: it posts what the pipeline decides. */
  lemma DeliverAndPost(w: World, max: nat, s: System, m: nat) returns (es: seq<Event>)
    requires Local(w, max, s) && m < |s.messages| && !s.messages[m].acked && s.messages[m].runs == []
    requires w.decode(s.messages[m].raw).Some? && Expected(w, w.decode(s.messages[m].raw).value).Terminal()
    ensures Allowed(w, max, s, es)
    ensures var t := After(w, max, s, es);
            && |t.env.results| == |s.env.results| + 1 && s.env.results <= t.env.results
            && t.env.results[|s.env.results|].origin == m
            && Essence(t.env.results[|s.env.results|].result) == Expected(w, w.decode(s.messages[m].raw).value)
            && |t.messages| == |s.messages|
            && forall k :: 0 <= k < |s.messages| && k != m ==> t.messages[k] == s.messages[k]
  {
    var e := Deliver(m, true);
    FireLocal(w, max, s, e);
    var t := Fire(w, max, s, e);
    var rest := SmoothRunReachesPublish(w, max, t, m, 0);
    var u := After(w, max, t, rest);
    AfterOne(w, max, u, Act(m, 0, SMOOTH));
    AfterJoins(w, max, t, rest, [Act(m, 0, SMOOTH)]);
    AfterSplits(w, max, t, rest, [Act(m, 0, SMOOTH)]);
    AfterCons(w, max, s, e, rest + [Act(m, 0, SMOOTH)]);
    es := [e] + (rest + [Act(m, 0, SMOOTH)]);
  }

  /** In every reachable state every success result is backed by the bucket. */
  ghost predicate AlwaysHonest(w: World, max: nat, s: System) {
    forall es, i :: Allowed(w, max, s, es) && 0 <= i < |After(w, max, s, es).env.results|
      && After(w, max, s, es).env.results[i].result.success
      ==> Honest(w, After(w, max, s, es).env.bucket, After(w, max, s, es).env.results[i].result)
  }

  /** A backed result pins the size and digest of every key its request plans. */
  lemma HonestPins(w: World, s: System, p: Posting, key: string, x: Bytes)
    requires Answers(w, s, p) && p.result.success && Honest(w, s.env.bucket, p.result)
    requires Planned(w, s.messages[p.origin].raw, key, x)
    ensures key in s.env.bucket && SameDigest(w, s.env.bucket[key], x)
  {
    var raw := s.messages[p.origin].raw;
    var req := w.decode(raw).value;
    EssenceKeepsMeaning(p.result, Expected(w, req));
    var i :| 0 <= i < |PlanOf(w, raw)| && KeyIn(w, raw, i) == key && PlanOf(w, raw)[i].content == x;
    var a := p.result.artifacts[i];
    assert Expected(w, req).artifacts[i] == StoredAs(w, req, PlanOf(w, raw)[i], None);
    assert InBucket(w, s.env.bucket, a);
    var k :| k in s.env.bucket && a.uri == UriOf(w, k)
      && a.sizeBytes == |s.env.bucket[k]| && a.sha256 == w.sha256(s.env.bucket[k]);
    UriInjective(w, k, key);
  }

  /** Two different messages, served one after the other, both post a success. */
  lemma PostBoth(w: World, max: nat, s: System, m: nat, n: nat) returns (es: seq<Event>)
    requires Initial(s) && m < |s.messages| && n < |s.messages| && m != n
    requires w.decode(s.messages[m].raw).Some? && Decide(w, w.decode(s.messages[m].raw).value).Stores?
    requires w.decode(s.messages[n].raw).Some? && Decide(w, w.decode(s.messages[n].raw).value).Stores?
    ensures Allowed(w, max, s, es)
    ensures var u := After(w, max, s, es);
            && |u.env.results| == 2
            && u.env.results[0].origin == m && u.env.results[0].result.success
            && u.env.results[1].origin == n && u.env.results[1].result.success
  {
    InitialIsSound(w, max, s);
    var fs := DeliverAndPost(w, max, s, m);
    var t := After(w, max, s, fs);
    SoundAlways(w, max, s, fs, s.env.bucket);
    TimePasses(w, max, s, fs);
    var gs := DeliverAndPost(w, max, t, n);
    AfterJoins(w, max, s, fs, gs);
    AfterSplits(w, max, s, fs, gs);
    es := fs + gs;
    assert After(w, max, s, es).env.results[0] == t.env.results[0];
  }

  lemma HonestyNeedsAgreement(w: World, max: nat, s: System, m: nat, n: nat, key: string, x: Bytes, y: Bytes)
    requires Initial(s) && AlwaysHonest(w, max, s) && m < |s.messages| && n < |s.messages|
    requires Planned(w, s.messages[m].raw, key, x) && Planned(w, s.messages[n].raw, key, y)
    ensures SameDigest(w, x, y)
  {
    if m == n {
      PlanIsFunctional(w, s.messages[m].raw, key, x, y);
    } else {
      var es := PostBoth(w, max, s, m, n);
      var u := After(w, max, s, es);
      ReachableIsSound(w, max, s, es);
      TimePasses(w, max, s, es);
      HonestPins(w, u, u.env.results[0], key, x);
      HonestPins(w, u, u.env.results[1], key, y);
    }
  }

  /** A success result is backed by the bucket in every reachable state exactly when the requests agree on
      the size and digest of every key they share. */
  lemma HonestExactlyWhenKeysAgree(w: World, max: nat, s: System)
    requires Initial(s)
    ensures AlwaysHonest(w, max, s) <==> KeysAgree(w, s)
  {
    if KeysAgree(w, s) {
      forall es, i | Allowed(w, max, s, es) && 0 <= i < |After(w, max, s, es).env.results|
        && After(w, max, s, es).env.results[i].result.success
        ensures Honest(w, After(w, max, s, es).env.bucket, After(w, max, s, es).env.results[i].result)
      {
        assert es + [] == es;
        SuccessStaysBacked(w, max, s, es, [], i);
      }
    }
    if AlwaysHonest(w, max, s) {
      forall m, n, key, x, y | 0 <= m < |s.messages| && 0 <= n < |s.messages|
        && Planned(w, s.messages[m].raw, key, x) && Planned(w, s.messages[n].raw, key, y)
        ensures SameDigest(w, x, y)
      {
        HonestyNeedsAgreement(w, max, s, m, n, key, x, y);
      }
    }
  }
}
