/** What holds in every state that any sequence of events can reach. */
module Guarantees {
  import opened Prelude
  import opened Models
  import opened Pipeline
  import opened Handler
  import opened Delivery
  import opened Storage
  import opened Attribution

  // ---- sequences of events --------------------------------------------------

  lemma {:induction false} AfterSplits(w: World, max: nat, s: System, es: seq<Event>, fs: seq<Event>)
    requires Allowed(w, max, s, es + fs)
    ensures Allowed(w, max, s, es) && Allowed(w, max, After(w, max, s, es), fs)
    ensures After(w, max, s, es + fs) == After(w, max, After(w, max, s, es), fs)
    decreases |es|
  {
    if es == [] {
      assert es + fs == fs;
    } else {
      assert (es + fs)[0] == es[0] && (es + fs)[1..] == es[1..] + fs;
      AfterSplits(w, max, Fire(w, max, s, es[0]), es[1..], fs);
    }
  }

  lemma {:induction false} AfterJoins(w: World, max: nat, s: System, es: seq<Event>, fs: seq<Event>)
    requires Allowed(w, max, s, es) && Allowed(w, max, After(w, max, s, es), fs)
    ensures Allowed(w, max, s, es + fs)
    decreases |es|
  {
    if es == [] {
      assert es + fs == fs;
    } else {
      assert (es + fs)[0] == es[0] && (es + fs)[1..] == es[1..] + fs;
      AfterJoins(w, max, Fire(w, max, s, es[0]), es[1..], fs);
    }
  }

  lemma AfterCons(w: World, max: nat, s: System, e: Event, es: seq<Event>)
    requires Enabled(max, s, e) && Allowed(w, max, Fire(w, max, s, e), es)
    ensures Allowed(w, max, s, [e] + es)
    ensures After(w, max, s, [e] + es) == After(w, max, Fire(w, max, s, e), es)
  {
    assert ([e] + es)[1..] == es;
  }

  lemma AfterOne(w: World, max: nat, s: System, e: Event)
    requires Enabled(max, s, e)
    ensures Allowed(w, max, s, [e]) && After(w, max, s, [e]) == Fire(w, max, s, e)
  {
    assert [e][1..] == [];
  }

  /** The streams only grow, and the messages stay the same messages. */
  ghost predicate Later(s: System, t: System) {
    && s.env.results <= t.env.results && s.env.dlq <= t.env.dlq
    && |s.messages| == |t.messages|
    && forall m :: 0 <= m < |s.messages| ==>
         && s.messages[m].raw == t.messages[m].raw
         && (s.messages[m].acked ==> t.messages[m].acked)
         && |s.messages[m].runs| <= |t.messages[m].runs|
  }

  lemma {:induction false} TimePasses(w: World, max: nat, s: System, es: seq<Event>)
    requires Allowed(w, max, s, es)
    ensures Later(s, After(w, max, s, es))
    decreases |es|
  {
    if es != [] {
      assert Later(s, Fire(w, max, s, es[0]));
      TimePasses(w, max, Fire(w, max, s, es[0]), es[1..]);
    }
  }

  // ---- the invariants along any run -----------------------------------------

  ghost predicate Sound(w: World, max: nat, s: System, before: map<string, Bytes>) {
    Local(w, max, s) && NoLoss(w, max, s) && Sourced(w, s, before) && Attributed(w, s)
  }

  lemma {:induction false} SoundAlways(w: World, max: nat, s: System, es: seq<Event>, before: map<string, Bytes>)
    requires Sound(w, max, s, before) && Allowed(w, max, s, es)
    ensures Sound(w, max, After(w, max, s, es), before)
    decreases |es|
  {
    if es != [] {
      FireLocal(w, max, s, es[0]);
      FireNoLoss(w, max, s, es[0]);
      FireSourced(w, max, s, es[0], before);
      FireAttributed(w, max, s, es[0]);
      SoundAlways(w, max, Fire(w, max, s, es[0]), es[1..], before);
    }
  }

  lemma {:induction false} StoredAlways(w: World, max: nat, s: System, es: seq<Event>)
    requires Local(w, max, s) && Stored(w, s) && KeysAgree(w, s) && Allowed(w, max, s, es)
    ensures Stored(w, After(w, max, s, es)) && Local(w, max, After(w, max, s, es)) && KeysAgree(w, After(w, max, s, es))
    decreases |es|
  {
    if es != [] {
      FireLocal(w, max, s, es[0]);
      FireStored(w, max, s, es[0]);
      FireKeepsAgreement(w, max, s, es[0]);
      StoredAlways(w, max, Fire(w, max, s, es[0]), es[1..]);
    }
  }

  lemma InitialIsSound(w: World, max: nat, s: System)
    requires Initial(s)
    ensures Sound(w, max, s, s.env.bucket) && Stored(w, s)
  {
  }

  /** Every state reachable from an initial one satisfies the invariants. */
  lemma ReachableIsSound(w: World, max: nat, s: System, es: seq<Event>)
    requires Initial(s) && Allowed(w, max, s, es)
    ensures Sound(w, max, After(w, max, s, es), s.env.bucket)
  {
    InitialIsSound(w, max, s);
    SoundAlways(w, max, s, es, s.env.bucket);
  }

  // ---- a posted success stays backed ----------------------------------------

  /** Every artifact a result lists is in the bucket with the reported size and digest. */
  ghost predicate Honest(w: World, bucket: map<string, Bytes>, r: GenerationResult) {
    forall i :: 0 <= i < |r.artifacts| ==> InBucket(w, bucket, r.artifacts[i])
  }

  ghost predicate InBucket(w: World, bucket: map<string, Bytes>, a: Artifact) {
    exists key :: key in bucket && a.uri == UriOf(w, key)
      && a.sizeBytes == |bucket[key]| && a.sha256 == w.sha256(bucket[key])
  }

  lemma BackedIsHonest(w: World, s: System, p: Posting)
    requires Answers(w, s, p) && Backs(w, s, p) && p.result.success
    ensures Honest(w, s.env.bucket, p.result)
  {
    var raw := s.messages[p.origin].raw;
    var req := w.decode(raw).value;
    EssenceKeepsMeaning(p.result, Expected(w, req));
    var plan := PlanOf(w, raw);
    forall i | 0 <= i < |p.result.artifacts| ensures InBucket(w, s.env.bucket, p.result.artifacts[i]) {
      assert Expected(w, req).artifacts[i] == StoredAs(w, req, plan[i], None);
      assert p.result.artifacts[i].uri == UriOf(w, KeyIn(w, raw, i));
    }
  }

  /** Once a success result is on the results stream, it stays there, and from then on the bucket holds
      each listed artifact with exactly the reported size and digest, whatever overlaps, fails or crashes. */
  lemma SuccessStaysBacked(w: World, max: nat, s: System, es: seq<Event>, fs: seq<Event>, i: nat)
    requires Initial(s) && KeysAgree(w, s) && Allowed(w, max, s, es + fs)
    requires Allowed(w, max, s, es) && i < |After(w, max, s, es).env.results|
    requires After(w, max, s, es).env.results[i].result.success
    ensures var now, later := After(w, max, s, es), After(w, max, s, es + fs);
            && i < |later.env.results| && later.env.results[i] == now.env.results[i]
            && Honest(w, later.env.bucket, now.env.results[i].result)
  {
    var now, later := After(w, max, s, es), After(w, max, s, es + fs);
    AfterSplits(w, max, s, es, fs);
    TimePasses(w, max, now, fs);
    InitialIsSound(w, max, s);
    ReachableIsSound(w, max, s, es + fs);
    StoredAlways(w, max, s, es + fs);
    assert later.env.results[i] == now.env.results[i];
    BackedIsHonest(w, later, later.env.results[i]);
  }

  // ---- agreement of terminal results ----------------------------------------

  /** Where a result on the stream comes from: a request of its reply subject, and a delivery that explains it. */
  lemma ResultIsExplained(w: World, max: nat, s: System, es: seq<Event>, i: nat)
    requires Initial(s) && Allowed(w, max, s, es) && i < |After(w, max, s, es).env.results|
    ensures var t := After(w, max, s, es);
            var p := t.env.results[i];
            && p.origin < |s.messages| == |t.messages| && t.messages[p.origin].raw == s.messages[p.origin].raw
            && w.decode(s.messages[p.origin].raw).Some?
            && var req := w.decode(s.messages[p.origin].raw).value;
               p.subject == req.replyTo && Faithful(w, req, p.result)
               && Published(w, req, t.messages[p.origin], p.result)
  {
    ReachableIsSound(w, max, s, es);
    TimePasses(w, max, s, es);
    var t := After(w, max, s, es);
    assert Answers(w, t, t.env.results[i]) && Traced(w, t, t.env.results[i]);
  }

  /** A success on the stream is, up to generation time and presigned addresses, the result of the fault-free
      pipeline for its request, and it is on the request's reply subject. */
  lemma SuccessIsExpected(w: World, max: nat, s: System, es: seq<Event>, i: nat)
    requires Initial(s) && Allowed(w, max, s, es)
    requires i < |After(w, max, s, es).env.results| && After(w, max, s, es).env.results[i].result.success
    ensures var p := After(w, max, s, es).env.results[i];
            && p.origin < |s.messages|
            && w.decode(s.messages[p.origin].raw).Some?
            && var req := w.decode(s.messages[p.origin].raw).value;
               p.subject == req.replyTo && Essence(p.result) == Expected(w, req)
  {
    ResultIsExplained(w, max, s, es, i);
  }

  /** A terminal result on the stream is the result of the fault-free pipeline for its request, or it calls the
      template missing and some delivery of its message has misread a template file. */
  lemma TerminalResultIsExpected(w: World, max: nat, s: System, es: seq<Event>, i: nat)
    requires Initial(s) && Allowed(w, max, s, es)
    requires i < |After(w, max, s, es).env.results| && After(w, max, s, es).env.results[i].result.Terminal()
    ensures var t := After(w, max, s, es);
            var p := t.env.results[i];
            && p.origin < |s.messages| == |t.messages|
            && w.decode(s.messages[p.origin].raw).Some?
            && var req := w.decode(s.messages[p.origin].raw).value;
               p.subject == req.replyTo
               && (Essence(p.result) == Expected(w, req)
                   || (CallsMissing(p.result) && EverMisread(t.messages[p.origin])))
  {
    ResultIsExplained(w, max, s, es, i);
  }

  /** All successes ever posted for one request agree, and so do all terminal results ever posted for it by messages
      none of whose deliveries misread a template file, on status, error and artifacts. */
  lemma TerminalResultsAgree(w: World, max: nat, s: System, es: seq<Event>)
    requires Initial(s) && Allowed(w, max, s, es)
    ensures var t := After(w, max, s, es);
            forall i, j :: 0 <= i < |t.env.results| && 0 <= j < |t.env.results|
              && Reliable(t, t.env.results[i]) && Reliable(t, t.env.results[j])
              && RequestOf(w, s, t.env.results[i]) == RequestOf(w, s, t.env.results[j])
              ==> Essence(t.env.results[i].result) == Essence(t.env.results[j].result)
  {
    var t := After(w, max, s, es);
    forall i | 0 <= i < |t.env.results| && Reliable(t, t.env.results[i])
      ensures RequestOf(w, s, t.env.results[i]).Some?
           && Essence(t.env.results[i].result) == Expected(w, RequestOf(w, s, t.env.results[i]).value)
    {
      ResultIsExplained(w, max, s, es, i);
    }
  }

  /** A success, or a permanent failure of a message whose template files were never misread. */
  ghost predicate Reliable(t: System, p: Posting) {
    p.origin < |t.messages| && p.result.Terminal() && (p.result.success || !EverMisread(t.messages[p.origin]))
  }

  function RequestOf(w: World, s: System, p: Posting): Option<Request> {
    if p.origin < |s.messages| then w.decode(s.messages[p.origin].raw) else None
  }

  // ---- all or nothing before storage ----------------------------------------

  /** A message whose fault-free pipeline stores nothing never writes, at any step of any delivery. */
  lemma NoPlanNoWrite(w: World, max: nat, s: System, e: Event)
    requires Local(w, max, s) && Enabled(max, s, e) && PlanOf(w, s.messages[e.m].raw) == []
    ensures Fire(w, max, s, e).env.bucket == s.env.bucket
  {
    if e.Act? && EffectOf(w, s.messages[e.m].raw, s.messages[e.m].runs[e.r].pc).Write? {
      WriteIsPlanned(w, max, s.messages[e.m].raw, s.messages[e.m].runs[e.r]);
    }
  }

  /** Same, of step `k` of an execution. */
  lemma NoPlanNoWriteAt(w: World, max: nat, s: System, es: seq<Event>, k: nat)
    requires Initial(s) && Allowed(w, max, s, es) && k < |es| && es[k].m < |s.messages|
    requires PlanOf(w, s.messages[es[k].m].raw) == []
    ensures Allowed(w, max, s, es[..k]) && Allowed(w, max, s, es[..k + 1])
    ensures After(w, max, s, es[..k + 1]).env.bucket == After(w, max, s, es[..k]).env.bucket
  {
    assert es == es[..k] + es[k..];
    AfterSplits(w, max, s, es[..k], es[k..]);
    ReachableIsSound(w, max, s, es[..k]);
    TimePasses(w, max, s, es[..k]);
    var u := After(w, max, s, es[..k]);
    NoPlanNoWrite(w, max, u, es[k]);
    assert es[..k + 1] == es[..k] + [es[k]];
    AfterOne(w, max, u, es[k]);
    AfterJoins(w, max, s, es[..k], [es[k]]);
    AfterSplits(w, max, s, es[..k], [es[k]]);
  }

  /** A message that ever gets a permanent failure leaves the bucket unchanged at every step of every one of its
      deliveries, before and after that result, unless the failure calls the template missing and one of the
      deliveries misread a template file. */
  lemma PermanentFailureWritesNothing(w: World, max: nat, s: System, es: seq<Event>, i: nat, k: nat)
    requires Initial(s) && Allowed(w, max, s, es)
    requires i < |After(w, max, s, es).env.results|
    requires var r := After(w, max, s, es).env.results[i].result; r.Terminal() && !r.success
    requires var t := After(w, max, s, es);
      var p := t.env.results[i];
      CallsMissing(p.result) && p.origin < |t.messages| ==> !EverMisread(t.messages[p.origin])
    requires k < |es| && es[k].m == After(w, max, s, es).env.results[i].origin
    ensures Allowed(w, max, s, es[..k]) && Allowed(w, max, s, es[..k + 1])
    ensures After(w, max, s, es[..k + 1]).env.bucket == After(w, max, s, es[..k]).env.bucket
  {
    TerminalResultIsExpected(w, max, s, es, i);
    var p := After(w, max, s, es).env.results[i];
    EssenceKeepsMeaning(p.result, Expected(w, w.decode(s.messages[p.origin].raw).value));
    NoPlanNoWriteAt(w, max, s, es, k);
  }

  // ---- no silent loss -------------------------------------------------------

  /** An acknowledged request has its result on `reply_to` or its payload in the dead-letter stream; the only
      exception is a delivery at or past the bound in which both the result publish and the final
      dead-letter publish failed.  An acknowledged undecodable message is in the dead-letter stream unless
      that publish failed. */
  lemma NoSilentLoss(w: World, max: nat, s: System, es: seq<Event>, m: nat)
    requires Initial(s) && Allowed(w, max, s, es) && m < |After(w, max, s, es).messages|
    requires After(w, max, s, es).messages[m].acked
    ensures var t := After(w, max, s, es);
            m < |s.messages| && t.messages[m].raw == s.messages[m].raw && Accounted(w, max, t, m)
  {
    ReachableIsSound(w, max, s, es);
    TimePasses(w, max, s, es);
  }
}
