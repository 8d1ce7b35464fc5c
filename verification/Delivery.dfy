/**
 At-least-once delivery as a transition system: the broker, any number of overlapping handler runs,
 the output bucket, the results stream and the dead-letter stream.

 `messages[m].runs[r]` is the run of delivery `r + 1` of message `m`.  The broker may deliver a message
 that is not acknowledged at any moment, whether or not earlier runs of it are still going, until the
 server-side bound is reached.  Every live run may step at any moment, meeting any `Choice`.
 */
module Delivery {
  import opened Prelude
  import opened Models
  import opened Pipeline
  import opened Handler

  /** `origin` records which message a posted result answers. */
  datatype Posting = Posting(origin: nat, subject: string, result: GenerationResult)

  datatype Env = Env(bucket: map<string, Bytes>, results: seq<Posting>, dlq: seq<DeadLetter>)

  datatype Message = Message(raw: Bytes, acked: bool, runs: seq<Run>)

  datatype System = System(messages: seq<Message>, env: Env)

  datatype Event = Deliver(m: nat, readable: bool) | Act(m: nat, r: nat, choice: Choice)

  /** The consumer's `max_deliver`: one above the handler's own bound. */
  function Backstop(max: nat): nat {
    max + 1
  }

  function ApplyEffect(env: Env, m: nat, e: Effect): Env {
    match e
    case Nothing => env
    case Settle => env
    case Write(key, content) => env.(bucket := env.bucket[key := content])
    case Post(subject, result) => env.(results := env.results + [Posting(m, subject, result)])
    case Bury(letter) => env.(dlq := env.dlq + [letter])
  }

  function LandEffect(env: Env, m: nat, e: Effect, c: Choice): Env {
    if Lands(e, c) then ApplyEffect(env, m, e) else env
  }

  predicate Enabled(max: nat, s: System, e: Event) {
    && e.m < |s.messages|
    && match e
       case Deliver(m, _) => !s.messages[m].acked && |s.messages[m].runs| < Backstop(max)
       case Act(m, r, _) => r < |s.messages[m].runs| && s.messages[m].runs[r].Live()
  }

  /** One message after one of its runs took a step. */
  function StepMessage(w: World, max: nat, msg: Message, r: nat, c: Choice): Message
    requires r < |msg.runs|
  {
    var e := EffectOf(w, msg.raw, msg.runs[r].pc);
    msg.(acked := msg.acked || (e.Settle? && Lands(e, c)),
         runs := msg.runs[r := Advance(w, max, msg.raw, msg.runs[r], c)])
  }

  function Fire(w: World, max: nat, s: System, e: Event): System
    requires Enabled(max, s, e)
  {
    var msg := s.messages[e.m];
    match e
    case Deliver(m, readable) =>
      s.(messages := s.messages[m := msg.(runs := msg.runs + [NewRun(|msg.runs| + 1, readable)])])
    case Act(m, r, c) =>
      System(s.messages[m := StepMessage(w, max, msg, r, c)],
             LandEffect(s.env, m, EffectOf(w, msg.raw, msg.runs[r].pc), c))
  }

  /** A sequence of events that can happen one after the other. */
  predicate Allowed(w: World, max: nat, s: System, es: seq<Event>)
    decreases |es|
  {
    es == [] || (Enabled(max, s, es[0]) && Allowed(w, max, Fire(w, max, s, es[0]), es[1..]))
  }

  function After(w: World, max: nat, s: System, es: seq<Event>): System
    requires Allowed(w, max, s, es)
    decreases |es|
  {
    if es == [] then s else After(w, max, Fire(w, max, s, es[0]), es[1..])
  }

  /** Nothing has been delivered, posted or dead-lettered; the bucket may hold older objects. */
  predicate Initial(s: System) {
    && (forall m :: 0 <= m < |s.messages| ==> !s.messages[m].acked && s.messages[m].runs == [])
    && s.env.results == [] && s.env.dlq == []
  }

  // ---- runs -----------------------------------------------------------------

  ghost predicate RunsOk(w: World, max: nat, msg: Message) {
    && |msg.runs| <= Backstop(max)
    && forall r :: 0 <= r < |msg.runs| ==>
         msg.runs[r].n == r + 1 && OnTrack(w, max, msg.raw, msg.runs[r]) && Counted(w, max, msg.raw, msg.runs[r])
  }

  ghost predicate Local(w: World, max: nat, s: System) {
    forall m :: 0 <= m < |s.messages| ==> RunsOk(w, max, s.messages[m])
  }

  lemma FireLocal(w: World, max: nat, s: System, e: Event)
    requires Local(w, max, s) && Enabled(max, s, e)
    ensures Local(w, max, Fire(w, max, s, e))
  {
    var msg := s.messages[e.m];
    if e.Act? {
      AdvanceOnTrack(w, max, msg.raw, msg.runs[e.r], e.choice);
      AdvanceCounted(w, max, msg.raw, msg.runs[e.r], e.choice);
    }
  }

  // ---- nothing is lost silently ---------------------------------------------

  ghost predicate Posted(env: Env, m: nat, req: Request) {
    exists i :: 0 <= i < |env.results| && env.results[i].origin == m
             && env.results[i].subject == req.replyTo && env.results[i].result.requestId == req.requestId
  }

  ghost predicate Buried(env: Env, raw: Bytes) {
    exists i :: 0 <= i < |env.dlq| && env.dlq[i].payload == raw
  }

  /** What a run believes it has written is there. */
  ghost predicate Backed(w: World, m: nat, raw: Bytes, run: Run, env: Env) {
    match w.decode(raw)
    case None => run.pc.DropAck? && !run.tally.lastDlqLost ==> Buried(env, raw)
    case Some(req) =>
      && (run.tally.publishes > 0 && !run.tally.publishLost && !run.pc.Cancelled? ==> Posted(env, m, req))
      && (run.pc.FailAck? && !run.tally.lastDlqLost ==> Buried(env, raw))
  }

  /** A delivery at or past the bound whose result publish and final dead-letter publish both failed. */
  predicate BothPublishesFailed(max: nat, run: Run) {
    run.n >= max && run.tally.publishLost && run.tally.lastDlqLost
  }

  ghost predicate Accounted(w: World, max: nat, s: System, m: nat)
    requires m < |s.messages|
  {
    var msg := s.messages[m];
    match w.decode(msg.raw)
    case None => Buried(s.env, msg.raw) || exists r :: 0 <= r < |msg.runs| && msg.runs[r].tally.lastDlqLost
    case Some(req) =>
      || Posted(s.env, m, req)
      || Buried(s.env, msg.raw)
      || exists r :: 0 <= r < |msg.runs| && BothPublishesFailed(max, msg.runs[r])
  }

  ghost predicate NoLoss(w: World, max: nat, s: System) {
    && (forall m, r :: 0 <= m < |s.messages| && 0 <= r < |s.messages[m].runs| ==>
          Backed(w, m, s.messages[m].raw, s.messages[m].runs[r], s.env))
    && (forall m :: 0 <= m < |s.messages| && s.messages[m].acked ==> Accounted(w, max, s, m))
  }

  lemma BackedGrows(w: World, m: nat, raw: Bytes, run: Run, env: Env, env': Env)
    requires Backed(w, m, raw, run, env)
    requires env.results <= env'.results && env.dlq <= env'.dlq
    ensures Backed(w, m, raw, run, env')
  {
    PostedGrows(w, m, raw, env, env');
    BuriedGrows(raw, env, env');
  }

  lemma PostedGrows(w: World, m: nat, raw: Bytes, env: Env, env': Env)
    requires env.results <= env'.results
    ensures w.decode(raw).Some? && Posted(env, m, w.decode(raw).value) ==> Posted(env', m, w.decode(raw).value)
  {
    if w.decode(raw).Some? && Posted(env, m, w.decode(raw).value) {
      var req := w.decode(raw).value;
      var i :| 0 <= i < |env.results| && env.results[i].origin == m
            && env.results[i].subject == req.replyTo && env.results[i].result.requestId == req.requestId;
      assert env'.results[i] == env.results[i];
    }
  }

  lemma BuriedGrows(raw: Bytes, env: Env, env': Env)
    requires env.dlq <= env'.dlq
    ensures Buried(env, raw) ==> Buried(env', raw)
  {
    if Buried(env, raw) {
      var i :| 0 <= i < |env.dlq| && env.dlq[i].payload == raw;
      assert env'.dlq[i] == env.dlq[i];
    }
  }

  /** The step of a run backs what it then believes. */
  lemma StepBacked(w: World, max: nat, m: nat, raw: Bytes, run: Run, c: Choice, env: Env)
    requires OnTrack(w, max, raw, run) && Counted(w, max, raw, run) && run.Live()
    requires Backed(w, m, raw, run, env)
    ensures Backed(w, m, raw, Advance(w, max, raw, run, c), LandEffect(env, m, EffectOf(w, raw, run.pc), c))
  {
    var e := EffectOf(w, raw, run.pc);
    var env' := LandEffect(env, m, e, c);
    var run' := Advance(w, max, raw, run, c);
    BackedGrows(w, m, raw, run, env, env');
    if e.Post? && Lands(e, c) {
      assert env'.results[|env.results|] == Posting(m, e.subject, e.result);
    }
    if e.Bury? && Lands(e, c) {
      assert env'.dlq[|env.dlq|] == e.letter;
    }
    if InPipeline(run.pc) && w.decode(raw).Some? && !c.Cancels? {
      PipelineLeadsTo(w, max, w.decode(raw).value, run, c);
    }
  }

  /** An acknowledgement is only sent for a message that is accounted for. */
  lemma SettleAccounted(w: World, max: nat, m: nat, raw: Bytes, run: Run, env: Env)
    requires OnTrack(w, max, raw, run) && Counted(w, max, raw, run)
    requires Backed(w, m, raw, run, env) && EffectOf(w, raw, run.pc).Settle?
    ensures match w.decode(raw)
            case None => Buried(env, raw) || run.tally.lastDlqLost
            case Some(req) => Posted(env, m, req) || Buried(env, raw) || BothPublishesFailed(max, run)
  {
  }

  lemma AccountedGrows(w: World, max: nat, s: System, e: Event, m: nat)
    requires Enabled(max, s, e) && m < |s.messages| && Accounted(w, max, s, m)
    requires forall r :: 0 <= r < |s.messages[m].runs| ==>
               OnTrack(w, max, s.messages[m].raw, s.messages[m].runs[r])
               && Counted(w, max, s.messages[m].raw, s.messages[m].runs[r])
    ensures Accounted(w, max, Fire(w, max, s, e), m)
  {
    var s' := Fire(w, max, s, e);
    PostedGrows(w, m, s.messages[m].raw, s.env, s'.env);
    BuriedGrows(s.messages[m].raw, s.env, s'.env);
    var msg, msg' := s.messages[m], s'.messages[m];
    forall r | 0 <= r < |msg.runs|
      ensures msg.runs[r].tally.lastDlqLost && w.decode(msg.raw).None? ==> msg'.runs[r].tally.lastDlqLost
      ensures w.decode(msg.raw).Some? && BothPublishesFailed(max, msg.runs[r]) ==>
        BothPublishesFailed(max, msg'.runs[r])
    {
      if e.Act? && e.m == m && e.r == r {
        LossIsFinal(w, max, msg.raw, msg.runs[r], e.choice);
      }
    }
  }

  /** A recorded loss is never taken back. */
  lemma LossIsFinal(w: World, max: nat, raw: Bytes, run: Run, c: Choice)
    requires OnTrack(w, max, raw, run) && Counted(w, max, raw, run)
    ensures var run' := Advance(w, max, raw, run, c);
            && (w.decode(raw).None? && run.tally.lastDlqLost && run.Live() ==> run'.tally.lastDlqLost)
            && (w.decode(raw).Some? && BothPublishesFailed(max, run) && run.Live() ==> BothPublishesFailed(max, run'))
  {
  }

  lemma FireNoLoss(w: World, max: nat, s: System, e: Event)
    requires Local(w, max, s) && NoLoss(w, max, s) && Enabled(max, s, e)
    ensures NoLoss(w, max, Fire(w, max, s, e))
  {
    var s' := Fire(w, max, s, e);
    forall m, r | 0 <= m < |s'.messages| && 0 <= r < |s'.messages[m].runs|
      ensures Backed(w, m, s'.messages[m].raw, s'.messages[m].runs[r], s'.env)
    {
      if e.Act? && e.m == m && e.r == r {
        StepBacked(w, max, m, s.messages[m].raw, s.messages[m].runs[r], e.choice, s.env);
      } else if r < |s.messages[m].runs| {
        assert s'.messages[m].runs[r] == s.messages[m].runs[r];
        BackedGrows(w, m, s.messages[m].raw, s.messages[m].runs[r], s.env, s'.env);
      }
    }
    forall m | 0 <= m < |s'.messages| && s'.messages[m].acked
      ensures Accounted(w, max, s', m)
    {
      if s.messages[m].acked {
        AccountedGrows(w, max, s, e, m);
      } else {
        SettleAccounted(w, max, m, s.messages[m].raw, s.messages[m].runs[e.r], s.env);
        assert s'.env == s.env;
        assert s'.messages[m].runs[e.r].tally == s.messages[m].runs[e.r].tally;
      }
    }
  }
}
