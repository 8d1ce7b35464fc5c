/**
 How long the protocol can run and how much it can send: a decreasing measure, per-message bounds, and
 the order of the two delivery bounds.
 */
module Bounds {
  import opened Prelude
  import opened Pipeline
  import opened Handler
  import opened Delivery
  import opened Guarantees

  // ---- sums -----------------------------------------------------------------

  function Sum(xs: seq<nat>): nat {
    if xs == [] then 0 else Sum(xs[..|xs| - 1]) + xs[|xs| - 1]
  }

  lemma {:induction false} SumUpdate(xs: seq<nat>, i: nat, x: nat)
    requires i < |xs|
    ensures Sum(xs[i := x]) + xs[i] == Sum(xs) + x
  {
    var last := |xs| - 1;
    if i == last {
      assert xs[i := x][..last] == xs[..last];
    } else {
      assert xs[i := x][..last] == xs[..last][i := x];
      SumUpdate(xs[..last], i, x);
    }
  }

  lemma SumAppend(xs: seq<nat>, x: nat)
    ensures Sum(xs + [x]) == Sum(xs) + x
  {
    assert (xs + [x])[..|xs|] == xs;
  }

  lemma {:induction false} TimesGrows(c: nat, a: nat, b: nat)
    requires a < b
    ensures c * a + c <= c * b
  {
    if a + 1 < b {
      TimesGrows(c, a, b - 1);
    }
  }

  /** Terms that vanish outside a window and are at most `c` inside it. */
  lemma {:induction false} SumWindow(xs: seq<nat>, lo: nat, hi: nat, c: nat)
    requires lo <= hi
    requires forall i :: 0 <= i < |xs| ==> xs[i] <= (if lo <= i < hi then c else 0)
    ensures Sum(xs) <= c * (hi - lo)
    decreases |xs|
  {
    if xs != [] {
      var last := |xs| - 1;
      if lo <= last < hi {
        SumWindow(xs[..last], lo, last, c);
        TimesGrows(c, last - lo, hi - lo);
      } else {
        SumWindow(xs[..last], lo, hi, c);
      }
    }
  }

  // ---- the measure ----------------------------------------------------------

  /** The most steps one run of this message can take. */
  function RunCost(w: World, raw: Bytes): nat {
    if w.decode(raw).Some? then 7 + 3 * |Formats(w.decode(raw).value)| else 3
  }

  function Works(w: World, msg: Message): seq<nat> {
    seq(|msg.runs|, r requires 0 <= r < |msg.runs| => WorkLeft(w, msg.raw, msg.runs[r]))
  }

  /** Deliveries left, each with the cost of its run, plus the work left in the runs already started. */
  function MessagePotential(w: World, max: nat, msg: Message): nat {
    var left := if |msg.runs| <= Backstop(max) then Backstop(max) - |msg.runs| else 0;
    left * (1 + RunCost(w, msg.raw)) + Sum(Works(w, msg))
  }

  function Potentials(w: World, max: nat, s: System): seq<nat> {
    seq(|s.messages|, m requires 0 <= m < |s.messages| => MessagePotential(w, max, s.messages[m]))
  }

  function Potential(w: World, max: nat, s: System): nat {
    Sum(Potentials(w, max, s))
  }

  lemma DeliverLowers(w: World, max: nat, msg: Message, readable: bool)
    requires |msg.runs| < Backstop(max)
    ensures var msg' := msg.(runs := msg.runs + [NewRun(|msg.runs| + 1, readable)]);
            MessagePotential(w, max, msg') < MessagePotential(w, max, msg)
  {
    var run := NewRun(|msg.runs| + 1, readable);
    var msg' := msg.(runs := msg.runs + [run]);
    assert Works(w, msg') == Works(w, msg) + [WorkLeft(w, msg.raw, run)];
    SumAppend(Works(w, msg), WorkLeft(w, msg.raw, run));
    var left, unit := Backstop(max) - |msg.runs|, 1 + RunCost(w, msg.raw);
    assert left * unit == (left - 1) * unit + unit;
  }

  lemma StepLowers(w: World, max: nat, msg: Message, r: nat, c: Choice)
    requires RunsOk(w, max, msg) && r < |msg.runs| && msg.runs[r].Live()
    ensures MessagePotential(w, max, StepMessage(w, max, msg, r, c)) < MessagePotential(w, max, msg)
  {
    var msg' := StepMessage(w, max, msg, r, c);
    AdvanceUsesWork(w, max, msg.raw, msg.runs[r], c);
    assert Works(w, msg') == Works(w, msg)[r := WorkLeft(w, msg.raw, msg'.runs[r])];
    SumUpdate(Works(w, msg), r, WorkLeft(w, msg.raw, msg'.runs[r]));
  }

  /** Every event of the system, whatever it is, lowers the potential. */
  lemma FireLowersPotential(w: World, max: nat, s: System, e: Event)
    requires Local(w, max, s) && Enabled(max, s, e)
    ensures Potential(w, max, Fire(w, max, s, e)) < Potential(w, max, s)
  {
    var s' := Fire(w, max, s, e);
    assert RunsOk(w, max, s.messages[e.m]);
    if e.Deliver? {
      DeliverLowers(w, max, s.messages[e.m], e.readable);
    } else {
      StepLowers(w, max, s.messages[e.m], e.r, e.choice);
    }
    var x := MessagePotential(w, max, s'.messages[e.m]);
    assert Potentials(w, max, s') == Potentials(w, max, s)[e.m := x];
    SumUpdate(Potentials(w, max, s), e.m, x);
  }

  lemma {:induction false} LengthIsBounded(w: World, max: nat, s: System, es: seq<Event>)
    requires Local(w, max, s) && Allowed(w, max, s, es)
    ensures |es| + Potential(w, max, After(w, max, s, es)) <= Potential(w, max, s)
    decreases |es|
  {
    if es != [] {
      FireLocal(w, max, s, es[0]);
      FireLowersPotential(w, max, s, es[0]);
      LengthIsBounded(w, max, Fire(w, max, s, es[0]), es[1..]);
    }
  }

  function Costs(w: World, s: System): seq<nat> {
    seq(|s.messages|, m requires 0 <= m < |s.messages| => 1 + RunCost(w, s.messages[m].raw))
  }

  lemma {:induction false} SumScales(xs: seq<nat>, ys: seq<nat>, k: nat)
    requires |xs| == |ys| && forall i :: 0 <= i < |xs| ==> xs[i] == k * ys[i]
    ensures Sum(xs) == k * Sum(ys)
  {
    if xs != [] {
      SumScales(xs[..|xs| - 1], ys[..|ys| - 1], k);
      assert k * (Sum(ys[..|ys| - 1]) + ys[|ys| - 1]) == k * Sum(ys[..|ys| - 1]) + k * ys[|ys| - 1];
    }
  }

  /** Termination: from any initial state, no sequence of deliveries, steps, faults and cancellations is longer
      than `max + 1` runs of every message. Delivery metadata need never be readable. */
  lemma EveryExecutionEnds(w: World, max: nat, s: System, es: seq<Event>)
    requires Initial(s) && Allowed(w, max, s, es)
    ensures |es| <= (max + 1) * Sum(Costs(w, s))
    ensures forall m :: 0 <= m < |s.messages| ==>
      Costs(w, s)[m] == match w.decode(s.messages[m].raw)
                        case Some(req) => 8 + 3 * |Formats(req)|
                        case None => 4
  {
    LengthIsBounded(w, max, s, es);
    forall m | 0 <= m < |s.messages|
      ensures Potentials(w, max, s)[m] == (max + 1) * Costs(w, s)[m]
    {
      assert Works(w, s.messages[m]) == [];
    }
    SumScales(Potentials(w, max, s), Costs(w, s), max + 1);
  }

  // ---- what one message can cause -------------------------------------------

  function Publishes(msg: Message): seq<nat> {
    seq(|msg.runs|, r requires 0 <= r < |msg.runs| => msg.runs[r].tally.publishes)
  }

  function Naks(msg: Message): seq<nat> {
    seq(|msg.runs|, r requires 0 <= r < |msg.runs| => msg.runs[r].tally.naks)
  }

  function Dlqs(msg: Message): seq<nat> {
    seq(|msg.runs|, r requires 0 <= r < |msg.runs| => msg.runs[r].tally.dlqs)
  }

  predicate AllReadable(msg: Message) {
    forall r :: 0 <= r < |msg.runs| ==> msg.runs[r].readable
  }

  /** Per decodable message at most `max + 1` runs, as many result publishes, twice as many naks, and at most four
      dead-letter publishes, none before delivery `max`; with readable delivery metadata at most
      `2 * (max - 1)` naks, none from delivery `max` on. */
  lemma MessageBounds(w: World, max: nat, s: System, es: seq<Event>, m: nat)
    requires max >= 1 && Initial(s) && Allowed(w, max, s, es) && m < |After(w, max, s, es).messages|
    requires w.decode(After(w, max, s, es).messages[m].raw).Some?
    ensures var msg := After(w, max, s, es).messages[m];
            && |msg.runs| <= max + 1
            && Sum(Publishes(msg)) <= max + 1
            && Sum(Naks(msg)) <= 2 * (max + 1)
            && Sum(Dlqs(msg)) <= 4
            && (forall r :: 0 <= r < |msg.runs| && msg.runs[r].n < max ==> msg.runs[r].tally.dlqs == 0)
            && (AllReadable(msg) ==>
                  && Sum(Naks(msg)) <= 2 * (max - 1)
                  && forall r :: 0 <= r < |msg.runs| && msg.runs[r].n >= max ==> msg.runs[r].tally.naks == 0)
  {
    ReachableIsSound(w, max, s, es);
    var msg := After(w, max, s, es).messages[m];
    assert RunsOk(w, max, msg);
    SumWindow(Publishes(msg), 0, max + 1, 1);
    SumWindow(Naks(msg), 0, max + 1, 2);
    SumWindow(Dlqs(msg), max - 1, max + 1, 2);
    if AllReadable(msg) {
      SumWindow(Naks(msg), 0, max - 1, 2);
    }
  }

  /** How many results on the stream answer message `m`. */
  function ResultCount(results: seq<Posting>, m: nat): nat {
    if results == [] then 0
    else ResultCount(results[..|results| - 1], m) + if results[|results| - 1].origin == m then 1 else 0
  }

  ghost predicate CountBacked(s: System) {
    forall m :: 0 <= m < |s.messages| ==> ResultCount(s.env.results, m) <= Sum(Publishes(s.messages[m]))
  }

  /** What one event adds to the result stream, and to the publishes of its message. */
  lemma StepCount(w: World, max: nat, s: System, e: Event)
    requires Enabled(max, s, e)
    ensures var s' := Fire(w, max, s, e);
            && Sum(Publishes(s.messages[e.m])) <= Sum(Publishes(s'.messages[e.m]))
            && (s'.env.results == s.env.results
                || (&& |s'.env.results| == |s.env.results| + 1 && s'.env.results[..|s.env.results|] == s.env.results
                    && s'.env.results[|s.env.results|].origin == e.m
                    && Sum(Publishes(s'.messages[e.m])) == Sum(Publishes(s.messages[e.m])) + 1))
  {
    var s' := Fire(w, max, s, e);
    var msg, msg' := s.messages[e.m], s'.messages[e.m];
    if e.Act? {
      assert Publishes(msg') == Publishes(msg)[e.r := msg'.runs[e.r].tally.publishes];
      SumUpdate(Publishes(msg), e.r, msg'.runs[e.r].tally.publishes);
    } else {
      assert Publishes(msg') == Publishes(msg) + [0];
      SumAppend(Publishes(msg), 0);
    }
  }

  lemma FireCount(w: World, max: nat, s: System, e: Event)
    requires CountBacked(s) && Enabled(max, s, e)
    ensures CountBacked(Fire(w, max, s, e))
  {
    StepCount(w, max, s, e);
    var s' := Fire(w, max, s, e);
    assert forall m :: 0 <= m < |s.messages| && m != e.m ==> s'.messages[m] == s.messages[m];
  }

  lemma {:induction false} CountBackedAlways(w: World, max: nat, s: System, es: seq<Event>)
    requires CountBacked(s) && Allowed(w, max, s, es)
    ensures CountBacked(After(w, max, s, es))
    decreases |es|
  {
    if es != [] {
      FireCount(w, max, s, es[0]);
      CountBackedAlways(w, max, Fire(w, max, s, es[0]), es[1..]);
    }
  }

  /** A request gets at most `max + 1` results, however often it is redelivered. */
  lemma ResultsPerRequest(w: World, max: nat, s: System, es: seq<Event>, m: nat)
    requires max >= 1 && Initial(s) && Allowed(w, max, s, es) && m < |After(w, max, s, es).messages|
    requires w.decode(After(w, max, s, es).messages[m].raw).Some?
    ensures ResultCount(After(w, max, s, es).env.results, m) <= max + 1
  {
    CountBackedAlways(w, max, s, es);
    MessageBounds(w, max, s, es, m);
  }

  // ---- the handler's bound fires before the server's ------------------------

  predicate NakFinish(f: Finish) {
    f.Nakked? || f.EmitErrorNak?
  }

  /** An event of an undisturbed system: metadata is readable, a message is redelivered only when no run of
      it is still going, nothing is cancelled, and every acknowledgement arrives. */
  predicate Calm(w: World, s: System, e: Event)
    requires e.m < |s.messages|
    requires e.Act? ==> e.r < |s.messages[e.m].runs|
  {
    match e
    case Deliver(m, readable) => readable && forall r :: 0 <= r < |s.messages[m].runs| ==> !s.messages[m].runs[r].Live()
    case Act(m, r, c) =>
      && !c.Cancels?
      && (EffectOf(w, s.messages[m].raw, s.messages[m].runs[r].pc).Settle? ==> c.Returns? && c.landed)
  }

  predicate CalmAll(w: World, max: nat, s: System, es: seq<Event>)
    requires Allowed(w, max, s, es)
    decreases |es|
  {
    es == [] || (Calm(w, s, es[0]) && CalmAll(w, max, Fire(w, max, s, es[0]), es[1..]))
  }

  ghost predicate CalmMessage(max: nat, msg: Message) {
    && |msg.runs| <= max
    && (forall r :: 0 <= r < |msg.runs| ==>
         msg.runs[r].readable && !msg.runs[r].pc.Cancelled? && !msg.runs[r].pc.Crashed?)
    && (forall r :: 0 <= r < |msg.runs| - 1 ==> !msg.runs[r].Live())
    && (forall r :: 0 <= r < |msg.runs| && msg.runs[r].pc.Done? && !NakFinish(msg.runs[r].pc.finish) ==> msg.acked)
  }

  ghost predicate CalmState(max: nat, s: System) {
    forall m :: 0 <= m < |s.messages| ==> CalmMessage(max, s.messages[m])
  }

  /** Between deliveries of a calm message, an unacknowledged one has been nakked below the bound. */
  lemma RestingBelowBound(w: World, max: nat, msg: Message)
    requires max >= 1 && RunsOk(w, max, msg) && CalmMessage(max, msg) && !msg.acked
    requires forall r :: 0 <= r < |msg.runs| ==> !msg.runs[r].Live()
    ensures |msg.runs| < max
  {
    if msg.runs != [] {
      var last := |msg.runs| - 1;
      assert NakFinish(msg.runs[last].pc.finish);
      assert OnTrack(w, max, msg.raw, msg.runs[last]);
    }
  }

  /** Undisturbed, a run ends by an acknowledgement or by a nak. */
  lemma CalmStepEnds(w: World, max: nat, raw: Bytes, run: Run, c: Choice)
    requires OnTrack(w, max, raw, run) && run.Live() && !c.Cancels?
    requires EffectOf(w, raw, run.pc).Settle? ==> c.Returns?
    ensures var pc' := NextPc(w, max, raw, run, c);
            && !pc'.Cancelled? && !pc'.Crashed?
            && (pc'.Done? && !NakFinish(pc'.finish) ==> EffectOf(w, raw, run.pc).Settle?)
  {
    if InPipeline(run.pc) {
      PipelineNeverEnds(w, max, raw, run, c);
    } else {
      EmitStepEnds(w, max, raw, run, c);
    }
  }

  lemma PipelineNeverEnds(w: World, max: nat, raw: Bytes, run: Run, c: Choice)
    requires OnTrack(w, max, raw, run) && InPipeline(run.pc) && !c.Cancels?
    ensures run.(pc := NextPc(w, max, raw, run, c)).Live()
  {
    AdvanceOnTrack(w, max, raw, run, c);
    if w.decode(raw).Some? { PipelineLeadsTo(w, max, w.decode(raw).value, run, c); }
  }

  lemma EmitStepEnds(w: World, max: nat, raw: Bytes, run: Run, c: Choice)
    requires run.Live() && !InPipeline(run.pc) && !c.Cancels?
    requires EffectOf(w, raw, run.pc).Settle? ==> c.Returns?
    ensures var pc' := EmitPc(max, run, c);
            && !pc'.Cancelled? && !pc'.Crashed?
            && (pc'.Done? && !NakFinish(pc'.finish) ==> EffectOf(w, raw, run.pc).Settle?)
  {
  }

  lemma StepCalm(w: World, max: nat, msg: Message, r: nat, c: Choice)
    requires RunsOk(w, max, msg) && CalmMessage(max, msg) && r < |msg.runs| && msg.runs[r].Live()
    requires !c.Cancels?
    requires EffectOf(w, msg.raw, msg.runs[r].pc).Settle? ==> c.Returns? && c.landed
    ensures CalmMessage(max, StepMessage(w, max, msg, r, c))
  {
    CalmStepEnds(w, max, msg.raw, msg.runs[r], c);
    assert Advance(w, max, msg.raw, msg.runs[r], c).pc == NextPc(w, max, msg.raw, msg.runs[r], c);
  }

  lemma FireCalm(w: World, max: nat, s: System, e: Event)
    requires max >= 1 && Local(w, max, s) && CalmState(max, s) && Enabled(max, s, e) && Calm(w, s, e)
    ensures CalmState(max, Fire(w, max, s, e))
  {
    var msg := s.messages[e.m];
    assert RunsOk(w, max, msg) && CalmMessage(max, msg);
    if e.Deliver? {
      RestingBelowBound(w, max, msg);
      var msg' := Fire(w, max, s, e).messages[e.m];
      assert forall r :: 0 <= r < |msg.runs| ==> msg'.runs[r] == msg.runs[r];
    } else {
      StepCalm(w, max, msg, e.r, e.choice);
    }
  }

  lemma {:induction false} CalmAlways(w: World, max: nat, s: System, es: seq<Event>)
    requires max >= 1 && Local(w, max, s) && CalmState(max, s) && Allowed(w, max, s, es) && CalmAll(w, max, s, es)
    ensures CalmState(max, After(w, max, s, es)) && Local(w, max, After(w, max, s, es))
    decreases |es|
  {
    if es != [] {
      FireCalm(w, max, s, es[0]);
      FireLocal(w, max, s, es[0]);
      CalmAlways(w, max, Fire(w, max, s, es[0]), es[1..]);
    }
  }

  /** The handler's own bound fires first: in an undisturbed execution delivery `max + 1` never happens, and
      once delivery `max` has finished the message is acknowledged, whatever publishes and puts failed. */
  lemma PrimaryBoundFiresFirst(w: World, max: nat, s: System, es: seq<Event>, m: nat)
    requires max >= 1 && Initial(s) && Allowed(w, max, s, es) && CalmAll(w, max, s, es)
    requires m < |After(w, max, s, es).messages|
    ensures var msg := After(w, max, s, es).messages[m];
            && |msg.runs| <= max
            && (|msg.runs| == max && !msg.runs[max - 1].Live() ==> msg.acked)
  {
    CalmAlways(w, max, s, es);
    var msg := After(w, max, s, es).messages[m];
    assert RunsOk(w, max, msg) && CalmMessage(max, msg);
    if |msg.runs| == max && !msg.runs[max - 1].Live() && !msg.acked {
      RestingBelowBound(w, max, msg);
    }
  }

  /** An undisturbed system never gets stuck with an unacknowledged message: some calm event about it can
      happen. With termination, every maximal undisturbed execution acknowledges every message. */
  lemma CalmNeverStuck(w: World, max: nat, s: System, es: seq<Event>, m: nat)
    requires max >= 1 && Initial(s) && Allowed(w, max, s, es) && CalmAll(w, max, s, es)
    requires m < |After(w, max, s, es).messages| && !After(w, max, s, es).messages[m].acked
    ensures exists e: Event :: e.m == m && Enabled(max, After(w, max, s, es), e) && Calm(w, After(w, max, s, es), e)
  {
    CalmAlways(w, max, s, es);
    var t := After(w, max, s, es);
    var msg := t.messages[m];
    assert RunsOk(w, max, msg) && CalmMessage(max, msg);
    if r :| 0 <= r < |msg.runs| && msg.runs[r].Live() {
      var e := Act(m, r, Returns(true, "", ""));
      assert Enabled(max, t, e) && Calm(w, t, e);
    } else {
      RestingBelowBound(w, max, msg);
      var e := Deliver(m, true);
      assert Enabled(max, t, e) && Calm(w, t, e);
    }
  }
}
