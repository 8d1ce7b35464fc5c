/**
 How a message can end with nothing to show for it: neither a result, nor a dead letter, nor a delivery in which
 both publishes failed, and no delivery left.

 A delivery settles nothing when it is cancelled, or when the handler takes it for an early one and its naks
 fail. The exact condition is a property of the deliveries alone.
 */
module Stranded {
  import opened Prelude
  import opened Pipeline
  import opened Handler
  import opened Delivery
  import opened Guarantees
  import opened Bounds
  import opened Scripts

  /** No event about the message can happen any more. */
  ghost predicate NothingLeft(max: nat, s: System, m: nat) {
    forall e: Event :: e.m == m ==> !Enabled(max, s, e)
  }

  lemma NothingLeftSpec(max: nat, s: System, m: nat)
    requires m < |s.messages|
    ensures NothingLeft(max, s, m) <==>
      && (s.messages[m].acked || |s.messages[m].runs| >= Backstop(max))
      && forall r :: 0 <= r < |s.messages[m].runs| ==> !s.messages[m].runs[r].Live()
  {
    var msg := s.messages[m];
    if NothingLeft(max, s, m) {
      assert !Enabled(max, s, Deliver(m, true));
      forall r | 0 <= r < |msg.runs|
        ensures !msg.runs[r].Live()
      {
        assert !Enabled(max, s, Act(m, r, Cancels(false)));
      }
    }
  }

  // ---- what ended deliveries settle -----------------------------------------

  /** The handler drops the message, or takes the delivery for the last allowed one. */
  predicate Decisive(w: World, max: nat, raw: Bytes, run: Run) {
    w.decode(raw).None? || run.Count() >= max
  }

  /** The run came to its own end. */
  predicate Ended(run: Run) {
    run.pc.Done? || run.pc.Crashed?
  }

  /** A decisive delivery that came to its own end has accounted for its message. */
  ghost predicate Concluded(w: World, max: nat, s: System) {
    forall m, r :: 0 <= m < |s.messages| && 0 <= r < |s.messages[m].runs|
                   && Ended(s.messages[m].runs[r]) && Decisive(w, max, s.messages[m].raw, s.messages[m].runs[r]) ==>
      Accounted(w, max, s, m)
  }

  /** A decisive run ends at an acknowledgement, and nowhere else. */
  lemma DecisiveEndsSettling(w: World, max: nat, raw: Bytes, run: Run, c: Choice)
    requires OnTrack(w, max, raw, run) && run.Live() && Decisive(w, max, raw, run)
    requires Ended(Advance(w, max, raw, run, c))
    ensures EffectOf(w, raw, run.pc).Settle?
  {
    if InPipeline(run.pc) && w.decode(raw).Some? && !c.Cancels? {
      PipelineLeadsTo(w, max, w.decode(raw).value, run, c);
    }
  }

  lemma FireConcluded(w: World, max: nat, s: System, e: Event)
    requires Local(w, max, s) && NoLoss(w, max, s) && Concluded(w, max, s) && Enabled(max, s, e)
    ensures Concluded(w, max, Fire(w, max, s, e))
  {
    var t := Fire(w, max, s, e);
    forall m, r | 0 <= m < |t.messages| && 0 <= r < |t.messages[m].runs|
      && Ended(t.messages[m].runs[r]) && Decisive(w, max, t.messages[m].raw, t.messages[m].runs[r])
      ensures Accounted(w, max, t, m)
    {
      EndedRunAccounted(w, max, s, e, m, r);
    }
  }

  lemma EndedRunAccounted(w: World, max: nat, s: System, e: Event, m: nat, r: nat)
    requires Local(w, max, s) && NoLoss(w, max, s) && Concluded(w, max, s) && Enabled(max, s, e)
    requires m < |s.messages| && r < |Fire(w, max, s, e).messages[m].runs|
    requires Ended(Fire(w, max, s, e).messages[m].runs[r])
    requires Decisive(w, max, s.messages[m].raw, Fire(w, max, s, e).messages[m].runs[r])
    ensures Accounted(w, max, Fire(w, max, s, e), m)
  {
    var msg := s.messages[m];
    assert RunsOk(w, max, msg);
    if e.Act? && e.m == m && e.r == r {
      var run := msg.runs[r];
      assert Fire(w, max, s, e).messages[m].runs[r] == Advance(w, max, msg.raw, run, e.choice);
      DecisiveEndsSettling(w, max, msg.raw, run, e.choice);
      assert Backed(w, m, msg.raw, run, s.env);
      SettleAccounted(w, max, m, msg.raw, run, s.env);
    }
    assert Accounted(w, max, s, m);
    AccountedGrows(w, max, s, e, m);
  }

  lemma {:induction false} ConcludedAlways(w: World, max: nat, s: System, es: seq<Event>, before: map<string, Bytes>)
    requires Sound(w, max, s, before) && Concluded(w, max, s) && Allowed(w, max, s, es)
    ensures Concluded(w, max, After(w, max, s, es))
    decreases |es|
  {
    if es != [] {
      FireConcluded(w, max, s, es[0]);
      AfterOne(w, max, s, es[0]);
      SoundAlways(w, max, s, [es[0]], before);
      ConcludedAlways(w, max, Fire(w, max, s, es[0]), es[1..], before);
    }
  }

  // ---- the deliveries of a stranded message ---------------------------------

  /** Of one delivery: whether its metadata could be read, and whether it was cancelled. */
  datatype Fate = Fate(readable: bool, cancelled: bool)

  function FatesOf(msg: Message): seq<Fate> {
    seq(|msg.runs|, r requires 0 <= r < |msg.runs| => Fate(msg.runs[r].readable, msg.runs[r].pc.Cancelled?))
  }

  /** All `max + 1` deliveries are used up, and every one that could have settled the message was cancelled. */
  ghost predicate Doomed(w: World, max: nat, raw: Bytes, fates: seq<Fate>) {
    && |fates| == Backstop(max)
    && forall i :: 0 <= i < |fates| ==>
         w.decode(raw).None? || (if fates[i].readable then i + 1 else 1) >= max ==> fates[i].cancelled
  }

  /** A message with no delivery left is accounted for, or all its decisive deliveries were cancelled. */
  lemma NothingLeftMeansAccountedOrDoomed(w: World, max: nat, s: System, es: seq<Event>, m: nat)
    requires Initial(s) && Allowed(w, max, s, es) && m < |After(w, max, s, es).messages|
    requires NothingLeft(max, After(w, max, s, es), m)
    ensures var t := After(w, max, s, es);
            Accounted(w, max, t, m)
            || (!t.messages[m].acked && Doomed(w, max, t.messages[m].raw, FatesOf(t.messages[m])))
  {
    var t := After(w, max, s, es);
    var msg := t.messages[m];
    InitialIsSound(w, max, s);
    ReachableIsSound(w, max, s, es);
    ConcludedAlways(w, max, s, es, s.env.bucket);
    NothingLeftSpec(max, t, m);
    assert RunsOk(w, max, msg);
    if !Accounted(w, max, t, m) {
      assert !msg.acked;
      forall i | 0 <= i < |msg.runs| && Decisive(w, max, msg.raw, msg.runs[i])
        ensures msg.runs[i].pc.Cancelled?
      {
        assert !msg.runs[i].Live() && !Ended(msg.runs[i]);
      }
    }
  }

  // ---- every such pattern of deliveries happens -----------------------------

  /** A cancelled delivery, or one whose template fetch breaks and whose two naks fail. */
  function Script(f: Fate): seq<Choice> {
    if f.cancelled then [Cancels(false)] else [Returns(true, "", ""), FAULT, FAULT, FAULT]
  }

  function PlanFor(f: Fate): Plan {
    Plan(f.readable, Script(f))
  }

  function Wasted(n: nat, f: Fate): Run {
    if f.cancelled then Run(n, f.readable, Cancelled, NO_TALLY)
    else Run(n, f.readable, Done(EmitErrorNak), NO_TALLY.(naks := 2))
  }

  lemma ScriptWastes(w: World, max: nat, raw: Bytes, n: nat, f: Fate)
    requires !f.cancelled ==> w.decode(raw).Some? && NumDelivered(n, f.readable) < max
    ensures Silent(w, max, raw, n, PlanFor(f)) && Played(w, max, raw, n, PlanFor(f)) == Wasted(n, f)
  {
    var run, cs := NewRun(n, f.readable), Script(f);
    var one := Advance(w, max, raw, run, cs[0]);
    if f.cancelled {
      assert cs[1..] == [] && one == Wasted(n, f);
      assert Steps(w, max, raw, one, cs[1..]) == one;
    } else {
      NakScript(w, max, raw, n, f);
    }
  }

  lemma NakScript(w: World, max: nat, raw: Bytes, n: nat, f: Fate)
    requires !f.cancelled && w.decode(raw).Some? && NumDelivered(n, f.readable) < max
    ensures Silent(w, max, raw, n, PlanFor(f)) && Played(w, max, raw, n, PlanFor(f)) == Wasted(n, f)
  {
    var req, run, cs := w.decode(raw).value, NewRun(n, f.readable), Script(f);
    var one := Advance(w, max, raw, run, cs[0]);
    assert one == run.(pc := Fetch(""));
    var two := Advance(w, max, raw, one, FAULT);
    assert two == run.(pc := Nak(StorageFault(req, None, "", FAULT)));
    var three := Advance(w, max, raw, two, FAULT);
    assert three == Run(n, f.readable, FailNak, NO_TALLY.(naks := 1));
    var four := Advance(w, max, raw, three, FAULT);
    assert four == Wasted(n, f);
    assert cs[1..] == [FAULT, FAULT, FAULT] && cs[1..][1..] == [FAULT, FAULT] && cs[1..][1..][1..] == [FAULT];
    assert [FAULT][1..] == [];
    assert Idle(w, max, raw, four, []) && Steps(w, max, raw, four, []) == four;
    assert Idle(w, max, raw, three, [FAULT]) && Steps(w, max, raw, three, [FAULT]) == four;
    assert Idle(w, max, raw, two, cs[1..][1..]) && Steps(w, max, raw, two, cs[1..][1..]) == four;
    assert Idle(w, max, raw, one, cs[1..]) && Steps(w, max, raw, one, cs[1..]) == four;
  }

  function Plans(fates: seq<Fate>): seq<Plan> {
    seq(|fates|, i requires 0 <= i < |fates| => PlanFor(fates[i]))
  }

  function WastedRuns(fates: seq<Fate>): seq<Run> {
    seq(|fates|, i requires 0 <= i < |fates| => Wasted(i + 1, fates[i]))
  }

  /** The system after deliveries of message `m` that came to nothing. */
  function Waste(s: System, m: nat, fates: seq<Fate>): System
    requires m < |s.messages|
  {
    s.(messages := s.messages[m := s.messages[m].(runs := WastedRuns(fates))])
  }

  /** Any pattern of deliveries whose decisive ones are cancelled can happen, and leaves no trace at all. */
  lemma WasteDeliveries(w: World, max: nat, s: System, m: nat, fates: seq<Fate>) returns (es: seq<Event>)
    requires m < |s.messages| && !s.messages[m].acked && s.messages[m].runs == [] && |fates| <= Backstop(max)
    requires forall i :: 0 <= i < |fates| && !fates[i].cancelled ==>
      w.decode(s.messages[m].raw).Some? && NumDelivered(i + 1, fates[i].readable) < max
    ensures Allowed(w, max, s, es) && After(w, max, s, es) == Waste(s, m, fates)
  {
    var raw, plans := s.messages[m].raw, Plans(fates);
    forall i | 0 <= i < |fates|
      ensures Silent(w, max, raw, i + 1, plans[i]) && Played(w, max, raw, i + 1, plans[i]) == WastedRuns(fates)[i]
    {
      ScriptWastes(w, max, raw, i + 1, fates[i]);
    }
    es := RunPlansTo(w, max, s, m, plans, WastedRuns(fates));
  }

  // ---- the exact condition --------------------------------------------------

  /** Some execution ends the message's story with these deliveries and nothing to show for it. */
  ghost predicate CanStrand(w: World, max: nat, s: System, m: nat, fates: seq<Fate>)
    requires m < |s.messages|
  {
    exists es :: Allowed(w, max, s, es) && Strands(w, max, After(w, max, s, es), m, fates)
  }

  ghost predicate Strands(w: World, max: nat, t: System, m: nat, fates: seq<Fate>) {
    && m < |t.messages| && FatesOf(t.messages[m]) == fates
    && NothingLeft(max, t, m) && !t.messages[m].acked && !Accounted(w, max, t, m)
  }

  /**
   The exact condition, for every bound, message and pattern of deliveries: the pattern can leave the message
   unacknowledged, unaccounted for and without a further delivery if and only if it uses up all `max + 1`
   deliveries and cancels every one that drops the message or that the handler takes for the last allowed one.
   Deliveries with unreadable metadata are taken for the first, so they need not even be cancelled.
   */
  lemma StrandedExactlyWhenDoomed(w: World, max: nat, s: System, m: nat, fates: seq<Fate>)
    requires Initial(s) && m < |s.messages|
    ensures CanStrand(w, max, s, m, fates) <==> Doomed(w, max, s.messages[m].raw, fates)
  {
    if CanStrand(w, max, s, m, fates) {
      var es :| Allowed(w, max, s, es) && Strands(w, max, After(w, max, s, es), m, fates);
      NothingLeftMeansAccountedOrDoomed(w, max, s, es, m);
      TimePasses(w, max, s, es);
    }
    if Doomed(w, max, s.messages[m].raw, fates) {
      var es := Strand(w, max, s, m, fates);
      assert Strands(w, max, After(w, max, s, es), m, fates);
    }
  }

  lemma Strand(w: World, max: nat, s: System, m: nat, fates: seq<Fate>) returns (es: seq<Event>)
    requires Initial(s) && m < |s.messages| && Doomed(w, max, s.messages[m].raw, fates)
    ensures Allowed(w, max, s, es) && After(w, max, s, es) == Waste(s, m, fates)
    ensures Strands(w, max, After(w, max, s, es), m, fates)
  {
    es := WasteDeliveries(w, max, s, m, fates);
    var t := Waste(s, m, fates);
    NothingLeftSpec(max, t, m);
    assert FatesOf(t.messages[m]) == fates;
    assert t.env == s.env && t.env.results == [] && t.env.dlq == [];
  }

  /** For every bound and every message, cancelling each of its deliveries loses it. */
  lemma CancellationsStrand(w: World, max: nat, s: System, m: nat) returns (es: seq<Event>)
    requires Initial(s) && m < |s.messages|
    ensures Allowed(w, max, s, es)
    ensures var t := After(w, max, s, es);
            && m < |t.messages| && t.env == s.env && NothingLeft(max, t, m)
            && !t.messages[m].acked && !Accounted(w, max, t, m)
            && forall r :: 0 <= r < |t.messages[m].runs| ==> t.messages[m].runs[r].pc.Cancelled?
  {
    es := Strand(w, max, s, m, seq(Backstop(max), _ => Fate(true, true)));
  }

  // ---- naks without readable metadata ---------------------------------------

  lemma {:induction false} SumOfSame(xs: seq<nat>, x: nat)
    requires forall i :: 0 <= i < |xs| ==> xs[i] == x
    ensures Sum(xs) == x * |xs|
  {
    if xs != [] {
      SumOfSame(xs[..|xs| - 1], x);
    }
  }

  /**
   The nak count needs readable metadata: for every bound above one and every decodable message there is an
   execution without any cancellation in which each of `max + 1` unreadable deliveries naks twice, those at and
   past the bound included; it posts nothing, dead-letters nothing and acknowledges nothing, and it is over.
   */
  lemma UnreadableMetadataStrands(w: World, max: nat, s: System, m: nat) returns (es: seq<Event>)
    requires max >= 2 && Initial(s) && m < |s.messages| && w.decode(s.messages[m].raw).Some?
    ensures Allowed(w, max, s, es)
    ensures var t := After(w, max, s, es);
            && m < |t.messages| && t.env == s.env && NothingLeft(max, t, m)
            && !t.messages[m].acked && !Accounted(w, max, t, m)
            && Sum(Naks(t.messages[m])) == 2 * (max + 1)
            && forall r :: 0 <= r < |t.messages[m].runs| ==>
                 !t.messages[m].runs[r].pc.Cancelled? && t.messages[m].runs[r].tally.naks == 2
  {
    var fates := seq(Backstop(max), _ => Fate(false, false));
    es := Strand(w, max, s, m, fates);
    SumOfSame(Naks(After(w, max, s, es).messages[m]), 2);
  }

  // ---- the nak count, exactly -----------------------------------------------

  function ReadableOf(msg: Message): seq<bool> {
    seq(|msg.runs|, r requires 0 <= r < |msg.runs| => msg.runs[r].readable)
  }

  /** How many of these deliveries the handler takes for one below the bound. */
  function Early(max: nat, readable: seq<bool>): nat {
    if readable == [] then 0
    else
      var k := |readable| - 1;
      Early(max, readable[..k]) + if (if readable[k] then k + 1 else 1) < max then 1 else 0
  }

  lemma {:induction false} SumPerEarly(max: nat, xs: seq<nat>, readable: seq<bool>)
    requires |xs| == |readable|
    ensures (forall i :: 0 <= i < |xs| ==> xs[i] <= if NumDelivered(i + 1, readable[i]) < max then 2 else 0) ==>
      Sum(xs) <= 2 * Early(max, readable)
    ensures (forall i :: 0 <= i < |xs| ==> xs[i] == if NumDelivered(i + 1, readable[i]) < max then 2 else 0) ==>
      Sum(xs) == 2 * Early(max, readable)
  {
    if xs != [] {
      SumPerEarly(max, xs[..|xs| - 1], readable[..|xs| - 1]);
    }
  }

  /** Some execution delivers the message with this readability and naks it more than `limit` times. */
  ghost predicate CanNak(w: World, max: nat, s: System, m: nat, readable: seq<bool>, limit: nat)
    requires m < |s.messages|
  {
    exists es :: Allowed(w, max, s, es) && NaksMore(w, max, After(w, max, s, es), m, readable, limit)
  }

  ghost predicate NaksMore(w: World, max: nat, t: System, m: nat, readable: seq<bool>, limit: nat) {
    m < |t.messages| && ReadableOf(t.messages[m]) == readable && Sum(Naks(t.messages[m])) > limit
  }

  /**
   A decodable message delivered with a given readability of its metadata is nakked at most `limit` times in every
   execution if and only if `limit` is at least twice the number of deliveries taken for one below the bound.
   */
  lemma NakLimitExactly(w: World, max: nat, s: System, m: nat, readable: seq<bool>, limit: nat)
    requires Initial(s) && m < |s.messages| && w.decode(s.messages[m].raw).Some? && |readable| <= Backstop(max)
    ensures !CanNak(w, max, s, m, readable, limit) <==> 2 * Early(max, readable) <= limit
  {
    if CanNak(w, max, s, m, readable, limit) {
      var es :| Allowed(w, max, s, es) && NaksMore(w, max, After(w, max, s, es), m, readable, limit);
      NaksPerEarly(w, max, s, es, m);
    }
    if 2 * Early(max, readable) > limit {
      var es := NakEveryEarly(w, max, s, m, readable);
      assert NaksMore(w, max, After(w, max, s, es), m, readable, limit);
    }
  }

  /** The pattern in which every delivery taken for one below the bound naks twice, and the others are cancelled. */
  function EarlyFates(max: nat, readable: seq<bool>): seq<Fate> {
    seq(|readable|, i requires 0 <= i < |readable| => Fate(readable[i], NumDelivered(i + 1, readable[i]) >= max))
  }

  lemma EarlyFatesNak(max: nat, msg: Message, readable: seq<bool>)
    requires msg.runs == WastedRuns(EarlyFates(max, readable))
    ensures ReadableOf(msg) == readable && Sum(Naks(msg)) == 2 * Early(max, readable)
  {
    SumPerEarly(max, Naks(msg), readable);
  }

  lemma NakEveryEarly(w: World, max: nat, s: System, m: nat, readable: seq<bool>) returns (es: seq<Event>)
    requires Initial(s) && m < |s.messages| && w.decode(s.messages[m].raw).Some? && |readable| <= Backstop(max)
    ensures Allowed(w, max, s, es) && m < |After(w, max, s, es).messages|
    ensures var msg := After(w, max, s, es).messages[m];
            ReadableOf(msg) == readable && Sum(Naks(msg)) == 2 * Early(max, readable)
  {
    es := WasteDeliveries(w, max, s, m, EarlyFates(max, readable));
    EarlyFatesNak(max, After(w, max, s, es).messages[m], readable);
  }

  lemma NaksPerEarly(w: World, max: nat, s: System, es: seq<Event>, m: nat)
    requires Initial(s) && Allowed(w, max, s, es) && m < |After(w, max, s, es).messages| && m < |s.messages|
    requires w.decode(s.messages[m].raw).Some?
    ensures var msg := After(w, max, s, es).messages[m]; Sum(Naks(msg)) <= 2 * Early(max, ReadableOf(msg))
  {
    ReachableIsSound(w, max, s, es);
    TimePasses(w, max, s, es);
    var msg := After(w, max, s, es).messages[m];
    assert RunsOk(w, max, msg);
    SumPerEarly(max, Naks(msg), ReadableOf(msg));
  }
}
