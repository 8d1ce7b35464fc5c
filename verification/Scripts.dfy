/** Deliveries that write nothing: what each of them meets is a script of choices, one per await. */
module Scripts {
  import opened Prelude
  import opened Pipeline
  import opened Handler
  import opened Delivery
  import opened Guarantees

  const FAULT := Raises(Unexpected, false, "", "")

  /** The run after these choices. */
  function Steps(w: World, max: nat, raw: Bytes, run: Run, cs: seq<Choice>): Run
    decreases |cs|
  {
    if cs == [] then run else Steps(w, max, raw, Advance(w, max, raw, run, cs[0]), cs[1..])
  }

  /** None of them makes a write land. */
  predicate Idle(w: World, max: nat, raw: Bytes, run: Run, cs: seq<Choice>)
    decreases |cs|
  {
    || cs == []
    || (&& run.Live() && (EffectOf(w, raw, run.pc).Nothing? || !Lands(EffectOf(w, raw, run.pc), cs[0]))
        && Idle(w, max, raw, Advance(w, max, raw, run, cs[0]), cs[1..]))
  }

  function SetRun(s: System, m: nat, r: nat, run: Run): System
    requires m < |s.messages| && r < |s.messages[m].runs|
  {
    s.(messages := s.messages[m := s.messages[m].(runs := s.messages[m].runs[r := run])])
  }

  lemma {:induction false} IdleExecution(w: World, max: nat, s: System, m: nat, r: nat, cs: seq<Choice>)
    returns (es: seq<Event>)
    requires m < |s.messages| && r < |s.messages[m].runs| && Idle(w, max, s.messages[m].raw, s.messages[m].runs[r], cs)
    ensures Allowed(w, max, s, es)
    ensures After(w, max, s, es) == SetRun(s, m, r, Steps(w, max, s.messages[m].raw, s.messages[m].runs[r], cs))
    decreases |cs|
  {
    var msg := s.messages[m];
    es := [];
    if cs == [] {
      assert msg.runs[r := msg.runs[r]] == msg.runs && s.messages[m := msg] == s.messages;
    } else {
      var e, next := Act(m, r, cs[0]), Advance(w, max, msg.raw, msg.runs[r], cs[0]);
      var t := Fire(w, max, s, e);
      assert t == SetRun(s, m, r, next);
      var rest := IdleExecution(w, max, t, m, r, cs[1..]);
      AfterCons(w, max, s, e, rest);
      es := [e] + rest;
      var last := Steps(w, max, msg.raw, next, cs[1..]);
      SetRunTwice(s, m, r, next, last);
    }
  }

  lemma SetRunTwice(s: System, m: nat, r: nat, first: Run, second: Run)
    requires m < |s.messages| && r < |s.messages[m].runs|
    ensures SetRun(SetRun(s, m, r, first), m, r, second) == SetRun(s, m, r, second)
  {
    var runs := s.messages[m].runs;
    assert runs[r := first][r := second] == runs[r := second];
    var t, u := SetRun(SetRun(s, m, r, first), m, r, second), SetRun(s, m, r, second);
    assert t.messages == u.messages;
  }

  /** One delivery: whether its metadata can be read, and what its awaits meet. */
  datatype Plan = Plan(readable: bool, script: seq<Choice>)

  /** The run of delivery `n` under a plan. */
  function Played(w: World, max: nat, raw: Bytes, n: nat, p: Plan): Run {
    Steps(w, max, raw, NewRun(n, p.readable), p.script)
  }

  predicate Silent(w: World, max: nat, raw: Bytes, n: nat, p: Plan) {
    Idle(w, max, raw, NewRun(n, p.readable), p.script)
  }

  function PlayedAll(w: World, max: nat, raw: Bytes, plans: seq<Plan>): seq<Run> {
    seq(|plans|, i requires 0 <= i < |plans| => Played(w, max, raw, i + 1, plans[i]))
  }

  /** The system after these deliveries of message `m`, and nothing else. */
  function Ran(w: World, max: nat, s: System, m: nat, plans: seq<Plan>): System
    requires m < |s.messages|
  {
    s.(messages := s.messages[m := s.messages[m].(runs := PlayedAll(w, max, s.messages[m].raw, plans))])
  }

  /** Any list of silent deliveries can happen, and leaves nothing but its runs. */
  lemma {:induction false} RunPlans(w: World, max: nat, s: System, m: nat, plans: seq<Plan>) returns (es: seq<Event>)
    requires m < |s.messages| && !s.messages[m].acked && s.messages[m].runs == [] && |plans| <= Backstop(max)
    requires forall i :: 0 <= i < |plans| ==> Silent(w, max, s.messages[m].raw, i + 1, plans[i])
    ensures Allowed(w, max, s, es) && After(w, max, s, es) == Ran(w, max, s, m, plans)
    decreases |plans|
  {
    es := [];
    if plans == [] {
      assert PlayedAll(w, max, s.messages[m].raw, plans) == [] && s.messages[m := s.messages[m]] == s.messages;
    } else {
      var rest := RunPlans(w, max, s, m, plans[..|plans| - 1]);
      var more := RunLastPlan(w, max, s, m, plans);
      AfterJoins(w, max, s, rest, more);
      AfterSplits(w, max, s, rest, more);
      es := rest + more;
    }
  }

  lemma RunLastPlan(w: World, max: nat, s: System, m: nat, plans: seq<Plan>) returns (es: seq<Event>)
    requires m < |s.messages| && !s.messages[m].acked && 0 < |plans| <= Backstop(max)
    requires Silent(w, max, s.messages[m].raw, |plans|, plans[|plans| - 1])
    ensures Allowed(w, max, Ran(w, max, s, m, plans[..|plans| - 1]), es)
    ensures After(w, max, Ran(w, max, s, m, plans[..|plans| - 1]), es) == Ran(w, max, s, m, plans)
  {
    var k, raw := |plans| - 1, s.messages[m].raw;
    var p, t := plans[k], Ran(w, max, s, m, plans[..k]);
    var e := Deliver(m, p.readable);
    var u := Fire(w, max, t, e);
    assert u.messages[m].runs[k] == NewRun(k + 1, p.readable);
    var more := IdleExecution(w, max, u, m, k, p.script);
    AfterCons(w, max, t, e, more);
    es := [e] + more;
    assert u.messages[m].runs[k := Played(w, max, raw, k + 1, p)] == PlayedAll(w, max, raw, plans);
    assert SetRun(u, m, k, Played(w, max, raw, k + 1, p)) == Ran(w, max, s, m, plans);
  }

  /** Same, when the runs the deliveries end in are known. */
  lemma RunPlansTo(w: World, max: nat, s: System, m: nat, plans: seq<Plan>, ends: seq<Run>) returns (es: seq<Event>)
    requires m < |s.messages| && !s.messages[m].acked && s.messages[m].runs == [] && |plans| <= Backstop(max)
    requires |ends| == |plans|
    requires forall i :: 0 <= i < |plans| ==>
      && Silent(w, max, s.messages[m].raw, i + 1, plans[i])
      && Played(w, max, s.messages[m].raw, i + 1, plans[i]) == ends[i]
    ensures Allowed(w, max, s, es)
    ensures After(w, max, s, es) == s.(messages := s.messages[m := s.messages[m].(runs := ends)])
  {
    assert PlayedAll(w, max, s.messages[m].raw, plans) == ends;
    es := RunPlans(w, max, s, m, plans);
  }
}
