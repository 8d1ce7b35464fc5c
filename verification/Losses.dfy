/**
 When an acknowledged message has nothing to show for it, neither a result nor a dead letter: the exact condition
 over the deliveries that lost both publishes.
 */
module Losses {
  import opened Prelude
  import opened Pipeline
  import opened Handler
  import opened Delivery
  import opened Guarantees
  import opened Clashes
  import opened Scripts

  /** The delivery lost everything it sent: both publishes at the bound, or the dead letter of a dropped message. */
  predicate Lost(w: World, max: nat, raw: Bytes, run: Run) {
    if w.decode(raw).None? then run.tally.lastDlqLost else BothPublishesFailed(max, run)
  }

  function LossesOf(w: World, max: nat, msg: Message): seq<bool> {
    seq(|msg.runs|, r requires 0 <= r < |msg.runs| => Lost(w, max, msg.raw, msg.runs[r]))
  }

  /** Acknowledged, with these losses, no result and no dead letter. */
  ghost predicate Loses(w: World, max: nat, t: System, m: nat, losses: seq<bool>) {
    && m < |t.messages| && LossesOf(w, max, t.messages[m]) == losses && t.messages[m].acked
    && !Buried(t.env, t.messages[m].raw)
    && (w.decode(t.messages[m].raw).Some? ==> !Posted(t.env, m, w.decode(t.messages[m].raw).value))
  }

  ghost predicate CanLose(w: World, max: nat, s: System, m: nat, losses: seq<bool>) {
    exists es :: Allowed(w, max, s, es) && Loses(w, max, After(w, max, s, es), m, losses)
  }

  /** Some delivery loses everything, and a decodable message is lost at the bound or past it only. */
  ghost predicate Losing(w: World, max: nat, raw: Bytes, losses: seq<bool>) {
    && |losses| <= Backstop(max)
    && (exists i :: 0 <= i < |losses| && losses[i])
    && forall i :: 0 <= i < |losses| && losses[i] ==> w.decode(raw).None? || i + 1 >= max
  }

  // ---- every such pattern happens -------------------------------------------

  /** A delivery that loses everything and is about to acknowledge, or one that is cancelled. */
  function LossScript(w: World, raw: Bytes, lost: bool): seq<Choice> {
    if !lost then [Cancels(false)]
    else if w.decode(raw).None? then [SMOOTH, FAULT]
    else [SMOOTH, FAULT, FAULT, FAULT]
  }

  function LossEnd(w: World, raw: Bytes, n: nat, lost: bool): Run {
    if !lost then Run(n, true, Cancelled, NO_TALLY)
    else if w.decode(raw).None? then Run(n, true, DropAck, NO_TALLY.(dlqs := 1, lastDlqLost := true))
    else Run(n, true, FailAck, NO_TALLY.(publishes := 1, dlqs := 1, publishLost := true, lastDlqLost := true))
  }

  lemma LossScriptEnds(w: World, max: nat, raw: Bytes, n: nat, lost: bool)
    requires lost && w.decode(raw).Some? ==> n >= max
    ensures Silent(w, max, raw, n, Plan(true, LossScript(w, raw, lost)))
    ensures Played(w, max, raw, n, Plan(true, LossScript(w, raw, lost))) == LossEnd(w, raw, n, lost)
  {
    var run, cs := NewRun(n, true), LossScript(w, raw, lost);
    var one := Advance(w, max, raw, run, cs[0]);
    assert Idle(w, max, raw, LossEnd(w, raw, n, lost), []);
    if !lost {
      assert cs[1..] == [] && one == LossEnd(w, raw, n, lost);
      assert Steps(w, max, raw, one, cs[1..]) == one;
    } else if w.decode(raw).None? {
      assert one == run.(pc := DropDlq);
      assert cs[1..] == [FAULT] && [FAULT][1..] == [];
      var two := Advance(w, max, raw, one, FAULT);
      assert two == LossEnd(w, raw, n, lost) && Steps(w, max, raw, two, []) == two;
      assert Steps(w, max, raw, one, cs[1..]) == two && Idle(w, max, raw, one, cs[1..]);
    } else {
      DecodedLossEnds(w, max, raw, n);
    }
  }

  lemma DecodedLossEnds(w: World, max: nat, raw: Bytes, n: nat)
    requires w.decode(raw).Some? && n >= max
    ensures Silent(w, max, raw, n, Plan(true, LossScript(w, raw, true)))
    ensures Played(w, max, raw, n, Plan(true, LossScript(w, raw, true))) == LossEnd(w, raw, n, true)
  {
    var req, run, cs := w.decode(raw).value, NewRun(n, true), LossScript(w, raw, true);
    var one := Advance(w, max, raw, run, cs[0]);
    assert one == run.(pc := Fetch(""));
    var two := Advance(w, max, raw, one, FAULT);
    assert two == run.(pc := LastPublish(StorageFault(req, None, "", FAULT)));
    var three := Advance(w, max, raw, two, FAULT);
    assert three == run.(pc := FailDlq, tally := NO_TALLY.(publishes := 1, publishLost := true));
    var four := Advance(w, max, raw, three, FAULT);
    assert four == LossEnd(w, raw, n, true);
    assert cs[1..] == [FAULT, FAULT, FAULT] && cs[1..][1..] == [FAULT, FAULT] && cs[1..][1..][1..] == [FAULT];
    assert [FAULT][1..] == [];
    assert Idle(w, max, raw, four, []) && Steps(w, max, raw, four, []) == four;
    assert Idle(w, max, raw, three, [FAULT]) && Steps(w, max, raw, three, [FAULT]) == four;
    assert Idle(w, max, raw, two, cs[1..][1..]) && Steps(w, max, raw, two, cs[1..][1..]) == four;
    assert Idle(w, max, raw, one, cs[1..]) && Steps(w, max, raw, one, cs[1..]) == four;
  }

  function LossPlans(w: World, raw: Bytes, losses: seq<bool>): seq<Plan> {
    seq(|losses|, i requires 0 <= i < |losses| => Plan(true, LossScript(w, raw, losses[i])))
  }

  function LossEnds(w: World, raw: Bytes, losses: seq<bool>): seq<Run> {
    seq(|losses|, i requires 0 <= i < |losses| => LossEnd(w, raw, i + 1, losses[i]))
  }

  /** The deliveries of the pattern, up to the acknowledgement of one that lost everything. */
  lemma LoseDeliveries(w: World, max: nat, s: System, m: nat, losses: seq<bool>) returns (es: seq<Event>)
    requires Initial(s) && m < |s.messages| && Losing(w, max, s.messages[m].raw, losses)
    ensures Allowed(w, max, s, es)
    ensures var t := After(w, max, s, es);
            && t.env == s.env && m < |t.messages| && t.messages[m].raw == s.messages[m].raw
            && t.messages[m].runs == LossEnds(w, s.messages[m].raw, losses)
  {
    var raw, plans, ends := s.messages[m].raw, LossPlans(w, s.messages[m].raw, losses),
      LossEnds(w, s.messages[m].raw, losses);
    forall i | 0 <= i < |losses|
      ensures Silent(w, max, raw, i + 1, plans[i]) && Played(w, max, raw, i + 1, plans[i]) == ends[i]
    {
      LossScriptEnds(w, max, raw, i + 1, losses[i]);
    }
    es := RunPlansTo(w, max, s, m, plans, ends);
  }

  /** The acknowledgement of a delivery that lost everything. */
  lemma LostAck(w: World, max: nat, t: System, m: nat, i: nat, losses: seq<bool>)
    requires m < |t.messages| && t.messages[m].runs == LossEnds(w, t.messages[m].raw, losses)
    requires i < |losses| && losses[i]
    requires forall k :: 0 <= k < |losses| && losses[k] ==> w.decode(t.messages[m].raw).None? || k + 1 >= max
    requires t.env.results == [] && t.env.dlq == []
    ensures Enabled(max, t, Act(m, i, SMOOTH)) && Loses(w, max, Fire(w, max, t, Act(m, i, SMOOTH)), m, losses)
  {
    var u := Fire(w, max, t, Act(m, i, SMOOTH));
    var raw := t.messages[m].raw;
    forall k | 0 <= k < |losses|
      ensures Lost(w, max, raw, u.messages[m].runs[k]) == losses[k]
    {
      assert u.messages[m].runs[k].tally == t.messages[m].runs[k].tally;
    }
    assert LossesOf(w, max, u.messages[m]) == losses;
  }

  // ---- the exact condition --------------------------------------------------

  /**
   The exact condition, for every bound, message and pattern of lost deliveries: the message can end acknowledged with
   neither a result nor a dead letter if and only if there are at most `max + 1` deliveries, one of them lost everything
   it sent, and those that did are deliveries at or past the bound or drop an undecodable message.
   */
  lemma LostExactlyWhenLosing(w: World, max: nat, s: System, m: nat, losses: seq<bool>)
    requires Initial(s) && m < |s.messages|
    ensures CanLose(w, max, s, m, losses) <==> Losing(w, max, s.messages[m].raw, losses)
  {
    if CanLose(w, max, s, m, losses) {
      var es :| Allowed(w, max, s, es) && Loses(w, max, After(w, max, s, es), m, losses);
      LossShows(w, max, s, es, m);
    }
    if Losing(w, max, s.messages[m].raw, losses) {
      var es := Lose(w, max, s, m, losses);
      assert Loses(w, max, After(w, max, s, es), m, losses);
    }
  }

  lemma LossShows(w: World, max: nat, s: System, es: seq<Event>, m: nat)
    requires Initial(s) && m < |s.messages| && Allowed(w, max, s, es) && m < |After(w, max, s, es).messages|
    requires var t := After(w, max, s, es); Loses(w, max, t, m, LossesOf(w, max, t.messages[m]))
    ensures Losing(w, max, s.messages[m].raw, LossesOf(w, max, After(w, max, s, es).messages[m]))
  {
    var msg := After(w, max, s, es).messages[m];
    NoSilentLoss(w, max, s, es, m);
    ReachableIsSound(w, max, s, es);
    assert RunsOk(w, max, msg);
    var r :| 0 <= r < |msg.runs| && Lost(w, max, msg.raw, msg.runs[r]);
    assert LossesOf(w, max, msg)[r];
  }

  lemma Lose(w: World, max: nat, s: System, m: nat, losses: seq<bool>) returns (es: seq<Event>)
    requires Initial(s) && m < |s.messages| && Losing(w, max, s.messages[m].raw, losses)
    ensures Allowed(w, max, s, es) && Loses(w, max, After(w, max, s, es), m, losses)
  {
    var i: nat :| i < |losses| && losses[i];
    var e := Act(m, i, SMOOTH);
    var fs := LoseDeliveries(w, max, s, m, losses);
    var t := After(w, max, s, fs);
    LostAck(w, max, t, m, i, losses);
    AfterOne(w, max, t, e);
    AfterJoins(w, max, s, fs, [e]);
    AfterSplits(w, max, s, fs, [e]);
    es := fs + [e];
  }

  /** The exception of the no-loss guarantee cannot be dropped: for every bound, any message can end up acknowledged
      with neither a result nor a dead letter, by losing everything at its last delivery. */
  lemma LossIsReachable(w: World, max: nat, s: System, m: nat) returns (es: seq<Event>)
    requires Initial(s) && m < |s.messages|
    ensures Allowed(w, max, s, es) && Loses(w, max, After(w, max, s, es), m, seq(Backstop(max), i => i == max))
  {
    var losses := seq(Backstop(max), i => i == max);
    assert losses[max];
    es := Lose(w, max, s, m, losses);
  }
}
