/** Runs left alone come to an end: undisturbed systems acknowledge everything, and interrupted messages recover. */
module Recovery {
  import opened Pipeline
  import opened Handler
  import opened Delivery
  import opened Guarantees
  import opened Bounds
  import opened Clashes
  import opened Stranded

  lemma {:induction false} CalmJoins(w: World, max: nat, s: System, es: seq<Event>, fs: seq<Event>)
    requires Allowed(w, max, s, es) && Allowed(w, max, After(w, max, s, es), fs)
    requires CalmAll(w, max, s, es) && CalmAll(w, max, After(w, max, s, es), fs)
    ensures Allowed(w, max, s, es + fs) && CalmAll(w, max, s, es + fs)
    decreases |es|
  {
    AfterJoins(w, max, s, es, fs);
    if es == [] {
      assert es + fs == fs;
    } else {
      assert (es + fs)[0] == es[0] && (es + fs)[1..] == es[1..] + fs;
      CalmJoins(w, max, Fire(w, max, s, es[0]), es[1..], fs);
    }
  }

  /** Only message `m` has moved. */
  ghost predicate Only(s: System, t: System, m: nat) {
    && |t.messages| == |s.messages|
    && (forall k :: 0 <= k < |s.messages| && k != m ==> t.messages[k] == s.messages[k])
    && (m < |s.messages| ==> t.messages[m].raw == s.messages[m].raw && (s.messages[m].acked ==> t.messages[m].acked))
  }

  ghost predicate About(es: seq<Event>, m: nat) {
    forall i :: 0 <= i < |es| ==> es[i].m == m
  }

  // ---- one run --------------------------------------------------------------

  /** A live run left alone ends by an acknowledgement that arrives, or by a nak below the bound. */
  lemma {:induction false} RunEnds(w: World, max: nat, s: System, m: nat, r: nat) returns (es: seq<Event>)
    requires Local(w, max, s) && m < |s.messages| && r < |s.messages[m].runs| && s.messages[m].runs[r].Live()
    ensures Allowed(w, max, s, es) && CalmAll(w, max, s, es) && About(es, m)
    ensures var t := After(w, max, s, es);
            && Local(w, max, t) && Only(s, t, m)
            && |t.messages[m].runs| == |s.messages[m].runs|
            && (forall k :: 0 <= k < |s.messages[m].runs| && k != r ==> t.messages[m].runs[k] == s.messages[m].runs[k])
            && t.messages[m].runs[r].readable == s.messages[m].runs[r].readable
            && !t.messages[m].runs[r].Live()
            && (t.messages[m].acked || s.messages[m].runs[r].Count() < max)
    decreases WorkLeft(w, s.messages[m].raw, s.messages[m].runs[r])
  {
    var raw, run, e := s.messages[m].raw, s.messages[m].runs[r], Act(m, r, SMOOTH);
    assert RunsOk(w, max, s.messages[m]);
    var t := Fire(w, max, s, e);
    FireLocal(w, max, s, e);
    AdvanceUsesWork(w, max, raw, run, SMOOTH);
    assert t.messages[m].runs[r] == Advance(w, max, raw, run, SMOOTH);
    SmoothStepEnds(w, max, s, m, r);
    if t.messages[m].runs[r].Live() {
      var rest := RunEnds(w, max, t, m, r);
      AfterCons(w, max, s, e, rest);
      es := [e] + rest;
      assert es[1..] == rest;
    } else {
      AfterOne(w, max, s, e);
      es := [e];
      assert es[1..] == [];
    }
  }

  lemma SmoothStepEnds(w: World, max: nat, s: System, m: nat, r: nat)
    requires Local(w, max, s) && m < |s.messages| && r < |s.messages[m].runs| && s.messages[m].runs[r].Live()
    ensures Calm(w, s, Act(m, r, SMOOTH))
    ensures var t := Fire(w, max, s, Act(m, r, SMOOTH));
      && Only(s, t, m) && |t.messages[m].runs| == |s.messages[m].runs|
      && (t.messages[m].runs[r].Live() || t.messages[m].acked || s.messages[m].runs[r].Count() < max)
  {
    var raw, run := s.messages[m].raw, s.messages[m].runs[r];
    assert RunsOk(w, max, s.messages[m]);
    CalmStepEnds(w, max, raw, run, SMOOTH);
    AdvanceOnTrack(w, max, raw, run, SMOOTH);
    assert OnTrack(w, max, raw, Advance(w, max, raw, run, SMOOTH));
  }

  // ---- one message ----------------------------------------------------------

  /** No run of the message is going. */
  predicate Resting(msg: Message) {
    forall r :: 0 <= r < |msg.runs| ==> !msg.runs[r].Live()
  }

  /** As long as the server may deliver a message once more, it can still be acknowledged, whatever became of the
      deliveries before. */
  lemma {:induction false} Recover(w: World, max: nat, s: System, m: nat) returns (es: seq<Event>)
    requires Local(w, max, s) && m < |s.messages| && !s.messages[m].acked && |s.messages[m].runs| <= max
    ensures Allowed(w, max, s, es) && About(es, m)
    ensures Only(s, After(w, max, s, es), m) && After(w, max, s, es).messages[m].acked
    ensures Resting(s.messages[m]) ==> CalmAll(w, max, s, es)
    decreases max + 1 - |s.messages[m].runs|
  {
    var e, k := Deliver(m, true), |s.messages[m].runs|;
    var t := Fire(w, max, s, e);
    FireLocal(w, max, s, e);
    assert t.messages[m].runs[k] == NewRun(k + 1, true);
    var more := RunEnds(w, max, t, m, k);
    var u := After(w, max, t, more);
    AfterCons(w, max, s, e, more);
    es := [e] + more;
    assert es[1..] == more;
    if !u.messages[m].acked {
      var rest := Recover(w, max, u, m);
      AfterJoins(w, max, s, es, rest);
      AfterSplits(w, max, s, es, rest);
      if Resting(s.messages[m]) {
        CalmJoins(w, max, s, es, rest);
      }
      es := es + rest;
    }
  }

  /**
   A message none of whose runs is still going, cancelled or not: some further events about it bring it to an
   account if and only if it has one already or the server-side bound leaves it a delivery. So a cancelled
   delivery is safe up to delivery `max`, and at `max + 1` only if the message is accounted for by then.
   */
  lemma CancelledDeliveryIsSafe(w: World, max: nat, s: System, es: seq<Event>, m: nat)
    requires Initial(s) && Allowed(w, max, s, es) && m < |After(w, max, s, es).messages|
    requires Resting(After(w, max, s, es).messages[m])
    ensures CanBeAccounted(w, max, After(w, max, s, es), m) <==>
      Accounted(w, max, After(w, max, s, es), m) || |After(w, max, s, es).messages[m].runs| <= max
  {
    var t := After(w, max, s, es);
    ReachableIsSound(w, max, s, es);
    if Accounted(w, max, t, m) {
      AccountedNow(w, max, t, m);
    } else if |t.messages[m].runs| <= max {
      var fs := Recover(w, max, t, m);
      SoundAlways(w, max, t, fs, s.env.bucket);
      assert Accounts(w, max, t, m, fs);
    } else if CanBeAccounted(w, max, t, m) {
      var fs :| Accounts(w, max, t, m, fs);
      NothingLeftSpec(max, t, m);
      NothingFollows(w, max, t, m, fs);
    }
  }

  ghost predicate CanBeAccounted(w: World, max: nat, t: System, m: nat) {
    exists fs :: Accounts(w, max, t, m, fs)
  }

  ghost predicate Accounts(w: World, max: nat, t: System, m: nat, fs: seq<Event>) {
    && Allowed(w, max, t, fs) && About(fs, m)
    && m < |After(w, max, t, fs).messages| && Accounted(w, max, After(w, max, t, fs), m)
  }

  lemma NothingFollows(w: World, max: nat, t: System, m: nat, fs: seq<Event>)
    requires NothingLeft(max, t, m) && About(fs, m) && Allowed(w, max, t, fs)
    ensures fs == []
  {
  }

  lemma AccountedNow(w: World, max: nat, t: System, m: nat)
    requires m < |t.messages| && Accounted(w, max, t, m)
    ensures CanBeAccounted(w, max, t, m)
  {
    assert Accounts(w, max, t, m, []);
  }

  // ---- the whole system -----------------------------------------------------

  /** In an undisturbed system the one run of a message that may be going comes to its end. */
  lemma SettleCalm(w: World, max: nat, t: System, m: nat) returns (fs: seq<Event>)
    requires Local(w, max, t) && CalmState(max, t) && m < |t.messages|
    ensures Allowed(w, max, t, fs) && CalmAll(w, max, t, fs)
    ensures Only(t, After(w, max, t, fs), m) && Resting(After(w, max, t, fs).messages[m])
  {
    fs := [];
    assert CalmMessage(max, t.messages[m]);
    if r :| 0 <= r < |t.messages[m].runs| && t.messages[m].runs[r].Live() {
      fs := RunEnds(w, max, t, m, r);
    }
  }

  /** An undisturbed system can go on, undisturbed, until message `m` is acknowledged. */
  lemma CalmMessageIsAcked(w: World, max: nat, s: System, es: seq<Event>, m: nat) returns (fs: seq<Event>)
    requires max >= 1 && Initial(s) && Allowed(w, max, s, es) && CalmAll(w, max, s, es) && m < |s.messages|
    ensures Allowed(w, max, s, es + fs) && CalmAll(w, max, s, es + fs)
    ensures Allowed(w, max, After(w, max, s, es), fs)
    ensures Only(After(w, max, s, es), After(w, max, s, es + fs), m)
    ensures m < |After(w, max, s, es + fs).messages| && After(w, max, s, es + fs).messages[m].acked
  {
    TimePasses(w, max, s, es);
    InitialIsSound(w, max, s);
    CalmAlways(w, max, s, es);
    var t := After(w, max, s, es);
    fs := SettleCalm(w, max, t, m);
    CalmJoins(w, max, s, es, fs);
    AfterSplits(w, max, s, es, fs);
    CalmAlways(w, max, s, es + fs);
    var u := After(w, max, t, fs);
    if !u.messages[m].acked {
      var rest := RecoverCalm(w, max, u, m);
      CalmJoins(w, max, t, fs, rest);
      AfterSplits(w, max, t, fs, rest);
      fs := fs + rest;
      CalmJoins(w, max, s, es, fs);
      AfterSplits(w, max, s, es, fs);
    }
  }

  lemma RecoverCalm(w: World, max: nat, u: System, m: nat) returns (rest: seq<Event>)
    requires max >= 1 && Local(w, max, u) && CalmState(max, u) && m < |u.messages| && !u.messages[m].acked
    requires Resting(u.messages[m])
    ensures Allowed(w, max, u, rest) && CalmAll(w, max, u, rest)
    ensures Only(u, After(w, max, u, rest), m) && After(w, max, u, rest).messages[m].acked
  {
    assert RunsOk(w, max, u.messages[m]) && CalmMessage(max, u.messages[m]);
    RestingBelowBound(w, max, u.messages[m]);
    rest := Recover(w, max, u, m);
  }

  /** Liveness: every undisturbed execution extends to an undisturbed one in which every message is acknowledged. */
  lemma CalmExecutionsFinish(w: World, max: nat, s: System, es: seq<Event>) returns (fs: seq<Event>)
    requires max >= 1 && Initial(s) && Allowed(w, max, s, es) && CalmAll(w, max, s, es)
    ensures Allowed(w, max, s, es + fs) && CalmAll(w, max, s, es + fs)
    ensures forall m :: 0 <= m < |After(w, max, s, es + fs).messages| ==> After(w, max, s, es + fs).messages[m].acked
  {
    fs := CalmFirstAcked(w, max, s, es, |s.messages|);
    TimePasses(w, max, s, es + fs);
  }

  lemma {:induction false} CalmFirstAcked(w: World, max: nat, s: System, es: seq<Event>, n: nat)
    returns (fs: seq<Event>)
    requires max >= 1 && Initial(s) && Allowed(w, max, s, es) && CalmAll(w, max, s, es) && n <= |s.messages|
    ensures Allowed(w, max, s, es + fs) && CalmAll(w, max, s, es + fs)
    ensures n <= |After(w, max, s, es + fs).messages|
    ensures forall m :: 0 <= m < n ==> After(w, max, s, es + fs).messages[m].acked
    decreases n
  {
    fs := [];
    assert es + fs == es;
    TimePasses(w, max, s, es);
    if n > 0 {
      fs := CalmFirstAcked(w, max, s, es, n - 1);
      var more := CalmMessageIsAcked(w, max, s, es + fs, n - 1);
      assert es + fs + more == es + (fs + more);
      fs := fs + more;
      TimePasses(w, max, s, es + fs);
    }
  }
}
