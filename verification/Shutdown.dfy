/**
 In-flight tracking and the shutdown drain: when a delivered message can be orphaned.

 A `Worker` holds the messages the broker has pushed but the callback has not seen, and the tasks the
 callback has spawned. While something is awaited anything may happen in between: a `Turn` is a push, a
 call of the callback, or the end of some tasks. A delivery is identified by its message and its run in the
 delivery machine, where cancelling its task is a step like any other.
 */
module Shutdown {
  import opened Prelude
  import opened Pipeline
  import opened Handler
  import opened Delivery
  import opened Guarantees
  import opened Recovery

  /** One delivery: message and run. */
  datatype Id = Id(m: nat, r: nat)

  function Elements(xs: seq<Id>): set<Id> {
    set x | x in xs
  }

  datatype Turn = Push(id: Id) | Call | Ends(ids: set<Id>)

  function Pushed(ts: seq<Turn>): set<Id> {
    set t | t in ts && t.Push? :: t.id
  }

  /** Every push is a new delivery. */
  ghost predicate NewPushes(ts: seq<Turn>, delivered: set<Id>) {
    && Pushed(ts) !! delivered
    && forall i, j :: 0 <= i < j < |ts| && ts[i].Push? && ts[j].Push? ==> ts[i] != ts[j]
  }

  lemma PushedGrows(ts: seq<Turn>, i: nat)
    requires i < |ts|
    ensures Pushed(ts[..i + 1]) == Pushed(ts[..i]) + if ts[i].Push? then {ts[i].id} else {}
  {
    assert ts[..i + 1] == ts[..i] + [ts[i]];
  }

  /** What waits for the callback, and what it spawned. */
  datatype Desk = Desk(buffered: seq<Id>, inflight: set<Id>)

  function TurnOne(open: bool, d: Desk, t: Turn): Desk {
    match t
    case Push(id) => if open then d.(buffered := d.buffered + [id]) else d
    case Call => if d.buffered == [] then d else Desk(d.buffered[1..], d.inflight + {d.buffered[0]})
    case Ends(ids) => d.(inflight := d.inflight - ids)
  }

  function Turned(open: bool, d: Desk, ts: seq<Turn>): Desk {
    if ts == [] then d else TurnOne(open, Turned(open, d, ts[..|ts| - 1]), ts[|ts| - 1])
  }

  /** The drain's callback for the first `k` buffered messages; some tasks end after each call. */
  function Called(d: Desk, finishing: nat -> set<Id>, k: nat): Desk {
    if k == 0 then d
    else TurnOne(false, TurnOne(false, Called(d, finishing, k - 1), Call), Ends(finishing(k - 1)))
  }

  /** How the drain goes: what happens until the server confirms, whether it does, which tasks end after each
      buffered message, and after how many of them the drain raises, if it does. */
  datatype Draining = Draining(flush: seq<Turn>, flushed: bool, finishing: nat -> set<Id>, raisesAfter: Option<nat>)
  {
    /** How many of `n` buffered messages get to the callback. */
    function Handled(n: nat): nat {
      if raisesAfter.Some? && raisesAfter.value < n then raisesAfter.value else n
    }

    /** The desk the drain leaves. */
    function Leaves(d: Desk): Desk {
      var f := Turned(true, d, flush);
      if flushed then Called(f, finishing, Handled(|f.buffered|)) else f
    }

    /** The server confirms and every buffered message gets to the callback. */
    predicate Completes(d: Desk) {
      flushed && Handled(|Turned(true, d, flush).buffered|) == |Turned(true, d, flush).buffered|
    }
  }

  lemma {:induction false} CalledSpec(d: Desk, finishing: nat -> set<Id>, k: nat)
    requires k <= |d.buffered|
    ensures Called(d, finishing, k).buffered == d.buffered[k..]
  {
    if k > 0 {
      CalledSpec(d, finishing, k - 1);
      assert d.buffered[k - 1..][1..] == d.buffered[k..];
    }
  }

  /** What is left behind when the wait is over: messages nobody handled, and tasks that are not in the snapshot. */
  predicate LeavesNothing(open: bool, d: Desk, waiting: seq<Turn>) {
    var after := Turned(open, d, waiting);
    after.buffered == [] && after.inflight - d.inflight == {}
  }

  lemma NewId(delivered: set<Id>) returns (id: Id)
    ensures id !in delivered
  {
    var n := AboveAll(delivered);
    id := Id(n, 0);
  }

  lemma {:induction false} AboveAll(ids: set<Id>) returns (n: nat)
    ensures forall id :: id in ids ==> id.m < n
    decreases |ids|
  {
    n := 0;
    if id :| id in ids {
      n := AboveAll(ids - {id});
      n := if id.m < n then n else id.m + 1;
    }
  }

  /** Closed and empty, a desk takes nothing in. */
  lemma {:induction false} ClosedDeskShrinks(d: Desk, ts: seq<Turn>)
    requires d.buffered == []
    ensures Turned(false, d, ts).buffered == [] && Turned(false, d, ts).inflight <= d.inflight
  {
    if ts != [] {
      ClosedDeskShrinks(d, ts[..|ts| - 1]);
    }
  }

  /** Nothing is left behind, whatever happens during the wait, if and only if the subscription is closed and its
      buffer empty when the wait begins. */
  lemma NothingLeftExactlyWhenClosed(open: bool, d: Desk, delivered: set<Id>)
    ensures !open && d.buffered == [] <==>
      forall waiting :: NewPushes(waiting, delivered) ==> LeavesNothing(open, d, waiting)
  {
    if !open && d.buffered == [] {
      forall waiting | NewPushes(waiting, delivered)
        ensures LeavesNothing(open, d, waiting)
      {
        ClosedDeskShrinks(d, waiting);
      }
    } else if d.buffered != [] {
      assert NewPushes([], delivered) && !LeavesNothing(open, d, []);
    } else {
      var id := NewId(delivered);
      OnePush(id, delivered);
      assert [Push(id)][..0] == [];
      assert Turned(open, d, []) == d && Turned(open, d, [Push(id)]).buffered == [id];
      assert !LeavesNothing(open, d, [Push(id)]);
    }
  }

  /**
   The exact condition, for every drain of every worker: a shutdown leaves nothing behind, whatever happens during the
   wait, if and only if the drain completes.
   */
  lemma NothingLeftExactlyWhenDrained(how: Draining, d: Desk, delivered: set<Id>)
    ensures how.Completes(d) <==>
      forall waiting :: NewPushes(waiting, delivered) ==> LeavesNothing(!how.flushed, how.Leaves(d), waiting)
  {
    var flushed := Turned(true, d, how.flush);
    CalledSpec(flushed, how.finishing, how.Handled(|flushed.buffered|));
    NothingLeftExactlyWhenClosed(!how.flushed, how.Leaves(d), delivered);
  }

  lemma OnePush(id: Id, delivered: set<Id>)
    requires id !in delivered
    ensures NewPushes([Push(id)], delivered)
  {
    assert Pushed([Push(id)]) == {id} by {
      assert [Push(id)][0] in [Push(id)];
    }
  }

  class Worker {
    var open: bool
    var buffered: seq<Id>
    var inflight: set<Id>

    /** Every delivery ever pushed to this worker, and those whose task has ended. */
    ghost var delivered: set<Id>
    ghost var finished: set<Id>
    ghost var cancelled: set<Id>

    constructor ()
      ensures Conserved() && open && buffered == [] && delivered == {}
    {
      open, buffered, inflight := true, [], {};
      delivered, finished, cancelled := {}, {}, {};
    }

    function OnDesk(): Desk
      reads this
    {
      Desk(buffered, inflight)
    }

    /** Every delivery is buffered, in flight, finished or cancelled, and only one of these. */
    ghost predicate Conserved()
      reads this
    {
      && Distinct(buffered)
      && delivered == Elements(buffered) + inflight + finished + cancelled
      && Elements(buffered) !! inflight !! finished !! cancelled
    }

    /** The broker pushes a message to an open subscription. */
    method Arrive(id: Id)
      requires Conserved() && open && id !in delivered
      modifies this
      ensures Conserved() && open && delivered == old(delivered) + {id}
      ensures buffered == old(buffered) + [id] && inflight == old(inflight)
      ensures finished == old(finished) && cancelled == old(cancelled)
    {
      buffered := buffered + [id];
      delivered := delivered + {id};
    }

    /** The subscription callback: spawn a tracked task for the next buffered message. */
    method Handle()
      requires Conserved() && buffered != []
      modifies this
      ensures Conserved() && delivered == old(delivered) && open == old(open)
      ensures buffered == old(buffered)[1..] && inflight == old(inflight) + {old(buffered)[0]}
      ensures finished == old(finished) && cancelled == old(cancelled)
    {
      assert buffered == [buffered[0]] + buffered[1..];
      inflight := inflight + {buffered[0]};
      buffered := buffered[1..];
    }

    /** Tasks end and are discarded from the tracked set. */
    method TasksDone(ids: set<Id>)
      requires Conserved()
      modifies this
      ensures Conserved() && delivered == old(delivered) && open == old(open)
      ensures buffered == old(buffered) && inflight == old(inflight) - ids
      ensures finished == old(finished) + (ids * old(inflight)) && cancelled == old(cancelled)
    {
      finished := finished + (ids * inflight);
      inflight := inflight - ids;
    }

    /** What happens while an await of the shutdown sequence is pending; nothing is pushed once unsubscribed. */
    method Meanwhile(ts: seq<Turn>)
      requires Conserved() && NewPushes(ts, delivered)
      modifies this
      ensures Conserved() && open == old(open) && OnDesk() == Turned(open, old(OnDesk()), ts)
      ensures delivered == old(delivered) + if open then Pushed(ts) else {}
      ensures old(finished) <= finished && cancelled == old(cancelled)
      ensures old(inflight) <= inflight + finished
      ensures !open && old(buffered) == [] ==> buffered == [] && inflight <= old(inflight)
    {
      var i := 0;
      while i < |ts|
        invariant 0 <= i <= |ts| && Conserved() && open == old(open)
        invariant OnDesk() == Turned(open, old(OnDesk()), ts[..i])
        invariant delivered == old(delivered) + if open then Pushed(ts[..i]) else {}
        invariant old(finished) <= finished && cancelled == old(cancelled)
        invariant old(inflight) <= inflight + finished
        invariant !open && old(buffered) == [] ==> buffered == [] && inflight <= old(inflight)
      {
        PushedGrows(ts, i);
        assert ts[..i + 1][..i] == ts[..i];
        match ts[i] {
          case Push(id) =>
            assert ts[i] in ts && id in Pushed(ts);
            assert id !in Pushed(ts[..i]);
            if open { Arrive(id); }
          case Call =>
            if buffered != [] { Handle(); }
          case Ends(ids) =>
            TasksDone(ids);
        }
        i := i + 1;
      }
      assert ts[..|ts|] == ts;
    }

    /** Drain the subscription: unsubscribe and wait for the server, during which messages still arrive; then hand
        every buffered message to the callback. The drain may raise in either phase. */
    method Drain(how: Draining) returns (ok: bool)
      requires Conserved() && open && NewPushes(how.flush, delivered)
      modifies this
      ensures Conserved() && delivered == old(delivered) + Pushed(how.flush) && cancelled == old(cancelled)
      ensures old(finished) <= finished
      ensures ok == how.Completes(old(OnDesk()))
      ensures open == !how.flushed && OnDesk() == how.Leaves(old(OnDesk()))
      ensures ok <==> !open && buffered == []
    {
      Meanwhile(how.flush);
      ghost var flushed := OnDesk();
      if !how.flushed { return false; }
      open := false;
      var i := 0;
      while buffered != []
        invariant Conserved() && delivered == old(delivered) + Pushed(how.flush) && cancelled == old(cancelled)
        invariant old(finished) <= finished && !open
        invariant i <= |flushed.buffered| && OnDesk() == Called(flushed, how.finishing, i)
        invariant |buffered| == |flushed.buffered| - i
        invariant how.raisesAfter.Some? ==> i <= how.raisesAfter.value
        decreases |buffered|
      {
        if how.raisesAfter == Some(i) { return false; }
        Handle();
        TasksDone(how.finishing(i));
        i := i + 1;
      }
      ok := true;
    }

    /** Cancel the tasks that did not end in time. */
    method CancelPending(pending: set<Id>)
      requires Conserved() && pending <= inflight
      modifies this
      ensures Conserved() && delivered == old(delivered) && finished == old(finished) && buffered == old(buffered)
      ensures inflight == old(inflight) - pending && cancelled == old(cancelled) + pending && open == old(open)
    {
      cancelled := cancelled + pending;
      inflight := inflight - pending;
    }

    /** The shutdown sequence: drain first, then snapshot the tracked tasks, wait for them while `waiting` goes on,
        and cancel those of the snapshot that are still running. Without tracked tasks there is no wait, and `waiting`
        goes on while the connections are closed. */
    method Stop(how: Draining, waiting: seq<Turn>) returns (drained: bool, ghost snapshot: set<Id>)
      requires Conserved() && open && NewPushes(how.flush, delivered)
      requires NewPushes(waiting, delivered + Pushed(how.flush))
      modifies this
      ensures Conserved()
      ensures delivered == old(delivered) + Pushed(how.flush) + if how.flushed then {} else Pushed(waiting)
      ensures old(finished) <= finished && drained == how.Completes(old(OnDesk()))
      // the snapshot is what is in flight after the drain, and exactly its tasks that have not ended are cancelled
      ensures snapshot == how.Leaves(old(OnDesk())).inflight && snapshot <= old(delivered) + Pushed(how.flush)
      ensures snapshot !! Elements(how.Leaves(old(OnDesk())).buffered)
      ensures cancelled == old(cancelled) + Pending(how, old(OnDesk()), waiting)
      // what is left behind was buffered or spawned after the snapshot
      ensures var after := Turned(!how.flushed, how.Leaves(old(OnDesk())), waiting);
              buffered == after.buffered && inflight == after.inflight - snapshot
      // after a drain that completes the snapshot is complete and nothing is left behind
      ensures drained ==> delivered == snapshot + old(cancelled) + (finished - snapshot)
      ensures drained ==> buffered == [] && inflight == {} && delivered == finished + cancelled
    {
      drained := Drain(how);
      snapshot := inflight;
      var tasks := inflight;
      Meanwhile(waiting);
      CancelPending(tasks * inflight);
    }
  }

  /** The tasks a shutdown cancels: in flight when the drain is over, and still when the wait is. */
  function Pending(how: Draining, d: Desk, waiting: seq<Turn>): set<Id> {
    var drained := how.Leaves(d);
    drained.inflight * Turned(!how.flushed, drained, waiting).inflight
  }

  // ---- a drain that raises --------------------------------------------------

  function Calls(n: nat): seq<Turn> {
    seq(n, _ => Call)
  }

  /** Enough calls of the callback turn every buffered message into a task. */
  lemma {:induction false} CallsEmptyBuffer(open: bool, d: Desk, ts: seq<Turn>, n: nat)
    requires n <= |Turned(open, d, ts).buffered|
    ensures var before, after := Turned(open, d, ts), Turned(open, d, ts + Calls(n));
            after.buffered == before.buffered[n..] && after.inflight == before.inflight + Elements(before.buffered[..n])
  {
    var before := Turned(open, d, ts);
    if n == 0 {
      assert ts + Calls(0) == ts;
    } else {
      CallsEmptyBuffer(open, d, ts, n - 1);
      var all := ts + Calls(n);
      assert all[..|all| - 1] == ts + Calls(n - 1);
      assert before.buffered[..n] == before.buffered[..n - 1] + [before.buffered[n - 1]];
    }
  }

  lemma Neglected(how: Draining, d: Desk, id: Id)
    requires !how.Completes(d)
    ensures var left := how.Leaves(d);
      if how.flushed
      then left.buffered != [] && left.buffered[0] in Turned(false, left, Calls(|left.buffered|)).inflight
      else id in Turned(true, left, [Push(id)] + Calls(|left.buffered| + 1)).inflight
  {
    var left, flushed := how.Leaves(d), Turned(true, d, how.flush);
    var n := |left.buffered|;
    if how.flushed {
      CalledSpec(flushed, how.finishing, how.Handled(|flushed.buffered|));
      CallsEmptyBuffer(false, left, [], n);
      assert [] + Calls(n) == Calls(n) && left.buffered[0] in left.buffered[..n];
    } else {
      var one := [Push(id)];
      var pushed := Turned(true, left, one);
      assert one[..|one| - 1] == [] && Turned(true, left, []) == left;
      assert pushed == left.(buffered := left.buffered + [id]);
      CallsEmptyBuffer(true, left, one, n + 1);
      assert pushed.buffered[..n + 1][n] == id;
    }
  }

  /**
   For any worker and any drain that does not complete there is a wait after which a delivery has been turned into a
   task that is neither awaited nor cancelled: one that arrives during the wait, or one the drain left in the buffer.
   */
  method FailedDrainOrphans(worker: Worker, how: Draining, id: Id)
    returns (waiting: seq<Turn>, orphan: Id, ghost snapshot: set<Id>)
    requires worker.Conserved() && worker.open && NewPushes(how.flush, worker.delivered)
    requires id !in worker.delivered + Pushed(how.flush) && !how.Completes(worker.OnDesk())
    modifies worker
    ensures worker.Conserved() && snapshot == how.Leaves(old(worker.OnDesk())).inflight
    ensures worker.cancelled == old(worker.cancelled) + Pending(how, old(worker.OnDesk()), waiting)
    ensures orphan in worker.inflight && orphan !in snapshot + worker.finished + worker.cancelled
  {
    var left := how.Leaves(worker.OnDesk());
    orphan := if how.flushed && left.buffered != [] then left.buffered[0] else id;
    waiting := if how.flushed then Calls(|left.buffered|) else [Push(id)] + Calls(|left.buffered| + 1);
    Neglected(how, worker.OnDesk(), id);
    OnlyPush(waiting, id, worker.delivered + Pushed(how.flush));
    ghost var drained;
    drained, snapshot := worker.Stop(how, waiting);
  }

  lemma OnlyPush(ts: seq<Turn>, id: Id, delivered: set<Id>)
    requires id !in delivered && forall i :: 0 <= i < |ts| ==> ts[i] == Call || (i == 0 && ts[i] == Push(id))
    ensures NewPushes(ts, delivered)
  {
  }

  // ---- what cancelling does to the deliveries -------------------------------

  predicate LiveRun(t: System, id: Id) {
    id.m < |t.messages| && id.r < |t.messages[id.m].runs| && t.messages[id.m].runs[id.r].Live()
  }

  /** `u` is `t` with exactly these runs cancelled: what was posted, stored and acknowledged stays so. */
  ghost predicate CancelledIn(t: System, u: System, ids: set<Id>) {
    && Later(t, u)
    && forall m :: 0 <= m < |t.messages| ==>
         && |u.messages[m].runs| == |t.messages[m].runs|
         && forall r :: 0 <= r < |t.messages[m].runs| ==>
              && u.messages[m].runs[r].n == t.messages[m].runs[r].n
              && u.messages[m].runs[r].readable == t.messages[m].runs[r].readable
              && u.messages[m].runs[r].pc == if Id(m, r) in ids then Cancelled else t.messages[m].runs[r].pc
  }

  /** Cancelling one run, at whatever await, takes nothing back, and adds at most the write it interrupted. */
  lemma CancellationTakesNothingBack(w: World, max: nat, s: System, m: nat, r: nat, landed: bool)
    requires Enabled(max, s, Act(m, r, Cancels(landed)))
    ensures var t := Fire(w, max, s, Act(m, r, Cancels(landed)));
            && CancelledIn(s, t, {Id(m, r)})
            && (!landed ==> t.env == s.env && forall k :: 0 <= k < |s.messages| ==>
                  t.messages[k].acked == s.messages[k].acked)
  {
  }

  /** The worker's cancellations as an execution of the machine: any set of running deliveries can be cancelled,
      whatever their interrupted writes do, and nothing else changes. */
  lemma {:induction false} CancelRuns(w: World, max: nat, t: System, ids: set<Id>, landed: Id -> bool)
    returns (es: seq<Event>)
    requires forall id :: id in ids ==> LiveRun(t, id)
    ensures Allowed(w, max, t, es) && CancelledIn(t, After(w, max, t, es), ids)
    ensures (forall id :: id in ids ==> !landed(id)) ==>
      After(w, max, t, es).env == t.env
      && forall k :: 0 <= k < |t.messages| ==> After(w, max, t, es).messages[k].acked == t.messages[k].acked
    decreases |ids|
  {
    es := [];
    if id :| id in ids {
      var e := Act(id.m, id.r, Cancels(landed(id)));
      CancellationTakesNothingBack(w, max, t, id.m, id.r, landed(id));
      var u := Fire(w, max, t, e);
      forall other | other in ids - {id}
        ensures LiveRun(u, other)
      {
        assert LiveRun(t, other) && other != id;
        assert Id(other.m, other.r) == other;
      }
      var rest := CancelRuns(w, max, u, ids - {id}, landed);
      AfterCons(w, max, t, e, rest);
      es := [e] + rest;
      CancelledTwice(t, u, After(w, max, t, es), id, ids);
    }
  }

  lemma CancelledTwice(t: System, u: System, v: System, id: Id, ids: set<Id>)
    requires CancelledIn(t, u, {id}) && CancelledIn(u, v, ids - {id}) && id in ids
    ensures CancelledIn(t, v, ids)
  {
  }

  /**
   A shutdown that cancels the deliveries `ids` in a reachable state: afterwards each of their messages, once no
   other worker runs it, can still be accounted for if and only if it is already or has a delivery left. The
   messages a shutdown loses are thus those it cancels at delivery `max + 1`.
   */
  lemma ShutdownIsSafe(w: World, max: nat, s: System, es: seq<Event>, ids: set<Id>, landed: Id -> bool)
    returns (fs: seq<Event>)
    requires Initial(s) && Allowed(w, max, s, es) && forall id :: id in ids ==> LiveRun(After(w, max, s, es), id)
    ensures Allowed(w, max, s, es + fs) && Allowed(w, max, After(w, max, s, es), fs)
    ensures CancelledIn(After(w, max, s, es), After(w, max, s, es + fs), ids)
    ensures var u := After(w, max, s, es + fs);
      forall id :: id in ids ==>
        && id.m < |u.messages|
        && (Resting(u.messages[id.m]) ==>
              (CanBeAccounted(w, max, u, id.m) <==> Accounted(w, max, u, id.m) || |u.messages[id.m].runs| <= max))
  {
    fs := CancelRuns(w, max, After(w, max, s, es), ids, landed);
    AfterJoins(w, max, s, es, fs);
    AfterSplits(w, max, s, es, fs);
    var u := After(w, max, s, es + fs);
    forall id | id in ids && Resting(u.messages[id.m])
      ensures CanBeAccounted(w, max, u, id.m) <==> Accounted(w, max, u, id.m) || |u.messages[id.m].runs| <= max
    {
      CancelledDeliveryIsSafe(w, max, s, es + fs, id.m);
    }
  }

  /**
   A whole shutdown, of a worker whose tracked tasks are runs of the machine: in whatever reachable state the wait ends,
   the tasks it then cancels, and no others, become cancelled runs, and each of their messages, once no run of it is
   going, can still be accounted for if and only if it is already or has a delivery left.
   */
  method StopIsSafe(worker: Worker, how: Draining, waiting: seq<Turn>,
                    ghost w: World, ghost max: nat, ghost s: System, ghost es: seq<Event>, ghost landed: Id -> bool)
    returns (drained: bool, ghost fs: seq<Event>)
    requires worker.Conserved() && worker.open && NewPushes(how.flush, worker.delivered)
    requires NewPushes(waiting, worker.delivered + Pushed(how.flush))
    requires Initial(s) && Allowed(w, max, s, es)
    // a task that is still tracked is a run that is still going
    requires forall id :: id in Turned(!how.flushed, how.Leaves(worker.OnDesk()), waiting).inflight ==>
      LiveRun(After(w, max, s, es), id)
    modifies worker
    ensures worker.Conserved() && Allowed(w, max, s, es + fs) && Allowed(w, max, After(w, max, s, es), fs)
    ensures CancelledIn(After(w, max, s, es), After(w, max, s, es + fs), worker.cancelled - old(worker.cancelled))
    ensures drained ==> worker.delivered == worker.finished + worker.cancelled
    ensures var u := After(w, max, s, es + fs);
      forall id :: id in worker.cancelled - old(worker.cancelled) ==>
        && id.m < |u.messages|
        && (Resting(u.messages[id.m]) ==>
              (CanBeAccounted(w, max, u, id.m) <==> Accounted(w, max, u, id.m) || |u.messages[id.m].runs| <= max))
  {
    ghost var ids, before := Pending(how, worker.OnDesk(), waiting), worker.cancelled;
    assert ids <= Turned(!how.flushed, how.Leaves(worker.OnDesk()), waiting).inflight;
    ghost var snapshot;
    drained, snapshot := worker.Stop(how, waiting);
    fs := ShutdownIsSafe(w, max, s, es, worker.cancelled - before, landed);
  }
}
