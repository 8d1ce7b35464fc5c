/**
 What a misread template file does to a request: a delivery that cannot find or read one answers, for good, that the
 template is missing. The exact condition for a wrong answer, and for two answers that contradict each other, is a
 property of which deliveries misread their template.
 */
module Misreads {
  import opened Prelude
  import opened Models
  import opened Pipeline
  import opened Handler
  import opened Delivery
  import opened Storage
  import opened Attribution
  import opened Guarantees
  import opened Clashes

  function MisreadsOf(msg: Message): seq<bool> {
    seq(|msg.runs|, r requires 0 <= r < |msg.runs| => msg.runs[r].tally.misread)
  }

  // ---- one delivery ---------------------------------------------------------

  /** What a delivery comes to: nothing, a template called missing with this text, or the fault-free result. */
  datatype Reply = Silence | Wrong(text: string) | Right

  /** One more delivery of message `m`, which is still not acknowledged. */
  ghost predicate OneMore(s: System, t: System, m: nat, misread: bool)
    requires m < |s.messages|
  {
    && |t.messages| == |s.messages| && t.messages[m].raw == s.messages[m].raw && !t.messages[m].acked
    && |t.messages[m].runs| == |s.messages[m].runs| + 1
    && (forall k :: 0 <= k < |s.messages[m].runs| ==> t.messages[m].runs[k] == s.messages[m].runs[k])
    && t.messages[m].runs[|s.messages[m].runs|].tally.misread == misread
  }

  /** What a delivery with this reply adds to the results. */
  ghost predicate Replies(w: World, s: System, t: System, m: nat, req: Request, reply: Reply) {
    var before, after := s.env.results, t.env.results;
    match reply
    case Silence => after == before
    case Wrong(text) => after == before + [Posting(m, req.replyTo, MissingResult(req, text, None, ""))]
    case Right =>
      && |after| == |before| + 1 && before <= after
      && after[|before|].origin == m && Essence(after[|before|].result) == Expected(w, req)
  }

  const UNHEARD := Returns(false, "", "")

  /** A run about to publish does so, and its acknowledgement gets lost. */
  lemma PostUnacked(w: World, max: nat, s: System, m: nat, r: nat, req: Request) returns (es: seq<Event>)
    requires Local(w, max, s) && m < |s.messages| && !s.messages[m].acked && r < |s.messages[m].runs|
    requires w.decode(s.messages[m].raw) == Some(req) && s.messages[m].runs[r].pc.Publish?
    ensures Allowed(w, max, s, es)
    ensures var t := After(w, max, s, es);
            && Local(w, max, t)
            && t.env.results == s.env.results + [Posting(m, req.replyTo, s.messages[m].runs[r].pc.result)]
            && |t.messages| == |s.messages| && t.messages[m].raw == s.messages[m].raw && !t.messages[m].acked
            && |t.messages[m].runs| == |s.messages[m].runs|
            && (forall k :: 0 <= k < |s.messages[m].runs| && k != r ==> t.messages[m].runs[k] == s.messages[m].runs[k])
            && t.messages[m].runs[r].tally.misread == s.messages[m].runs[r].tally.misread
  {
    var post, ack := Act(m, r, SMOOTH), Act(m, r, UNHEARD);
    var t := Fire(w, max, s, post);
    FireLocal(w, max, s, post);
    assert t.messages[m].runs[r].pc == Ack(s.messages[m].runs[r].pc.result);
    FireLocal(w, max, t, ack);
    AfterOne(w, max, t, ack);
    AfterCons(w, max, s, post, [ack]);
    es := [post] + [ack];
  }

  lemma DeliverCancelled(w: World, max: nat, s: System, m: nat) returns (es: seq<Event>)
    requires Local(w, max, s) && m < |s.messages| && !s.messages[m].acked && |s.messages[m].runs| <= max
    ensures Allowed(w, max, s, es)
    ensures var t := After(w, max, s, es); Local(w, max, t) && OneMore(s, t, m, false) && t.env == s.env
  {
    var e, f := Deliver(m, true), Act(m, |s.messages[m].runs|, Cancels(false));
    var t := Fire(w, max, s, e);
    FireLocal(w, max, s, e);
    FireLocal(w, max, t, f);
    AfterOne(w, max, t, f);
    AfterCons(w, max, s, e, [f]);
    es := [e] + [f];
  }

  /** The delivery's fetch misreads the template: it is about to publish that there is none. */
  lemma DeliverMisread(w: World, max: nat, s: System, m: nat, req: Request, text: string) returns (es: seq<Event>)
    requires Local(w, max, s) && m < |s.messages| && !s.messages[m].acked && |s.messages[m].runs| <= max
    requires w.decode(s.messages[m].raw) == Some(req)
    ensures Allowed(w, max, s, es)
    ensures var t := After(w, max, s, es);
            && Local(w, max, t) && OneMore(s, t, m, true) && t.env == s.env
            && t.messages[m].runs[|s.messages[m].runs|].pc == Publish(MissingResult(req, text, None, ""))
  {
    var r := |s.messages[m].runs|;
    var e, f, g := Deliver(m, true), Act(m, r, SMOOTH), Act(m, r, Raises(Misread, false, text, ""));
    var t := Fire(w, max, s, e);
    FireLocal(w, max, s, e);
    var u := Fire(w, max, t, f);
    FireLocal(w, max, t, f);
    assert u.messages[m].runs[r] == NewRun(r + 1, true).(pc := Fetch(""));
    FireLocal(w, max, u, g);
    AfterOne(w, max, u, g);
    AfterCons(w, max, t, f, [g]);
    AfterCons(w, max, s, e, [f] + [g]);
    es := [e] + ([f] + [g]);
  }

  lemma DeliverSmooth(w: World, max: nat, s: System, m: nat, req: Request) returns (es: seq<Event>)
    requires Local(w, max, s) && m < |s.messages| && !s.messages[m].acked && |s.messages[m].runs| <= max
    requires w.decode(s.messages[m].raw) == Some(req) && Expected(w, req).Terminal()
    ensures Allowed(w, max, s, es)
    ensures var t := After(w, max, s, es);
            && Local(w, max, t) && OneMore(s, t, m, false) && t.env.results == s.env.results
            && t.messages[m].runs[|s.messages[m].runs|].pc.Publish?
            && Essence(t.messages[m].runs[|s.messages[m].runs|].pc.result) == Expected(w, req)
  {
    var r, e := |s.messages[m].runs|, Deliver(m, true);
    var t := Fire(w, max, s, e);
    FireLocal(w, max, s, e);
    assert t.messages[m].runs[r] == NewRun(r + 1, true);
    var more := SmoothRunReachesPublish(w, max, t, m, r);
    AfterCons(w, max, s, e, more);
    es := [e] + more;
  }

  /** A delivery can come to any reply, whatever happened before, and leave the message unacknowledged. */
  lemma ReplyOnce(w: World, max: nat, s: System, m: nat, req: Request, reply: Reply) returns (es: seq<Event>)
    requires Local(w, max, s) && m < |s.messages| && !s.messages[m].acked && |s.messages[m].runs| <= max
    requires w.decode(s.messages[m].raw) == Some(req) && (reply.Right? ==> Expected(w, req).Terminal())
    ensures Allowed(w, max, s, es)
    ensures var t := After(w, max, s, es);
            Local(w, max, t) && OneMore(s, t, m, reply.Wrong?) && Replies(w, s, t, m, req, reply)
  {
    if reply.Silence? {
      es := DeliverCancelled(w, max, s, m);
    } else {
      if reply.Wrong? {
        es := DeliverMisread(w, max, s, m, req, reply.text);
      } else {
        es := DeliverSmooth(w, max, s, m, req);
      }
      var t := After(w, max, s, es);
      var more := PostUnacked(w, max, t, m, |s.messages[m].runs|, req);
      AfterJoins(w, max, s, es, more);
      AfterSplits(w, max, s, es, more);
      es := es + more;
    }
  }

  // ---- any pattern of deliveries --------------------------------------------

  function Wrongs(replies: seq<Reply>): seq<bool> {
    seq(|replies|, i requires 0 <= i < |replies| => replies[i].Wrong?)
  }

  /** The reply is on the results stream. */
  ghost predicate Heard(w: World, results: seq<Posting>, m: nat, req: Request, reply: Reply) {
    match reply
    case Silence => true
    case Wrong(text) =>
      exists j :: 0 <= j < |results| && results[j] == Posting(m, req.replyTo, MissingResult(req, text, None, ""))
    case Right =>
      exists j :: 0 <= j < |results| && results[j].origin == m && Essence(results[j].result) == Expected(w, req)
  }

  ghost predicate Replied(w: World, t: System, m: nat, req: Request, replies: seq<Reply>)
    requires m < |t.messages|
  {
    && MisreadsOf(t.messages[m]) == Wrongs(replies)
    && forall i :: 0 <= i < |replies| ==> Heard(w, t.env.results, m, req, replies[i])
  }

  /** Each delivery of a message can come to any reply. */
  lemma {:induction false} ReplyAll(w: World, max: nat, s: System, m: nat, req: Request, replies: seq<Reply>)
    returns (es: seq<Event>)
    requires Initial(s) && m < |s.messages| && w.decode(s.messages[m].raw) == Some(req) && |replies| <= Backstop(max)
    requires Right in replies ==> Expected(w, req).Terminal()
    ensures Allowed(w, max, s, es)
    ensures var t := After(w, max, s, es);
            && Local(w, max, t) && |t.messages| == |s.messages| && t.messages[m].raw == s.messages[m].raw
            && !t.messages[m].acked && Replied(w, t, m, req, replies)
    decreases |replies|
  {
    es := [];
    if replies != [] {
      var k := |replies| - 1;
      es := ReplyAll(w, max, s, m, req, replies[..k]);
      var t := After(w, max, s, es);
      assert |t.messages[m].runs| == |MisreadsOf(t.messages[m])| == k;
      var more := ReplyOnce(w, max, t, m, req, replies[k]);
      RepliedMore(w, t, After(w, max, t, more), m, req, replies);
      AfterJoins(w, max, s, es, more);
      AfterSplits(w, max, s, es, more);
      es := es + more;
    }
  }

  lemma RepliedMore(w: World, t: System, u: System, m: nat, req: Request, replies: seq<Reply>)
    requires replies != [] && m < |t.messages| && Replied(w, t, m, req, replies[..|replies| - 1])
    requires OneMore(t, u, m, replies[|replies| - 1].Wrong?) && Replies(w, t, u, m, req, replies[|replies| - 1])
    ensures Replied(w, u, m, req, replies)
  {
    var k := |replies| - 1;
    forall i | 0 <= i < |replies|
      ensures Heard(w, u.env.results, m, req, replies[i])
    {
      if i < k {
        assert replies[i] == replies[..k][i];
        HeardStays(w, t.env.results, u.env.results, m, req, replies[i]);
      } else {
        HeardLast(w, t, u, m, req, replies[k]);
      }
    }
    assert MisreadsOf(u.messages[m]) == MisreadsOf(t.messages[m]) + [replies[k].Wrong?];
    assert Wrongs(replies) == Wrongs(replies[..k]) + [replies[k].Wrong?];
  }

  lemma HeardStays(w: World, results: seq<Posting>, more: seq<Posting>, m: nat, req: Request, reply: Reply)
    requires results <= more && Heard(w, results, m, req, reply)
    ensures Heard(w, more, m, req, reply)
  {
    forall j | 0 <= j < |results|
      ensures more[j] == results[j]
    {
    }
  }

  lemma HeardLast(w: World, t: System, u: System, m: nat, req: Request, reply: Reply)
    requires Replies(w, t, u, m, req, reply)
    ensures Heard(w, u.env.results, m, req, reply)
  {
    if !reply.Silence? {
      assert u.env.results[|t.env.results|].origin == m;
    }
  }

  // ---- the exact conditions -------------------------------------------------

  /** These deliveries misread their template, and the message got a terminal result that is not the pipeline's. */
  ghost predicate Misleads(w: World, t: System, m: nat, misreads: seq<bool>) {
    && m < |t.messages| && MisreadsOf(t.messages[m]) == misreads && w.decode(t.messages[m].raw).Some?
    && exists i :: 0 <= i < |t.env.results| && Misleading(w, m, w.decode(t.messages[m].raw).value, t.env.results[i])
  }

  predicate Misleading(w: World, m: nat, req: Request, p: Posting) {
    p.origin == m && p.result.Terminal() && Essence(p.result) != Expected(w, req)
  }

  ghost predicate CanMislead(w: World, max: nat, s: System, m: nat, misreads: seq<bool>) {
    exists es :: Allowed(w, max, s, es) && Misleads(w, After(w, max, s, es), m, misreads)
  }

  /** These deliveries misread their template, and the message got both a success and a permanent failure. */
  ghost predicate Contradicts(t: System, m: nat, misreads: seq<bool>) {
    && m < |t.messages| && MisreadsOf(t.messages[m]) == misreads
    && exists i, j :: 0 <= i < |t.env.results| && 0 <= j < |t.env.results| && t.env.results[i].origin == m
                      && t.env.results[j].origin == m && t.env.results[i].result.success
                      && t.env.results[j].result.Terminal() && !t.env.results[j].result.success
  }

  ghost predicate CanContradict(w: World, max: nat, s: System, m: nat, misreads: seq<bool>) {
    exists es :: Allowed(w, max, s, es) && Contradicts(After(w, max, s, es), m, misreads)
  }

  predicate Shows(xs: seq<bool>, x: bool) {
    exists i :: 0 <= i < |xs| && xs[i] == x
  }

  /** What the history of a message tells about one of its results. */
  lemma ResultShows(w: World, max: nat, s: System, es: seq<Event>, i: nat)
    requires Initial(s) && Allowed(w, max, s, es) && i < |After(w, max, s, es).env.results|
    ensures var t := After(w, max, s, es);
            var p := t.env.results[i];
            && p.origin < |s.messages| == |t.messages| && t.messages[p.origin].raw == s.messages[p.origin].raw
            && |t.messages[p.origin].runs| <= Backstop(max)
            && w.decode(s.messages[p.origin].raw).Some?
            && var req := w.decode(s.messages[p.origin].raw).value;
               && (p.result.success ==> Decide(w, req).Stores? && Shows(MisreadsOf(t.messages[p.origin]), false))
               && (Misleading(w, p.origin, req, p) ==> Shows(MisreadsOf(t.messages[p.origin]), true))
  {
    ResultIsExplained(w, max, s, es, i);
    ReachableIsSound(w, max, s, es);
    var t := After(w, max, s, es);
    var p := t.env.results[i];
    var msg, req := t.messages[p.origin], w.decode(s.messages[p.origin].raw).value;
    assert RunsOk(w, max, msg);
    var k :| 0 <= k < |msg.runs| && msg.runs[k].tally.publishes > 0
          && Explains(w, req, p.result, msg.runs[k].tally.misread);
    assert MisreadsOf(msg)[k] == msg.runs[k].tally.misread;
  }

  /** A text no result of the pipeline carries. */
  function OtherText(r: GenerationResult): string {
    if r.error.Some? then r.error.value.message + "x" else ""
  }

  lemma WrongIsMisleading(w: World, m: nat, req: Request)
    ensures var text := OtherText(Expected(w, req));
            Misleading(w, m, req, Posting(m, req.replyTo, MissingResult(req, text, None, "")))
  {
    var text := OtherText(Expected(w, req));
    if Expected(w, req).error.Some? {
      assert |text| == |Expected(w, req).error.value.message| + 1;
    }
  }

  /**
   The exact condition, for every bound, decodable message and pattern of deliveries: the message can get a terminal
   result that is not the fault-free pipeline's if and only if one of its at most `max + 1` deliveries misread a
   template file.
   */
  lemma MisleadExactlyWhenMisread(w: World, max: nat, s: System, m: nat, misreads: seq<bool>)
    requires Initial(s) && m < |s.messages| && w.decode(s.messages[m].raw).Some?
    ensures CanMislead(w, max, s, m, misreads) <==> |misreads| <= Backstop(max) && Shows(misreads, true)
  {
    var req := w.decode(s.messages[m].raw).value;
    if CanMislead(w, max, s, m, misreads) {
      var es :| Allowed(w, max, s, es) && Misleads(w, After(w, max, s, es), m, misreads);
      var t := After(w, max, s, es);
      TimePasses(w, max, s, es);
      var i :| 0 <= i < |t.env.results| && Misleading(w, m, req, t.env.results[i]);
      ResultShows(w, max, s, es, i);
    }
    if |misreads| <= Backstop(max) && Shows(misreads, true) {
      var es := Mislead(w, max, s, m, misreads, req);
      assert Misleads(w, After(w, max, s, es), m, misreads);
    }
  }

  lemma Mislead(w: World, max: nat, s: System, m: nat, misreads: seq<bool>, req: Request) returns (es: seq<Event>)
    requires Initial(s) && m < |s.messages| && w.decode(s.messages[m].raw) == Some(req)
    requires |misreads| <= Backstop(max) && Shows(misreads, true)
    ensures Allowed(w, max, s, es) && Misleads(w, After(w, max, s, es), m, misreads)
  {
    var text := OtherText(Expected(w, req));
    var replies := seq(|misreads|, i requires 0 <= i < |misreads| => if misreads[i] then Wrong(text) else Silence);
    es := ReplyAll(w, max, s, m, req, replies);
    var t := After(w, max, s, es);
    assert Wrongs(replies) == misreads;
    var i :| 0 <= i < |misreads| && misreads[i];
    assert Heard(w, t.env.results, m, req, replies[i]);
    WrongIsMisleading(w, m, req);
  }

  /**
   The exact condition for a contradiction: the message can get both a success and a permanent failure if and only if
   its fault-free pipeline stores and of its at most `max + 1` deliveries one misread a template file and one did not.
   */
  lemma ContradictExactlyWhenMixed(w: World, max: nat, s: System, m: nat, misreads: seq<bool>)
    requires Initial(s) && m < |s.messages| && w.decode(s.messages[m].raw).Some?
    ensures CanContradict(w, max, s, m, misreads) <==>
      && Decide(w, w.decode(s.messages[m].raw).value).Stores?
      && |misreads| <= Backstop(max) && Shows(misreads, true) && Shows(misreads, false)
  {
    var req := w.decode(s.messages[m].raw).value;
    if CanContradict(w, max, s, m, misreads) {
      var es :| Allowed(w, max, s, es) && Contradicts(After(w, max, s, es), m, misreads);
      ContradictionShows(w, max, s, es, m);
    }
    if Decide(w, req).Stores? && |misreads| <= Backstop(max) && Shows(misreads, true) && Shows(misreads, false) {
      var es := Contradict(w, max, s, m, misreads, req);
      assert Contradicts(After(w, max, s, es), m, misreads);
    }
  }

  lemma ContradictionShows(w: World, max: nat, s: System, es: seq<Event>, m: nat)
    requires Initial(s) && m < |s.messages| && w.decode(s.messages[m].raw).Some?
    requires Allowed(w, max, s, es) && m < |After(w, max, s, es).messages|
    requires var t := After(w, max, s, es); Contradicts(t, m, MisreadsOf(t.messages[m]))
    ensures Decide(w, w.decode(s.messages[m].raw).value).Stores?
    ensures var misreads := MisreadsOf(After(w, max, s, es).messages[m]);
            |misreads| <= Backstop(max) && Shows(misreads, true) && Shows(misreads, false)
  {
    var t := After(w, max, s, es);
    var i, j :| 0 <= i < |t.env.results| && 0 <= j < |t.env.results| && t.env.results[i].origin == m
             && t.env.results[j].origin == m && t.env.results[i].result.success
             && t.env.results[j].result.Terminal() && !t.env.results[j].result.success;
    ResultShows(w, max, s, es, i);
    ResultShows(w, max, s, es, j);
  }

  lemma Contradict(w: World, max: nat, s: System, m: nat, misreads: seq<bool>, req: Request) returns (es: seq<Event>)
    requires Initial(s) && m < |s.messages| && w.decode(s.messages[m].raw) == Some(req) && Decide(w, req).Stores?
    requires |misreads| <= Backstop(max) && Shows(misreads, true) && Shows(misreads, false)
    ensures Allowed(w, max, s, es) && Contradicts(After(w, max, s, es), m, misreads)
  {
    var replies := seq(|misreads|, i requires 0 <= i < |misreads| => if misreads[i] then Wrong("") else Right);
    es := ReplyAll(w, max, s, m, req, replies);
    var t := After(w, max, s, es);
    assert Wrongs(replies) == misreads;
    var i :| 0 <= i < |misreads| && !misreads[i];
    var j :| 0 <= j < |misreads| && misreads[j];
    assert replies[i] == Right && replies[j] == Wrong("");
    HeardBoth(w, t.env.results, m, req, "");
  }

  /** A success that was heard next to a wrong answer contradicts it. */
  lemma HeardBoth(w: World, results: seq<Posting>, m: nat, req: Request, text: string)
    requires Decide(w, req).Stores? && Heard(w, results, m, req, Right) && Heard(w, results, m, req, Wrong(text))
    ensures exists i, j :: 0 <= i < |results| && 0 <= j < |results| && results[i].origin == m
                           && results[j].origin == m && results[i].result.success
                           && results[j].result.Terminal() && !results[j].result.success
  {
    var i :| 0 <= i < |results| && results[i].origin == m && Essence(results[i].result) == Expected(w, req);
    EssenceKeepsMeaning(results[i].result, Expected(w, req));
    var j :| 0 <= j < |results| && results[j] == Posting(m, req.replyTo, MissingResult(req, text, None, ""));
    assert results[j].result.Terminal() && !results[j].result.success;
  }

  /**
   The shortest such execution, for every bound of at least one and every message whose pipeline stores: its first
   delivery posts the success, with everything it lists in the bucket, and its second one that the template is missing.
   */
  lemma SuccessThenMissing(w: World, max: nat, s: System, m: nat, text: string) returns (es: seq<Event>)
    requires max >= 1 && Initial(s) && m < |s.messages| && w.decode(s.messages[m].raw).Some?
    requires Decide(w, w.decode(s.messages[m].raw).value).Stores?
    ensures Allowed(w, max, s, es)
    ensures var t := After(w, max, s, es);
            var req := w.decode(s.messages[m].raw).value;
            && |t.env.results| == 2 && t.env.results[0].origin == m && t.env.results[0].result.success
            && t.env.results[1] == Posting(m, req.replyTo, MissingResult(req, text, None, ""))
            && (KeysAgree(w, s) ==> Honest(w, t.env.bucket, t.env.results[0].result))
  {
    var req := w.decode(s.messages[m].raw).value;
    InitialIsSound(w, max, s);
    es := ReplyOnce(w, max, s, m, req, Right);
    var more := ReplyOnce(w, max, After(w, max, s, es), m, req, Wrong(text));
    AfterJoins(w, max, s, es, more);
    AfterSplits(w, max, s, es, more);
    if KeysAgree(w, s) {
      SuccessStaysBacked(w, max, s, es, more, 0);
    }
    es := es + more;
  }
}
