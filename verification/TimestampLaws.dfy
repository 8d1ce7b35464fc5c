/** Laws of the timestamp substitutions on arbitrary byte strings, overlapping and malformed tags included. */
module TimestampLaws {
  import opened Prelude
  import opened Timestamps

  /** Two patterns that are the same or whose matches cannot be confused. */
  ghost predicate Compatible(p: Pattern, q: Pattern) {
    Tag(p) && Tag(q) && (p == q || Apart(p, q))
  }

  /** A phase in which at least one character of the pattern has been read. */
  predicate Begun(ph: Phase) {
    ph.Opening? ==> ph.k >= 1
  }

  /** Whether a pattern in phase `ph` goes on to match at the start of a match of `q` does not depend on the
      text inside the match of `q` nor on what follows it. */
  function Through(p: Pattern, q: Pattern, ph: Phase): bool {
    match ph
    case Opening(k) => k >= |p.open| && p == q
    case Mid => p == q
    case Text => false
    case Closing(k) => k >= |p.close|
  }

  lemma ClosingThrough(p: Pattern, q: Pattern, rest: Bytes)
    requires Compatible(p, q)
    ensures Accepts(p, Closing(0), q.close + rest) <==> p == q
  {
    ClosingReads(p, 0, q.close + rest);
    assert p.close[0..] == p.close;
    if p != q {
      var d :| 0 <= d < |p.close| && d < |q.close| && p.close[d] != q.close[d];
      assert (q.close + rest)[d] == q.close[d];
    }
  }

  lemma MidThrough(p: Pattern, q: Pattern, head: Bytes, text: Bytes, rest: Bytes)
    requires Compatible(p, q) && '>' !in head && '<' !in text
    ensures Accepts(p, Mid, head + (">" + (text + (q.close + rest)))) <==> p == q
  {
    var inner := text + (q.close + rest);
    var s := head + (">" + inner);
    UntilIs(head, '>', ">" + inner);
    MidReads(p, s);
    assert s[|head| + 1..] == inner;
    UntilIs(text, '<', q.close + rest);
    TextReads(p, inner);
    ClosingThrough(p, q, rest);
  }

  lemma NoInnerBrackets(q: Pattern, mid: Bytes)
    requires Tag(q) && '>' !in mid
    ensures '>' !in q.open + mid
  {
    assert '>' !in q.open;
  }

  lemma AcceptsThrough(p: Pattern, q: Pattern, ph: Phase, mid: Bytes, text: Bytes, rest: Bytes)
    requires Compatible(p, q) && Begun(ph) && '>' !in mid && '<' !in text
    ensures Accepts(p, ph, Spell(q, mid, text, rest)) <==> Through(p, q, ph)
  {
    var s := Spell(q, mid, text, rest);
    assert s[0] == '<' && s[1] == q.open[1];
    NoInnerBrackets(q, mid);
    Regroup(q.open, mid, ">" + (text + (q.close + rest)));
    MidThrough(p, q, q.open + mid, text, rest);
    assert !Accepts(p, Closing(1), s[1..]);
    assert !Accepts(p, Closing(0), s);
  }

  /** A substitution neither creates nor destroys a match, of itself or of the other pattern, in any phase. */
  lemma {:induction false} SubKeepsAcceptance(p: Pattern, q: Pattern, ph: Phase, t: Bytes)
    requires Compatible(p, q) && Begun(ph)
    ensures Accepts(p, ph, Sub(q, t)) <==> Accepts(p, ph, t)
    decreases |t|, match ph case Opening(_) => 2 case Mid => 1 case Text => 1 case Closing(_) => 0
  {
    match MatchHead(q, t)
    case Match(mid, text, rest) =>
      MatchIsReading(q, t);
      RestIsTail(q, t);
      IsoHasNoTag();
      AcceptsThrough(p, q, ph, mid, text, rest);
      AcceptsThrough(p, q, ph, mid, FIXED_ISO, Sub(q, rest));
    case NoMatch =>
      if t != [] {
        var u := Sub(q, t);
        assert u == [t[0]] + Sub(q, t[1..]) && u[0] == t[0] && u[1..] == Sub(q, t[1..]);
        match ph
        case Opening(k) =>
          if k >= |p.open| {
            SubKeepsAcceptance(p, q, Mid, t);
          } else {
            SubKeepsAcceptance(p, q, Opening(k + 1), t[1..]);
          }
        case Mid => SubKeepsAcceptance(p, q, if t[0] == '>' then Text else Mid, t[1..]);
        case Text =>
          if t[0] == '<' { SubKeepsAcceptance(p, q, Closing(0), t); } else { SubKeepsAcceptance(p, q, Text, t[1..]); }
        case Closing(k) => SubKeepsAcceptance(p, q, Closing(k + 1), t[1..]);
      }
  }

  /** Past a position where `q` does not match, substituting `q` leaves alone whether `p` matches there. */
  lemma HeadKept(p: Pattern, q: Pattern, s: Bytes)
    requires Compatible(p, q) && s != []
    ensures MatchHead(p, [s[0]] + Sub(q, s[1..])).Match? <==> MatchHead(p, s).Match?
  {
    var u := [s[0]] + Sub(q, s[1..]);
    AcceptsIsMatch(p, s);
    AcceptsIsMatch(p, u);
    SubKeepsAcceptance(p, q, Opening(1), s[1..]);
    assert s == [s[0]] + s[1..];
    SameFirst(p, s[0], s[1..], Sub(q, s[1..]));
  }

  lemma SameFirst(p: Pattern, c: char, s: Bytes, t: Bytes)
    requires Tag(p) && (Accepts(p, Opening(1), s) <==> Accepts(p, Opening(1), t))
    ensures Accepts(p, Opening(0), [c] + s) <==> Accepts(p, Opening(0), [c] + t)
  {
    assert ([c] + s)[1..] == s && ([c] + t)[1..] == t;
  }

  lemma SubSpell(p: Pattern, mid: Bytes, text: Bytes, rest: Bytes)
    requires Tag(p) && '>' !in mid && '<' !in text
    ensures Sub(p, Spell(p, mid, text, rest)) == Spell(p, mid, FIXED_ISO, Sub(p, rest))
  {
    EveryReadingIsFound(p, mid, text, rest);
  }

  /** Substituting twice is substituting once, on every byte string. */
  lemma {:induction false} SubIsIdempotent(p: Pattern, s: Bytes)
    requires Tag(p)
    ensures Sub(p, Sub(p, s)) == Sub(p, s)
    decreases |s|
  {
    match MatchHead(p, s)
    case Match(mid, text, rest) =>
      MatchIsReading(p, s);
      RestIsTail(p, s);
      IsoHasNoTag();
      SubIsIdempotent(p, rest);
      SubSpell(p, mid, FIXED_ISO, Sub(p, rest));
    case NoMatch =>
      if s != [] {
        SubIsIdempotent(p, s[1..]);
        HeadKept(p, p, s);
        assert ([s[0]] + Sub(p, s[1..]))[1..] == Sub(p, s[1..]);
      }
  }

  // ---- the two patterns together --------------------------------------------

  /** Until the end of a match of `q`, no match of `p` begins. */
  lemma {:induction false} NoMatchInside(p: Pattern, q: Pattern, ph: Phase, head: Bytes, text: Bytes, rest: Bytes)
    requires Compatible(p, q) && p != q && '>' !in head && '<' !in text
    requires ph.Opening? || ph.Mid?
    ensures !Accepts(p, ph, head + (">" + (text + (q.close + rest))))
    decreases |head|, if ph.Opening? then 1 else 0
  {
    var s := head + (">" + (text + (q.close + rest)));
    if ph.Mid? {
      MidThrough(p, q, head, text, rest);
    } else if ph.k >= |p.open| {
      NoMatchInside(p, q, Mid, head, text, rest);
    } else if head == [] {
      assert s[0] == '>';
    } else {
      assert s[0] == head[0] && s[1..] == head[1..] + (">" + (text + (q.close + rest)));
      NoMatchInside(p, q, Opening(ph.k + 1), head[1..], text, rest);
    }
  }

  lemma NoMatchWithoutBracket(p: Pattern, s: Bytes)
    requires Tag(p) && s != [] && (s[0] == '<' ==> |s| >= 2 && s[1] == '/')
    ensures MatchHead(p, s).NoMatch?
  {
    assert p.open[0] == '<' && p.open[1] != '/';
  }

  lemma SplitFirst(u: Bytes, tail: Bytes)
    requires u != []
    ensures u + tail == [u[0]] + (u[1..] + tail)
  {
  }

  lemma Regroup(a: Bytes, b: Bytes, c: Bytes)
    ensures a + (b + c) == (a + b) + c
  {
  }

  /** A character at which the pattern does not match is copied. */
  lemma CopyOne(p: Pattern, c: char, tail: Bytes)
    requires Tag(p) && MatchHead(p, [c] + tail).NoMatch?
    ensures Sub(p, [c] + tail) == [c] + Sub(p, tail)
  {
    assert ([c] + tail)[1..] == tail;
  }

  lemma PassOne(p: Pattern, c: char, tail: Bytes)
    requires Tag(p) && (c == '<' ==> tail != [] && tail[0] == '/')
    ensures Sub(p, [c] + tail) == [c] + Sub(p, tail)
  {
    NoMatchWithoutBracket(p, [c] + tail);
    CopyOne(p, c, tail);
  }

  lemma {:induction false} PassPlain(p: Pattern, u: Bytes, tail: Bytes)
    requires Tag(p) && '<' !in u
    ensures Sub(p, u + tail) == u + Sub(p, tail)
    decreases |u|
  {
    if u == [] {
      assert u + tail == tail;
    } else {
      assert u[0] in u;
      SplitFirst(u, tail);
      SplitFirst(u, Sub(p, tail));
      PassOne(p, u[0], u[1..] + tail);
      PassPlain(p, u[1..], tail);
    }
  }

  lemma PassClose(p: Pattern, q: Pattern, tail: Bytes)
    requires Tag(p) && Tag(q)
    ensures Sub(p, q.close + tail) == q.close + Sub(p, tail)
  {
    var c, u := q.close[0], q.close[1..];
    assert '<' !in u;
    SplitFirst(q.close, tail);
    SplitFirst(q.close, Sub(p, tail));
    PassOne(p, c, u + tail);
    PassPlain(p, u, tail);
  }

  lemma PassTagEnd(p: Pattern, q: Pattern, text: Bytes, rest: Bytes)
    requires Tag(p) && Tag(q) && '<' !in text
    ensures Sub(p, ">" + (text + (q.close + rest))) == ">" + (text + (q.close + Sub(p, rest)))
  {
    PassOne(p, '>', text + (q.close + rest));
    PassPlain(p, text, q.close + rest);
    PassClose(p, q, rest);
  }

  lemma {:induction false} PassTag(p: Pattern, q: Pattern, head: Bytes, text: Bytes, rest: Bytes)
    requires Compatible(p, q) && p != q && '>' !in head && '<' !in text
    ensures Sub(p, head + (">" + (text + (q.close + rest)))) == head + (">" + (text + (q.close + Sub(p, rest))))
    decreases |head|
  {
    var tail, tail' := ">" + (text + (q.close + rest)), ">" + (text + (q.close + Sub(p, rest)));
    if head == [] {
      PassTagEnd(p, q, text, rest);
      assert head + tail == tail && head + tail' == tail';
    } else {
      AcceptsIsMatch(p, head + tail);
      NoMatchInside(p, q, Opening(0), head, text, rest);
      PassTag(p, q, head[1..], text, rest);
      SplitFirst(head, tail);
      SplitFirst(head, tail');
      CopyOne(p, head[0], head[1..] + tail);
    }
  }

  /** One pattern passes over a match of the other and leaves it as it is. */
  lemma PassOver(p: Pattern, q: Pattern, mid: Bytes, text: Bytes, rest: Bytes)
    requires Compatible(p, q) && p != q && '>' !in mid && '<' !in text
    ensures Sub(p, Spell(q, mid, text, rest)) == Spell(q, mid, text, Sub(p, rest))
  {
    NoInnerBrackets(q, mid);
    PassTag(p, q, q.open + mid, text, rest);
    Regroup(q.open, mid, ">" + (text + (q.close + rest)));
    Regroup(q.open, mid, ">" + (text + (q.close + Sub(p, rest))));
  }

  lemma CommuteAtMatch(p: Pattern, q: Pattern, s: Bytes)
    requires Compatible(p, q) && Compatible(q, p) && p != q && MatchHead(p, s).Match?
    ensures var m := MatchHead(p, s);
            && Sub(q, Sub(p, s)) == Spell(p, m.mid, FIXED_ISO, Sub(q, Sub(p, m.rest)))
            && Sub(p, Sub(q, s)) == Spell(p, m.mid, FIXED_ISO, Sub(p, Sub(q, m.rest)))
  {
    var m := MatchHead(p, s);
    MatchIsReading(p, s);
    IsoHasNoTag();
    SubSpell(p, m.mid, m.text, m.rest);
    PassOver(q, p, m.mid, FIXED_ISO, Sub(p, m.rest));
    PassOver(q, p, m.mid, m.text, m.rest);
    SubSpell(p, m.mid, m.text, Sub(q, m.rest));
  }

  lemma PlainStep(p: Pattern, q: Pattern, s: Bytes)
    requires Compatible(p, q) && Compatible(q, p) && s != []
    requires MatchHead(p, s).NoMatch? && MatchHead(q, s).NoMatch?
    ensures Sub(q, Sub(p, s)) == [s[0]] + Sub(q, Sub(p, s[1..]))
    ensures MatchHead(q, Sub(p, s)).NoMatch?
  {
    HeadKept(q, p, s);
    CopyOne(q, s[0], Sub(p, s[1..]));
  }

  /** The order of the two substitutions is irrelevant, on every byte string. */
  lemma {:induction false} SubsCommute(p: Pattern, q: Pattern, s: Bytes)
    requires Compatible(p, q) && Compatible(q, p) && p != q
    ensures Sub(q, Sub(p, s)) == Sub(p, Sub(q, s))
    decreases |s|
  {
    if MatchHead(p, s).Match? {
      RestIsTail(p, s);
      CommuteAtMatch(p, q, s);
      SubsCommute(p, q, MatchHead(p, s).rest);
    } else if MatchHead(q, s).Match? {
      RestIsTail(q, s);
      CommuteAtMatch(q, p, s);
      SubsCommute(p, q, MatchHead(q, s).rest);
    } else if s != [] {
      PlainStep(p, q, s);
      PlainStep(q, p, s);
      SubsCommute(p, q, s[1..]);
    }
  }
}
