/**
 The two timestamp substitutions, as a leftmost, non-overlapping byte scanner.

 A pattern is `(open [^>]* ">") [^<]* (close)`; a match keeps its two groups and replaces the text between
 them by a fixed instant.
 */
module Timestamps {
  import opened Prelude

  datatype Pattern = Pattern(open: Bytes, close: Bytes)

  const CREATED := Pattern("<dcterms:created", "</dcterms:created>")
  const MODIFIED := Pattern("<dcterms:modified", "</dcterms:modified>")
  const FIXED_ISO: Bytes := "2000-01-01T00:00:00Z"

  /** What both patterns have in common: an opening tag without inner angle brackets, and a closing tag whose
      only `<` is followed by a slash. */
  predicate Tag(p: Pattern) {
    && |p.open| >= 2 && p.open[0] == '<' && p.open[1] != '/'
    && (forall i :: 1 <= i < |p.open| ==> p.open[i] != '<' && p.open[i] != '>')
    && |p.close| >= 2 && p.close[0] == '<' && p.close[1] == '/'
    && (forall i :: 1 <= i < |p.close| ==> p.close[i] != '<')
  }

  /** The closing tags part ways somewhere. */
  ghost predicate Apart(p: Pattern, q: Pattern) {
    exists d :: 0 <= d < |p.close| && d < |q.close| && p.close[d] != q.close[d]
  }

  lemma CreatedIsTag()
    ensures Tag(CREATED)
  {
  }

  lemma ModifiedIsTag()
    ensures Tag(MODIFIED)
  {
  }

  lemma TagsPartWays()
    ensures Apart(CREATED, MODIFIED) && Apart(MODIFIED, CREATED)
  {
    assert CREATED.close[10] == 'c' && MODIFIED.close[10] == 'm';
  }

  lemma IsoHasNoTag()
    ensures '<' !in FIXED_ISO
  {
  }

  // ---- matching -------------------------------------------------------------

  /** How many characters precede the first `c` (all of them when there is none). */
  function Until(s: Bytes, c: char): (r: nat)
    ensures r <= |s|
  {
    if s == [] || s[0] == c then 0 else Until(s[1..], c) + 1
  }

  lemma {:induction false} UntilSpec(s: Bytes, c: char)
    ensures var r := Until(s, c); (r < |s| ==> s[r] == c) && c !in s[..r]
  {
    if s != [] && s[0] != c {
      UntilSpec(s[1..], c);
      var r := Until(s[1..], c);
      assert s[..r + 1] == [s[0]] + s[1..][..r];
    }
  }

  /** A match: the inside of the opening tag, the text, and what follows the closing tag. */
  datatype Match = NoMatch | Match(mid: Bytes, text: Bytes, rest: Bytes)

  /** Does the pattern match at the start of `s`? */
  function MatchHead(p: Pattern, s: Bytes): Match {
    if p.open <= s then MatchInner(p, s[|p.open|..]) else NoMatch
  }

  function MatchInner(p: Pattern, s: Bytes): Match {
    var g := Until(s, '>');
    if g < |s| then MatchText(p, s[..g], s[g + 1..]) else NoMatch
  }

  function MatchText(p: Pattern, mid: Bytes, s: Bytes): Match {
    var t := Until(s, '<');
    if p.close <= s[t..] then Match(mid, s[..t], s[t..][|p.close|..]) else NoMatch
  }

  /** The pattern's own meaning: a string that starts with a match. */
  function Spell(p: Pattern, mid: Bytes, text: Bytes, rest: Bytes): Bytes {
    p.open + (mid + (">" + (text + (p.close + rest))))
  }

  lemma UntilIs(head: Bytes, c: char, tail: Bytes)
    requires c !in head && (tail == [] || tail[0] == c)
    ensures Until(head + tail, c) == |head|
    ensures (head + tail)[..|head|] == head && (head + tail)[|head|..] == tail
  {
    var s := head + tail;
    var r := Until(s, c);
    UntilSpec(s, c);
    assert forall i :: 0 <= i < |head| ==> s[i] == head[i] && s[i] in head;
    assert forall i :: 0 <= i < r ==> s[i] in s[..r];
    assert tail != [] ==> s[|head|] == c;
  }

  /** The scanner finds every reading of the pattern, so there is at most one. */
  lemma EveryReadingIsFound(p: Pattern, mid: Bytes, text: Bytes, rest: Bytes)
    requires Tag(p) && '>' !in mid && '<' !in text
    ensures MatchHead(p, Spell(p, mid, text, rest)) == Match(mid, text, rest)
  {
    var c := p.close + rest;
    var b := text + c;
    var a := mid + (">" + b);
    assert Spell(p, mid, text, rest)[|p.open|..] == a;
    UntilIs(mid, '>', ">" + b);
    assert a[|mid| + 1..] == b;
    UntilIs(text, '<', c);
    assert c[|p.close|..] == rest;
  }

  lemma TextIsReading(p: Pattern, mid: Bytes, s: Bytes)
    requires MatchText(p, mid, s).Match?
    ensures var m := MatchText(p, mid, s);
            m.mid == mid && '<' !in m.text && s == m.text + (p.close + m.rest)
  {
    var t := Until(s, '<');
    UntilSpec(s, '<');
    assert s == s[..t] + s[t..];
    assert s[t..] == p.close + s[t..][|p.close|..];
  }

  lemma InnerIsReading(p: Pattern, s: Bytes)
    requires MatchInner(p, s).Match?
    ensures var m := MatchInner(p, s);
            '>' !in m.mid && '<' !in m.text && s == m.mid + (">" + (m.text + (p.close + m.rest)))
  {
    var g := Until(s, '>');
    UntilSpec(s, '>');
    TextIsReading(p, s[..g], s[g + 1..]);
    assert s == s[..g] + (">" + s[g + 1..]);
  }

  /** And finds nothing else. */
  lemma MatchIsReading(p: Pattern, s: Bytes)
    requires MatchHead(p, s).Match?
    ensures var m := MatchHead(p, s); s == Spell(p, m.mid, m.text, m.rest) && '>' !in m.mid && '<' !in m.text
  {
    var a := s[|p.open|..];
    InnerIsReading(p, a);
    PrefixSplits(p.open, s);
    var m := MatchInner(p, a);
    SpellIs(p, m.mid, m.text, m.rest, a);
  }

  lemma PrefixSplits(head: Bytes, s: Bytes)
    requires head <= s
    ensures s == head + s[|head|..]
  {
  }

  lemma SpellIs(p: Pattern, mid: Bytes, text: Bytes, rest: Bytes, inner: Bytes)
    requires inner == mid + (">" + (text + (p.close + rest)))
    ensures Spell(p, mid, text, rest) == p.open + inner
  {
  }

  /** The scanner agrees with the meaning of the regular expression: `s` starts with a match exactly when it
      can be read as opening tag, text and closing tag, and the reading is unique. */
  lemma MatchHeadSpec(p: Pattern, s: Bytes, mid: Bytes, text: Bytes, rest: Bytes)
    requires Tag(p)
    ensures MatchHead(p, s) == Match(mid, text, rest)
       <==> s == Spell(p, mid, text, rest) && '>' !in mid && '<' !in text
  {
    if MatchHead(p, s).Match? { MatchIsReading(p, s); }
    if '>' !in mid && '<' !in text { EveryReadingIsFound(p, mid, text, rest); }
  }

  // ---- substitution ---------------------------------------------------------

  /** What a match is replaced by, without what follows it. */
  function Kept(p: Pattern, mid: Bytes): Bytes {
    p.open + mid + ">" + FIXED_ISO + p.close
  }

  lemma SpellKept(p: Pattern, mid: Bytes, rest: Bytes)
    ensures Spell(p, mid, FIXED_ISO, rest) == Kept(p, mid) + rest
  {
  }

  lemma RestIsTail(p: Pattern, s: Bytes)
    requires Tag(p) && MatchHead(p, s).Match?
    ensures var rest := MatchHead(p, s).rest; |rest| < |s| && rest == s[|s| - |rest|..]
  {
    MatchIsReading(p, s);
    var m := MatchHead(p, s);
    var head := p.open + (m.mid + (">" + (m.text + p.close)));
    assert s == head + m.rest;
  }

  /** Leftmost, non-overlapping replacement, as a recursion over the string. */
  function Sub(p: Pattern, s: Bytes): Bytes
    requires Tag(p)
    decreases |s|
  {
    match MatchHead(p, s)
    case Match(mid, text, rest) => RestIsTail(p, s); Spell(p, mid, FIXED_ISO, Sub(p, rest))
    case NoMatch => if s == [] then [] else [s[0]] + Sub(p, s[1..])
  }

  lemma AppendShift(out: Bytes, part: Bytes, rest: Bytes)
    ensures out + (part + rest) == (out + part) + rest
  {
  }

  /** The scanner: one pass from left to right over the bytes, building the output. */
  method Substitute(p: Pattern, s: Bytes) returns (out: Bytes)
    requires Tag(p)
    ensures out == Sub(p, s)
  {
    out := [];
    var here := s;
    while here != []
      invariant Sub(p, s) == out + Sub(p, here)
      decreases |here|
    {
      match MatchHead(p, here) {
        case Match(mid, text, rest) =>
          RestIsTail(p, here);
          SpellKept(p, mid, Sub(p, rest));
          AppendShift(out, Kept(p, mid), Sub(p, rest));
          out := out + Kept(p, mid);
          here := rest;
        case NoMatch =>
          AppendShift(out, [here[0]], Sub(p, here[1..]));
          out := out + [here[0]];
          here := here[1..];
      }
    }
  }

  // ---- the pattern as an automaton ------------------------------------------

  /** How much of the pattern has been read. */
  datatype Phase = Opening(k: nat) | Mid | Text | Closing(k: nat)

  /** The rest of the pattern matches a prefix of `s`. */
  predicate Accepts(p: Pattern, ph: Phase, s: Bytes)
    decreases |s|, match ph case Opening(_) => 2 case Mid => 1 case Text => 1 case Closing(_) => 0
  {
    match ph
    case Opening(k) =>
      if k >= |p.open| then Accepts(p, Mid, s)
      else s != [] && s[0] == p.open[k] && Accepts(p, Opening(k + 1), s[1..])
    case Mid => s != [] && (if s[0] == '>' then Accepts(p, Text, s[1..]) else Accepts(p, Mid, s[1..]))
    case Text => s != [] && (if s[0] == '<' then Accepts(p, Closing(0), s) else Accepts(p, Text, s[1..]))
    case Closing(k) => k >= |p.close| || (s != [] && s[0] == p.close[k] && Accepts(p, Closing(k + 1), s[1..]))
  }

  lemma {:induction false} OpeningReads(p: Pattern, k: nat, s: Bytes)
    requires k <= |p.open|
    ensures Accepts(p, Opening(k), s) <==> p.open[k..] <= s && Accepts(p, Mid, s[|p.open| - k..])
    decreases |p.open| - k
  {
    if k < |p.open| {
      assert p.open[k..] == [p.open[k]] + p.open[k + 1..];
      if s != [] && s[0] == p.open[k] {
        OpeningReads(p, k + 1, s[1..]);
        assert s == [s[0]] + s[1..];
        if p.open[k + 1..] <= s[1..] { assert s[1..][|p.open| - k - 1..] == s[|p.open| - k..]; }
      }
    } else {
      assert s[0..] == s;
    }
  }

  lemma {:induction false} MidReads(p: Pattern, s: Bytes)
    ensures var g := Until(s, '>'); Accepts(p, Mid, s) <==> g < |s| && Accepts(p, Text, s[g + 1..])
  {
    if s != [] && s[0] != '>' {
      MidReads(p, s[1..]);
      var g := Until(s[1..], '>');
      if g < |s[1..]| { assert s[1..][g + 1..] == s[g + 2..]; }
    }
  }

  lemma {:induction false} TextReads(p: Pattern, s: Bytes)
    ensures var t := Until(s, '<'); Accepts(p, Text, s) <==> t < |s| && Accepts(p, Closing(0), s[t..])
  {
    if s != [] && s[0] != '<' {
      TextReads(p, s[1..]);
      var t := Until(s[1..], '<');
      assert s[1..][t..] == s[t + 1..];
    } else {
      assert s[0..] == s;
    }
  }

  lemma {:induction false} ClosingReads(p: Pattern, k: nat, s: Bytes)
    requires k <= |p.close|
    ensures Accepts(p, Closing(k), s) <==> p.close[k..] <= s
    decreases |p.close| - k
  {
    if k < |p.close| {
      assert p.close[k..] == [p.close[k]] + p.close[k + 1..];
      if s != [] && s[0] == p.close[k] {
        ClosingReads(p, k + 1, s[1..]);
        assert s == [s[0]] + s[1..];
      }
    }
  }

  /** The automaton and the scanner agree on where the pattern matches. */
  lemma AcceptsIsMatch(p: Pattern, s: Bytes)
    requires Tag(p)
    ensures Accepts(p, Opening(0), s) <==> MatchHead(p, s).Match?
  {
    OpeningReads(p, 0, s);
    assert p.open[0..] == p.open;
    if p.open <= s {
      var a := s[|p.open|..];
      MidReads(p, a);
      var g := Until(a, '>');
      if g < |a| {
        TextAcceptsIsMatch(p, a[..g], a[g + 1..]);
      }
    }
  }

  lemma TextAcceptsIsMatch(p: Pattern, mid: Bytes, s: Bytes)
    requires Tag(p)
    ensures Accepts(p, Text, s) <==> MatchText(p, mid, s).Match?
  {
    TextReads(p, s);
    ClosingReads(p, 0, s[Until(s, '<')..]);
    assert p.close[0..] == p.close;
  }
}
