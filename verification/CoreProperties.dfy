/** The canonical form of `docProps/core.xml`: both timestamps fixed, everything else as it was. */
module CoreProperties {
  import opened Prelude
  import opened Timestamps
  import opened TimestampLaws

  /** The two substitutions in the order the repacker applies them. */
  function FixTimestamps(data: Bytes): Bytes
  {
    CreatedIsTag();
    ModifiedIsTag();
    Sub(MODIFIED, Sub(CREATED, data))
  }

  lemma TagsGoTogether()
    ensures Compatible(CREATED, MODIFIED) && Compatible(MODIFIED, CREATED)
    ensures Compatible(CREATED, CREATED) && Compatible(MODIFIED, MODIFIED) && CREATED != MODIFIED
  {
    CreatedIsTag();
    ModifiedIsTag();
    TagsPartWays();
  }

  lemma TimestampOrderIsIrrelevant(data: Bytes)
    ensures Tag(CREATED) && Tag(MODIFIED)
    ensures FixTimestamps(data) == Sub(CREATED, Sub(MODIFIED, data))
  {
    TagsGoTogether();
    SubsCommute(CREATED, MODIFIED, data);
  }

  /** Fixing the timestamps twice is fixing them once, on every byte string. */
  lemma FixTimestampsIsIdempotent(data: Bytes)
    ensures FixTimestamps(FixTimestamps(data)) == FixTimestamps(data)
  {
    TagsGoTogether();
    var once := Sub(CREATED, data);
    SubsCommute(CREATED, MODIFIED, once);
    SubIsIdempotent(CREATED, data);
    SubIsIdempotent(MODIFIED, once);
    SubsCommute(CREATED, MODIFIED, Sub(MODIFIED, once));
    assert Sub(CREATED, Sub(MODIFIED, once)) == Sub(MODIFIED, once);
  }

  // ---- what is kept ---------------------------------------------------------

  /** A byte string as a sequence of plain bytes and timestamp elements, their text left out. */
  datatype Piece = Plain(c: char) | Stamp(p: Pattern, mid: Bytes)

  function Pieces(s: Bytes): seq<Piece>
    decreases |s|
  {
    CreatedIsTag();
    ModifiedIsTag();
    match MatchHead(CREATED, s)
    case Match(mid, _, rest) => RestIsTail(CREATED, s); [Stamp(CREATED, mid)] + Pieces(rest)
    case NoMatch =>
      match MatchHead(MODIFIED, s)
      case Match(mid, _, rest) => RestIsTail(MODIFIED, s); [Stamp(MODIFIED, mid)] + Pieces(rest)
      case NoMatch => if s == [] then [] else [Plain(s[0])] + Pieces(s[1..])
  }

  function Print(ps: seq<Piece>): Bytes {
    if ps == [] then []
    else (match ps[0]
          case Plain(c) => [c]
          case Stamp(p, mid) => Kept(p, mid)) + Print(ps[1..])
  }

  /** How one step of the canonical form goes. */
  lemma CanonicalStep(s: Bytes)
    ensures MatchHead(CREATED, s).Match? ==>
              FixTimestamps(s) == Spell(CREATED, MatchHead(CREATED, s).mid, FIXED_ISO,
                                        FixTimestamps(MatchHead(CREATED, s).rest))
    ensures MatchHead(MODIFIED, s).Match? ==>
              FixTimestamps(s) == Spell(MODIFIED, MatchHead(MODIFIED, s).mid, FIXED_ISO,
                                        FixTimestamps(MatchHead(MODIFIED, s).rest))
    ensures MatchHead(CREATED, s).NoMatch? && MatchHead(MODIFIED, s).NoMatch? && s != [] ==>
              && FixTimestamps(s) == [s[0]] + FixTimestamps(s[1..])
              && MatchHead(CREATED, FixTimestamps(s)).NoMatch? && MatchHead(MODIFIED, FixTimestamps(s)).NoMatch?
  {
    TagsGoTogether();
    if MatchHead(CREATED, s).Match? {
      CommuteAtMatch(CREATED, MODIFIED, s);
    }
    if MatchHead(MODIFIED, s).Match? {
      CommuteAtMatch(MODIFIED, CREATED, s);
      SubsCommute(CREATED, MODIFIED, MatchHead(MODIFIED, s).rest);
      SubsCommute(CREATED, MODIFIED, s);
    }
    if MatchHead(CREATED, s).NoMatch? && MatchHead(MODIFIED, s).NoMatch? && s != [] {
      PlainStep(CREATED, MODIFIED, s);
      var t := Sub(CREATED, s);
      HeadKept(CREATED, CREATED, s);
      assert t[0] == s[0] && t[1..] == Sub(CREATED, s[1..]);
      HeadKept(CREATED, MODIFIED, t);
      HeadKept(MODIFIED, MODIFIED, t);
    }
  }

  /** The canonical form prints the pieces: everything outside the text of the timestamp elements is kept
      byte for byte and in order. */
  lemma {:induction false} CanonicalFormPrintsPieces(s: Bytes)
    ensures FixTimestamps(s) == Print(Pieces(s))
    decreases |s|
  {
    TagsGoTogether();
    CanonicalStep(s);
    if MatchHead(CREATED, s).Match? {
      RestIsTail(CREATED, s);
      var m := MatchHead(CREATED, s);
      CanonicalFormPrintsPieces(m.rest);
      SpellKept(CREATED, m.mid, FixTimestamps(m.rest));
      assert Pieces(s)[1..] == Pieces(m.rest);
    } else if MatchHead(MODIFIED, s).Match? {
      RestIsTail(MODIFIED, s);
      var m := MatchHead(MODIFIED, s);
      CanonicalFormPrintsPieces(m.rest);
      SpellKept(MODIFIED, m.mid, FixTimestamps(m.rest));
      assert Pieces(s)[1..] == Pieces(m.rest);
    } else if s != [] {
      CanonicalFormPrintsPieces(s[1..]);
      assert Pieces(s)[1..] == Pieces(s[1..]);
    }
  }

  // ---- the elements themselves ----------------------------------------------

  /** A timestamp element as it is written, apart from what stands inside its angle brackets and its text. */
  function CreatedElement(attributes: Bytes, text: Bytes): Bytes {
    "<dcterms:created" + attributes + ">" + text + "</dcterms:created>"
  }

  function ModifiedElement(attributes: Bytes, text: Bytes): Bytes {
    "<dcterms:modified" + attributes + ">" + text + "</dcterms:modified>"
  }

  /** Text without an opening bracket stays as it is. */
  lemma {:induction false} PlainTextIsKept(plain: Bytes, rest: Bytes)
    requires '<' !in plain
    ensures FixTimestamps(plain + rest) == plain + FixTimestamps(rest)
    decreases |plain|
  {
    var s := plain + rest;
    if plain == [] {
      assert s == rest && [] + FixTimestamps(rest) == FixTimestamps(rest);
    } else {
      assert plain[0] in plain && s[0] == plain[0] && s[1..] == plain[1..] + rest;
      assert CREATED.open[0] == '<' && MODIFIED.open[0] == '<';
      CanonicalStep(s);
      PlainTextIsKept(plain[1..], rest);
      AppendShift([plain[0]], plain[1..], FixTimestamps(rest));
      assert [plain[0]] + plain[1..] == plain;
    }
  }

  /** A timestamp element keeps its attributes and gets the text of the fixed date, whatever its own text was; what
      follows it is fixed in turn. */
  lemma ElementsAreFixed(attributes: Bytes, text: Bytes, rest: Bytes)
    requires '>' !in attributes && '<' !in text
    ensures FixTimestamps(CreatedElement(attributes, text) + rest)
         == CreatedElement(attributes, "2000-01-01T00:00:00Z") + FixTimestamps(rest)
    ensures FixTimestamps(ModifiedElement(attributes, text) + rest)
         == ModifiedElement(attributes, "2000-01-01T00:00:00Z") + FixTimestamps(rest)
  {
    CreatedIsTag();
    ModifiedIsTag();
    var c, m := CreatedElement(attributes, text) + rest, ModifiedElement(attributes, text) + rest;
    ElementIsSpelled(attributes, text, rest);
    EveryReadingIsFound(CREATED, attributes, text, rest);
    EveryReadingIsFound(MODIFIED, attributes, text, rest);
    CanonicalStep(c);
    CanonicalStep(m);
    ElementIsSpelled(attributes, FIXED_ISO, FixTimestamps(rest));
  }

  lemma ElementIsSpelled(attributes: Bytes, text: Bytes, rest: Bytes)
    ensures CreatedElement(attributes, text) + rest == Spell(CREATED, attributes, text, rest)
    ensures ModifiedElement(attributes, text) + rest == Spell(MODIFIED, attributes, text, rest)
  {
  }

  /** The canonical form has the pieces of the original. */
  lemma {:induction false} CanonicalFormKeepsPieces(s: Bytes)
    ensures Pieces(FixTimestamps(s)) == Pieces(s)
    decreases |s|
  {
    TagsGoTogether();
    CanonicalStep(s);
    IsoHasNoTag();
    if MatchHead(CREATED, s).Match? {
      MatchIsReading(CREATED, s);
      RestIsTail(CREATED, s);
      var m := MatchHead(CREATED, s);
      CanonicalFormKeepsPieces(m.rest);
      EveryReadingIsFound(CREATED, m.mid, FIXED_ISO, FixTimestamps(m.rest));
    } else if MatchHead(MODIFIED, s).Match? {
      MatchIsReading(MODIFIED, s);
      RestIsTail(MODIFIED, s);
      var m := MatchHead(MODIFIED, s);
      CanonicalFormKeepsPieces(m.rest);
      EveryReadingIsFound(MODIFIED, m.mid, FIXED_ISO, FixTimestamps(m.rest));
      OnlyOneMatches(m.mid, FIXED_ISO, FixTimestamps(m.rest));
    } else if s != [] {
      CanonicalFormKeepsPieces(s[1..]);
      assert FixTimestamps(s)[1..] == FixTimestamps(s[1..]);
    }
  }

  lemma OnlyOneMatches(mid: Bytes, text: Bytes, rest: Bytes)
    requires '>' !in mid && '<' !in text
    ensures MatchHead(CREATED, Spell(MODIFIED, mid, text, rest)).NoMatch?
  {
    TagsGoTogether();
    NoInnerBrackets(MODIFIED, mid);
    var s := Spell(MODIFIED, mid, text, rest);
    Regroup(MODIFIED.open, mid, ">" + (text + (MODIFIED.close + rest)));
    NoMatchInside(CREATED, MODIFIED, Opening(0), MODIFIED.open + mid, text, rest);
    AcceptsIsMatch(CREATED, s);
  }

  /** Two core-property parts have the same canonical form exactly when they differ in nothing but the text
      inside their timestamp elements. */
  lemma SameFormExactlyWhenSamePieces(s: Bytes, t: Bytes)
    ensures FixTimestamps(s) == FixTimestamps(t) <==> Pieces(s) == Pieces(t)
  {
    CanonicalFormPrintsPieces(s);
    CanonicalFormPrintsPieces(t);
    CanonicalFormKeepsPieces(s);
    CanonicalFormKeepsPieces(t);
  }
}
