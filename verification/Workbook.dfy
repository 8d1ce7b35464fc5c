/**
 What filling a workbook template means: the list of edits the code performs, in order, and what running
 such a list does to the sheets.

 openpyxl is reduced to a finite grid, the merged ranges and three pure functions (`Library`).
 */
module Workbook {
  import opened Prelude
  import opened Models
  import opened Text

  datatype Pos = Pos(sheet: string, row: int, col: int)

  datatype Range = Range(minRow: int, minCol: int, maxRow: int, maxCol: int) {
    predicate Covers(row: int, col: int) {
      minRow <= row <= maxRow && minCol <= col <= maxCol
    }
  }

  /** The facts of the template workbook that filling never changes. */
  datatype Template = Template(
    sheets: set<string>,
    active: string,
    covered: set<Pos>,                               // the read-only merged cells
    ranges: map<string, seq<Range>>,
    names: seq<(string, seq<(string, string)>)>)     // defined names and their destinations

  /** Pure functions of openpyxl and Python. */
  datatype Library = Library(
    cellAt: string -> Option<(int, int)>,            // the row and column of `ws[ref]`, if it is one cell
    coordinate: string -> Option<(int, int)>,        // `coordinate_to_tuple`
    storable: Json -> bool,                          // the value can be assigned to a cell
    items: Json -> Option<seq<(string, Json)>>)      // `dict(cells).items()`, if `dict` accepts the value

  /** What filling changes: cell values and hidden rows. */
  datatype Page = Page(cells: map<Pos, Json>, hidden: set<(string, int)>)

  datatype Edit =
    | Put(at: Pos, value: Json)
    | Hide(sheet: string, row: int)
    | Halt(code: ErrorCode)

  function Do(g: Page, e: Edit): Page
    requires !e.Halt?
  {
    match e
    case Put(at, value) => g.(cells := g.cells[at := value])
    case Hide(sheet, row) => g.(hidden := g.hidden + {(sheet, row)})
  }

  /** Edits run in order up to the first halt. */
  function Run(g: Page, edits: seq<Edit>): (Page, Option<ErrorCode>)
    decreases |edits|
  {
    if edits == [] then (g, None)
    else if edits[0].Halt? then (g, Some(edits[0].code))
    else Run(Do(g, edits[0]), edits[1..])
  }

  lemma {:induction false} RunConcat(g: Page, a: seq<Edit>, b: seq<Edit>)
    ensures Run(g, a + b) == if Run(g, a).1.Some? then Run(g, a) else Run(Run(g, a).0, b)
    decreases |a|
  {
    if a == [] {
      assert a + b == b;
    } else {
      assert (a + b)[0] == a[0] && (a + b)[1..] == a[1..] + b;
      if !a[0].Halt? {
        RunConcat(Do(g, a[0]), a[1..], b);
      }
    }
  }

  /** Consecutive edit lists as one. */
  function Flat(chunks: seq<seq<Edit>>): seq<Edit> {
    if chunks == [] then [] else Flat(chunks[..|chunks| - 1]) + chunks[|chunks| - 1]
  }

  lemma FlatGrows(chunks: seq<seq<Edit>>, i: nat)
    requires i < |chunks|
    ensures Flat(chunks[..i + 1]) == Flat(chunks[..i]) + chunks[i]
  {
    assert chunks[..i + 1][..i] == chunks[..i];
  }

  // ---- where a value lands --------------------------------------------------

  datatype Spot = At(pos: Pos) | Skipped | ReadOnly

  function FirstCovering(rs: seq<Range>, row: int, col: int): Option<Range> {
    if rs == [] then None
    else if rs[0].Covers(row, col) then Some(rs[0])
    else FirstCovering(rs[1..], row, col)
  }

  function RangesOf(t: Template, sheet: string): seq<Range> {
    if sheet in t.ranges then t.ranges[sheet] else []
  }

  /** A covered cell hands its value to the top-left cell of the first range that covers it. */
  function Land(t: Template, p: Pos): Spot {
    if p !in t.covered then At(p)
    else
      match FirstCovering(RangesOf(t, p.sheet), p.row, p.col)
      case None => Skipped
      case Some(r) =>
        var corner := Pos(p.sheet, r.minRow, r.minCol);
        if corner in t.covered then ReadOnly else At(corner)
  }

  function Store(lib: Library, p: Pos, v: Json): seq<Edit> {
    if lib.storable(v) then [Put(p, v)] else [Halt(RenderFailed)]
  }

  /** `_set_cell` */
  function SetEdits(t: Template, lib: Library, p: Pos, v: Json): seq<Edit> {
    if p.row < 1 || p.col < 1 then [Halt(RenderFailed)]
    else
      match Land(t, p)
      case At(q) => Store(lib, q, v)
      case Skipped => []
      case ReadOnly => [Halt(RenderFailed)]
  }

  /** `workbook[sheet][ref] = v` */
  function AssignEdits(t: Template, lib: Library, sheet: string, ref: string, v: Json): seq<Edit> {
    var at := lib.cellAt(ref);
    if sheet !in t.sheets || at == None then [Halt(RenderFailed)]
    else
      var p := Pos(sheet, at.value.0, at.value.1);
      if p in t.covered then [Halt(RenderFailed)] else Store(lib, p, v)
  }

  // ---- defined names --------------------------------------------------------

  function NoDollars(s: string): string {
    if s == [] then [] else (if s[0] == '$' then [] else [s[0]]) + NoDollars(s[1..])
  }

  lemma {:induction false} NoDollarsConcat(a: string, b: string)
    ensures NoDollars(a + b) == NoDollars(a) + NoDollars(b)
  {
    if a == [] {
      assert a + b == b;
    } else {
      assert (a + b)[0] == a[0] && (a + b)[1..] == a[1..] + b;
      NoDollarsConcat(a[1..], b);
    }
  }

  lemma {:induction false} NoDollarsKeeps(a: string)
    requires '$' !in a
    ensures NoDollars(a) == a
  {
    if a != [] {
      assert a[0] in a && a == [a[0]] + a[1..];
      NoDollarsKeeps(a[1..]);
    }
  }

  /** Exactly the dollar signs go. */
  lemma NoDollarsSpec(a: string, b: string)
    requires '$' !in a
    ensures NoDollars(a + b) == a + NoDollars(b) && NoDollars(a + "$" + b) == a + NoDollars(b)
  {
    NoDollarsConcat(a, b);
    NoDollarsKeeps(a);
    assert a + "$" + b == a + ("$" + b);
    NoDollarsConcat(a, "$" + b);
    NoDollarsDrops(b);
  }

  lemma NoDollarsDrops(b: string)
    ensures NoDollars("$" + b) == NoDollars(b)
  {
    assert ("$" + b)[1..] == b;
  }

  function DestEdits(t: Template, lib: Library, dest: (string, string), v: Json): seq<Edit> {
    var ref := NoDollars(dest.1);
    if ':' in ref then [] else AssignEdits(t, lib, dest.0, ref, v)
  }

  function DestChunks(t: Template, lib: Library, dests: seq<(string, string)>, v: Json): seq<seq<Edit>> {
    seq(|dests|, i requires 0 <= i < |dests| => DestEdits(t, lib, dests[i], v))
  }

  function NameEdits(t: Template, lib: Library, data: map<string, Json>, skip: set<string>,
                     entry: (string, seq<(string, string)>)): seq<Edit> {
    if entry.0 !in data || entry.0 in skip then [] else Flat(DestChunks(t, lib, entry.1, data[entry.0]))
  }

  function NameChunks(t: Template, lib: Library, data: map<string, Json>, skip: set<string>): seq<seq<Edit>> {
    seq(|t.names|, i requires 0 <= i < |t.names| => NameEdits(t, lib, data, skip, t.names[i]))
  }

  // ---- repeating blocks -----------------------------------------------------

  /** `""` and an absent value both become the empty cell. */
  function NormaliseValue(v: Json): Json {
    if v == Str("") then Null else v
  }

  /** `_normalise_value(row.get(key))` */
  function Cell(row: Json, key: string): Json {
    NormaliseValue(if row.Obj? && key in row.members then row.members[key] else Null)
  }

  /** The cell of a block's row `r` and column `c`, both counted from its anchor. */
  function CellOf(at: Pos, r: nat, c: nat): Pos {
    Pos(at.sheet, at.row + r, at.col + c)
  }

  function KeyEdits(t: Template, lib: Library, p: Pos, row: Json, key: string): seq<Edit> {
    if row.Obj? then SetEdits(t, lib, p, Cell(row, key)) else [Halt(RenderFailed)]
  }

  /** The cells of row `r` of a block, column by column. */
  function RowChunks(t: Template, lib: Library, at: Pos, r: nat, row: Json, columns: seq<string>): seq<seq<Edit>> {
    seq(|columns|, c requires 0 <= c < |columns| => KeyEdits(t, lib, CellOf(at, r, c), row, columns[c]))
  }

  /** The rows of a block, one by one. */
  function RowsChunks(t: Template, lib: Library, at: Pos, rows: seq<Json>, columns: seq<string>): seq<seq<Edit>> {
    seq(|rows|, r requires 0 <= r < |rows| => Flat(RowChunks(t, lib, at, r, rows[r], columns)))
  }

  function HideEdits(sheet: string, from: int, n: nat): seq<Edit> {
    if n == 0 then [] else HideEdits(sheet, from, n - 1) + [Hide(sheet, from + n - 1)]
  }

  /** `data.get(source) or []` */
  function SourceOf(data: map<string, Json>, source: string): Json {
    if source in data && data[source].Truthy() then data[source] else List([])
  }

  datatype Anchor = Anchored(at: Pos) | Unresolved(code: ErrorCode)

  /** The destinations of the first defined name called `name`. */
  function NameDests(names: seq<(string, seq<(string, string)>)>, name: string): Option<seq<(string, string)>> {
    if names == [] then None
    else if names[0].0 == name then Some(names[0].1)
    else NameDests(names[1..], name)
  }

  /** Splits at the last `!`; without one the active sheet is meant. */
  function LocateAnchor(t: Template, lib: Library, reference: string): Anchor {
    var coordinate := AfterLast(reference, '!');
    var sheet := if '!' in reference && |coordinate| < |reference|
                 then reference[..|reference| - |coordinate| - 1] else t.active;
    var at := lib.coordinate(NoDollars(coordinate));
    if sheet !in t.sheets || at == None then Unresolved(RenderFailed)
    else Anchored(Pos(sheet, at.value.0, at.value.1))
  }

  function ResolveAnchor(t: Template, lib: Library, b: BlockSpec): Anchor {
    if b.anchorName.Some? then
      match NameDests(t.names, b.anchorName.value)
      case None => Unresolved(ValidationError)
      case Some(dests) =>
        if dests == [] then Unresolved(RenderFailed)
        else LocateAnchor(t, lib, dests[0].0 + "!" + dests[0].1)
    else LocateAnchor(t, lib, if b.anchor.Some? then b.anchor.value else "")
  }

  /** Hides what is left of the band after `used` rows. */
  function TailEdits(b: BlockSpec, at: Pos, used: nat, capacity: int): seq<Edit> {
    if b.hideUnusedRows && used <= capacity then HideEdits(at.sheet, at.row + used, capacity - used) else []
  }

  function Filled(t: Template, lib: Library, b: BlockSpec, at: Pos, rows: seq<Json>, capacity: int): seq<Edit> {
    Flat(RowsChunks(t, lib, at, rows, b.columns)) + TailEdits(b, at, |rows|, capacity)
  }

  function BlockEdits(t: Template, lib: Library, m: Manifest, data: map<string, Json>, b: BlockSpec): seq<Edit> {
    var source := SourceOf(data, b.source);
    var capacity := BlockCapacity(m.requiredFields, b);
    if !source.List? then [Halt(ValidationError)]
    else if capacity == None then [Halt(RenderFailed)]
    else if |source.items| > capacity.value then [Halt(ValidationError)]
    else
      match ResolveAnchor(t, lib, b)
      case Unresolved(code) => [Halt(code)]
      case Anchored(at) => Filled(t, lib, b, at, source.items, capacity.value)
  }

  function BlockChunks(t: Template, lib: Library, m: Manifest, data: map<string, Json>): seq<seq<Edit>> {
    seq(|m.blocks|, i requires 0 <= i < |m.blocks| => BlockEdits(t, lib, m, data, m.blocks[i]))
  }

  // ---- explicit cells -------------------------------------------------------

  /** `"Sheet!A1"` names its sheet before the first `!`; without one the active sheet is meant. */
  function RefEdits(t: Template, lib: Library, ref: string, v: Json): seq<Edit> {
    var sheet := UpTo(ref, '!');
    if |sheet| < |ref| then AssignEdits(t, lib, sheet, ref[|sheet| + 1..], v)
    else AssignEdits(t, lib, t.active, ref, v)
  }

  function CellChunks(t: Template, lib: Library, items: seq<(string, Json)>): seq<seq<Edit>> {
    seq(|items|, i requires 0 <= i < |items| => RefEdits(t, lib, items[i].0, items[i].1))
  }

  function ExplicitItems(lib: Library, data: map<string, Json>): Option<seq<(string, Json)>> {
    if "cells" in data then lib.items(data["cells"]) else Some([])
  }

  function ExplicitEdits(t: Template, lib: Library, data: map<string, Json>): seq<Edit> {
    match ExplicitItems(lib, data)
    case None => [Halt(RenderFailed)]
    case Some(items) => Flat(CellChunks(t, lib, items))
  }

  // ---- the whole fill -------------------------------------------------------

  function Sources(m: Manifest): set<string> {
    set b | b in m.blocks :: b.source
  }

  function NamesStage(t: Template, lib: Library, m: Manifest, data: map<string, Json>): seq<Edit> {
    Flat(NameChunks(t, lib, data, Sources(m)))
  }

  function BlocksStage(t: Template, lib: Library, m: Manifest, data: map<string, Json>): seq<Edit> {
    Flat(BlockChunks(t, lib, m, data))
  }

  function Plan(t: Template, lib: Library, m: Manifest, data: map<string, Json>): seq<Edit> {
    NamesStage(t, lib, m, data) + BlocksStage(t, lib, m, data) + ExplicitEdits(t, lib, data)
  }
}
