/** What a filled workbook holds: write precedence, merged cells, hidden rows, and failures without output. */
module WorkbookLaws {
  import opened Prelude
  import opened Models
  import opened Text
  import opened Workbook

  // ---- reading an edit list -------------------------------------------------

  /** The list holds no halt. */
  ghost predicate Clean(edits: seq<Edit>) {
    edits == [] || (!edits[|edits| - 1].Halt? && Clean(edits[..|edits| - 1]))
  }

  lemma {:induction false} CleanParts(a: seq<Edit>, b: seq<Edit>)
    ensures Clean(a + b) <==> Clean(a) && Clean(b)
    decreases |b|
  {
    if b == [] {
      assert a + b == a;
    } else {
      var s := a + b;
      assert s[|s| - 1] == b[|b| - 1] && s[..|s| - 1] == a + b[..|b| - 1];
      CleanParts(a, b[..|b| - 1]);
    }
  }

  lemma CleanOne(e: Edit)
    ensures Clean([e]) <==> !e.Halt?
  {
    assert [e][..0] == [];
  }

  function Read(g: Page, p: Pos): Option<Json> {
    if p in g.cells then Some(g.cells[p]) else None
  }

  /** The value of the last write to `p`. */
  function LastPut(edits: seq<Edit>, p: Pos): Option<Json> {
    if edits == [] then None
    else
      var e := edits[|edits| - 1];
      if e.Put? && e.at == p then Some(e.value) else LastPut(edits[..|edits| - 1], p)
  }

  function OrElse(a: Option<Json>, b: Option<Json>): Option<Json> {
    if a.Some? then a else b
  }

  lemma {:induction false} LastPutConcat(a: seq<Edit>, b: seq<Edit>, p: Pos)
    ensures LastPut(a + b, p) == OrElse(LastPut(b, p), LastPut(a, p))
    decreases |b|
  {
    if b == [] {
      assert a + b == a;
    } else {
      var s := a + b;
      assert s[|s| - 1] == b[|b| - 1] && s[..|s| - 1] == a + b[..|b| - 1];
      LastPutConcat(a, b[..|b| - 1], p);
    }
  }

  lemma {:induction false} RunFailsExactlyOnHalt(g: Page, edits: seq<Edit>)
    ensures Run(g, edits).1 == None <==> Clean(edits)
    decreases |edits|
  {
    if edits != [] {
      assert edits == [edits[0]] + edits[1..];
      CleanOne(edits[0]);
      CleanParts([edits[0]], edits[1..]);
      if !edits[0].Halt? {
        RunFailsExactlyOnHalt(Do(g, edits[0]), edits[1..]);
      }
    }
  }

  /** Running a clean list: the last write to a cell wins, and a row is hidden when some edit hides it. */
  lemma {:induction false} RunReads(g: Page, edits: seq<Edit>, p: Pos, sheet: string, row: int)
    requires Clean(edits)
    ensures Read(Run(g, edits).0, p) == OrElse(LastPut(edits, p), Read(g, p))
    ensures (sheet, row) in Run(g, edits).0.hidden <==> (sheet, row) in g.hidden || Hide(sheet, row) in edits
    decreases |edits|
  {
    if edits != [] {
      var e, rest := edits[0], edits[1..];
      assert edits == [e] + rest;
      CleanOne(e);
      CleanParts([e], rest);
      RunReads(Do(g, e), rest, p, sheet, row);
      LastPutConcat([e], rest, p);
      assert [e][..0] == [];
    }
  }

  // ---- precedence -----------------------------------------------------------

  /** The filled workbook, cell by cell: explicit cells over blocks over defined names over the template. */
  lemma Precedence(g: Page, t: Template, lib: Library, m: Manifest, data: map<string, Json>, p: Pos)
    requires Run(g, Plan(t, lib, m, data)).1 == None
    ensures Read(Run(g, Plan(t, lib, m, data)).0, p)
         == OrElse(LastPut(ExplicitEdits(t, lib, data), p),
            OrElse(LastPut(BlocksStage(t, lib, m, data), p),
            OrElse(LastPut(NamesStage(t, lib, m, data), p), Read(g, p))))
  {
    var a, b, c := NamesStage(t, lib, m, data), BlocksStage(t, lib, m, data), ExplicitEdits(t, lib, data);
    RunFailsExactlyOnHalt(g, a + b + c);
    RunReads(g, a + b + c, p, "", 0);
    LastPutConcat(a + b, c, p);
    LastPutConcat(a, b, p);
  }

  lemma PartsClean(g: Page, t: Template, lib: Library, m: Manifest, data: map<string, Json>)
    requires Run(g, Plan(t, lib, m, data)).1 == None
    ensures Clean(NamesStage(t, lib, m, data)) && Clean(BlocksStage(t, lib, m, data))
    ensures Clean(ExplicitEdits(t, lib, data))
  {
    RunFailsExactlyOnHalt(g, Plan(t, lib, m, data));
    CleanParts(NamesStage(t, lib, m, data) + BlocksStage(t, lib, m, data), ExplicitEdits(t, lib, data));
    CleanParts(NamesStage(t, lib, m, data), BlocksStage(t, lib, m, data));
  }

  /** The cell an explicit reference addresses. */
  function RefTarget(t: Template, lib: Library, ref: string): Option<Pos> {
    var head := UpTo(ref, '!');
    var at := lib.cellAt(if |head| < |ref| then ref[|head| + 1..] else ref);
    if at == None then None else Some(Pos(if |head| < |ref| then head else t.active, at.value.0, at.value.1))
  }

  lemma RefPuts(t: Template, lib: Library, ref: string, v: Json)
    requires Clean(RefEdits(t, lib, ref, v))
    ensures RefTarget(t, lib, ref).Some? && RefEdits(t, lib, ref, v) == [Put(RefTarget(t, lib, ref).value, v)]
  {
    var edits := RefEdits(t, lib, ref, v);
    assert |edits| == 1 && edits[|edits| - 1] == edits[0];
  }

  // ---- chunks ---------------------------------------------------------------

  lemma {:induction false} FlatNone(chunks: seq<seq<Edit>>, q: Pos)
    requires forall j :: 0 <= j < |chunks| ==> LastPut(chunks[j], q) == None
    ensures LastPut(Flat(chunks), q) == None
  {
    if chunks != [] {
      var n := |chunks| - 1;
      FlatNone(chunks[..n], q);
      LastPutConcat(Flat(chunks[..n]), chunks[n], q);
    }
  }

  /** The last chunk that writes to `q` decides. */
  lemma {:induction false} FlatLast(chunks: seq<seq<Edit>>, k: nat, q: Pos)
    requires k < |chunks| && LastPut(chunks[k], q).Some?
    requires forall j :: k < j < |chunks| ==> LastPut(chunks[j], q) == None
    ensures LastPut(Flat(chunks), q) == LastPut(chunks[k], q)
  {
    var n := |chunks| - 1;
    LastPutConcat(Flat(chunks[..n]), chunks[n], q);
    if k < n { FlatLast(chunks[..n], k, q); }
  }

  lemma {:induction false} FlatClean(chunks: seq<seq<Edit>>, k: nat)
    requires k < |chunks| && Clean(Flat(chunks))
    ensures Clean(chunks[k])
  {
    var n := |chunks| - 1;
    CleanParts(Flat(chunks[..n]), chunks[n]);
    if k < n { FlatClean(chunks[..n], k); }
  }

  // ---- explicit cells -------------------------------------------------------

  lemma ItemsLast(t: Template, lib: Library, items: seq<(string, Json)>, k: nat, p: Pos)
    requires Clean(Flat(CellChunks(t, lib, items))) && k < |items| && RefTarget(t, lib, items[k].0) == Some(p)
    requires forall j :: k < j < |items| ==> RefTarget(t, lib, items[j].0) != Some(p)
    ensures LastPut(Flat(CellChunks(t, lib, items)), p) == Some(items[k].1)
  {
    var chunks := CellChunks(t, lib, items);
    forall j | 0 <= j < |items|
      ensures LastPut(chunks[j], p) == if RefTarget(t, lib, items[j].0) == Some(p) then Some(items[j].1) else None
    {
      FlatClean(chunks, j);
      RefPuts(t, lib, items[j].0, items[j].1);
      assert chunks[j][..0] == [];
    }
    FlatLast(chunks, k, p);
  }

  /** An explicit cell holds exactly what it was given, unless a later item of `cells` names the same cell. */
  lemma ExplicitCellWins(g: Page, t: Template, lib: Library, m: Manifest, data: map<string, Json>,
                         items: seq<(string, Json)>, k: nat, p: Pos)
    requires Run(g, Plan(t, lib, m, data)).1 == None
    requires "cells" in data && lib.items(data["cells"]) == Some(items) && k < |items|
    requires RefTarget(t, lib, items[k].0) == Some(p)
    requires forall j :: k < j < |items| ==> RefTarget(t, lib, items[j].0) != Some(p)
    ensures Read(Run(g, Plan(t, lib, m, data)).0, p) == Some(items[k].1)
  {
    PartsClean(g, t, lib, m, data);
    ItemsLast(t, lib, items, k, p);
    Precedence(g, t, lib, m, data, p);
  }

  // ---- blocks: the last row-major writer wins -------------------------------

  /** What a row puts into the cell of a column: nothing for an absent key or an empty string. */
  function CellValue(row: map<string, Json>, key: string): Json {
    if key in row && row[key] != Str("") then row[key] else Null
  }

  /** The value of a block's row `r` and column `c`, both counted from its anchor `at`, lands at `q`. */
  ghost predicate CellLands(t: Template, at: Pos, r: nat, c: nat, q: Pos) {
    Land(t, Pos(at.sheet, at.row + r, at.col + c)) == At(q)
  }

  /** No cell of row `r` from column `c` on lands at `q`. */
  ghost predicate RowMisses(t: Template, at: Pos, width: nat, r: nat, c: nat, q: Pos) {
    forall j :: c <= j < width ==> !CellLands(t, at, r, j, q)
  }

  /** No row in `from..to` lands at `q`. */
  ghost predicate RowsMiss(t: Template, at: Pos, width: nat, from: nat, to: nat, q: Pos) {
    forall r :: from <= r < to ==> RowMisses(t, at, width, r, 0, q)
  }

  lemma KeyMiss(t: Template, lib: Library, p: Pos, row: Json, key: string, q: Pos)
    requires Land(t, p) != At(q)
    ensures LastPut(KeyEdits(t, lib, p, row, key), q) == None
  {
    var edits := KeyEdits(t, lib, p, row, key);
    if edits != [] {
      assert edits[|edits| - 1] == edits[0];
      assert edits[..0] == [];
    }
  }

  lemma KeyHit(t: Template, lib: Library, p: Pos, row: Json, key: string, q: Pos)
    requires Land(t, p) == At(q) && Clean(KeyEdits(t, lib, p, row, key))
    ensures row.Obj?
    ensures LastPut(KeyEdits(t, lib, p, row, key), q) == Some(CellValue(row.members, key))
  {
    var edits := KeyEdits(t, lib, p, row, key);
    assert edits[|edits| - 1] == edits[0];
  }

  lemma RowNone(t: Template, lib: Library, at: Pos, r: nat, row: Json, columns: seq<string>, q: Pos)
    requires RowMisses(t, at, |columns|, r, 0, q)
    ensures LastPut(Flat(RowChunks(t, lib, at, r, row, columns)), q) == None
  {
    forall c | 0 <= c < |columns|
      ensures LastPut(RowChunks(t, lib, at, r, row, columns)[c], q) == None
    {
      assert !CellLands(t, at, r, c, q);
      KeyMiss(t, lib, CellOf(at, r, c), row, columns[c], q);
    }
    FlatNone(RowChunks(t, lib, at, r, row, columns), q);
  }

  lemma RowLast(t: Template, lib: Library, at: Pos, r: nat, row: Json, columns: seq<string>, c: nat, q: Pos)
    requires c < |columns| && Clean(Flat(RowChunks(t, lib, at, r, row, columns)))
    requires CellLands(t, at, r, c, q) && RowMisses(t, at, |columns|, r, c + 1, q)
    ensures row.Obj?
    ensures LastPut(Flat(RowChunks(t, lib, at, r, row, columns)), q) == Some(CellValue(row.members, columns[c]))
  {
    var chunks := RowChunks(t, lib, at, r, row, columns);
    FlatClean(chunks, c);
    KeyHit(t, lib, CellOf(at, r, c), row, columns[c], q);
    forall d | c < d < |columns|
      ensures LastPut(chunks[d], q) == None
    {
      assert !CellLands(t, at, r, d, q);
      KeyMiss(t, lib, CellOf(at, r, d), row, columns[d], q);
    }
    FlatLast(chunks, c, q);
  }

  lemma RowsNone(t: Template, lib: Library, at: Pos, rows: seq<Json>, columns: seq<string>, q: Pos)
    requires RowsMiss(t, at, |columns|, 0, |rows|, q)
    ensures LastPut(Flat(RowsChunks(t, lib, at, rows, columns)), q) == None
  {
    forall r | 0 <= r < |rows|
      ensures LastPut(RowsChunks(t, lib, at, rows, columns)[r], q) == None
    {
      RowNone(t, lib, at, r, rows[r], columns, q);
    }
    FlatNone(RowsChunks(t, lib, at, rows, columns), q);
  }

  /** Within one block the last cell in row-major order that lands at `q` is the one that stays. */
  lemma RowsLast(t: Template, lib: Library, at: Pos, rows: seq<Json>, columns: seq<string>, r: nat, c: nat, q: Pos)
    requires r < |rows| && c < |columns| && Clean(Flat(RowsChunks(t, lib, at, rows, columns)))
    requires CellLands(t, at, r, c, q)
    requires RowMisses(t, at, |columns|, r, c + 1, q) && RowsMiss(t, at, |columns|, r + 1, |rows|, q)
    ensures rows[r].Obj?
    ensures LastPut(Flat(RowsChunks(t, lib, at, rows, columns)), q) == Some(CellValue(rows[r].members, columns[c]))
  {
    var chunks := RowsChunks(t, lib, at, rows, columns);
    FlatClean(chunks, r);
    RowLast(t, lib, at, r, rows[r], columns, c, q);
    forall j | r < j < |rows|
      ensures LastPut(chunks[j], q) == None
    {
      RowNone(t, lib, at, j, rows[j], columns, q);
    }
    FlatLast(chunks, r, q);
  }

  // ---- whole blocks ---------------------------------------------------------

  function RowsOf(data: map<string, Json>, b: BlockSpec): seq<Json> {
    if b.source in data && data[b.source].List? then data[b.source].items else []
  }

  /** What the code takes for the rows is the list that was supplied, or no rows for anything empty. */
  lemma SourceSpec(data: map<string, Json>, b: BlockSpec)
    ensures SourceOf(data, b.source).List? ==> SourceOf(data, b.source).items == RowsOf(data, b)
    ensures SourceOf(data, b.source).List? <==>
      b.source in data ==>
        match data[b.source]
        case Null => true
        case Bool(b) => !b
        case Num(n) => n == 0
        case Str(s) => |s| == 0
        case List(_) => true
        case Obj(members) => |members| == 0
  {
    if b.source in data && data[b.source].Obj? {
      assert |data[b.source].members| == 0 <==> data[b.source].members == map[];
    }
  }

  /** No cell of the block lands at `q`. */
  ghost predicate BlockMisses(t: Template, lib: Library, data: map<string, Json>, b: BlockSpec, q: Pos) {
    match ResolveAnchor(t, lib, b)
    case Unresolved(_) => true
    case Anchored(at) => RowsMiss(t, at, |b.columns|, 0, |RowsOf(data, b)|, q)
  }

  lemma {:induction false} HideNone(sheet: string, from: int, n: nat, q: Pos)
    ensures LastPut(HideEdits(sheet, from, n), q) == None
  {
    if n > 0 {
      var init := HideEdits(sheet, from, n - 1);
      HideNone(sheet, from, n - 1, q);
      assert (init + [Hide(sheet, from + n - 1)])[..|init|] == init;
    }
  }

  lemma FilledLast(t: Template, lib: Library, b: BlockSpec, at: Pos, rows: seq<Json>, capacity: int, q: Pos)
    ensures LastPut(Filled(t, lib, b, at, rows, capacity), q) ==
      LastPut(Flat(RowsChunks(t, lib, at, rows, b.columns)), q)
    ensures Clean(Filled(t, lib, b, at, rows, capacity)) ==> Clean(Flat(RowsChunks(t, lib, at, rows, b.columns)))
  {
    var body, tail := Flat(RowsChunks(t, lib, at, rows, b.columns)), TailEdits(b, at, |rows|, capacity);
    if |rows| <= capacity { HideNone(at.sheet, at.row + |rows|, capacity - |rows|, q); }
    LastPutConcat(body, tail, q);
    CleanParts(body, tail);
  }

  lemma HaltNone(code: ErrorCode, q: Pos)
    ensures LastPut([Halt(code)], q) == None && !Clean([Halt(code)])
  {
    assert [Halt(code)][..0] == [];
  }

  lemma BlockNone(t: Template, lib: Library, m: Manifest, data: map<string, Json>, b: BlockSpec, q: Pos)
    requires BlockMisses(t, lib, data, b, q)
    ensures LastPut(BlockEdits(t, lib, m, data, b), q) == None
  {
    HaltNone(ValidationError, q);
    HaltNone(RenderFailed, q);
    var rows, capacity := RowsOf(data, b), BlockCapacity(m.requiredFields, b);
    SourceSpec(data, b);
    match ResolveAnchor(t, lib, b)
    case Unresolved(code) => HaltNone(code, q);
    case Anchored(at) =>
      RowsNone(t, lib, at, rows, b.columns, q);
      if capacity.Some? { FilledLast(t, lib, b, at, rows, capacity.value, q); }
  }

  /** A block that does not halt: its rows are a list that fits, its anchor resolves, and it is filled. */
  lemma CleanBlock(t: Template, lib: Library, m: Manifest, data: map<string, Json>, b: BlockSpec)
    requires Clean(BlockEdits(t, lib, m, data, b))
    ensures SourceOf(data, b.source).List? && ResolveAnchor(t, lib, b).Anchored?
    ensures BlockCapacity(m.requiredFields, b).Some? && |RowsOf(data, b)| <= BlockCapacity(m.requiredFields, b).value
    ensures BlockEdits(t, lib, m, data, b)
         == Filled(t, lib, b, ResolveAnchor(t, lib, b).at, RowsOf(data, b), BlockCapacity(m.requiredFields, b).value)
  {
    HaltNone(ValidationError, Pos("", 0, 0));
    HaltNone(RenderFailed, Pos("", 0, 0));
    SourceSpec(data, b);
  }

  /** The last cell of block `i`, in row-major order, that lands at `q`; no later block lands there. */
  ghost predicate LastWriter(t: Template, lib: Library, m: Manifest, data: map<string, Json>,
                             i: nat, r: nat, c: nat, q: Pos) {
    && i < |m.blocks|
    && ResolveAnchor(t, lib, m.blocks[i]).Anchored?
    && r < |RowsOf(data, m.blocks[i])| && c < |m.blocks[i].columns|
    && (var at, b := ResolveAnchor(t, lib, m.blocks[i]).at, m.blocks[i];
        && CellLands(t, at, r, c, q)
        && RowMisses(t, at, |b.columns|, r, c + 1, q)
        && RowsMiss(t, at, |b.columns|, r + 1, |RowsOf(data, b)|, q))
    && forall j :: i < j < |m.blocks| ==> BlockMisses(t, lib, data, m.blocks[j], q)
  }

  lemma BlocksLast(t: Template, lib: Library, m: Manifest, data: map<string, Json>, i: nat, r: nat, c: nat, q: Pos)
    requires Clean(BlocksStage(t, lib, m, data)) && LastWriter(t, lib, m, data, i, r, c, q)
    ensures RowsOf(data, m.blocks[i])[r].Obj?
    ensures LastPut(BlocksStage(t, lib, m, data), q)
         == Some(CellValue(RowsOf(data, m.blocks[i])[r].members, m.blocks[i].columns[c]))
  {
    var chunks, b := BlockChunks(t, lib, m, data), m.blocks[i];
    var at, rows := ResolveAnchor(t, lib, b).at, RowsOf(data, b);
    FlatClean(chunks, i);
    CleanBlock(t, lib, m, data, b);
    FilledLast(t, lib, b, at, rows, BlockCapacity(m.requiredFields, b).value, q);
    RowsLast(t, lib, at, rows, b.columns, r, c, q);
    forall j | i < j < |chunks|
      ensures LastPut(chunks[j], q) == None
    {
      BlockNone(t, lib, m, data, m.blocks[j], q);
    }
    FlatLast(chunks, i, q);
  }

  /** No item of `cells` names `p`. */
  ghost predicate NoRefReaches(t: Template, lib: Library, data: map<string, Json>, p: Pos) {
    "cells" in data && lib.items(data["cells"]).Some? ==>
      forall j :: 0 <= j < |lib.items(data["cells"]).value| ==>
        RefTarget(t, lib, lib.items(data["cells"]).value[j].0) != Some(p)
  }

  lemma ExplicitNone(t: Template, lib: Library, data: map<string, Json>, p: Pos)
    requires NoRefReaches(t, lib, data, p)
    ensures LastPut(ExplicitEdits(t, lib, data), p) == None
  {
    HaltNone(RenderFailed, p);
    match ExplicitItems(lib, data)
    case None =>
    case Some(items) =>
      forall j | 0 <= j < |items|
        ensures LastPut(CellChunks(t, lib, items)[j], p) == None
      {
        assert RefEdits(t, lib, items[j].0, items[j].1)[..0] == [];
      }
      FlatNone(CellChunks(t, lib, items), p);
  }

  /**
   A block value ends up in the cell where it lands, merged cells included: the last writer in block order and
   row-major order wins, unless an explicit cell names that cell. Absent and empty values both clear the cell.
   */
  lemma BlockCellWins(g: Page, t: Template, lib: Library, m: Manifest, data: map<string, Json>,
                      i: nat, r: nat, c: nat, q: Pos)
    requires Run(g, Plan(t, lib, m, data)).1 == None && LastWriter(t, lib, m, data, i, r, c, q)
    requires NoRefReaches(t, lib, data, q)
    ensures RowsOf(data, m.blocks[i])[r].Obj?
    ensures var row, key := RowsOf(data, m.blocks[i])[r].members, m.blocks[i].columns[c];
      Read(Run(g, Plan(t, lib, m, data)).0, q) == Some(if key in row && row[key] != Str("") then row[key] else Null)
  {
    PartsClean(g, t, lib, m, data);
    BlocksLast(t, lib, m, data, i, r, c, q);
    ExplicitNone(t, lib, data, q);
    Precedence(g, t, lib, m, data, q);
  }

  /** All cells of the block that the supplied rows fill are plain. */
  ghost predicate PlainBlock(t: Template, at: Pos, rows: nat, width: nat) {
    forall r, c :: 0 <= r < rows && 0 <= c < width ==> PlainAt(t, at, r, c)
  }

  ghost predicate PlainAt(t: Template, at: Pos, r: nat, c: nat) {
    Pos(at.sheet, at.row + r, at.col + c) !in t.covered
  }

  /**
   The table as a reader finds it: the value of row `r` and column `c` of a block without merged cells stands `r` rows
   below and `c` columns right of the anchor, unless a later block or an explicit reference reaches that cell.
   */
  lemma BlockIsATable(g: Page, t: Template, lib: Library, m: Manifest, data: map<string, Json>,
                      i: nat, at: Pos, r: nat, c: nat)
    requires Run(g, Plan(t, lib, m, data)).1 == None && i < |m.blocks|
    requires ResolveAnchor(t, lib, m.blocks[i]) == Anchored(at)
    requires r < |RowsOf(data, m.blocks[i])| && c < |m.blocks[i].columns|
    requires PlainBlock(t, at, |RowsOf(data, m.blocks[i])|, |m.blocks[i].columns|)
    requires forall j :: i < j < |m.blocks| ==>
      BlockMisses(t, lib, data, m.blocks[j], Pos(at.sheet, at.row + r, at.col + c))
    requires NoRefReaches(t, lib, data, Pos(at.sheet, at.row + r, at.col + c))
    ensures RowsOf(data, m.blocks[i])[r].Obj?
    ensures var row, key := RowsOf(data, m.blocks[i])[r].members, m.blocks[i].columns[c];
      Read(Run(g, Plan(t, lib, m, data)).0, Pos(at.sheet, at.row + r, at.col + c))
      == Some(if key in row && row[key] != Str("") then row[key] else Null)
  {
    var q, rows, width := Pos(at.sheet, at.row + r, at.col + c), |RowsOf(data, m.blocks[i])|, |m.blocks[i].columns|;
    forall x, y | 0 <= x < rows && 0 <= y < width
      ensures CellLands(t, at, x, y, q) <==> x == r && y == c
    {
      assert PlainAt(t, at, x, y);
    }
    assert RowMisses(t, at, width, r, c + 1, q) && RowsMiss(t, at, width, r + 1, rows, q);
    assert LastWriter(t, lib, m, data, i, r, c, q);
    BlockCellWins(g, t, lib, m, data, i, r, c, q);
  }

  // ---- what is left alone ---------------------------------------------------

  /** The cell a destination of a defined name addresses. */
  function DestTarget(lib: Library, dest: (string, string)): Option<Pos> {
    var ref := NoDollars(dest.1);
    if ':' in ref || lib.cellAt(ref) == None then None
    else Some(Pos(dest.0, lib.cellAt(ref).value.0, lib.cellAt(ref).value.1))
  }

  /** Some block takes its rows from the key. */
  ghost predicate IsSource(m: Manifest, name: string) {
    exists i :: 0 <= i < |m.blocks| && m.blocks[i].source == name
  }

  lemma SourcesAreSources(m: Manifest, name: string)
    ensures name in Sources(m) <==> IsSource(m, name)
  {
    if name in Sources(m) {
      var b :| b in m.blocks && b.source == name;
      var i :| 0 <= i < |m.blocks| && m.blocks[i] == b;
    }
    if IsSource(m, name) {
      var i :| 0 <= i < |m.blocks| && m.blocks[i].source == name;
      assert m.blocks[i] in m.blocks;
    }
  }

  ghost predicate NameMisses(t: Template, lib: Library, m: Manifest, data: map<string, Json>, k: nat, p: Pos)
    requires k < |t.names|
  {
    || t.names[k].0 !in data
    || IsSource(m, t.names[k].0)
    || forall d :: d in t.names[k].1 ==> DestTarget(lib, d) != Some(p)
  }

  lemma NamesNone(t: Template, lib: Library, m: Manifest, data: map<string, Json>, p: Pos)
    requires forall k :: 0 <= k < |t.names| ==> NameMisses(t, lib, m, data, k, p)
    ensures LastPut(NamesStage(t, lib, m, data), p) == None
  {
    var chunks := NameChunks(t, lib, data, Sources(m));
    forall k | 0 <= k < |t.names|
      ensures LastPut(chunks[k], p) == None
    {
      NameNone(t, lib, m, data, k, p);
    }
    FlatNone(chunks, p);
  }

  lemma NameNone(t: Template, lib: Library, m: Manifest, data: map<string, Json>, k: nat, p: Pos)
    requires k < |t.names| && NameMisses(t, lib, m, data, k, p)
    ensures LastPut(NameEdits(t, lib, data, Sources(m), t.names[k]), p) == None
  {
    var (name, dests) := t.names[k];
    SourcesAreSources(m, name);
    if name in data && name !in Sources(m) {
      forall i | 0 <= i < |dests|
        ensures LastPut(DestChunks(t, lib, dests, data[name])[i], p) == None
      {
        assert dests[i] in dests;
        var edits := DestEdits(t, lib, dests[i], data[name]);
        assert edits == [] || edits[..0] == [];
      }
      FlatNone(DestChunks(t, lib, dests, data[name]), p);
    }
  }

  // ---- defined names --------------------------------------------------------

  lemma DestPuts(t: Template, lib: Library, dest: (string, string), v: Json, q: Pos)
    requires Clean(DestEdits(t, lib, dest, v))
    ensures LastPut(DestEdits(t, lib, dest, v), q) == if DestTarget(lib, dest) == Some(q) then Some(v) else None
  {
    var edits := DestEdits(t, lib, dest, v);
    if edits != [] {
      assert edits[|edits| - 1] == edits[0];
      assert edits[..0] == [];
    }
  }

  /** Chunks that all write the same value leave it, if any of them writes. */
  lemma {:induction false} FlatSame(chunks: seq<seq<Edit>>, i: nat, q: Pos, v: Json)
    requires i < |chunks| && LastPut(chunks[i], q) == Some(v)
    requires forall j :: 0 <= j < |chunks| ==> LastPut(chunks[j], q) == None || LastPut(chunks[j], q) == Some(v)
    ensures LastPut(Flat(chunks), q) == Some(v)
  {
    var n := |chunks| - 1;
    LastPutConcat(Flat(chunks[..n]), chunks[n], q);
    if i < n && LastPut(chunks[n], q) == None { FlatSame(chunks[..n], i, q, v); }
  }

  lemma NamePuts(t: Template, lib: Library, m: Manifest, data: map<string, Json>, k: nat, q: Pos)
    requires k < |t.names| && t.names[k].0 in data && t.names[k].0 !in Sources(m)
    requires exists d :: d in t.names[k].1 && DestTarget(lib, d) == Some(q)
    requires Clean(NameEdits(t, lib, data, Sources(m), t.names[k]))
    ensures LastPut(NameEdits(t, lib, data, Sources(m), t.names[k]), q) == Some(data[t.names[k].0])
  {
    var (name, dests) := t.names[k];
    var chunks := DestChunks(t, lib, dests, data[name]);
    forall i | 0 <= i < |dests|
      ensures LastPut(chunks[i], q) == if DestTarget(lib, dests[i]) == Some(q) then Some(data[name]) else None
    {
      FlatClean(chunks, i);
      DestPuts(t, lib, dests[i], data[name], q);
    }
    var d :| d in dests && DestTarget(lib, d) == Some(q);
    var i :| 0 <= i < |dests| && dests[i] == d;
    FlatSame(chunks, i, q, data[name]);
  }

  /**
   A defined name's cell holds the value supplied for the name, as it is (an empty string stays one), unless a
   later name, a block or an explicit reference reaches that cell. Block sources are not defined-name values.
   */
  lemma NameCellWins(g: Page, t: Template, lib: Library, m: Manifest, data: map<string, Json>, k: nat, q: Pos)
    requires Run(g, Plan(t, lib, m, data)).1 == None
    requires k < |t.names| && t.names[k].0 in data && !IsSource(m, t.names[k].0)
    requires exists d :: d in t.names[k].1 && DestTarget(lib, d) == Some(q)
    requires forall j :: k < j < |t.names| ==> NameMisses(t, lib, m, data, j, q)
    requires forall i :: 0 <= i < |m.blocks| ==> BlockMisses(t, lib, data, m.blocks[i], q)
    requires NoRefReaches(t, lib, data, q)
    ensures Read(Run(g, Plan(t, lib, m, data)).0, q) == Some(data[t.names[k].0])
  {
    var chunks := NameChunks(t, lib, data, Sources(m));
    PartsClean(g, t, lib, m, data);
    FlatClean(chunks, k);
    SourcesAreSources(m, t.names[k].0);
    NamePuts(t, lib, m, data, k, q);
    forall j | k < j < |chunks|
      ensures LastPut(chunks[j], q) == None
    {
      NameNone(t, lib, m, data, j, q);
    }
    FlatLast(chunks, k, q);
    BlocksNone(t, lib, m, data, q);
    ExplicitNone(t, lib, data, q);
    Precedence(g, t, lib, m, data, q);
  }

  lemma BlocksNone(t: Template, lib: Library, m: Manifest, data: map<string, Json>, q: Pos)
    requires forall i :: 0 <= i < |m.blocks| ==> BlockMisses(t, lib, data, m.blocks[i], q)
    ensures LastPut(BlocksStage(t, lib, m, data), q) == None
  {
    forall i | 0 <= i < |m.blocks|
      ensures LastPut(BlockChunks(t, lib, m, data)[i], q) == None
    {
      BlockNone(t, lib, m, data, m.blocks[i], q);
    }
    FlatNone(BlockChunks(t, lib, m, data), q);
  }

  /** Every cell that no defined name, no block and no explicit reference reaches keeps the template's value. */
  lemma UnreachedCellsUnchanged(g: Page, t: Template, lib: Library, m: Manifest, data: map<string, Json>, p: Pos)
    requires Run(g, Plan(t, lib, m, data)).1 == None
    requires forall k :: 0 <= k < |t.names| ==> NameMisses(t, lib, m, data, k, p)
    requires forall i :: 0 <= i < |m.blocks| ==> BlockMisses(t, lib, data, m.blocks[i], p)
    requires NoRefReaches(t, lib, data, p)
    ensures Read(Run(g, Plan(t, lib, m, data)).0, p) == Read(g, p)
  {
    NamesNone(t, lib, m, data, p);
    BlocksNone(t, lib, m, data, p);
    ExplicitNone(t, lib, data, p);
    Precedence(g, t, lib, m, data, p);
  }

  // ---- merged cells ---------------------------------------------------------

  lemma {:induction false} FirstCoveringSpec(rs: seq<Range>, row: int, col: int)
    ensures FirstCovering(rs, row, col) == None <==> forall k :: 0 <= k < |rs| ==> !rs[k].Covers(row, col)
    ensures FirstCovering(rs, row, col).Some? ==>
      exists k :: 0 <= k < |rs| && rs[k] == FirstCovering(rs, row, col).value && rs[k].Covers(row, col)
                  && forall j :: 0 <= j < k ==> !rs[j].Covers(row, col)
  {
    if rs != [] {
      FirstCoveringSpec(rs[1..], row, col);
      assert forall k :: 1 <= k < |rs| ==> rs[k] == rs[1..][k - 1];
      if !rs[0].Covers(row, col) && FirstCovering(rs, row, col).Some? {
        var k :| 0 <= k < |rs[1..]| && rs[1..][k] == FirstCovering(rs, row, col).value && rs[1..][k].Covers(row, col)
          && forall j :: 0 <= j < k ==> !rs[1..][j].Covers(row, col);
        assert rs[k + 1] == FirstCovering(rs, row, col).value;
        assert forall j :: 0 <= j < k + 1 ==> !rs[j].Covers(row, col);
      }
    }
  }

  /** The range covers the cell, borders included. */
  ghost predicate Within(r: Range, row: int, col: int) {
    r.minRow <= row && row <= r.maxRow && r.minCol <= col && col <= r.maxCol
  }

  /** `r` is the first of the sheet's merged ranges that covers the cell. */
  ghost predicate IsFirst(t: Template, p: Pos, r: Range) {
    && p.sheet in t.ranges && Within(r, p.row, p.col)
    && exists k :: 0 <= k < |t.ranges[p.sheet]| && t.ranges[p.sheet][k] == r
                   && forall j :: 0 <= j < k ==> !Within(t.ranges[p.sheet][j], p.row, p.col)
  }

  /**
   A value for a plain cell stays there; one for a covered cell goes to the top-left cell of the first range that
   covers it, never to a covered cell, and is dropped only when no range covers it.
   */
  lemma LandingSpec(t: Template, p: Pos)
    ensures p !in t.covered ==> Land(t, p) == At(p)
    ensures Land(t, p).At? ==> Land(t, p).pos !in t.covered
    ensures p in t.covered ==> forall r :: IsFirst(t, p, r) ==>
      var corner := Pos(p.sheet, r.minRow, r.minCol);
      Land(t, p) == if corner in t.covered then ReadOnly else At(corner)
    ensures Land(t, p) == Skipped <==> p in t.covered && forall r :: !IsFirst(t, p, r)
  {
    FirstCoveringSpec(RangesOf(t, p.sheet), p.row, p.col);
    var found := FirstCovering(RangesOf(t, p.sheet), p.row, p.col);
    forall r | IsFirst(t, p, r)
      ensures found == Some(r)
    {
      var k :| 0 <= k < |t.ranges[p.sheet]| && t.ranges[p.sheet][k] == r
            && forall j :: 0 <= j < k ==> !Within(t.ranges[p.sheet][j], p.row, p.col);
    }
    if found.Some? {
      assert IsFirst(t, p, found.value);
    }
  }

  lemma AssignNone(t: Template, lib: Library, sheet: string, ref: string, v: Json, p: Pos)
    requires p in t.covered
    ensures LastPut(AssignEdits(t, lib, sheet, ref, v), p) == None
  {
    var edits := AssignEdits(t, lib, sheet, ref, v);
    assert edits[..0] == [];
  }

  /** No fill ever changes a covered cell. */
  lemma CoveredCellsNeverChange(g: Page, t: Template, lib: Library, m: Manifest, data: map<string, Json>, p: Pos)
    requires Run(g, Plan(t, lib, m, data)).1 == None && p in t.covered
    ensures Read(Run(g, Plan(t, lib, m, data)).0, p) == Read(g, p)
  {
    CoveredNamesNone(t, lib, m, data, p);
    CoveredExplicitNone(t, lib, data, p);
    assert forall at, r, c :: !CellLands(t, at, r, c, p);
    BlocksNone(t, lib, m, data, p);
    Precedence(g, t, lib, m, data, p);
  }

  lemma CoveredNamesNone(t: Template, lib: Library, m: Manifest, data: map<string, Json>, p: Pos)
    requires p in t.covered
    ensures LastPut(NamesStage(t, lib, m, data), p) == None
  {
    var chunks := NameChunks(t, lib, data, Sources(m));
    forall k | 0 <= k < |t.names|
      ensures LastPut(chunks[k], p) == None
    {
      var (name, dests) := t.names[k];
      if name in data && name !in Sources(m) {
        forall i | 0 <= i < |dests|
          ensures LastPut(DestChunks(t, lib, dests, data[name])[i], p) == None
        {
          AssignNone(t, lib, dests[i].0, NoDollars(dests[i].1), data[name], p);
        }
        FlatNone(DestChunks(t, lib, dests, data[name]), p);
      }
    }
    FlatNone(chunks, p);
  }

  lemma CoveredExplicitNone(t: Template, lib: Library, data: map<string, Json>, p: Pos)
    requires p in t.covered
    ensures LastPut(ExplicitEdits(t, lib, data), p) == None
  {
    HaltNone(RenderFailed, p);
    if ExplicitItems(lib, data).Some? {
      var items := ExplicitItems(lib, data).value;
      forall j | 0 <= j < |items|
        ensures LastPut(CellChunks(t, lib, items)[j], p) == None
      {
        var ref := items[j].0;
        var sheet := UpTo(ref, '!');
        if |sheet| < |ref| {
          AssignNone(t, lib, sheet, ref[|sheet| + 1..], items[j].1, p);
        } else {
          AssignNone(t, lib, t.active, ref, items[j].1, p);
        }
      }
      FlatNone(CellChunks(t, lib, items), p);
    }
  }

  // ---- references -----------------------------------------------------------

  /** An anchor names its sheet before the last `!`, so a sheet name may itself hold one. */
  lemma AnchorNamesItsSheet(t: Template, lib: Library, sheet: string, coordinate: string)
    requires '!' !in coordinate && sheet in t.sheets && lib.coordinate(NoDollars(coordinate)).Some?
    ensures var at := lib.coordinate(NoDollars(coordinate)).value;
      LocateAnchor(t, lib, sheet + "!" + coordinate) == Anchored(Pos(sheet, at.0, at.1))
  {
    AfterLastOf(sheet, coordinate, '!');
    var reference := sheet + "!" + coordinate;
    assert reference[|sheet|] == '!';
    assert reference[..|sheet|] == sheet;
  }

  /** A reference without a sheet means the active one, for an anchor and for an explicit cell. */
  lemma BareReferenceMeansActive(t: Template, lib: Library, coordinate: string)
    requires '!' !in coordinate
    ensures t.active in t.sheets && lib.coordinate(NoDollars(coordinate)).Some? ==>
      var at := lib.coordinate(NoDollars(coordinate)).value;
      LocateAnchor(t, lib, coordinate) == Anchored(Pos(t.active, at.0, at.1))
    ensures lib.cellAt(coordinate).Some? ==>
      var at := lib.cellAt(coordinate).value; RefTarget(t, lib, coordinate) == Some(Pos(t.active, at.0, at.1))
  {
    AfterLastWhole(coordinate, '!');
    assert forall i :: 0 <= i < |coordinate| ==> coordinate[i] in coordinate;
  }

  /** An anchor on a sheet that is not there, or on a coordinate nobody can read, is a failed rendering. */
  lemma BadAnchorMeans(t: Template, lib: Library, sheet: string, coordinate: string)
    requires '!' !in coordinate && (sheet !in t.sheets || lib.coordinate(NoDollars(coordinate)).None?)
    ensures LocateAnchor(t, lib, sheet + "!" + coordinate) == Unresolved(RenderFailed)
  {
    AfterLastOf(sheet, coordinate, '!');
    var reference := sheet + "!" + coordinate;
    assert reference[|sheet|] == '!' && reference[..|sheet|] == sheet;
  }

  /** A block without an anchor name anchors on its cell reference; a name nobody defines is a validation error. */
  lemma AnchorSpec(t: Template, lib: Library, b: BlockSpec)
    ensures b.anchorName.None? && b.anchor.Some? ==> ResolveAnchor(t, lib, b) == LocateAnchor(t, lib, b.anchor.value)
    ensures b.anchorName.None? && b.anchor.None? ==> ResolveAnchor(t, lib, b) == LocateAnchor(t, lib, "")
    ensures b.anchorName.Some? && (forall k :: 0 <= k < |t.names| ==> t.names[k].0 != b.anchorName.value) ==>
      ResolveAnchor(t, lib, b) == Unresolved(ValidationError)
  {
    if b.anchorName.Some? { NameDestsSpec(t.names, b.anchorName.value); }
  }

  /** A block with an anchor name anchors on the first destination of the first defined name of that name. */
  lemma AnchorByName(t: Template, lib: Library, b: BlockSpec, k: nat, sheet: string, coordinate: string)
    requires b.anchorName.Some? && FirstNamed(t, b.anchorName.value, k)
    requires t.names[k].1 != [] && t.names[k].1[0] == (sheet, coordinate)
    requires '!' !in coordinate && sheet in t.sheets && lib.coordinate(NoDollars(coordinate)).Some?
    ensures var at := lib.coordinate(NoDollars(coordinate)).value;
      ResolveAnchor(t, lib, b) == Anchored(Pos(sheet, at.0, at.1))
  {
    NameDestsSpec(t.names, b.anchorName.value);
    AnchorNamesItsSheet(t, lib, sheet, coordinate);
  }

  ghost predicate FirstNamed(t: Template, name: string, k: nat) {
    k < |t.names| && t.names[k].0 == name && forall j :: 0 <= j < k ==> t.names[j].0 != name
  }

  lemma {:induction false} NameDestsSpec(names: seq<(string, seq<(string, string)>)>, name: string)
    ensures NameDests(names, name) == None <==> forall k :: 0 <= k < |names| ==> names[k].0 != name
    ensures forall k :: 0 <= k < |names| && names[k].0 == name && (forall j :: 0 <= j < k ==> names[j].0 != name) ==>
      NameDests(names, name) == Some(names[k].1)
  {
    if names != [] {
      NameDestsSpec(names[1..], name);
      assert forall k :: 1 <= k < |names| ==> names[k] == names[1..][k - 1];
      assert forall k :: 0 <= k < |names[1..]| ==> names[1..][k] == names[k + 1];
    }
  }

  /** An explicit reference names its sheet before the first `!`: it reaches every cell of a sheet without one. */
  lemma RefNamesItsSheet(t: Template, lib: Library, sheet: string, coordinate: string)
    requires '!' !in sheet && lib.cellAt(coordinate).Some?
    ensures var at := lib.cellAt(coordinate).value;
      RefTarget(t, lib, sheet + "!" + coordinate) == Some(Pos(sheet, at.0, at.1))
  {
    UpToUnique(sheet, coordinate, '!');
    assert (sheet + "!" + coordinate)[|sheet| + 1..] == coordinate;
  }
}
