/** Row bands and failures: which rows a fill hides, and which inputs yield no workbook at all. */
module WorkbookBands {
  import opened Prelude
  import opened Models
  import opened Workbook
  import opened WorkbookLaws

  // ---- hidden rows ----------------------------------------------------------

  lemma {:induction false} FlatHas(chunks: seq<seq<Edit>>, e: Edit)
    ensures e in Flat(chunks) <==> exists k :: 0 <= k < |chunks| && e in chunks[k]
  {
    if chunks != [] {
      var n := |chunks| - 1;
      FlatHas(chunks[..n], e);
      assert e in Flat(chunks) <==> e in Flat(chunks[..n]) || e in chunks[n];
      assert forall k :: 0 <= k < n ==> chunks[..n][k] == chunks[k];
    }
  }

  lemma {:induction false} HideHas(sheet: string, from: int, n: nat, s: string, row: int)
    ensures Hide(s, row) in HideEdits(sheet, from, n) <==> s == sheet && from <= row < from + n
  {
    if n > 0 {
      HideHas(sheet, from, n - 1, s, row);
    }
  }

  lemma RowsNeverHide(t: Template, lib: Library, at: Pos, rows: seq<Json>, columns: seq<string>, s: string, row: int)
    ensures Hide(s, row) !in Flat(RowsChunks(t, lib, at, rows, columns))
  {
    FlatHas(RowsChunks(t, lib, at, rows, columns), Hide(s, row));
    forall r | 0 <= r < |rows|
      ensures Hide(s, row) !in RowsChunks(t, lib, at, rows, columns)[r]
    {
      FlatHas(RowChunks(t, lib, at, r, rows[r], columns), Hide(s, row));
    }
  }

  /** Rows `first..end` of a sheet. */
  datatype Band = Band(sheet: string, first: int, end: int) {
    predicate Has(s: string, row: int) {
      s == sheet && first <= row < end
    }
  }

  /** The rows a block's template reserves, if its anchor and capacity are known. */
  function Reserved(t: Template, lib: Library, m: Manifest, b: BlockSpec): Option<Band> {
    match ResolveAnchor(t, lib, b)
    case Unresolved(_) => None
    case Anchored(at) =>
      var capacity := BlockCapacity(m.requiredFields, b);
      if capacity == None then None else Some(Band(at.sheet, at.row, at.row + capacity.value))
  }

  /** The rows of the band that received data. */
  function Used(t: Template, lib: Library, m: Manifest, data: map<string, Json>, b: BlockSpec): Option<Band> {
    match Reserved(t, lib, m, b)
    case None => None
    case Some(band) => Some(band.(end := band.first + |RowsOf(data, b)|))
  }

  /** The rows of the band past the data. */
  function Unused(t: Template, lib: Library, m: Manifest, data: map<string, Json>, b: BlockSpec): Option<Band> {
    match Reserved(t, lib, m, b)
    case None => None
    case Some(band) => Some(band.(first := band.first + |RowsOf(data, b)|))
  }

  /** The block hides what its data leaves of the rows it reserves, and the row is one of those. */
  ghost predicate HiddenBy(t: Template, lib: Library, m: Manifest, data: map<string, Json>, b: BlockSpec,
                           s: string, row: int) {
    && b.hideUnusedRows && ResolveAnchor(t, lib, b).Anchored? && BlockCapacity(m.requiredFields, b).Some?
    && var at := ResolveAnchor(t, lib, b).at;
       s == at.sheet && at.row + |RowsOf(data, b)| <= row < at.row + BlockCapacity(m.requiredFields, b).value
  }

  lemma TailHas(b: BlockSpec, at: Pos, used: nat, capacity: int, s: string, row: int)
    ensures Hide(s, row) in TailEdits(b, at, used, capacity) <==>
      b.hideUnusedRows && s == at.sheet && at.row + used <= row < at.row + capacity
  {
    if used <= capacity { HideHas(at.sheet, at.row + used, capacity - used, s, row); }
  }

  lemma BlockHides(t: Template, lib: Library, m: Manifest, data: map<string, Json>, b: BlockSpec, s: string, row: int)
    requires Clean(BlockEdits(t, lib, m, data, b))
    ensures Hide(s, row) in BlockEdits(t, lib, m, data, b) <==> HiddenBy(t, lib, m, data, b, s, row)
  {
    CleanBlock(t, lib, m, data, b);
    var at, rows := ResolveAnchor(t, lib, b).at, RowsOf(data, b);
    var capacity := BlockCapacity(m.requiredFields, b).value;
    RowsNeverHide(t, lib, at, rows, b.columns, s, row);
    TailHas(b, at, |rows|, capacity, s, row);
    assert Hide(s, row) in Filled(t, lib, b, at, rows, capacity) <==>
      Hide(s, row) in TailEdits(b, at, |rows|, capacity);
  }

  lemma NamesNeverHide(t: Template, lib: Library, m: Manifest, data: map<string, Json>, s: string, row: int)
    ensures Hide(s, row) !in NamesStage(t, lib, m, data)
  {
    var chunks := NameChunks(t, lib, data, Sources(m));
    FlatHas(chunks, Hide(s, row));
    forall k | 0 <= k < |chunks|
      ensures Hide(s, row) !in chunks[k]
    {
      if t.names[k].0 in data && t.names[k].0 !in Sources(m) {
        FlatHas(DestChunks(t, lib, t.names[k].1, data[t.names[k].0]), Hide(s, row));
      }
    }
  }

  lemma ExplicitNeverHides(t: Template, lib: Library, data: map<string, Json>, s: string, row: int)
    ensures Hide(s, row) !in ExplicitEdits(t, lib, data)
  {
    if ExplicitItems(lib, data).Some? {
      FlatHas(CellChunks(t, lib, ExplicitItems(lib, data).value), Hide(s, row));
    }
  }

  /** The rows hidden by a fill are those the template hid and the unused tails of the blocks that hide. */
  lemma HiddenRowsAreUnusedTails(g: Page, t: Template, lib: Library, m: Manifest, data: map<string, Json>,
                                 s: string, row: int)
    requires Run(g, Plan(t, lib, m, data)).1 == None
    ensures (s, row) in Run(g, Plan(t, lib, m, data)).0.hidden <==>
      (s, row) in g.hidden || exists i :: 0 <= i < |m.blocks| && HiddenBy(t, lib, m, data, m.blocks[i], s, row)
  {
    var chunks := BlockChunks(t, lib, m, data);
    PartsClean(g, t, lib, m, data);
    RunFailsExactlyOnHalt(g, Plan(t, lib, m, data));
    RunReads(g, Plan(t, lib, m, data), Pos("", 0, 0), s, row);
    NamesNeverHide(t, lib, m, data, s, row);
    ExplicitNeverHides(t, lib, data, s, row);
    FlatHas(chunks, Hide(s, row));
    forall i | 0 <= i < |chunks|
      ensures Hide(s, row) in chunks[i] <==> HiddenBy(t, lib, m, data, m.blocks[i], s, row)
    {
      FlatClean(chunks, i);
      BlockHides(t, lib, m, data, m.blocks[i], s, row);
    }
  }

  predicate Reserves(t: Template, lib: Library, m: Manifest, b: BlockSpec, s: string, row: int) {
    Reserved(t, lib, m, b).Some? && Reserved(t, lib, m, b).value.Has(s, row)
  }

  /** No two blocks reserve the same row of the same sheet. */
  ghost predicate DisjointBands(t: Template, lib: Library, m: Manifest) {
    forall i, j, s, row :: 0 <= i < j < |m.blocks| ==>
      !(Reserves(t, lib, m, m.blocks[i], s, row) && Reserves(t, lib, m, m.blocks[j], s, row))
  }

  /**
   With row-disjoint bands, used and unused rows split each band, and a row that received block data is hidden
   only if the template hid it.
   */
  lemma DataRowsStayVisible(g: Page, t: Template, lib: Library, m: Manifest, data: map<string, Json>,
                            i: nat, s: string, row: int)
    requires Run(g, Plan(t, lib, m, data)).1 == None
    requires i < |m.blocks| && DisjointBands(t, lib, m)
    ensures Reserved(t, lib, m, m.blocks[i]).Some?
    ensures Reserved(t, lib, m, m.blocks[i]).value.Has(s, row) <==>
      Used(t, lib, m, data, m.blocks[i]).value.Has(s, row) || Unused(t, lib, m, data, m.blocks[i]).value.Has(s, row)
    ensures !(Used(t, lib, m, data, m.blocks[i]).value.Has(s, row)
              && Unused(t, lib, m, data, m.blocks[i]).value.Has(s, row))
    ensures Used(t, lib, m, data, m.blocks[i]).value.Has(s, row) ==>
      ((s, row) in Run(g, Plan(t, lib, m, data)).0.hidden <==> (s, row) in g.hidden)
  {
    PartsClean(g, t, lib, m, data);
    FlatClean(BlockChunks(t, lib, m, data), i);
    CleanBlock(t, lib, m, data, m.blocks[i]);
    HiddenRowsAreUnusedTails(g, t, lib, m, data, s, row);
    forall j | 0 <= j < |m.blocks| && j != i
      ensures HiddenBy(t, lib, m, data, m.blocks[j], s, row) ==> !Used(t, lib, m, data, m.blocks[i]).value.Has(s, row)
    {
      FlatClean(BlockChunks(t, lib, m, data), j);
      CleanBlock(t, lib, m, data, m.blocks[j]);
      assert HiddenBy(t, lib, m, data, m.blocks[j], s, row) ==> Reserves(t, lib, m, m.blocks[j], s, row);
      assert Used(t, lib, m, data, m.blocks[i]).value.Has(s, row) ==> Reserves(t, lib, m, m.blocks[i], s, row);
    }
  }

  /**
   A block's data and the rows that stay in sight, in one place: with row-disjoint bands, the row of every value a block
   supplies, counted from its anchor, is one of the block's used rows and is hidden only if the template hid it.
   */
  lemma DataIsVisible(g: Page, t: Template, lib: Library, m: Manifest, data: map<string, Json>,
                      i: nat, at: Pos, r: nat)
    requires Run(g, Plan(t, lib, m, data)).1 == None && i < |m.blocks| && DisjointBands(t, lib, m)
    requires ResolveAnchor(t, lib, m.blocks[i]) == Anchored(at) && r < |RowsOf(data, m.blocks[i])|
    ensures Used(t, lib, m, data, m.blocks[i]).Some?
    ensures Used(t, lib, m, data, m.blocks[i]).value.Has(at.sheet, at.row + r)
    ensures (at.sheet, at.row + r) in Run(g, Plan(t, lib, m, data)).0.hidden <==> (at.sheet, at.row + r) in g.hidden
  {
    DataRowsStayVisible(g, t, lib, m, data, i, at.sheet, at.row + r);
  }

  lemma {:induction false} FlatPuts(chunks: seq<seq<Edit>>, q: Pos, v: Json) returns (k: nat)
    requires Put(q, v) in Flat(chunks)
    ensures k < |chunks| && Put(q, v) in chunks[k]
  {
    FlatHas(chunks, Put(q, v));
    k :| 0 <= k < |chunks| && Put(q, v) in chunks[k];
  }

  lemma {:induction false} HideNeverPuts(sheet: string, from: int, n: nat, q: Pos, v: Json)
    ensures Put(q, v) !in HideEdits(sheet, from, n)
  {
    if n > 0 { HideNeverPuts(sheet, from, n - 1, q, v); }
  }

  lemma FilledPuts(t: Template, lib: Library, b: BlockSpec, at: Pos, rows: seq<Json>, capacity: int, q: Pos, v: Json)
    requires Put(q, v) in Filled(t, lib, b, at, rows, capacity)
    ensures Put(q, v) in Flat(RowsChunks(t, lib, at, rows, b.columns))
  {
    if |rows| <= capacity { HideNeverPuts(at.sheet, at.row + |rows|, capacity - |rows|, q, v); }
  }

  lemma KeyPuts(t: Template, lib: Library, p: Pos, row: Json, key: string, q: Pos, v: Json)
    requires Put(q, v) in KeyEdits(t, lib, p, row, key)
    ensures row.Obj? && v == CellValue(row.members, key) && Land(t, p) == At(q)
  {
  }

  /** A value written among the rows of a block is that of one of them, in one of its columns. */
  lemma RowsPut(t: Template, lib: Library, at: Pos, rows: seq<Json>, columns: seq<string>, q: Pos, v: Json)
    returns (r: nat, c: nat)
    requires Put(q, v) in Flat(RowsChunks(t, lib, at, rows, columns))
    ensures r < |rows| && c < |columns| && rows[r].Obj? && v == CellValue(rows[r].members, columns[c])
    ensures CellLands(t, at, r, c, q)
  {
    r := FlatPuts(RowsChunks(t, lib, at, rows, columns), q, v);
    c := FlatPuts(RowChunks(t, lib, at, r, rows[r], columns), q, v);
    KeyPuts(t, lib, CellOf(at, r, c), rows[r], columns[c], q, v);
  }

  /** Every value a block writes is that of one of its rows and columns, and one written to the cell it belongs to lies
      in a used row. */
  lemma BlockWritesItsTable(t: Template, lib: Library, m: Manifest, data: map<string, Json>, b: BlockSpec,
                            q: Pos, v: Json) returns (r: nat, c: nat)
    requires Clean(BlockEdits(t, lib, m, data, b)) && Put(q, v) in BlockEdits(t, lib, m, data, b)
    ensures r < |RowsOf(data, b)| && c < |b.columns| && ResolveAnchor(t, lib, b).Anchored?
    ensures RowsOf(data, b)[r].Obj? && v == CellValue(RowsOf(data, b)[r].members, b.columns[c])
    ensures CellLands(t, ResolveAnchor(t, lib, b).at, r, c, q)
    ensures var at := ResolveAnchor(t, lib, b).at;
      PlainAt(t, at, r, c) ==>
        && q == Pos(at.sheet, at.row + r, at.col + c)
        && Used(t, lib, m, data, b).Some? && Used(t, lib, m, data, b).value.Has(q.sheet, q.row)
  {
    CleanBlock(t, lib, m, data, b);
    var at, rows := ResolveAnchor(t, lib, b).at, RowsOf(data, b);
    FilledPuts(t, lib, b, at, rows, BlockCapacity(m.requiredFields, b).value, q, v);
    r, c := RowsPut(t, lib, at, rows, b.columns, q, v);
  }

  // ---- failures -------------------------------------------------------------

  /** What is supplied for the block is neither a list nor empty, or has more rows than the template reserves. */
  predicate BadRows(m: Manifest, data: map<string, Json>, b: BlockSpec) {
    var capacity := BlockCapacity(m.requiredFields, b);
    || (capacity.Some? && |RowsOf(data, b)| > capacity.value)
    || (b.source in data
        && match data[b.source]
           case Null => false
           case Bool(b) => b
           case Num(n) => n != 0
           case Str(s) => |s| != 0
           case List(_) => false
           case Obj(members) => |members| != 0)
  }

  lemma BadRowsSpec(m: Manifest, data: map<string, Json>, b: BlockSpec)
    ensures BadRows(m, data, b) <==>
      var source, capacity := SourceOf(data, b.source), BlockCapacity(m.requiredFields, b);
      !source.List? || (capacity.Some? && |source.items| > capacity.value)
  {
    SourceSpec(data, b);
  }

  /** An over-long list, or a source that is no list, yields no workbook. */
  lemma BadRowsYieldNothing(g: Page, t: Template, lib: Library, m: Manifest, data: map<string, Json>, b: BlockSpec)
    requires b in m.blocks && BadRows(m, data, b)
    ensures Run(g, Plan(t, lib, m, data)).1.Some?
  {
    var i :| 0 <= i < |m.blocks| && m.blocks[i] == b;
    var edits := BlockEdits(t, lib, m, data, b);
    BadRowsSpec(m, data, b);
    assert !Clean(edits) by {
      HaltNone(ValidationError, Pos("", 0, 0));
      HaltNone(RenderFailed, Pos("", 0, 0));
    }
    if Run(g, Plan(t, lib, m, data)).1 == None {
      PartsClean(g, t, lib, m, data);
      FlatClean(BlockChunks(t, lib, m, data), i);
    }
  }

  /** The first chunk that halts decides the failure. */
  lemma {:induction false} FlatHalts(g: Page, chunks: seq<seq<Edit>>, i: nat, code: ErrorCode)
    requires i < |chunks| && Clean(Flat(chunks[..i])) && chunks[i] == [Halt(code)]
    ensures Run(g, Flat(chunks)).1 == Some(code)
  {
    var n := |chunks| - 1;
    RunConcat(g, Flat(chunks[..n]), chunks[n]);
    if i == n {
      RunFailsExactlyOnHalt(g, Flat(chunks[..n]));
    } else {
      assert chunks[..n][..i] == chunks[..i];
      FlatHalts(g, chunks[..n], i, code);
    }
  }

  /** The first block with bad rows, when nothing before it fails, makes the failure permanent: no retry can fit it. */
  lemma BadRowsArePermanent(g: Page, t: Template, lib: Library, m: Manifest, data: map<string, Json>, i: nat)
    requires ValidManifest(m) && i < |m.blocks| && BadRows(m, data, m.blocks[i])
    requires Clean(NamesStage(t, lib, m, data)) && Clean(Flat(BlockChunks(t, lib, m, data)[..i]))
    ensures Run(g, Plan(t, lib, m, data)).1 == Some(ValidationError) && ValidationError.Permanent()
  {
    var names, blocks := NamesStage(t, lib, m, data), BlocksStage(t, lib, m, data);
    assert m.blocks[i] in m.blocks;
    BadRowsSpec(m, data, m.blocks[i]);
    RunConcat(g, names + blocks, ExplicitEdits(t, lib, data));
    RunConcat(g, names, blocks);
    RunFailsExactlyOnHalt(g, names);
    FlatHalts(Run(g, names).0, BlockChunks(t, lib, m, data), i, ValidationError);
  }
}
