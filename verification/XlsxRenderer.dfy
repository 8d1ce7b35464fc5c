/** The workbook renderer as it works: cells and row flags are changed in place, in nested loops. */
module XlsxRenderer {
  import opened Prelude
  import opened Models
  import opened Text
  import opened Workbook

  lemma RunOne(g: Page, e: Edit)
    ensures Run(g, [e]) == if e.Halt? then (g, Some(e.code)) else (Do(g, e), None)
  {
    assert [e][1..] == [];
  }

  /** One more chunk after chunks that did not halt. */
  lemma RunGrows(g: Page, chunks: seq<seq<Edit>>, i: nat)
    requires i < |chunks| && Run(g, Flat(chunks[..i])).1 == None
    ensures Run(g, Flat(chunks[..i + 1])) == Run(Run(g, Flat(chunks[..i])).0, chunks[i])
  {
    FlatGrows(chunks, i);
    RunConcat(g, Flat(chunks[..i]), chunks[i]);
  }

  /** Once a chunk halted, later chunks have no effect. */
  lemma {:induction false} RunStops(g: Page, chunks: seq<seq<Edit>>, i: nat)
    requires i <= |chunks| && (i < |chunks| ==> Run(g, Flat(chunks[..i])).1.Some?)
    ensures Run(g, Flat(chunks)) == Run(g, Flat(chunks[..i]))
  {
    var n := |chunks| - 1;
    if i <= n {
      assert chunks[..n][..i] == chunks[..i];
      RunStops(g, chunks[..n], i);
      RunConcat(g, Flat(chunks[..n]), chunks[n]);
    } else {
      assert chunks[..i] == chunks;
    }
  }

  class XlsxWorkbook {
    const t: Template
    const lib: Library
    var cells: map<Pos, Json>
    var hidden: set<(string, int)>

    function Here(): Page
      reads this
    {
      Page(cells, hidden)
    }

    /** `load_workbook` */
    constructor (t: Template, lib: Library, page: Page)
      ensures this.t == t && this.lib == lib && Here() == page
    {
      this.t, this.lib := t, lib;
      cells, hidden := page.cells, page.hidden;
    }

    /** `cell.value = v` on a cell that is not covered. */
    method Store(p: Pos, v: Json) returns (failure: Option<ErrorCode>)
      modifies `cells
      ensures (Here(), failure) == Run(old(Here()), Workbook.Store(lib, p, v))
    {
      RunOne(Here(), Put(p, v));
      RunOne(Here(), Halt(RenderFailed));
      if !lib.storable(v) { return Some(RenderFailed); }
      cells := cells[p := v];
      failure := None;
    }

    /** `workbook[sheet][ref] = v` */
    method Assign(sheet: string, ref: string, v: Json) returns (failure: Option<ErrorCode>)
      modifies `cells
      ensures (Here(), failure) == Run(old(Here()), AssignEdits(t, lib, sheet, ref, v))
    {
      RunOne(Here(), Halt(RenderFailed));
      if sheet !in t.sheets { return Some(RenderFailed); }
      var at := lib.cellAt(ref);
      if at == None { return Some(RenderFailed); }
      var p := Pos(sheet, at.value.0, at.value.1);
      if p in t.covered { return Some(RenderFailed); }
      failure := Store(p, v);
    }

    method ApplyDestinations(dests: seq<(string, string)>, v: Json) returns (failure: Option<ErrorCode>)
      modifies `cells
      ensures (Here(), failure) == Run(old(Here()), Flat(DestChunks(t, lib, dests, v)))
    {
      ghost var chunks := DestChunks(t, lib, dests, v);
      var i := 0;
      failure := None;
      while i < |dests| && failure == None
        invariant 0 <= i <= |dests|
        invariant (Here(), failure) == Run(old(Here()), Flat(chunks[..i]))
        decreases |dests| - i
      {
        RunGrows(old(Here()), chunks, i);
        var ref := NoDollars(dests[i].1);
        if ':' !in ref {
          failure := Assign(dests[i].0, ref, v);
        }
        i := i + 1;
      }
      RunStops(old(Here()), chunks, i);
    }

    /** `_apply_defined_names` */
    method ApplyDefinedNames(data: map<string, Json>, skip: set<string>) returns (failure: Option<ErrorCode>)
      modifies `cells
      ensures (Here(), failure) == Run(old(Here()), Flat(NameChunks(t, lib, data, skip)))
    {
      ghost var chunks := NameChunks(t, lib, data, skip);
      var i := 0;
      failure := None;
      while i < |t.names| && failure == None
        invariant 0 <= i <= |t.names|
        invariant (Here(), failure) == Run(old(Here()), Flat(chunks[..i]))
        decreases |t.names| - i
      {
        RunGrows(old(Here()), chunks, i);
        var (name, dests) := t.names[i];
        if name in data && name !in skip {
          failure := ApplyDestinations(dests, data[name]);
        }
        i := i + 1;
      }
      RunStops(old(Here()), chunks, i);
    }

    /** `_set_cell`: a covered cell redirects to the top-left cell of the first range that covers it. */
    method SetCell(p: Pos, v: Json) returns (failure: Option<ErrorCode>)
      modifies `cells
      ensures (Here(), failure) == Run(old(Here()), SetEdits(t, lib, p, v))
    {
      RunOne(Here(), Halt(RenderFailed));
      if p.row < 1 || p.col < 1 { return Some(RenderFailed); }
      if p !in t.covered {
        failure := Store(p, v);
        return;
      }
      var ranges := RangesOf(t, p.sheet);
      var i := 0;
      while i < |ranges|
        invariant 0 <= i <= |ranges|
        invariant FirstCovering(ranges, p.row, p.col) == FirstCovering(ranges[i..], p.row, p.col)
        invariant Here() == old(Here())
      {
        if ranges[i].Covers(p.row, p.col) {
          var corner := Pos(p.sheet, ranges[i].minRow, ranges[i].minCol);
          if corner in t.covered { return Some(RenderFailed); }
          failure := Store(corner, v);
          return;
        }
        i := i + 1;
      }
      failure := None;
    }

    /** One row of a block: `row.get(key)` for every column. */
    method FillRow(at: Pos, r: nat, row: Json, columns: seq<string>) returns (failure: Option<ErrorCode>)
      modifies `cells
      ensures (Here(), failure) == Run(old(Here()), Flat(RowChunks(t, lib, at, r, row, columns)))
    {
      ghost var chunks := RowChunks(t, lib, at, r, row, columns);
      var c := 0;
      failure := None;
      RunOne(Here(), Halt(RenderFailed));
      while c < |columns| && failure == None
        invariant 0 <= c <= |columns|
        invariant (Here(), failure) == Run(old(Here()), Flat(chunks[..c]))
        decreases |columns| - c
      {
        RunGrows(old(Here()), chunks, c);
        RunOne(Here(), Halt(RenderFailed));
        if row.Obj? {
          failure := SetCell(CellOf(at, r, c), Cell(row, columns[c]));
        } else {
          failure := Some(RenderFailed);
        }
        c := c + 1;
      }
      RunStops(old(Here()), chunks, c);
    }

    method FillRows(at: Pos, rows: seq<Json>, columns: seq<string>) returns (failure: Option<ErrorCode>)
      modifies `cells
      ensures (Here(), failure) == Run(old(Here()), Flat(RowsChunks(t, lib, at, rows, columns)))
    {
      ghost var chunks := RowsChunks(t, lib, at, rows, columns);
      var r := 0;
      failure := None;
      while r < |rows| && failure == None
        invariant 0 <= r <= |rows|
        invariant (Here(), failure) == Run(old(Here()), Flat(chunks[..r]))
        decreases |rows| - r
      {
        RunGrows(old(Here()), chunks, r);
        failure := FillRow(at, r, rows[r], columns);
        r := r + 1;
      }
      RunStops(old(Here()), chunks, r);
    }

    method HideRows(sheet: string, from: int, n: nat)
      modifies `hidden
      ensures (Here(), None) == Run(old(Here()), HideEdits(sheet, from, n))
    {
      var k := 0;
      while k < n
        invariant 0 <= k <= n
        invariant (Here(), None) == Run(old(Here()), HideEdits(sheet, from, k))
      {
        RunConcat(old(Here()), HideEdits(sheet, from, k), [Hide(sheet, from + k)]);
        RunOne(Here(), Hide(sheet, from + k));
        hidden := hidden + {(sheet, from + k)};
        k := k + 1;
      }
    }

    /** The rows of a block, then the hiding of what is left of its band. */
    method FillBand(b: BlockSpec, at: Pos, rows: seq<Json>, capacity: int) returns (failure: Option<ErrorCode>)
      requires |rows| <= capacity
      modifies `cells, `hidden
      ensures (Here(), failure) == Run(old(Here()), Filled(t, lib, b, at, rows, capacity))
    {
      RunConcat(Here(), Flat(RowsChunks(t, lib, at, rows, b.columns)), TailEdits(b, at, |rows|, capacity));
      failure := FillRows(at, rows, b.columns);
      if failure == None && b.hideUnusedRows {
        HideRows(at.sheet, at.row + |rows|, capacity - |rows|);
      }
    }

    /** The body of the loop of `_apply_blocks`. */
    method ApplyBlock(m: Manifest, data: map<string, Json>, b: BlockSpec) returns (failure: Option<ErrorCode>)
      modifies `cells, `hidden
      ensures (Here(), failure) == Run(old(Here()), BlockEdits(t, lib, m, data, b))
    {
      RunOne(Here(), Halt(ValidationError));
      RunOne(Here(), Halt(RenderFailed));
      var source := SourceOf(data, b.source);
      if !source.List? { return Some(ValidationError); }
      var capacity := BlockCapacity(m.requiredFields, b);
      if capacity == None { return Some(RenderFailed); }
      var rows := source.items;
      if |rows| > capacity.value { return Some(ValidationError); }
      var anchor := ResolveAnchor(t, lib, b);
      if anchor.Unresolved? {
        RunOne(Here(), Halt(anchor.code));
        return Some(anchor.code);
      }
      failure := FillBand(b, anchor.at, rows, capacity.value);
    }

    /** `_apply_blocks` */
    method ApplyBlocks(m: Manifest, data: map<string, Json>) returns (failure: Option<ErrorCode>)
      modifies `cells, `hidden
      ensures (Here(), failure) == Run(old(Here()), BlocksStage(t, lib, m, data))
    {
      ghost var chunks := BlockChunks(t, lib, m, data);
      var i := 0;
      failure := None;
      while i < |m.blocks| && failure == None
        invariant 0 <= i <= |m.blocks|
        invariant (Here(), failure) == Run(old(Here()), Flat(chunks[..i]))
        decreases |m.blocks| - i
      {
        RunGrows(old(Here()), chunks, i);
        failure := ApplyBlock(m, data, m.blocks[i]);
        i := i + 1;
      }
      RunStops(old(Here()), chunks, i);
    }

    /** One item of `cells`: the reference names its sheet or means the active one. */
    method AssignRef(ref: string, v: Json) returns (failure: Option<ErrorCode>)
      modifies `cells
      ensures (Here(), failure) == Run(old(Here()), RefEdits(t, lib, ref, v))
    {
      var sheet := UpTo(ref, '!');
      if |sheet| < |ref| {
        failure := Assign(sheet, ref[|sheet| + 1..], v);
      } else {
        failure := Assign(t.active, ref, v);
      }
    }

    /** `_apply_cells` */
    method ApplyCells(data: map<string, Json>) returns (failure: Option<ErrorCode>)
      modifies `cells
      ensures (Here(), failure) == Run(old(Here()), ExplicitEdits(t, lib, data))
    {
      RunOne(Here(), Halt(RenderFailed));
      var given := ExplicitItems(lib, data);
      if given == None { return Some(RenderFailed); }
      var items := given.value;
      ghost var chunks := CellChunks(t, lib, items);
      var i := 0;
      failure := None;
      while i < |items| && failure == None
        invariant 0 <= i <= |items|
        invariant (Here(), failure) == Run(old(Here()), Flat(chunks[..i]))
        decreases |items| - i
      {
        RunGrows(old(Here()), chunks, i);
        failure := AssignRef(items[i].0, items[i].1);
        i := i + 1;
      }
      RunStops(old(Here()), chunks, i);
    }

    /** `_render`: names, then blocks, then explicit cells, up to the first failure. */
    method Render(m: Manifest, data: map<string, Json>) returns (failure: Option<ErrorCode>)
      modifies `cells, `hidden
      ensures (Here(), failure) == Run(old(Here()), Plan(t, lib, m, data))
    {
      RunConcat(Here(), NamesStage(t, lib, m, data) + BlocksStage(t, lib, m, data), ExplicitEdits(t, lib, data));
      RunConcat(Here(), NamesStage(t, lib, m, data), BlocksStage(t, lib, m, data));
      failure := ApplyDefinedNames(data, Sources(m));
      if failure != None { return; }
      failure := ApplyBlocks(m, data);
      if failure != None { return; }
      failure := ApplyCells(data);
    }
  }
}
