/**
 The catalog's operations as they run against the tables: statement by statement inside a
 transaction that works on its own copy, row by row in the loaders and the scan. They are
 proved equal to the functions of module Catalog.
 */
module CatalogStore {
  import opened Foundation
  import opened Catalog

  // ----- Loading -----

  method ReadPages(pages: PageTable, d: Id) returns (r: Result<seq<Page>, CatalogError>)
    ensures r == LoadPages(pages, d)
  {
    var rows := OrderBy(IndicesOf(pages, d));
    var loaded: seq<Page> := [];
    for i := 0 to |rows|
      invariant GoodRows(pages, d, rows[..i]) && loaded == RowPages(pages, d, rows[..i])
    {
      InTable(pages, d, rows[i]);
      var row := pages[(d, rows[i])];
      if rows[i] < 0 || row.rotation < 0 || !ValidPage(RowPage(rows[i], row)) {
        assert !GoodPageRow(pages, d, rows[i]);
        return Err(Corruption);
      }
      loaded := loaded + [RowPage(rows[i], row)];
    }
    assert rows[..|rows|] == rows;
    r := Ok(loaded);
  }

  lemma InTable(pages: PageTable, d: Id, index: int)
    requires index in IndicesOf(pages, d)
    ensures (d, index) in pages
  {
    var key :| key in pages && key.0 == d && key.1 == index;
    assert key == (d, index);
  }

  method ReadDocument(s: Shelf, d: Id) returns (r: Result<Option<Document>, CatalogError>)
    ensures r == LoadDocument(s, d)
  {
    if d !in s.documents {
      return Ok(None);
    }
    var row := s.documents[d];
    var pages := ReadPages(s.pages, d);
    if pages.Err? || row.pageCount <= 0 || row.pageCount != |pages.value| || !ValidPages(pages.value) {
      return Err(Corruption);
    }
    r := Ok(Some(Document(d, row.session, row.kind, row.asset, row.title, pages.value)));
  }

  // ----- Inserting -----

  lemma OneMoreLayer(layers: map<Id, Id>, done: set<Id>, l: Id, c: Id)
    ensures WithLayers(layers, done, c)[l := c] == WithLayers(layers, done + {l}, c)
    ensures l in WithLayers(layers, done, c) <==> l in layers || l in done
  {
  }

  /** `insert_canvas_tx`, layer by layer. */
  method WriteCanvas(g: Graph, c: Canvas) returns (r: Option<Graph>)
    ensures r == InsertCanvas(g, c)
  {
    if c.id in g.canvases {
      return None;
    }
    var layers, rest := g.layers, c.layers;
    ghost var done: set<Id> := {};
    while rest != {}
      invariant done + rest == c.layers && done !! rest && done * g.layers.Keys == {}
      invariant layers == WithLayers(g.layers, done, c.id)
      decreases rest
    {
      ghost var some := Inhabitant(rest);
      var l :| l in rest;
      OneMoreLayer(g.layers, done, l, c.id);
      if l in layers {
        assert l in c.layers * g.layers.Keys;
        return None;
      }
      done, layers, rest := done + {l}, layers[l := c.id], rest - {l};
    }
    assert done == c.layers;
    r := Some(Graph(g.canvases[c.id := RowOfCanvas(c)], layers));
  }

  /** The canvas loop of `publish_document`. */
  method WriteCanvases(g: Graph, cs: seq<Canvas>) returns (r: Option<Graph>)
    ensures r == InsertCanvases(g, cs)
  {
    var graph := g;
    for i := 0 to |cs|
      invariant InsertCanvases(g, cs[..i]) == Some(graph)
    {
      assert cs[..i + 1][..i] == cs[..i];
      var next := WriteCanvas(graph, cs[i]);
      if next.None? {
        CanvasesFail(g, cs, i + 1);
        return None;
      }
      graph := next.value;
    }
    assert cs[..|cs|] == cs;
    r := Some(graph);
  }

  /** The page loop of `publish_document`. */
  method WritePages(table: PageTable, g: Graph, d: Id, ps: seq<Page>) returns (r: Option<PageTable>)
    ensures r == InsertPages(table, g, d, ps)
  {
    var pages := table;
    for i := 0 to |ps|
      invariant InsertPages(table, g, d, ps[..i]) == Some(pages)
    {
      assert ps[..i + 1][..i] == ps[..i];
      if !AdmitsPage(pages, g, d, ps[i]) {
        PagesFail(table, g, d, ps, i + 1);
        return None;
      }
      pages := pages[(d, ps[i].index as int) := RowOfPage(ps[i])];
    }
    assert ps[..|ps|] == ps;
    r := Some(pages);
  }

  /** The inserts of `publish_document`; a failing statement rolls back. */
  method WriteDocument(t: Tables, c: Composition) returns (t': Tables, r: Outcome)
    ensures (t', r) == InsertDocument(t, c)
  {
    var d := c.document;
    var sequence := NextSequence(t.shelf);
    if sequence.Err? {
      return t, Failed(sequence.error);
    }
    var graph := WriteCanvases(t.graph, c.canvases);
    if graph.None? {
      return t, Failed(Backend);
    }
    var row := DocumentRow(d.session, d.kind, d.asset, d.title, |d.pages|, sequence.value);
    var pages := WritePages(t.shelf.pages, graph.value, d.id, d.pages);
    if pages.None? {
      return t, Failed(Backend);
    }
    t' := Tables(Shelf(t.shelf.documents[d.id := row], pages.value), graph.value, t.bindings);
    r := Inserted;
  }

  lemma {:induction false} CanvasesFail(g: Graph, cs: seq<Canvas>, n: nat)
    requires n <= |cs| && InsertCanvases(g, cs[..n]).None?
    ensures InsertCanvases(g, cs).None?
    decreases |cs|
  {
    if n == |cs| {
      assert cs[..n] == cs;
    } else {
      assert cs[..|cs| - 1][..n] == cs[..n];
      CanvasesFail(g, cs[..|cs| - 1], n);
    }
  }

  lemma {:induction false} PagesFail(pages: PageTable, g: Graph, d: Id, ps: seq<Page>, n: nat)
    requires n <= |ps| && InsertPages(pages, g, d, ps[..n]).None?
    ensures InsertPages(pages, g, d, ps).None?
    decreases |ps|
  {
    if n == |ps| {
      assert ps[..n] == ps;
    } else {
      assert ps[..|ps| - 1][..n] == ps[..n];
      PagesFail(pages, g, d, ps[..|ps| - 1], n);
    }
  }

  /** `document_ids_collide`: row by row, layer by layer. */
  method FindCollision(t: Tables, c: Composition) returns (r: bool)
    ensures r == Collides(t, c)
  {
    if c.document.id in t.shelf.documents {
      return true;
    }
    for i := 0 to |c.canvases|
      invariant forall j :: 0 <= j < i ==> c.canvases[j].id !in t.graph.canvases && c.canvases[j].layers * t.graph.layers.Keys == {}
    {
      if c.canvases[i].id in t.graph.canvases {
        return true;
      }
      var rest := c.canvases[i].layers;
      while rest != {}
        invariant rest <= c.canvases[i].layers && (c.canvases[i].layers - rest) * t.graph.layers.Keys == {}
        decreases rest
      {
        ghost var some := Inhabitant(rest);
        var l :| l in rest;
        if l in t.graph.layers {
          assert l in c.canvases[i].layers * t.graph.layers.Keys;
          return true;
        }
        rest := rest - {l};
      }
      assert c.canvases[i].layers - rest == c.canvases[i].layers;
    }
    r := false;
  }

  /** The comparison loop of `publish_document`. */
  method CompareCanvases(g: Graph, cs: seq<Canvas>) returns (r: Result<bool, CatalogError>)
    ensures r == SameCanvases(g, cs)
  {
    var same := true;
    for i := 0 to |cs|
      invariant SameCanvases(g, cs[..i]) == Ok(same)
    {
      assert cs[..i + 1][..i] == cs[..i];
      var stored := LoadCanvas(g, cs[i].id);
      if stored.Err? || stored.value.None? {
        ComparisonFails(g, cs, i + 1);
        return Err(Corruption);
      }
      same := same && stored.value.value == cs[i];
    }
    assert cs[..|cs|] == cs;
    r := Ok(same);
  }

  lemma {:induction false} ComparisonFails(g: Graph, cs: seq<Canvas>, n: nat)
    requires n <= |cs| && SameCanvases(g, cs[..n]) == Err(Corruption)
    ensures SameCanvases(g, cs) == Err(Corruption)
    decreases |cs|
  {
    if n == |cs| {
      assert cs[..n] == cs;
    } else {
      assert cs[..|cs| - 1][..n] == cs[..n];
      ComparisonFails(g, cs[..|cs| - 1], n);
    }
  }

  /**
   The store: each method is one transaction on the tables. Its contract names the new
   tables outright; what they guarantee is proved in module CatalogSafety.
   */
  class SQLiteCatalogStore {
    var tables: Tables

    constructor ()
      ensures tables == EMPTY
    {
      tables := EMPTY;
    }

    method PublishDocument(c: Composition) returns (r: Outcome)
      modifies this
      ensures (tables, r) == Catalog.PublishDocument(old(tables), c)
    {
      var existing := ReadDocument(tables.shelf, c.document.id);
      if existing.Err? {
        return Failed(existing.error);
      }
      if existing.value.Some? {
        var same := CompareCanvases(tables.graph, c.canvases);
        if same.Err? {
          return Failed(same.error);
        }
        return if same.value && existing.value.value == c.document then Existing else Failed(Conflict);
      }
      var collides := FindCollision(tables, c);
      if collides {
        return Failed(Conflict);
      }
      tables, r := WriteDocument(tables, c);
    }

    method PublishStandalone(c: Canvas) returns (r: Outcome)
      modifies this
      ensures (tables, r) == Catalog.PublishStandalone(old(tables), c)
    {
      var existing := LoadCanvas(tables.graph, c.id);
      if existing.Err? {
        return Failed(existing.error);
      }
      if existing.value.Some? {
        return if existing.value.value == c then Existing else Failed(Conflict);
      }
      if c.layers * tables.graph.layers.Keys != {} {
        return Failed(Conflict);
      }
      var graph := WriteCanvas(tables.graph, c);
      tables := tables.(graph := graph.value);
      r := Inserted;
    }

    method PublishStandaloneWithBinding(key: string, c: Canvas, b: Binding) returns (r: Outcome)
      modifies this
      ensures (tables, r) == PublishWithBinding(old(tables), key, c, b)
    {
      if b.canvas != c.id || b.session != c.session {
        return Failed(Conflict);
      }
      var existing := LoadCanvas(tables.graph, c.id);
      if key in tables.bindings {
        if tables.bindings[key] != b {
          return Failed(Conflict);
        }
        if existing.Err? || existing.value.None? {
          return Failed(Corruption);
        }
        return if existing.value.value == c then Existing else Failed(Conflict);
      }
      if existing.Err? {
        return Failed(existing.error);
      }
      var graph, outcome := tables.graph, Existing;
      if existing.value.Some? {
        if existing.value.value != c {
          return Failed(Conflict);
        }
      } else {
        var written := WriteCanvas(tables.graph, c);
        if written.None? {
          return Failed(Backend);
        }
        graph, outcome := written.value, Inserted;
      }
      tables := tables.(graph := graph, bindings := tables.bindings[key := b]);
      r := outcome;
    }

    method StoreBinding(key: string, b: Binding) returns (r: Outcome)
      modifies this
      ensures (tables, r) == Catalog.StoreBinding(old(tables), key, b)
    {
      if key in tables.bindings {
        return if tables.bindings[key] == b then Existing else Failed(Conflict);
      }
      if b.canvas !in tables.graph.canvases {
        return Failed(Backend);
      }
      tables := tables.(bindings := tables.bindings[key := b]);
      r := Inserted;
    }
  }

  // ----- The scan at open -----

  ghost predicate IsDocumentAt(s: Shelf, k: int, d: Id) {
    d in s.documents && s.documents[d].sequence == k
  }

  /** One row of the scan's document loop. */
  method ScanDocument(s: Shelf, g: Graph, d: Id) returns (ok: bool)
    requires d in s.documents && s.documents[d].sequence >= 0
    ensures ok == DocumentScans(s, g, d)
  {
    var loaded := ReadDocument(s, d);
    if loaded.Err? {
      return false;
    }
    var document := loaded.value.value;
    for i := 0 to |document.pages|
      invariant forall j :: 0 <= j < i ==> PageScans(g, document, j)
    {
      var canvas := LoadCanvas(g, document.pages[i].overlay);
      if canvas.Err? || canvas.value.None? || !Fits(document.pages[i], document.session, canvas.value.value) {
        assert !PageScans(g, document, i);
        return false;
      }
    }
    ok := true;
  }

  /** The documents in the order of their publication, with the running `expected_sequence`. */
  method ScanDocuments(s: Shelf, g: Graph) returns (ok: bool)
    requires SequencesUnique(s)
    ensures ok <==> forall d :: d in s.documents ==> DocumentScans(s, g, d)
  {
    var rows := OrderBy(Sequences(s));
    var expected := 0;
    for i := 0 to |rows|
      invariant expected == if i == 0 then 0 else if rows[i - 1] == I64_MAX then I64_MAX else rows[i - 1] + 1
      invariant forall j, d :: 0 <= j < i && IsDocumentAt(s, rows[j], d) ==> DocumentScans(s, g, d)
    {
      assert rows[i] in Sequences(s);
      var d :| d in s.documents && s.documents[d].sequence == rows[i];
      if rows[i] < 0 || rows[i] < expected {
        assert !DocumentScans(s, g, d);
        return false;
      }
      expected := if rows[i] == I64_MAX then I64_MAX else rows[i] + 1;
      var good := ScanDocument(s, g, d);
      if !good {
        return false;
      }
    }
    forall d | d in s.documents ensures DocumentScans(s, g, d) {
      assert s.documents[d].sequence in Sequences(s);
      var j :| 0 <= j < |rows| && rows[j] == s.documents[d].sequence;
      assert IsDocumentAt(s, rows[j], d);
    }
    ok := true;
  }

  /** `scan_integrity`. The rows of `canvases` and `bootstrap_bindings` come in any order. */
  method ScanIntegrity(t: Tables) returns (ok: bool)
    requires SequencesUnique(t.shelf)
    ensures ok <==> Scans(t)
  {
    if !ForeignKeysHold(t) {
      return false;
    }
    var documents := ScanDocuments(t.shelf, t.graph);
    if !documents {
      return false;
    }
    var rest := t.graph.canvases.Keys;
    while rest != {}
      invariant rest <= t.graph.canvases.Keys
      invariant forall c :: c in t.graph.canvases && c !in rest ==> CanvasScans(t.graph, c)
      decreases rest
    {
      ghost var some := Inhabitant(rest);
      var c :| c in rest;
      if !CanvasScans(t.graph, c) {
        return false;
      }
      rest := rest - {c};
    }
    var keys := t.bindings.Keys;
    while keys != {}
      invariant keys <= t.bindings.Keys
      invariant forall key :: key in t.bindings && key !in keys ==> BindingScans(t.graph, t.bindings[key])
      decreases keys
    {
      ghost var some := Inhabitant(keys);
      var key :| key in keys;
      if !BindingScans(t.graph, t.bindings[key]) {
        return false;
      }
      keys := keys - {key};
    }
    ok := true;
  }
}
