/**
 The catalog of immutable documents, pages, canvases and layers: its tables, and what the
 loaders, the publishers and the scan at open mean on them. A transaction is one step; a
 failing statement or a dropped transaction leaves the tables as they were.
 */
module Catalog {
  import opened Foundation

  type Id = nat

  const U32_MAX: int := 0xffff_ffff

  // ----- Descriptors -----

  /** `CanvasDescriptor`. */
  datatype Canvas = Canvas(id: Id, session: Id, width: real, height: real, layers: set<Id>, default: Id)

  /** `DocumentPageDescriptor`. */
  datatype Page = Page(id: Id, index: nat, width: real, height: real, rotation: nat, overlay: Id)

  /** `DocumentDescriptor`. */
  datatype Document = Document(id: Id, session: Id, kind: string, asset: Id, title: string, pages: seq<Page>)

  /** `DocumentComposition`: a document and, page by page, its overlay canvas. */
  datatype Composition = Composition(document: Document, canvases: seq<Canvas>)

  /** What the descriptor constructors guarantee. */
  predicate ValidCanvas(c: Canvas) {
    c.default in c.layers && c.width > 0.0 && c.height > 0.0 && |c.layers| <= I64_MAX
  }

  predicate ValidPage(p: Page) {
    p.index <= U32_MAX && p.width > 0.0 && p.height > 0.0 && p.rotation in {0, 90, 180, 270}
  }

  predicate ValidPages(pages: seq<Page>) {
    && 0 < |pages| <= I64_MAX
    && (forall i :: 0 <= i < |pages| ==> ValidPage(pages[i]))
    && (forall i, j :: 0 <= i < j < |pages| ==> pages[i].index < pages[j].index)
  }

  predicate Fits(page: Page, session: Id, c: Canvas) {
    c.id == page.overlay && c.session == session && c.width == page.width && c.height == page.height
  }

  predicate ValidComposition(c: Composition) {
    && ValidPages(c.document.pages) && |c.canvases| == |c.document.pages|
    && forall i :: 0 <= i < |c.canvases| ==> ValidCanvas(c.canvases[i]) && Fits(c.document.pages[i], c.document.session, c.canvases[i])
  }

  // ----- Tables -----

  datatype CanvasRow = CanvasRow(session: Id, width: real, height: real, layerCount: int, default: Id)

  datatype DocumentRow = DocumentRow(session: Id, kind: string, asset: Id, title: string, pageCount: int, sequence: int)

  /** Keyed by document and page index; `id` is the primary key of the table. */
  datatype PageRow = PageRow(id: Id, width: real, height: real, rotation: int, overlay: Id)

  datatype Binding = Binding(session: Id, canvas: Id)

  datatype Graph = Graph(canvases: map<Id, CanvasRow>, layers: map<Id, Id>)

  type PageTable = map<(Id, int), PageRow>

  datatype Shelf = Shelf(documents: map<Id, DocumentRow>, pages: PageTable)

  /** The four content tables and the bootstrap bindings. */
  datatype Tables = Tables(shelf: Shelf, graph: Graph, bindings: map<string, Binding>)

  const EMPTY: Tables := Tables(Shelf(map[], map[]), Graph(map[], map[]), map[])

  datatype CatalogError = Corruption | Conflict | Backend

  datatype Outcome = Inserted | Existing | Failed(error: CatalogError)

  // ----- Loaders -----

  function LayersOf(g: Graph, c: Id): set<Id> {
    set l | l in g.layers && g.layers[l] == c
  }

  function LoadCanvas(g: Graph, c: Id): Result<Option<Canvas>, CatalogError> {
    if c !in g.canvases then Ok(None)
    else
      var row, layers := g.canvases[c], LayersOf(g, c);
      var canvas := Canvas(c, row.session, row.width, row.height, layers, row.default);
      if row.layerCount <= 0 || row.layerCount != |layers| || !ValidCanvas(canvas) then Err(Corruption) else Ok(Some(canvas))
  }

  function IndicesOf(pages: PageTable, d: Id): set<int> {
    set key | key in pages && key.0 == d :: key.1
  }

  function RowPage(index: int, row: PageRow): Page
    requires index >= 0 && row.rotation >= 0
  {
    Page(row.id, index, row.width, row.height, row.rotation, row.overlay)
  }

  predicate GoodPageRow(pages: PageTable, d: Id, index: int) {
    (d, index) in pages && 0 <= index && 0 <= pages[(d, index)].rotation && ValidPage(RowPage(index, pages[(d, index)]))
  }

  predicate GoodRows(pages: PageTable, d: Id, rows: seq<int>) {
    forall i :: 0 <= i < |rows| ==> GoodPageRow(pages, d, rows[i])
  }

  function RowPages(pages: PageTable, d: Id, rows: seq<int>): seq<Page>
    requires GoodRows(pages, d, rows)
  {
    seq(|rows|, i requires 0 <= i < |rows| => RowPage(rows[i], pages[(d, rows[i])]))
  }

  /** The rows of a document in the order of their index. */
  ghost function LoadPages(pages: PageTable, d: Id): Result<seq<Page>, CatalogError> {
    var rows := Ascending(IndicesOf(pages, d));
    if GoodRows(pages, d, rows) then Ok(RowPages(pages, d, rows)) else Err(Corruption)
  }

  ghost function LoadDocument(s: Shelf, d: Id): Result<Option<Document>, CatalogError> {
    if d !in s.documents then Ok(None)
    else
      var row, pages := s.documents[d], LoadPages(s.pages, d);
      if pages.Err? || row.pageCount <= 0 || row.pageCount != |pages.value| || !ValidPages(pages.value) then Err(Corruption)
      else Ok(Some(Document(d, row.session, row.kind, row.asset, row.title, pages.value)))
  }

  // ----- Publishing -----

  function RowOfCanvas(c: Canvas): CanvasRow {
    CanvasRow(c.session, c.width, c.height, |c.layers|, c.default)
  }

  /** `insert_canvas_tx`: the canvas row, then its layers; any key in use fails it. */
  function InsertCanvas(g: Graph, c: Canvas): Option<Graph> {
    if c.id in g.canvases || c.layers * g.layers.Keys != {} then None
    else Some(Graph(g.canvases[c.id := RowOfCanvas(c)], WithLayers(g.layers, c.layers, c.id)))
  }

  function WithLayers(layers: map<Id, Id>, ls: set<Id>, c: Id): map<Id, Id> {
    layers + map l | l in ls :: c
  }

  function InsertCanvases(g: Graph, cs: seq<Canvas>): Option<Graph> {
    if cs == [] then Some(g)
    else
      var front := InsertCanvases(g, cs[..|cs| - 1]);
      if front.None? then None else InsertCanvas(front.value, cs[|cs| - 1])
  }

  function RowOfPage(p: Page): PageRow {
    PageRow(p.id, p.width, p.height, p.rotation, p.overlay)
  }

  /** The primary key, the two unique constraints and the foreign key of a page row. */
  predicate AdmitsPage(pages: PageTable, g: Graph, d: Id, p: Page) {
    && (forall key :: key in pages ==> pages[key].id != p.id)
    && (d, p.index) !in pages
    && (forall key :: key in pages && key.0 == d ==> pages[key].overlay != p.overlay)
    && p.overlay in g.canvases
  }

  function InsertPages(pages: PageTable, g: Graph, d: Id, ps: seq<Page>): Option<PageTable> {
    if ps == [] then Some(pages)
    else
      var front, p := InsertPages(pages, g, d, ps[..|ps| - 1]), ps[|ps| - 1];
      if front.None? || !AdmitsPage(front.value, g, d, p) then None
      else Some(front.value[(d, p.index as int) := RowOfPage(p)])
  }

  function Sequences(s: Shelf): set<int> {
    set d | d in s.documents :: s.documents[d].sequence
  }

  /** `publication_sequence` is unique, and an `i64`. */
  ghost predicate SequencesUnique(s: Shelf) {
    && (forall d :: d in s.documents ==> s.documents[d].sequence <= I64_MAX)
    && forall d, e :: d in s.documents && e in s.documents && s.documents[d].sequence == s.documents[e].sequence ==> d == e
  }

  /** `COALESCE(MAX(publication_sequence), -1) + 1`; past 2^63 - 1 the sum is no longer an integer. */
  function NextSequence(s: Shelf): Result<int, CatalogError> {
    var last := Greatest(Sequences(s));
    if last.None? then Ok(0) else if last.value + 1 > I64_MAX then Err(Backend) else Ok(last.value + 1)
  }

  /** `document_ids_collide`. */
  predicate Collides(t: Tables, c: Composition) {
    || c.document.id in t.shelf.documents
    || exists i :: 0 <= i < |c.canvases| && (c.canvases[i].id in t.graph.canvases || c.canvases[i].layers * t.graph.layers.Keys != {})
  }

  /** Whether every canvas of the composition is stored as given. */
  function SameCanvases(g: Graph, cs: seq<Canvas>): Result<bool, CatalogError> {
    if cs == [] then Ok(true)
    else
      var front, last := SameCanvases(g, cs[..|cs| - 1]), LoadCanvas(g, cs[|cs| - 1].id);
      if front.Err? then front
      else if last.Err? || last.value.None? then Err(Corruption)
      else Ok(front.value && last.value.value == cs[|cs| - 1])
  }

  ghost function PublishDocument(t: Tables, c: Composition): (Tables, Outcome) {
    var loaded := LoadDocument(t.shelf, c.document.id);
    if loaded.Err? then (t, Failed(loaded.error))
    else if loaded.value.Some? then
      var same := SameCanvases(t.graph, c.canvases);
      if same.Err? then (t, Failed(same.error))
      else if same.value && loaded.value.value == c.document then (t, Existing)
      else (t, Failed(Conflict))
    else if Collides(t, c) then (t, Failed(Conflict))
    else InsertDocument(t, c)
  }

  function InsertDocument(t: Tables, c: Composition): (Tables, Outcome) {
    var d, sequence, graph := c.document, NextSequence(t.shelf), InsertCanvases(t.graph, c.canvases);
    if sequence.Err? then (t, Failed(sequence.error))
    else if graph.None? then (t, Failed(Backend))
    else
      var pages := InsertPages(t.shelf.pages, graph.value, d.id, d.pages);
      if pages.None? then (t, Failed(Backend))
      else
        var row := DocumentRow(d.session, d.kind, d.asset, d.title, |d.pages|, sequence.value);
        (Tables(Shelf(t.shelf.documents[d.id := row], pages.value), graph.value, t.bindings), Inserted)
  }

  function PublishStandalone(t: Tables, c: Canvas): (Tables, Outcome) {
    var loaded := LoadCanvas(t.graph, c.id);
    if loaded.Err? then (t, Failed(loaded.error))
    else if loaded.value.Some? then (t, if loaded.value.value == c then Existing else Failed(Conflict))
    else
      var graph := InsertCanvas(t.graph, c);
      if graph.None? then (t, Failed(Conflict)) else (t.(graph := graph.value), Inserted)
  }

  function PublishWithBinding(t: Tables, key: string, c: Canvas, b: Binding): (Tables, Outcome) {
    var loaded := LoadCanvas(t.graph, c.id);
    if b != Binding(c.session, c.id) then (t, Failed(Conflict))
    else if key in t.bindings then
      if t.bindings[key] != b then (t, Failed(Conflict))
      else if loaded.Err? || loaded.value.None? then (t, Failed(Corruption))
      else (t, if loaded.value.value == c then Existing else Failed(Conflict))
    else if loaded.Err? then (t, Failed(loaded.error))
    else if loaded.value.Some? then
      if loaded.value.value != c then (t, Failed(Conflict)) else (t.(bindings := t.bindings[key := b]), Existing)
    else
      var graph := InsertCanvas(t.graph, c);
      if graph.None? then (t, Failed(Backend))
      else (t.(graph := graph.value, bindings := t.bindings[key := b]), Inserted)
  }

  /** `store_binding`: the canvas must exist, whatever its session. */
  function StoreBinding(t: Tables, key: string, b: Binding): (Tables, Outcome) {
    if key in t.bindings then (t, if t.bindings[key] == b then Existing else Failed(Conflict))
    else if b.canvas !in t.graph.canvases then (t, Failed(Backend))
    else (t.(bindings := t.bindings[key := b]), Inserted)
  }

  // ----- The scan at open -----

  predicate GraphKeysHold(g: Graph) {
    && (forall c :: c in g.canvases ==> g.canvases[c].default in LayersOf(g, c))
    && (forall l :: l in g.layers ==> g.layers[l] in g.canvases)
  }

  predicate PageKeysHold(s: Shelf, g: Graph) {
    forall key :: key in s.pages ==> key.0 in s.documents && s.pages[key].overlay in g.canvases
  }

  /** `PRAGMA foreign_key_check` finds nothing. */
  predicate ForeignKeysHold(t: Tables) {
    && GraphKeysHold(t.graph) && PageKeysHold(t.shelf, t.graph)
    && forall key :: key in t.bindings ==> t.bindings[key].canvas in t.graph.canvases
  }

  /** A document loads, and every page has its canvas. */
  ghost predicate DocumentScans(s: Shelf, g: Graph, d: Id) {
    var loaded := LoadDocument(s, d);
    && d in s.documents && 0 <= s.documents[d].sequence
    && loaded.Ok? && loaded.value.Some?
    && forall i :: 0 <= i < |loaded.value.value.pages| ==> PageScans(g, loaded.value.value, i)
  }

  predicate PageScans(g: Graph, d: Document, i: nat)
    requires i < |d.pages|
  {
    var c := LoadCanvas(g, d.pages[i].overlay);
    c.Ok? && c.value.Some? && Fits(d.pages[i], d.session, c.value.value)
  }

  predicate CanvasScans(g: Graph, c: Id) {
    LoadCanvas(g, c).Ok? && LoadCanvas(g, c).value.Some?
  }

  predicate BindingScans(g: Graph, b: Binding) {
    CanvasScans(g, b.canvas) && LoadCanvas(g, b.canvas).value.value.session == b.session
  }

  /** What `scan_integrity` accepts. */
  ghost predicate Scans(t: Tables) {
    && ForeignKeysHold(t)
    && (forall d :: d in t.shelf.documents ==> DocumentScans(t.shelf, t.graph, d))
    && (forall c :: c in t.graph.canvases ==> CanvasScans(t.graph, c))
    && (forall key :: key in t.bindings ==> BindingScans(t.graph, t.bindings[key]))
  }
}
