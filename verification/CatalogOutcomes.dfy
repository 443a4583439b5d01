/**
 What each publication of the catalog is answered, stated over what is stored, and that the
 scan at open notices when a row is missing or a canvas no longer fits its page.
 */
module CatalogOutcomes {
  import opened Foundation
  import opened Catalog
  import opened CatalogSafety

  ghost predicate Stored(t: Tables, c: Canvas) {
    LoadCanvas(t.graph, c.id) == Ok(Some(c))
  }

  predicate LayersFree(t: Tables, c: Canvas) {
    forall l :: l in c.layers ==> l !in t.graph.layers
  }

  lemma FreeMeansDisjoint(t: Tables, c: Canvas)
    ensures LayersFree(t, c) <==> c.layers * t.graph.layers.Keys == {}
  {
    assert forall l :: l in c.layers && l in t.graph.layers ==> l in c.layers * t.graph.layers.Keys;
  }

  lemma StoredCanvas(t: Tables, c: Id)
    requires Sound(t)
    ensures c in t.graph.canvases <==> LoadCanvas(t.graph, c) != Ok(None)
    ensures c in t.graph.canvases ==> LoadCanvas(t.graph, c).Ok? && LoadCanvas(t.graph, c).value.Some?
  {
    assert c in t.graph.canvases ==> CanvasScans(t.graph, c);
  }

  /** A standalone canvas: Existing if it is stored as given, Conflict if another is stored under its id or a layer is in use, else Inserted. */
  lemma StandaloneOutcome(t: Tables, c: Canvas)
    requires Sound(t) && ValidCanvas(c)
    ensures var (t', r) := PublishStandalone(t, c);
            && (r == Existing <==> Stored(t, c))
            && (r == Failed(Conflict) <==> if c.id in t.graph.canvases then !Stored(t, c) else !LayersFree(t, c))
            && (r == Inserted <==> c.id !in t.graph.canvases && LayersFree(t, c))
            && (!r.Failed? ==> Stored(t', c))
  {
    StoredCanvas(t, c.id);
    FreeMeansDisjoint(t, c);
    if PublishStandalone(t, c).1 == Inserted {
      InsertedCanvas(t, c);
    }
  }

  /** The binding names the canvas and its session, and the key is free or already has it. */
  predicate BindingFits(t: Tables, key: string, c: Canvas, b: Binding) {
    b.canvas == c.id && b.session == c.session && (key in t.bindings ==> t.bindings[key] == b)
  }

  /** A canvas with its bootstrap binding. */
  lemma BoundOutcome(t: Tables, key: string, c: Canvas, b: Binding)
    requires Sound(t) && ValidCanvas(c)
    ensures var (t', r) := PublishWithBinding(t, key, c, b);
            && (r == Existing <==> BindingFits(t, key, c, b) && Stored(t, c))
            && (r == Inserted <==> BindingFits(t, key, c, b) && c.id !in t.graph.canvases && LayersFree(t, c))
            && (r == Failed(Backend) <==> BindingFits(t, key, c, b) && c.id !in t.graph.canvases && !LayersFree(t, c))
            && (r == Failed(Conflict) <==> !BindingFits(t, key, c, b) || (c.id in t.graph.canvases && !Stored(t, c)))
            && (!r.Failed? ==> Stored(t', c) && key in t'.bindings && t'.bindings[key] == b)
  {
    StoredCanvas(t, c.id);
    FreeMeansDisjoint(t, c);
    assert key in t.bindings ==> BindingScans(t.graph, t.bindings[key]);
    if InsertCanvas(t.graph, c).Some? {
      InsertedCanvas(t, c);
    }
  }

  /** A binding alone: the key decides, then whether the canvas exists. */
  lemma BindingOutcome(t: Tables, key: string, b: Binding)
    ensures var (t', r) := StoreBinding(t, key, b);
            && (r == Existing <==> key in t.bindings && t.bindings[key] == b)
            && (r == Failed(Conflict) <==> key in t.bindings && t.bindings[key] != b)
            && (r == Failed(Backend) <==> key !in t.bindings && b.canvas !in t.graph.canvases)
            && (r == Inserted <==> key !in t.bindings && b.canvas in t.graph.canvases)
            && (!r.Failed? ==> t'.bindings == t.bindings[key := b])
  {
  }

  // ----- Documents -----

  predicate Apart(a: Canvas, b: Canvas) {
    a.id != b.id && a.layers !! b.layers
  }

  /** No two canvases of the composition share an id or a layer. */
  predicate CanvasesApart(cs: seq<Canvas>) {
    forall i, j :: 0 <= i < j < |cs| ==> Apart(cs[i], cs[j])
  }

  predicate ApartFromAll(cs: seq<Canvas>, c: Canvas) {
    forall i :: 0 <= i < |cs| ==> Apart(cs[i], c)
  }

  lemma ApartSnoc(cs: seq<Canvas>)
    requires cs != []
    ensures var n := |cs| - 1; CanvasesApart(cs) <==> CanvasesApart(cs[..n]) && ApartFromAll(cs[..n], cs[n])
  {
    var n := |cs| - 1;
    assert forall i :: 0 <= i < n ==> cs[..n][i] == cs[i];
  }

  predicate CanvasFree(g: Graph, c: Canvas) {
    c.id !in g.canvases && forall l :: l in c.layers ==> l !in g.layers
  }

  predicate CanvasesFree(g: Graph, cs: seq<Canvas>) {
    forall i :: 0 <= i < |cs| ==> CanvasFree(g, cs[i])
  }

  predicate IdAmong(cs: seq<Canvas>, c: Id) {
    exists i :: 0 <= i < |cs| && cs[i].id == c
  }

  predicate LayerAmong(cs: seq<Canvas>, l: Id) {
    exists i :: 0 <= i < |cs| && l in cs[i].layers
  }

  lemma AmongSnoc(cs: seq<Canvas>, c: Id, l: Id)
    requires cs != []
    ensures var n := |cs| - 1;
            && (IdAmong(cs, c) <==> IdAmong(cs[..n], c) || cs[n].id == c)
            && (LayerAmong(cs, l) <==> LayerAmong(cs[..n], l) || l in cs[n].layers)
  {
    var n := |cs| - 1;
    if IdAmong(cs[..n], c) {
      var i :| 0 <= i < n && cs[..n][i].id == c;
      assert cs[i].id == c;
    }
    if LayerAmong(cs[..n], l) {
      var i :| 0 <= i < n && l in cs[..n][i].layers;
      assert l in cs[i].layers;
    }
    if IdAmong(cs, c) {
      var i :| 0 <= i < |cs| && cs[i].id == c;
      assert i < n ==> cs[..n][i].id == c;
    }
    if LayerAmong(cs, l) {
      var i :| 0 <= i < |cs| && l in cs[i].layers;
      assert i < n ==> l in cs[..n][i].layers;
    }
  }

  /** The keys in use after the canvases went in. */
  lemma {:induction false} InsertedKeys(g: Graph, cs: seq<Canvas>, c: Id, l: Id)
    requires InsertCanvases(g, cs).Some?
    ensures var g' := InsertCanvases(g, cs).value;
            && (c in g'.canvases <==> c in g.canvases || IdAmong(cs, c))
            && (l in g'.layers <==> l in g.layers || LayerAmong(cs, l))
  {
    if cs != [] {
      InsertedKeys(g, cs[..|cs| - 1], c, l);
      AmongSnoc(cs, c, l);
    }
  }

  lemma FreeSnoc(g: Graph, cs: seq<Canvas>, g': Graph, c: Canvas)
    requires InsertCanvases(g, cs) == Some(g') && CanvasFree(g, c)
    ensures CanvasFree(g', c) <==> ApartFromAll(cs, c)
  {
    InsertedKeys(g, cs, c.id, 0);
    forall l ensures l in g'.layers <==> l in g.layers || LayerAmong(cs, l) {
      InsertedKeys(g, cs, c.id, l);
    }
    if CanvasFree(g', c) {
      forall i | 0 <= i < |cs| ensures Apart(cs[i], c) {
        assert cs[i].id == c.id ==> IdAmong(cs, c.id);
        assert forall l :: l in cs[i].layers && l in c.layers ==> LayerAmong(cs, l);
      }
    }
    if ApartFromAll(cs, c) {
      assert forall i :: 0 <= i < |cs| ==> Apart(cs[i], c);
      forall l | l in c.layers ensures !LayerAmong(cs, l) {
        assert forall i :: 0 <= i < |cs| ==> Apart(cs[i], c);
      }
    }
  }

  lemma CanvasFreeInserts(g: Graph, c: Canvas)
    ensures InsertCanvas(g, c).Some? <==> CanvasFree(g, c)
  {
    assert forall l :: l in c.layers && l in g.layers ==> l in c.layers * g.layers.Keys;
  }

  lemma FreeFront(g: Graph, cs: seq<Canvas>)
    requires cs != [] && CanvasesFree(g, cs)
    ensures CanvasesFree(g, cs[..|cs| - 1]) && CanvasFree(g, cs[|cs| - 1])
  {
  }

  /** The canvases go in exactly when they are free and apart. */
  lemma {:induction false} CanvasesInsertIff(g: Graph, cs: seq<Canvas>)
    requires CanvasesFree(g, cs)
    ensures InsertCanvases(g, cs).Some? <==> CanvasesApart(cs)
  {
    if cs != [] {
      var front, c := cs[..|cs| - 1], cs[|cs| - 1];
      FreeFront(g, cs);
      CanvasesInsertIff(g, front);
      ApartSnoc(cs);
      if InsertCanvases(g, front).Some? {
        var g' := InsertCanvases(g, front).value;
        CanvasFreeInserts(g', c);
        FreeSnoc(g, front, g', c);
      }
    }
  }

  /** No two pages of the document share an id, and none is in use. */
  predicate PagesFree(pages: PageTable, ps: seq<Page>) {
    && (forall i, key :: 0 <= i < |ps| && key in pages ==> pages[key].id != ps[i].id)
    && (forall i, j :: 0 <= i < j < |ps| ==> ps[i].id != ps[j].id)
  }

  /** The overlays are there and, like the indices, all different. */
  ghost predicate PagesPlaced(pages: PageTable, g: Graph, d: Id, ps: seq<Page>) {
    && (forall key :: key in pages ==> key.0 != d)
    && (forall i :: 0 <= i < |ps| ==> ps[i].overlay in g.canvases)
    && (forall i, j :: 0 <= i < j < |ps| ==> ps[i].index != ps[j].index && ps[i].overlay != ps[j].overlay)
  }

  lemma PageAdmitted(pages: PageTable, front: PageTable, g: Graph, d: Id, ps: seq<Page>)
    requires ps != [] && PagesPlaced(pages, g, d, ps) && PagesAdded(pages, front, d, ps[..|ps| - 1])
    ensures var n := |ps| - 1;
            AdmitsPage(front, g, d, ps[n]) <==>
            && (forall key :: key in pages ==> pages[key].id != ps[n].id)
            && (forall i :: 0 <= i < n ==> ps[i].id != ps[n].id)
  {
    var n := |ps| - 1;
    var p := ps[n];
    assert forall i :: 0 <= i < n ==> ps[..n][i] == ps[i];
    forall key | key in front && key !in pages
      ensures exists i :: 0 <= i < n && key == (d, ps[i].index as int) && front[key] == RowOfPage(ps[i])
    {
      var i :| 0 <= i < n && ps[..n][i].index == key.1;
      assert key == (d, ps[i].index as int);
    }
    assert (d, p.index as int) !in front;
    if AdmitsPage(front, g, d, p) {
      forall i | 0 <= i < n ensures ps[i].id != p.id {
        assert (d, ps[i].index as int) in front && front[(d, ps[i].index as int)] == RowOfPage(ps[i]);
      }
    }
  }

  lemma PagesFreeSnoc(pages: PageTable, ps: seq<Page>)
    requires ps != []
    ensures var n := |ps| - 1;
            PagesFree(pages, ps) <==>
            && PagesFree(pages, ps[..n])
            && (forall key :: key in pages ==> pages[key].id != ps[n].id)
            && (forall i :: 0 <= i < n ==> ps[i].id != ps[n].id)
  {
    var n := |ps| - 1;
    assert forall i :: 0 <= i < n ==> ps[..n][i] == ps[i];
  }

  lemma PagesPlacedFront(pages: PageTable, g: Graph, d: Id, ps: seq<Page>)
    requires ps != [] && PagesPlaced(pages, g, d, ps)
    ensures PagesPlaced(pages, g, d, ps[..|ps| - 1])
  {
    assert forall i :: 0 <= i < |ps| - 1 ==> ps[..|ps| - 1][i] == ps[i];
  }

  /** Well-placed pages go in exactly when their ids are free and apart. */
  lemma {:induction false} PagesInsertIff(pages: PageTable, g: Graph, d: Id, ps: seq<Page>)
    requires PagesPlaced(pages, g, d, ps)
    ensures InsertPages(pages, g, d, ps).Some? <==> PagesFree(pages, ps)
  {
    if ps != [] {
      var front := ps[..|ps| - 1];
      PagesPlacedFront(pages, g, d, ps);
      PagesInsertIff(pages, g, d, front);
      PagesFreeSnoc(pages, ps);
      if InsertPages(pages, g, d, front).Some? {
        PagesInserted(pages, g, d, front);
        PageAdmitted(pages, InsertPages(pages, g, d, front).value, g, d, ps);
      }
    }
  }

  /** There is a publication sequence left. */
  predicate SequenceLeft(s: Shelf) {
    forall d :: d in s.documents ==> s.documents[d].sequence < I64_MAX
  }

  lemma SequenceLeftIff(s: Shelf)
    ensures NextSequence(s).Ok? <==> SequenceLeft(s)
  {
    var last := Greatest(Sequences(s));
    forall d | d in s.documents ensures last.Some? && s.documents[d].sequence <= last.value {
      assert s.documents[d].sequence in Sequences(s);
    }
    if last.Some? {
      var d :| d in s.documents && s.documents[d].sequence == last.value;
    }
  }

  /** The pages of a valid composition with new, separate canvases are well placed. */
  lemma NewPagesPlaced(t: Tables, c: Composition)
    requires Sound(t) && ValidComposition(c) && c.document.id !in t.shelf.documents
    requires CanvasesApart(c.canvases) && InsertCanvases(t.graph, c.canvases).Some?
    ensures PagesPlaced(t.shelf.pages, InsertCanvases(t.graph, c.canvases).value, c.document.id, c.document.pages)
  {
    var d, g' := c.document, InsertCanvases(t.graph, c.canvases).value;
    forall i | 0 <= i < |d.pages| ensures d.pages[i].overlay in g'.canvases && d.pages[i].overlay == c.canvases[i].id {
      assert Fits(d.pages[i], d.session, c.canvases[i]);
      InsertedKeys(t.graph, c.canvases, c.canvases[i].id, 0);
    }
  }

  lemma CollidesIff(t: Tables, c: Composition)
    requires c.document.id !in t.shelf.documents
    ensures Collides(t, c) <==> !CanvasesFree(t.graph, c.canvases)
  {
    forall i | 0 <= i < |c.canvases|
      ensures CanvasFree(t.graph, c.canvases[i]) <==>
              c.canvases[i].id !in t.graph.canvases && c.canvases[i].layers * t.graph.layers.Keys == {}
    {
      CanvasFreeInserts(t.graph, c.canvases[i]);
    }
  }

  /** A valid composition whose document is new: Conflict when a canvas or layer is in use; Inserted when all its own ids are apart, its page ids free and a sequence left. */
  lemma NewDocumentOutcome(t: Tables, c: Composition)
    requires Sound(t) && ValidComposition(c) && c.document.id !in t.shelf.documents
    ensures var r := PublishDocument(t, c).1;
            && (r == Failed(Conflict) <==> !CanvasesFree(t.graph, c.canvases))
            && (r == Inserted <==>
                  && CanvasesFree(t.graph, c.canvases) && CanvasesApart(c.canvases)
                  && PagesFree(t.shelf.pages, c.document.pages) && SequenceLeft(t.shelf))
            && (r.Failed? && r.error != Conflict ==> r.error == Backend)
  {
    CollidesIff(t, c);
    if CanvasesFree(t.graph, c.canvases) {
      SequenceLeftIff(t.shelf);
      CanvasesInsertIff(t.graph, c.canvases);
      if CanvasesApart(c.canvases) {
        NewPagesPlaced(t, c);
        PagesInsertIff(t.shelf.pages, InsertCanvases(t.graph, c.canvases).value, c.document.id, c.document.pages);
      }
    }
  }

  ghost predicate AllStored(g: Graph, cs: seq<Canvas>) {
    forall i :: 0 <= i < |cs| ==> cs[i].id in g.canvases
  }

  lemma {:induction false} SameCanvasesFails(g: Graph, cs: seq<Canvas>)
    requires forall x :: x in g.canvases ==> CanvasScans(g, x)
    ensures SameCanvases(g, cs).Ok? <==> AllStored(g, cs)
    ensures SameCanvases(g, cs).Err? ==> SameCanvases(g, cs) == Err(Corruption)
  {
    if cs != [] {
      var n := |cs| - 1;
      SameCanvasesFails(g, cs[..n]);
      assert forall i :: 0 <= i < n ==> cs[..n][i] == cs[i];
    }
  }

  /** A document id that is stored: Existing if all of the composition is stored as given, Corruption if it names a canvas that is not stored, else Conflict. */
  lemma StoredDocumentOutcome(t: Tables, c: Composition)
    requires Sound(t) && c.document.id in t.shelf.documents
    ensures var r := PublishDocument(t, c).1;
            && (r == Existing <==> Published(t, c))
            && (r == Failed(Corruption) <==> !AllStored(t.graph, c.canvases))
            && (r == Failed(Conflict) <==> AllStored(t.graph, c.canvases) && !Published(t, c))
  {
    ExistingIffPublished(t, c);
    assert DocumentScans(t.shelf, t.graph, c.document.id);
    SameCanvasesFails(t.graph, c.canvases);
  }

  // ----- Publication sequences -----

  /** Documents are never deleted, so in every run their sequences are 0, 1, ..., n - 1. */
  ghost predicate Numbered(s: Shelf) {
    Dense(Sequences(s), |s.documents|)
  }

  lemma NextIsCount(s: Shelf)
    requires Numbered(s) && NextSequence(s).Ok?
    ensures NextSequence(s).value == |s.documents|
  {
    DenseListing(Sequences(s), |s.documents|);
    var n := |s.documents|;
    if n > 0 {
      assert n - 1 in Sequences(s);
    }
  }

  lemma InsertedIsNumbered(s: Shelf, d: Document, pages: PageTable)
    requires Numbered(s) && NextSequence(s).Ok? && d.id !in s.documents
    ensures Numbered(NewShelf(s, d, NextSequence(s).value, pages))
  {
    NextIsCount(s);
    var s', n := NewShelf(s, d, NextSequence(s).value, pages), |s.documents|;
    forall k ensures k in Sequences(s') <==> k in Sequences(s) || k == n {
      if k in Sequences(s) {
        var x :| x in s.documents && s.documents[x].sequence == k;
        assert s'.documents[x].sequence == k;
      }
      assert s'.documents[d.id].sequence == n;
    }
  }

  lemma StepNumbered(t: Tables, c: Command)
    requires Numbered(t.shelf)
    ensures Numbered(Perform(t, c).0.shelf)
  {
    if c.AddDocument? && PublishDocument(t, c.composition).1 == Inserted {
      InsertedIsNumbered(t.shelf, c.composition.document, PublishDocument(t, c.composition).0.shelf.pages);
    } else if c.AddDocument? {
      UnlessInserted(t, c.composition);
    }
  }

  lemma {:induction false} RunNumbered(cs: seq<Command>)
    ensures Numbered(Run(EMPTY, cs).shelf)
  {
    if cs == [] {
      assert Sequences(EMPTY.shelf) == {};
    } else {
      RunNumbered(cs[..|cs| - 1]);
      StepNumbered(Run(EMPTY, cs[..|cs| - 1]), cs[|cs| - 1]);
    }
  }

  // ----- What the scan notices -----

  lemma LoadedPageCount(pages: PageTable, d: Id)
    requires LoadPages(pages, d).Ok?
    ensures |LoadPages(pages, d).value| == |IndicesOf(pages, d)|
  {
    ListingSize(Ascending(IndicesOf(pages, d)), IndicesOf(pages, d));
  }

  lemma IndicesWithout(pages: PageTable, key: (Id, int))
    requires key in pages
    ensures key.1 in IndicesOf(pages, key.0) && IndicesOf(pages - {key}, key.0) == IndicesOf(pages, key.0) - {key.1}
  {
    forall k ensures k in IndicesOf(pages - {key}, key.0) <==> k in IndicesOf(pages, key.0) && k != key.1 {
      if k in IndicesOf(pages, key.0) && k != key.1 {
        var other :| other in pages && other.0 == key.0 && other.1 == k;
        assert other in pages - {key};
      }
    }
  }

  /** A page row that is missing. */
  lemma MissingPageNoticed(t: Tables, key: (Id, int))
    requires Sound(t) && key in t.shelf.pages
    ensures !Scans(t.(shelf := t.shelf.(pages := t.shelf.pages - {key})))
  {
    assert DocumentScans(t.shelf, t.graph, key.0);
    ShorterDocument(t.shelf, t.graph, key);
  }

  lemma ShorterDocument(s: Shelf, g: Graph, key: (Id, int))
    requires DocumentScans(s, g, key.0) && key in s.pages
    ensures !DocumentScans(s.(pages := s.pages - {key}), g, key.0)
  {
    LoadedPageCount(s.pages, key.0);
    IndicesWithout(s.pages, key);
    if LoadPages(s.pages - {key}, key.0).Ok? {
      LoadedPageCount(s.pages - {key}, key.0);
    }
  }

  /** A layer row that is missing, the default one or any other. */
  lemma MissingLayerNoticed(t: Tables, l: Id)
    requires Sound(t) && l in t.graph.layers
    ensures !Scans(t.(graph := t.graph.(layers := t.graph.layers - {l})))
  {
    var c, g' := t.graph.layers[l], t.graph.(layers := t.graph.layers - {l});
    assert CanvasScans(t.graph, c);
    assert LayersOf(g', c) == LayersOf(t.graph, c) - {l};
    assert !CanvasScans(g', c);
  }

  /** A canvas row that is missing: its layers refer to nothing. */
  lemma MissingCanvasNoticed(t: Tables, c: Id)
    requires Sound(t) && c in t.graph.canvases
    ensures !Scans(t.(graph := t.graph.(canvases := t.graph.canvases - {c})))
  {
    assert CanvasScans(t.graph, c);
    var l := t.graph.canvases[c].default;
    assert l in LayersOf(t.graph, c);
  }

  /** A document row that is missing: its pages refer to nothing. */
  lemma MissingDocumentNoticed(t: Tables, d: Id)
    requires Sound(t) && d in t.shelf.documents
    ensures !Scans(t.(shelf := t.shelf.(documents := t.shelf.documents - {d})))
  {
    assert DocumentScans(t.shelf, t.graph, d);
    LoadedPageCount(t.shelf.pages, d);
    var k := Inhabitant(IndicesOf(t.shelf.pages, d));
    var key :| key in t.shelf.pages && key.0 == d && key.1 == k;
  }

  /** Where the page of a stored row stands in its document. */
  lemma PagePlace(t: Tables, key: (Id, int)) returns (i: nat)
    requires Sound(t) && key in t.shelf.pages && key.0 in t.shelf.documents
    ensures var doc := LoadDocument(t.shelf, key.0);
            && doc.Ok? && doc.value.Some? && i < |doc.value.value.pages|
            && key.1 >= 0 && t.shelf.pages[key].rotation >= 0 && doc.value.value.pages[i] == RowPage(key.1, t.shelf.pages[key])
  {
    assert DocumentScans(t.shelf, t.graph, key.0);
    var rows := Ascending(IndicesOf(t.shelf.pages, key.0));
    assert key.1 in IndicesOf(t.shelf.pages, key.0);
    i :| 0 <= i < |rows| && rows[i] == key.1;
  }

  /** An overlay canvas of another session or size than its page. */
  lemma MisfitNoticed(t: Tables, key: (Id, int), row: CanvasRow)
    requires Sound(t) && key in t.shelf.pages
    requires var page, d := t.shelf.pages[key], t.shelf.documents;
             key.0 in d && (row.session != d[key.0].session || row.width != page.width || row.height != page.height)
    ensures !Scans(t.(graph := t.graph.(canvases := t.graph.canvases[t.shelf.pages[key].overlay := row])))
  {
    var c := t.shelf.pages[key].overlay;
    var g' := t.graph.(canvases := t.graph.canvases[c := row]);
    var i := PagePlace(t, key);
    assert !PageScans(g', LoadDocument(t.shelf, key.0).value.value, i);
    assert !DocumentScans(t.shelf, g', key.0);
  }
}
