/**
 Every state the catalog's publishers can produce is accepted by the scan at open, owns
 each overlay canvas once, and keeps loading what was published.
 */
module CatalogSafety {
  import opened Foundation
  import opened Catalog

  // ----- Canvases and layers -----

  ghost predicate Closed(g: Graph) {
    forall l :: l in g.layers ==> g.layers[l] in g.canvases
  }

  /** The canvases of `g` are there in `g'` with the same layers. */
  ghost predicate GraphGrows(g: Graph, g': Graph) {
    forall c :: c in g.canvases ==> c in g'.canvases && LoadCanvas(g', c) == LoadCanvas(g, c)
  }

  ghost predicate SameElsewhere(g: Graph, g': Graph, c: Id) {
    forall x :: x != c ==> (x in g'.canvases <==> x in g.canvases) && LoadCanvas(g', x) == LoadCanvas(g, x)
  }

  /** The layers of the new canvas are those given, and every other canvas has the layers it had. */
  lemma InsertedLayers(g: Graph, c: Canvas, x: Id)
    requires Closed(g) && InsertCanvas(g, c).Some?
    ensures var g' := InsertCanvas(g, c).value;
            LayersOf(g', x) == if x == c.id then c.layers else LayersOf(g, x)
  {
    var g' := InsertCanvas(g, c).value;
    assert forall l :: l in c.layers && l in g.layers ==> l in c.layers * g.layers.Keys;
    assert forall l :: l in LayersOf(g', x) <==> if x == c.id then l in c.layers else l in LayersOf(g, x);
  }

  lemma InsertedStaysClosed(g: Graph, c: Canvas)
    requires Closed(g) && InsertCanvas(g, c).Some?
    ensures Closed(InsertCanvas(g, c).value)
  {
  }

  /** A canvas just inserted loads as given, and no other canvas loads differently. */
  lemma InsertedCanvasLoads(g: Graph, c: Canvas)
    requires Closed(g) && ValidCanvas(c) && InsertCanvas(g, c).Some?
    ensures var g' := InsertCanvas(g, c).value;
            && Closed(g') && c.id !in g.canvases && c.id in g'.canvases
            && LoadCanvas(g', c.id) == Ok(Some(c)) && SameElsewhere(g, g', c.id)
  {
    var g' := InsertCanvas(g, c).value;
    InsertedStaysClosed(g, c);
    InsertedLayers(g, c, c.id);
    assert |c.layers| > 0 by {
      assert c.default in c.layers;
    }
    forall x | x != c.id ensures (x in g'.canvases <==> x in g.canvases) && LoadCanvas(g', x) == LoadCanvas(g, x) {
      InsertedLayers(g, c, x);
    }
  }

  /** The canvases of `cs` are new in `g'` and load as given; the others load as before. */
  ghost predicate CanvasesAdded(g: Graph, g': Graph, cs: seq<Canvas>) {
    && GraphGrows(g, g')
    && (forall i :: 0 <= i < |cs| ==> cs[i].id !in g.canvases && cs[i].id in g'.canvases && LoadCanvas(g', cs[i].id) == Ok(Some(cs[i])))
    && (forall x :: x in g'.canvases && x !in g.canvases ==> CanvasScans(g', x))
  }

  lemma OneMoreCanvas(g: Graph, mid: Graph, g': Graph, cs: seq<Canvas>, c: Canvas)
    requires CanvasesAdded(g, mid, cs) && SameElsewhere(mid, g', c.id)
    requires c.id !in mid.canvases && c.id in g'.canvases && LoadCanvas(g', c.id) == Ok(Some(c))
    ensures CanvasesAdded(g, g', cs + [c])
  {
    var all := cs + [c];
    forall i | 0 <= i < |all| ensures all[i].id !in g.canvases && all[i].id in g'.canvases && LoadCanvas(g', all[i].id) == Ok(Some(all[i])) {
      assert i < |cs| ==> all[i] == cs[i];
    }
  }

  lemma LastCanvas(g: Graph, cs: seq<Canvas>) returns (mid: Graph)
    requires cs != [] && InsertCanvases(g, cs).Some?
    ensures InsertCanvases(g, cs[..|cs| - 1]) == Some(mid) && InsertCanvas(mid, cs[|cs| - 1]) == InsertCanvases(g, cs)
  {
    mid := InsertCanvases(g, cs[..|cs| - 1]).value;
  }

  lemma InsertedCanvasAdds(g: Graph, mid: Graph, g': Graph, cs: seq<Canvas>, c: Canvas)
    requires Extended(g, mid, cs) && ValidCanvas(c) && InsertCanvas(mid, c) == Some(g')
    ensures Extended(g, g', cs + [c])
  {
    InsertedCanvasLoads(mid, c);
    OneMoreCanvas(g, mid, g', cs, c);
  }

  /** What inserting `cs` one after the other comes to. */
  ghost predicate Extended(g: Graph, g': Graph, cs: seq<Canvas>) {
    Closed(g') && CanvasesAdded(g, g', cs)
  }

  ghost predicate AllValid(cs: seq<Canvas>) {
    forall i :: 0 <= i < |cs| ==> ValidCanvas(cs[i])
  }

  lemma AllValidFront(cs: seq<Canvas>)
    requires AllValid(cs) && cs != []
    ensures AllValid(cs[..|cs| - 1]) && ValidCanvas(cs[|cs| - 1])
  {
  }

  /** A property of the graph and the canvases that went into it, kept by inserting one more. */
  ghost predicate KeptBy(inv: (Graph, seq<Canvas>) -> bool, mid: Graph, front: seq<Canvas>, c: Canvas, g': Graph) {
    inv(mid, front) && ValidCanvas(c) && InsertCanvas(mid, c) == Some(g') ==> inv(g', front + [c])
  }

  /** ... holds of the graph after inserting them all. */
  lemma {:induction false} FoldCanvases(inv: (Graph, seq<Canvas>) -> bool, g: Graph, cs: seq<Canvas>, g': Graph)
    requires inv(g, []) && AllValid(cs) && InsertCanvases(g, cs) == Some(g')
    requires forall mid, front, c, next :: KeptBy(inv, mid, front, c, next)
    ensures inv(g', cs)
  {
    if cs != [] {
      var n := |cs| - 1;
      var mid := LastCanvas(g, cs);
      AllValidFront(cs);
      FoldCanvases(inv, g, cs[..n], mid);
      assert KeptBy(inv, mid, cs[..n], cs[n], g');
      assert cs[..n] + [cs[n]] == cs;
    }
  }

  lemma InsertedCanvasesLoad(g: Graph, cs: seq<Canvas>, g': Graph)
    requires Closed(g) && AllValid(cs) && InsertCanvases(g, cs) == Some(g')
    ensures Extended(g, g', cs)
  {
    var inv := (x: Graph, front: seq<Canvas>) => Extended(g, x, front);
    assert Extended(g, g, []);
    forall mid, front, c, next ensures KeptBy(inv, mid, front, c, next) {
      if Extended(g, mid, front) && ValidCanvas(c) && InsertCanvas(mid, c) == Some(next) {
        InsertedCanvasAdds(g, mid, next, front, c);
      }
    }
    FoldCanvases(inv, g, cs, g');
  }

  // ----- Pages -----

  ghost predicate PageIn(ps: seq<Page>, index: int) {
    exists i :: 0 <= i < |ps| && ps[i].index == index
  }

  /** The page table with the pages of `ps` added under `d`. */
  ghost predicate PagesAdded(pages: PageTable, pages': PageTable, d: Id, ps: seq<Page>) {
    && (forall key :: key in pages ==> key in pages' && pages'[key] == pages[key])
    && (forall key :: key in pages' ==> key in pages || (key.0 == d && PageIn(ps, key.1)))
    && (forall i :: 0 <= i < |ps| ==> (d, ps[i].index as int) in pages' && pages'[(d, ps[i].index as int)] == RowOfPage(ps[i]))
  }

  /** Within one document no two pages share an overlay canvas; across documents neither. */
  ghost predicate OverlaysOwned(pages: PageTable) {
    forall k, m :: k in pages && m in pages && pages[k].overlay == pages[m].overlay ==> k == m
  }

  lemma OneMorePage(pages: PageTable, front: PageTable, d: Id, ps: seq<Page>, p: Page)
    requires PagesAdded(pages, front, d, ps) && (d, p.index as int) !in front
    ensures PagesAdded(pages, front[(d, p.index as int) := RowOfPage(p)], d, ps + [p])
  {
    var pages', all := front[(d, p.index as int) := RowOfPage(p)], ps + [p];
    assert forall i :: 0 <= i < |ps| ==> all[i] == ps[i];
    assert all[|ps|].index == p.index;
    forall key | key in pages' && key !in pages ensures key.0 == d && PageIn(all, key.1) {
      if key in front {
        var i :| 0 <= i < |ps| && ps[i].index == key.1;
        assert all[i].index == key.1;
      }
    }
  }

  lemma {:induction false} PagesInserted(pages: PageTable, g: Graph, d: Id, ps: seq<Page>)
    requires InsertPages(pages, g, d, ps).Some?
    ensures PagesAdded(pages, InsertPages(pages, g, d, ps).value, d, ps)
    ensures forall key :: key in InsertPages(pages, g, d, ps).value && key !in pages ==> InsertPages(pages, g, d, ps).value[key].overlay in g.canvases
  {
    if ps != [] {
      var n := |ps| - 1;
      PagesInserted(pages, g, d, ps[..n]);
      OneMorePage(pages, InsertPages(pages, g, d, ps[..n]).value, d, ps[..n], ps[n]);
      assert ps[..n] + [ps[n]] == ps;
    }
  }

  lemma {:induction false} InsertedOverlaysOwned(pages: PageTable, g: Graph, d: Id, ps: seq<Page>)
    requires InsertPages(pages, g, d, ps).Some? && OverlaysOwned(pages)
    requires forall i, key :: 0 <= i < |ps| && key in pages ==> pages[key].overlay != ps[i].overlay
    ensures OverlaysOwned(InsertPages(pages, g, d, ps).value)
  {
    if ps != [] {
      var n := |ps| - 1;
      assert forall i :: 0 <= i < n ==> ps[..n][i] == ps[i];
      InsertedOverlaysOwned(pages, g, d, ps[..n]);
      PagesInserted(pages, g, d, ps[..n]);
    }
  }

  /** The pages of a new document load as given. */
  lemma AddedPagesLoad(pages: PageTable, pages': PageTable, d: Id, ps: seq<Page>)
    requires PagesAdded(pages, pages', d, ps) && ValidPages(ps)
    requires forall key :: key in pages ==> key.0 != d
    ensures LoadPages(pages', d) == Ok(ps)
  {
    var s := seq(|ps|, i requires 0 <= i < |ps| => ps[i].index as int);
    forall k | k in IndicesOf(pages', d) ensures k in s {
      var key :| key in pages' && key.0 == d && key.1 == k;
      var i :| 0 <= i < |ps| && ps[i].index == key.1;
      assert s[i] == k;
    }
    forall i | 0 <= i < |s| ensures s[i] in IndicesOf(pages', d) {
      assert (d, s[i]) in pages' && (d, s[i]).0 == d && (d, s[i]).1 == s[i];
    }
    AscendingUnique(s, IndicesOf(pages', d));
    forall i | 0 <= i < |s| ensures GoodPageRow(pages', d, s[i]) && RowPage(s[i], pages'[(d, s[i])]) == ps[i] {
      assert s[i] == ps[i].index;
      assert ValidPage(ps[i]);
    }
    assert RowPages(pages', d, s) == ps;
  }

  lemma OtherPagesLoad(pages: PageTable, pages': PageTable, d: Id, ps: seq<Page>, x: Id)
    requires PagesAdded(pages, pages', d, ps) && x != d
    ensures LoadPages(pages', x) == LoadPages(pages, x)
  {
    forall k ensures k in IndicesOf(pages', x) <==> k in IndicesOf(pages, x) {
      if k in IndicesOf(pages', x) {
        var key :| key in pages' && key.0 == x && key.1 == k;
        assert key in pages;
      }
    }
    assert IndicesOf(pages', x) == IndicesOf(pages, x);
    var rows := Ascending(IndicesOf(pages, x));
    forall i | 0 <= i < |rows| ensures (x, rows[i]) in pages && pages'[(x, rows[i])] == pages[(x, rows[i])] {
      assert rows[i] in IndicesOf(pages, x);
      var key :| key in pages && key.0 == x && key.1 == rows[i];
      assert key == (x, rows[i]);
    }
    assert GoodRows(pages', x, rows) <==> GoodRows(pages, x, rows) by {
      assert forall i :: 0 <= i < |rows| ==> GoodPageRow(pages', x, rows[i]) == GoodPageRow(pages, x, rows[i]);
    }
    if GoodRows(pages, x, rows) {
      assert RowPages(pages', x, rows) == RowPages(pages, x, rows);
    }
  }

  // ----- Whole states -----

  ghost predicate Sound(t: Tables) {
    Scans(t) && SequencesUnique(t.shelf) && OverlaysOwned(t.shelf.pages)
  }

  ghost predicate ShelfGrows(s: Shelf, s': Shelf) {
    forall d :: d in s.documents ==> d in s'.documents && s'.documents[d] == s.documents[d] && LoadDocument(s', d) == LoadDocument(s, d)
  }

  /** Whatever is stored in `t` is stored and loads the same in `t'`. */
  ghost predicate Preserves(t: Tables, t': Tables) {
    && ShelfGrows(t.shelf, t'.shelf) && GraphGrows(t.graph, t'.graph)
    && forall key :: key in t.bindings ==> key in t'.bindings && t'.bindings[key] == t.bindings[key]
  }

  lemma PreservesTransitive(a: Tables, b: Tables, c: Tables)
    requires Preserves(a, b) && Preserves(b, c)
    ensures Preserves(a, c)
  {
    forall x | x in a.graph.canvases ensures x in c.graph.canvases && LoadCanvas(c.graph, x) == LoadCanvas(a.graph, x) {
      assert x in b.graph.canvases;
    }
  }

  lemma DocumentStillScans(s: Shelf, s': Shelf, g: Graph, g': Graph, d: Id)
    requires DocumentScans(s, g, d) && GraphGrows(g, g') && ShelfGrows(s, s')
    ensures DocumentScans(s', g', d)
  {
    var doc := LoadDocument(s, d).value.value;
    forall i | 0 <= i < |doc.pages| ensures PageScans(g', doc, i) {
      assert PageScans(g, doc, i);
    }
  }

  /** More canvases, each of which scans, leave the graph and the bindings in order. */
  lemma GrownGraphScans(g: Graph, g': Graph, bindings: map<string, Binding>)
    requires GraphGrows(g, g') && Closed(g')
    requires forall x :: x in g.canvases ==> CanvasScans(g, x)
    requires forall x :: x in g'.canvases && x !in g.canvases ==> CanvasScans(g', x)
    requires forall key :: key in bindings ==> BindingScans(g, bindings[key])
    ensures GraphKeysHold(g') && forall x :: x in g'.canvases ==> CanvasScans(g', x)
    ensures forall key :: key in bindings ==> BindingScans(g', bindings[key]) && bindings[key].canvas in g'.canvases
  {
    forall x | x in g'.canvases ensures CanvasScans(g', x) && g'.canvases[x].default in LayersOf(g', x) {
      if x in g.canvases { assert CanvasScans(g, x); }
    }
    forall key | key in bindings ensures BindingScans(g', bindings[key]) && bindings[key].canvas in g'.canvases {
      assert BindingScans(g, bindings[key]);
    }
  }

  /** Adding canvases, alone, keeps a state sound. */
  lemma GraphGrowthKeepsSound(t: Tables, g': Graph)
    requires Sound(t) && GraphGrows(t.graph, g') && Closed(g')
    requires forall x :: x in g'.canvases && x !in t.graph.canvases ==> CanvasScans(g', x)
    ensures Sound(t.(graph := g')) && Preserves(t, t.(graph := g'))
  {
    GrownGraphScans(t.graph, g', t.bindings);
    GrownShelfScans(t.shelf, t.graph, g');
    SelfGrowing(t.shelf);
  }

  lemma SelfGrowing(s: Shelf)
    ensures ShelfGrows(s, s)
  {
  }

  lemma GrownShelfScans(s: Shelf, g: Graph, g': Graph)
    requires GraphGrows(g, g') && PageKeysHold(s, g) && forall d :: d in s.documents ==> DocumentScans(s, g, d)
    ensures PageKeysHold(s, g') && forall d :: d in s.documents ==> DocumentScans(s, g', d)
  {
    SelfGrowing(s);
    forall d | d in s.documents ensures DocumentScans(s, g', d) {
      DocumentStillScans(s, s, g, g', d);
    }
  }

  /** A new binding keeps a state sound exactly when it names the canvas's own session. */
  lemma NewBinding(t: Tables, key: string, b: Binding)
    requires Sound(t) && key !in t.bindings && b.canvas in t.graph.canvases
    ensures var t' := t.(bindings := t.bindings[key := b]);
            && (Scans(t') <==> t.graph.canvases[b.canvas].session == b.session)
            && (Scans(t') ==> Sound(t') && Preserves(t, t'))
  {
    var t' := t.(bindings := t.bindings[key := b]);
    assert CanvasScans(t.graph, b.canvas);
    assert t'.bindings[key] == b;
  }

  // ----- Publishing a document -----

  ghost function NewShelf(s: Shelf, d: Document, sequence: int, pages: PageTable): Shelf {
    Shelf(s.documents[d.id := DocumentRow(d.session, d.kind, d.asset, d.title, |d.pages|, sequence)], pages)
  }

  /** The new document loads as given and every other as before. */
  lemma NewDocumentLoads(s: Shelf, g: Graph, d: Document, sequence: int, pages: PageTable)
    requires d.id !in s.documents && PageKeysHold(s, g) && ValidPages(d.pages) && PagesAdded(s.pages, pages, d.id, d.pages)
    ensures var s' := NewShelf(s, d, sequence, pages);
            ShelfGrows(s, s') && LoadDocument(s', d.id) == Ok(Some(d))
  {
    var s' := NewShelf(s, d, sequence, pages);
    AddedPagesLoad(s.pages, pages, d.id, d.pages);
    forall x | x in s.documents ensures LoadPages(s'.pages, x) == LoadPages(s.pages, x) {
      OtherPagesLoad(s.pages, pages, d.id, d.pages, x);
    }
  }

  lemma NextSequenceIsFresh(s: Shelf, d: Document, pages: PageTable)
    requires SequencesUnique(s) && NextSequence(s).Ok? && forall x :: x in s.documents ==> 0 <= s.documents[x].sequence
    ensures NextSequence(s).value >= 0 && SequencesUnique(NewShelf(s, d, NextSequence(s).value, pages))
    ensures forall x :: x in s.documents ==> s.documents[x].sequence < NextSequence(s).value
  {
    forall x | x in s.documents ensures s.documents[x].sequence < NextSequence(s).value {
      assert s.documents[x].sequence in Sequences(s);
    }
    if s.documents != map[] {
      var last := Greatest(Sequences(s));
      assert last.Some? ==> exists x :: x in s.documents && s.documents[x].sequence == last.value;
    }
  }

  lemma NewDocumentScans(s: Shelf, g: Graph, g': Graph, c: Composition)
    requires ValidComposition(c) && CanvasesAdded(g, g', c.canvases)
    requires LoadDocument(s, c.document.id) == Ok(Some(c.document)) && s.documents[c.document.id].sequence >= 0
    ensures DocumentScans(s, g', c.document.id)
  {
    var d := c.document;
    forall i | 0 <= i < |d.pages| ensures PageScans(g', d, i) {
      assert Fits(d.pages[i], d.session, c.canvases[i]);
    }
  }

  lemma NewOverlaysAreNew(t: Tables, g': Graph, c: Composition, i: int, key: (Id, int))
    requires PageKeysHold(t.shelf, t.graph) && ValidComposition(c) && CanvasesAdded(t.graph, g', c.canvases)
    requires 0 <= i < |c.document.pages| && key in t.shelf.pages
    ensures t.shelf.pages[key].overlay != c.document.pages[i].overlay
  {
    assert Fits(c.document.pages[i], c.document.session, c.canvases[i]);
  }

  lemma InsertedPageKeys(t: Tables, g': Graph, s': Shelf, d: Document)
    requires PageKeysHold(t.shelf, t.graph) && GraphGrows(t.graph, g') && PagesAdded(t.shelf.pages, s'.pages, d.id, d.pages)
    requires s'.documents.Keys == t.shelf.documents.Keys + {d.id}
    requires forall key :: key in s'.pages && key !in t.shelf.pages ==> s'.pages[key].overlay in g'.canvases
    ensures PageKeysHold(s', g')
  {
    forall key | key in s'.pages ensures key.0 in s'.documents && s'.pages[key].overlay in g'.canvases {
      if key in t.shelf.pages { assert t.shelf.pages[key].overlay in t.graph.canvases; }
    }
  }

  /** What the three insert loops of one publication add up to. */
  ghost predicate Added(t: Tables, t': Tables, c: Composition) {
    && CanvasesAdded(t.graph, t'.graph, c.canvases) && Closed(t'.graph)
    && PagesAdded(t.shelf.pages, t'.shelf.pages, c.document.id, c.document.pages) && OverlaysOwned(t'.shelf.pages)
    && (forall key :: key in t'.shelf.pages && key !in t.shelf.pages ==> t'.shelf.pages[key].overlay in t'.graph.canvases)
    && NextSequence(t.shelf).Ok?
    && t'.shelf == NewShelf(t.shelf, c.document, NextSequence(t.shelf).value, t'.shelf.pages)
    && t'.bindings == t.bindings
  }

  lemma InsertsAdd(t: Tables, c: Composition)
    requires Sound(t) && ValidComposition(c) && InsertDocument(t, c).1 == Inserted
    ensures Added(t, InsertDocument(t, c).0, c)
  {
    var d, g' := c.document, InsertCanvases(t.graph, c.canvases).value;
    InsertedCanvasesLoad(t.graph, c.canvases, g');
    PagesInserted(t.shelf.pages, g', d.id, d.pages);
    forall i, key | 0 <= i < |d.pages| && key in t.shelf.pages ensures t.shelf.pages[key].overlay != d.pages[i].overlay {
      NewOverlaysAreNew(t, g', c, i, key);
    }
    InsertedOverlaysOwned(t.shelf.pages, g', d.id, d.pages);
  }

  lemma AddedShelf(t: Tables, t': Tables, c: Composition)
    requires Sound(t) && ValidComposition(c) && c.document.id !in t.shelf.documents && Added(t, t', c)
    ensures ShelfGrows(t.shelf, t'.shelf) && SequencesUnique(t'.shelf) && PageKeysHold(t'.shelf, t'.graph)
    ensures LoadDocument(t'.shelf, c.document.id) == Ok(Some(c.document))
    ensures DocumentScans(t'.shelf, t'.graph, c.document.id)
  {
    var d, sequence := c.document, NextSequence(t.shelf).value;
    NewDocumentLoads(t.shelf, t.graph, d, sequence, t'.shelf.pages);
    assert forall x :: x in t.shelf.documents ==> DocumentScans(t.shelf, t.graph, x);
    NextSequenceIsFresh(t.shelf, d, t'.shelf.pages);
    InsertedPageKeys(t, t'.graph, t'.shelf, d);
    NewDocumentScans(t'.shelf, t.graph, t'.graph, c);
  }

  lemma AddedIsSound(t: Tables, t': Tables, c: Composition)
    requires Sound(t) && ValidComposition(c) && c.document.id !in t.shelf.documents && Added(t, t', c)
    ensures Sound(t') && Preserves(t, t')
  {
    AddedShelf(t, t', c);
    GrownGraphScans(t.graph, t'.graph, t.bindings);
    forall x | x in t'.shelf.documents ensures DocumentScans(t'.shelf, t'.graph, x) {
      if x != c.document.id { DocumentStillScans(t.shelf, t'.shelf, t.graph, t'.graph, x); }
    }
  }

  /** Everything of the composition is stored and loads exactly as given. */
  ghost predicate Published(t: Tables, c: Composition) {
    && c.document.id in t.shelf.documents && LoadDocument(t.shelf, c.document.id) == Ok(Some(c.document))
    && forall i :: 0 <= i < |c.canvases| ==> c.canvases[i].id in t.graph.canvases && LoadCanvas(t.graph, c.canvases[i].id) == Ok(Some(c.canvases[i]))
  }

  lemma InsertedDocument(t: Tables, c: Composition)
    requires Sound(t) && ValidComposition(c) && PublishDocument(t, c).1 == Inserted
    ensures var t' := PublishDocument(t, c).0; Sound(t') && Preserves(t, t') && Published(t', c)
  {
    InsertsAdd(t, c);
    AddedIsSound(t, InsertDocument(t, c).0, c);
    AddedShelf(t, InsertDocument(t, c).0, c);
  }

  lemma PublishedStays(t: Tables, t': Tables, c: Composition)
    requires Published(t, c) && Preserves(t, t')
    ensures Published(t', c)
  {
  }

  lemma {:induction false} SameCanvasesMeans(g: Graph, cs: seq<Canvas>)
    requires forall x :: x in g.canvases ==> CanvasScans(g, x)
    ensures SameCanvases(g, cs) == Ok(true) <==>
            forall i :: 0 <= i < |cs| ==> cs[i].id in g.canvases && LoadCanvas(g, cs[i].id) == Ok(Some(cs[i]))
  {
    if cs != [] {
      var n := |cs| - 1;
      SameCanvasesMeans(g, cs[..n]);
      assert forall i :: 0 <= i < n ==> cs[..n][i] == cs[i];
    }
  }

  /** A publication is answered Existing exactly when all of it is stored as given. */
  lemma ExistingIffPublished(t: Tables, c: Composition)
    requires Sound(t)
    ensures PublishDocument(t, c).1 == Existing <==> Published(t, c)
  {
    SameCanvasesMeans(t.graph, c.canvases);
  }

  // ----- Whole runs -----

  datatype Command =
    | AddDocument(composition: Composition)
    | AddCanvas(canvas: Canvas)
    | AddBoundCanvas(key: string, canvas: Canvas, binding: Binding)
    | PutBinding(key: string, binding: Binding)

  ghost function Perform(t: Tables, c: Command): (Tables, Outcome) {
    match c
    case AddDocument(composition) => PublishDocument(t, composition)
    case AddCanvas(canvas) => PublishStandalone(t, canvas)
    case AddBoundCanvas(key, canvas, binding) => PublishWithBinding(t, key, canvas, binding)
    case PutBinding(key, binding) => StoreBinding(t, key, binding)
  }

  predicate WellFormed(c: Command) {
    match c
    case AddDocument(composition) => ValidComposition(composition)
    case AddCanvas(canvas) => ValidCanvas(canvas)
    case AddBoundCanvas(_, canvas, _) => ValidCanvas(canvas)
    case PutBinding(_, _) => true
  }

  /** A put-binding that would be stored names the session of its canvas. */
  predicate OwnSession(t: Tables, c: Command) {
    c.PutBinding? && c.key !in t.bindings && c.binding.canvas in t.graph.canvases ==>
      t.graph.canvases[c.binding.canvas].session == c.binding.session
  }

  lemma InsertedCanvas(t: Tables, c: Canvas)
    requires Sound(t) && ValidCanvas(c) && InsertCanvas(t.graph, c).Some?
    ensures var t' := t.(graph := InsertCanvas(t.graph, c).value);
            Sound(t') && Preserves(t, t') && c.id in t'.graph.canvases && LoadCanvas(t'.graph, c.id) == Ok(Some(c))
  {
    InsertedCanvasLoads(t.graph, c);
    GraphGrowthKeepsSound(t, InsertCanvas(t.graph, c).value);
  }

  lemma BoundCanvasKeepsSound(t: Tables, key: string, c: Canvas, b: Binding)
    requires Sound(t) && ValidCanvas(c)
    ensures var t' := PublishWithBinding(t, key, c, b).0; Sound(t') && Preserves(t, t')
  {
    if b == Binding(c.session, c.id) && key !in t.bindings {
      var loaded := LoadCanvas(t.graph, c.id);
      if loaded == Ok(Some(c)) {
        NewBinding(t, key, b);
      } else if loaded == Ok(None) && InsertCanvas(t.graph, c).Some? {
        InsertedCanvas(t, c);
        var t1 := t.(graph := InsertCanvas(t.graph, c).value);
        NewBinding(t1, key, b);
        PreservesTransitive(t, t1, t1.(bindings := t1.bindings[key := b]));
      }
    }
  }

  lemma UnlessInserted(t: Tables, c: Composition)
    requires PublishDocument(t, c).1 != Inserted
    ensures PublishDocument(t, c).0 == t
  {
  }

  lemma SelfPreserving(t: Tables)
    ensures Preserves(t, t)
  {
  }

  lemma DocumentKeepsSound(t: Tables, t': Tables, c: Composition)
    requires Sound(t) && ValidComposition(c) && t' == PublishDocument(t, c).0
    ensures Sound(t') && Preserves(t, t')
  {
    SelfPreserving(t);
    if PublishDocument(t, c).1 == Inserted {
      InsertedDocument(t, c);
    } else {
      UnlessInserted(t, c);
      assert t' == t;
    }
  }

  lemma CanvasKeepsSound(t: Tables, c: Canvas)
    requires Sound(t) && ValidCanvas(c)
    ensures var t' := PublishStandalone(t, c).0; Sound(t') && Preserves(t, t')
  {
    if PublishStandalone(t, c).1 == Inserted {
      InsertedCanvas(t, c);
    }
  }

  lemma BindingKeepsSound(t: Tables, key: string, b: Binding)
    requires Sound(t)
    ensures var t' := StoreBinding(t, key, b).0;
            && (Scans(t') <==> OwnSession(t, PutBinding(key, b)))
            && (Scans(t') ==> Sound(t') && Preserves(t, t'))
  {
    if key !in t.bindings && b.canvas in t.graph.canvases {
      NewBinding(t, key, b);
    }
  }

  /** One command: sound states stay sound, and keep all they have, if and only if a put-binding names its canvas's own session. */
  lemma StepKeepsSound(t: Tables, c: Command)
    requires Sound(t) && WellFormed(c)
    ensures Scans(Perform(t, c).0) <==> OwnSession(t, c)
    ensures OwnSession(t, c) ==> Sound(Perform(t, c).0) && Preserves(t, Perform(t, c).0)
  {
    match c
    case AddDocument(composition) => DocumentKeepsSound(t, Perform(t, c).0, composition);
    case AddCanvas(canvas) => CanvasKeepsSound(t, canvas);
    case AddBoundCanvas(key, canvas, binding) => BoundCanvasKeepsSound(t, key, canvas, binding);
    case PutBinding(key, binding) => BindingKeepsSound(t, key, binding);
  }

  ghost function Run(t: Tables, cs: seq<Command>): Tables {
    if cs == [] then t else Perform(Run(t, cs[..|cs| - 1]), cs[|cs| - 1]).0
  }

  ghost predicate Orderly(t: Tables, cs: seq<Command>) {
    forall i :: 0 <= i < |cs| ==> WellFormed(cs[i]) && OwnSession(Run(t, cs[..i]), cs[i])
  }

  lemma {:induction false} RunKeepsSound(t: Tables, cs: seq<Command>)
    requires Sound(t) && Orderly(t, cs)
    ensures Sound(Run(t, cs)) && Preserves(t, Run(t, cs))
  {
    if cs != [] {
      var n := |cs| - 1;
      assert Orderly(t, cs[..n]) by {
        forall i | 0 <= i < n ensures WellFormed(cs[..n][i]) && OwnSession(Run(t, cs[..n][..i]), cs[..n][i]) {
          assert cs[..n][..i] == cs[..i];
        }
      }
      RunKeepsSound(t, cs[..n]);
      StepKeepsSound(Run(t, cs[..n]), cs[n]);
      PreservesTransitive(t, Run(t, cs[..n]), Run(t, cs));
    }
  }

  /**
   Catalog states always reopen. Every state reached by publications and by put-bindings
   that name their canvas's own session passes the scan, and no overlay canvas belongs to
   two pages.
   */
  lemma ReachableStatesReopen(cs: seq<Command>)
    requires Orderly(EMPTY, cs)
    ensures Scans(Run(EMPTY, cs)) && OverlaysOwned(Run(EMPTY, cs).shelf.pages)
  {
    RunKeepsSound(EMPTY, cs);
  }

  /** Round trip: what one publication inserted loads exactly as given in every later state. */
  lemma InsertedStaysPublished(cs: seq<Command>, c: Composition, more: seq<Command>)
    requires Orderly(EMPTY, cs) && ValidComposition(c) && PublishDocument(Run(EMPTY, cs), c).1 == Inserted
    requires Orderly(PublishDocument(Run(EMPTY, cs), c).0, more)
    ensures Published(Run(PublishDocument(Run(EMPTY, cs), c).0, more), c)
  {
    RunKeepsSound(EMPTY, cs);
    InsertedDocument(Run(EMPTY, cs), c);
    var t := PublishDocument(Run(EMPTY, cs), c).0;
    RunKeepsSound(t, more);
    PublishedStays(t, Run(t, more), c);
  }

  /** Any outcome but Inserted leaves documents, pages, canvases and layers as they were. */
  lemma OnlyInsertedChanges(t: Tables, c: Command)
    requires Perform(t, c).1 != Inserted
    ensures Perform(t, c).0.shelf == t.shelf && Perform(t, c).0.graph == t.graph
    ensures Perform(t, c).1.Failed? ==> Perform(t, c).0 == t
  {
  }

  lemma EmptyIsSound()
    ensures Sound(EMPTY)
  {
  }

  lemma RunTwo(a: Command, b: Command)
    ensures Run(EMPTY, [a, b]) == Perform(Perform(EMPTY, a).0, b).0
  {
    var cs := [a, b];
    assert cs[..1] == [a] && cs[..1][..0] == [];
    assert Run(EMPTY, cs[..1]) == Perform(EMPTY, a).0;
  }

  /** A binding to another session is stored, and the catalog no longer opens. */
  lemma ForeignBindingBlocksReopen(c: Canvas, session: Id, key: string)
    requires ValidCanvas(c) && session != c.session
    ensures var t := Run(EMPTY, [AddCanvas(c), PutBinding(key, Binding(session, c.id))]); !Scans(t)
  {
    var put := PutBinding(key, Binding(session, c.id));
    RunTwo(AddCanvas(c), put);
    EmptyIsSound();
    assert c.layers * EMPTY.graph.layers.Keys == {};
    InsertedCanvas(EMPTY, c);
    StepKeepsSound(EMPTY.(graph := InsertCanvas(EMPTY.graph, c).value), put);
  }
}
