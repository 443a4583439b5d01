/** The listers: documents in publication order, all of them or those of one session. */
module CatalogListing {
  import opened Foundation
  import opened Catalog
  import opened CatalogStore
  import opened CatalogSafety

  /** The publication sequences of the documents of `session`, or of all. */
  function SequencesOf(s: Shelf, session: Option<Id>): set<int> {
    set d | d in s.documents && (session.Some? ==> s.documents[d].session == session.value) :: s.documents[d].sequence
  }

  ghost predicate HasDocumentAt(s: Shelf, k: int) {
    exists d :: IsDocumentAt(s, k, d)
  }

  ghost function DocumentAt(s: Shelf, k: int): (d: Id)
    requires HasDocumentAt(s, k)
    ensures IsDocumentAt(s, k, d)
  {
    var d :| IsDocumentAt(s, k, d);
    d
  }

  /** The documents at the given places of the publication order; the first that does not load ends the listing. */
  ghost function LoadAll(s: Shelf, ks: seq<int>): Result<seq<Document>, CatalogError> {
    if ks == [] then Ok([])
    else
      var n := |ks| - 1;
      var front := LoadAll(s, ks[..n]);
      if front.Err? then front
      else if !HasDocumentAt(s, ks[n]) then Err(Corruption)
      else
        var last := LoadDocument(s, DocumentAt(s, ks[n]));
        if last.Err? then Err(last.error) else if last.value.None? then Err(Corruption) else Ok(front.value + [last.value.value])
  }

  ghost function Listing(s: Shelf, session: Option<Id>): Result<seq<Document>, CatalogError> {
    LoadAll(s, Ascending(SequencesOf(s, session)))
  }

  lemma {:induction false} LoadAllFails(s: Shelf, ks: seq<int>, n: nat)
    requires n <= |ks| && LoadAll(s, ks[..n]).Err?
    ensures LoadAll(s, ks) == LoadAll(s, ks[..n])
    decreases |ks|
  {
    if n == |ks| {
      assert ks[..n] == ks;
    } else {
      assert ks[..|ks| - 1][..n] == ks[..n];
      LoadAllFails(s, ks[..|ks| - 1], n);
    }
  }

  /** One more row: the listing is longer by its document, or ends with its error. */
  lemma LoadAllNext(s: Shelf, ks: seq<int>, k: int, d: Id)
    requires SequencesUnique(s) && IsDocumentAt(s, k, d) && LoadAll(s, ks).Ok?
    ensures var last := LoadDocument(s, d);
            LoadAll(s, ks + [k]) == if last.Err? then Err(last.error)
                                    else if last.value.None? then Err(Corruption)
                                    else Ok(LoadAll(s, ks).value + [last.value.value])
  {
    assert (ks + [k])[..|ks|] == ks;
    assert DocumentAt(s, k) == d;
  }

  /** `list_documents` with a session, `list_all_documents` without. */
  method List(s: Shelf, session: Option<Id>) returns (r: Result<seq<Document>, CatalogError>)
    requires SequencesUnique(s)
    ensures r == Listing(s, session)
  {
    var rows := OrderBy(SequencesOf(s, session));
    var documents: seq<Document> := [];
    for i := 0 to |rows|
      invariant LoadAll(s, rows[..i]) == Ok(documents)
    {
      assert rows[i] in SequencesOf(s, session);
      var d :| d in s.documents && s.documents[d].sequence == rows[i];
      LoadAllNext(s, rows[..i], rows[i], d);
      assert rows[..i + 1] == rows[..i] + [rows[i]];
      var document := ReadDocument(s, d);
      if document.Err? || document.value.None? {
        LoadAllFails(s, rows, i + 1);
        return if document.Err? then Err(document.error) else Err(Corruption);
      }
      documents := documents + [document.value.value];
    }
    assert rows[..|rows|] == rows;
    r := Ok(documents);
  }

  // ----- One session's listing is a part of the whole -----

  function OfSession(documents: seq<Document>, session: Id): seq<Document> {
    if documents == [] then []
    else
      var n := |documents| - 1;
      var front := OfSession(documents[..n], session);
      if documents[n].session == session then front + [documents[n]] else front
  }

  ghost predicate InSession(s: Shelf, k: int, session: Id) {
    HasDocumentAt(s, k) && s.documents[DocumentAt(s, k)].session == session
  }

  ghost function KeysOfSession(s: Shelf, ks: seq<int>, session: Id): seq<int> {
    if ks == [] then []
    else
      var n := |ks| - 1;
      var front := KeysOfSession(s, ks[..n], session);
      if InSession(s, ks[n], session) then front + [ks[n]] else front
  }

  lemma {:induction false} KeysOfSessionMembers(s: Shelf, ks: seq<int>, session: Id)
    requires Increasing(ks)
    ensures Increasing(KeysOfSession(s, ks, session))
    ensures forall k :: k in KeysOfSession(s, ks, session) <==> k in ks && InSession(s, k, session)
  {
    if ks != [] {
      var n := |ks| - 1;
      KeysOfSessionMembers(s, ks[..n], session);
      assert ks == ks[..n] + [ks[n]];
      var front := KeysOfSession(s, ks[..n], session);
      forall i | 0 <= i < |front| ensures front[i] < ks[n] {
        assert front[i] in front;
        assert front[i] in ks[..n];
      }
    }
  }

  lemma LoadAllSnoc(s: Shelf, ks: seq<int>, k: int, document: Document)
    requires LoadAll(s, ks).Ok? && HasDocumentAt(s, k) && LoadDocument(s, DocumentAt(s, k)) == Ok(Some(document))
    ensures LoadAll(s, ks + [k]) == Ok(LoadAll(s, ks).value + [document])
  {
    assert (ks + [k])[..|ks|] == ks;
  }

  lemma OfSessionSnoc(documents: seq<Document>, document: Document, session: Id)
    ensures var front := OfSession(documents, session);
            OfSession(documents + [document], session) == if document.session == session then front + [document] else front
  {
    assert (documents + [document])[..|documents|] == documents;
  }

  lemma OneMoreOfSession(s: Shelf, front: seq<int>, k: int, session: Id)
    requires HasDocumentAt(s, k) && LoadDocument(s, DocumentAt(s, k)).Ok?
    requires LoadAll(s, front).Ok? && LoadAll(s, KeysOfSession(s, front, session)) == Ok(OfSession(LoadAll(s, front).value, session))
    ensures LoadAll(s, front + [k]).Ok?
    ensures LoadAll(s, KeysOfSession(s, front + [k], session)) == Ok(OfSession(LoadAll(s, front + [k]).value, session))
  {
    var document := LoadDocument(s, DocumentAt(s, k)).value.value;
    assert InSession(s, k, session) <==> document.session == session;
    LoadAllSnoc(s, front, k, document);
    OfSessionSnoc(LoadAll(s, front).value, document, session);
    KeysOfSessionSnoc(s, front, k, session);
    if InSession(s, k, session) {
      LoadAllSnoc(s, KeysOfSession(s, front, session), k, document);
    }
  }

  lemma KeysOfSessionSnoc(s: Shelf, front: seq<int>, k: int, session: Id)
    ensures KeysOfSession(s, front + [k], session) ==
            if InSession(s, k, session) then KeysOfSession(s, front, session) + [k] else KeysOfSession(s, front, session)
  {
    assert (front + [k])[..|front|] == front;
  }

  lemma {:induction false} LoadAllOfSession(s: Shelf, ks: seq<int>, session: Id)
    requires forall k :: k in ks ==> HasDocumentAt(s, k)
    requires forall d :: d in s.documents ==> LoadDocument(s, d).Ok?
    ensures LoadAll(s, ks).Ok? && LoadAll(s, KeysOfSession(s, ks, session)) == Ok(OfSession(LoadAll(s, ks).value, session))
  {
    if ks != [] {
      var n := |ks| - 1;
      LoadAllOfSession(s, ks[..n], session);
      assert ks[n] in ks && ks == ks[..n] + [ks[n]];
      OneMoreOfSession(s, ks[..n], ks[n], session);
    }
  }

  lemma SessionKeys(s: Shelf, session: Id)
    requires SequencesUnique(s)
    ensures KeysOfSession(s, Ascending(SequencesOf(s, None)), session) == Ascending(SequencesOf(s, Some(session)))
    ensures forall k :: k in Ascending(SequencesOf(s, None)) ==> HasDocumentAt(s, k)
  {
    var all := Ascending(SequencesOf(s, None));
    forall k | k in all ensures HasDocumentAt(s, k) {
      assert k in SequencesOf(s, None);
      var d :| d in s.documents && s.documents[d].sequence == k;
      assert IsDocumentAt(s, k, d);
    }
    KeysOfSessionMembers(s, all, session);
    forall k ensures k in KeysOfSession(s, all, session) <==> k in SequencesOf(s, Some(session)) {
      if k in SequencesOf(s, Some(session)) {
        var d :| d in s.documents && s.documents[d].session == session && s.documents[d].sequence == k;
        assert k in SequencesOf(s, None);
        assert IsDocumentAt(s, k, d);
      }
    }
    AscendingUnique(KeysOfSession(s, all, session), SequencesOf(s, Some(session)));
  }

  /** In every sound state, listing a session is listing everything and keeping that session's documents, in the same order. */
  lemma SessionListingIsFiltered(t: Tables, session: Id)
    requires Sound(t)
    ensures Listing(t.shelf, None).Ok?
    ensures Listing(t.shelf, Some(session)) == Ok(OfSession(Listing(t.shelf, None).value, session))
  {
    SessionKeys(t.shelf, session);
    forall d | d in t.shelf.documents ensures LoadDocument(t.shelf, d).Ok? {
      assert DocumentScans(t.shelf, t.graph, d);
    }
    LoadAllOfSession(t.shelf, Ascending(SequencesOf(t.shelf, None)), session);
  }

  lemma {:induction false} LoadAllStable(s: Shelf, s': Shelf, ks: seq<int>)
    requires ShelfGrows(s, s') && SequencesUnique(s') && forall k :: k in ks ==> HasDocumentAt(s, k)
    ensures LoadAll(s', ks) == LoadAll(s, ks)
  {
    if ks != [] {
      var n := |ks| - 1;
      LoadAllStable(s, s', ks[..n]);
      assert ks[n] in ks;
      var d := DocumentAt(s, ks[n]);
      assert IsDocumentAt(s', ks[n], d);
    }
  }

  lemma SequencesSnoc(s: Shelf, s': Shelf, d: Id)
    requires d !in s.documents && d in s'.documents && s'.documents == s.documents[d := s'.documents[d]]
    requires forall x :: x in s.documents ==> s.documents[x].sequence < s'.documents[d].sequence
    ensures Ascending(SequencesOf(s', None)) == Ascending(SequencesOf(s, None)) + [s'.documents[d].sequence]
  {
    var ks, k := Ascending(SequencesOf(s, None)), s'.documents[d].sequence;
    forall x ensures x in SequencesOf(s', None) <==> x in SequencesOf(s, None) || x == k {
      if x in SequencesOf(s, None) {
        var e :| e in s.documents && s.documents[e].sequence == x;
        assert s'.documents[e].sequence == x;
      }
    }
    forall i | 0 <= i < |ks| ensures ks[i] < k {
      assert ks[i] in SequencesOf(s, None);
    }
    AscendingUnique(ks + [k], SequencesOf(s', None));
  }

  lemma InsertedSequence(t: Tables, c: Composition)
    requires Sound(t) && ValidComposition(c) && PublishDocument(t, c).1 == Inserted
    ensures var s, s', d := t.shelf, PublishDocument(t, c).0.shelf, c.document.id;
            && d !in s.documents && d in s'.documents && s'.documents == s.documents[d := s'.documents[d]]
            && forall x :: x in s.documents ==> s.documents[x].sequence < s'.documents[d].sequence
  {
    assert forall x :: x in t.shelf.documents ==> DocumentScans(t.shelf, t.graph, x);
    NextSequenceIsFresh(t.shelf, c.document, PublishDocument(t, c).0.shelf.pages);
  }

  /** Publication order: a document that is inserted is listed after all that were listed before. */
  lemma InsertedIsListedLast(t: Tables, c: Composition)
    requires Sound(t) && ValidComposition(c) && PublishDocument(t, c).1 == Inserted
    ensures Listing(t.shelf, None).Ok?
    ensures Listing(PublishDocument(t, c).0.shelf, None) == Ok(Listing(t.shelf, None).value + [c.document])
  {
    var s, s', d := t.shelf, PublishDocument(t, c).0.shelf, c.document.id;
    InsertedDocument(t, c);
    InsertedSequence(t, c);
    SequencesSnoc(s, s', d);
    SessionListingIsFiltered(t, 0);
    SessionKeys(s, 0);
    var ks, k := Ascending(SequencesOf(s, None)), s'.documents[d].sequence;
    LoadAllStable(s, s', ks);
    assert IsDocumentAt(s', k, d);
    assert DocumentAt(s', k) == d;
    LoadAllSnoc(s', ks, k, c.document);
  }
}
