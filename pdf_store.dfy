/**
 * The open PDF documents and the current selection (src/store/pdf-store.ts).
 * Ids (`Date.now().toString()`) and object URLs arrive as parameters; the
 * file itself is not modelled.
 */
module PdfStore {
  import opened Wrappers
  import opened Seqs

  datatype PdfDocument = PdfDocument(id: string, name: string, url: string, scale: real, scrollTop: int)

  /** A freshly added document: scale 1, scrolled to the top. */
  function NewPdf(id: string, name: string, url: string): PdfDocument {
    PdfDocument(id, name, url, 1.0, 0)
  }

  function HasPdfId(id: string): PdfDocument -> bool {
    (d: PdfDocument) => d.id == id
  }

  function OtherPdfId(id: string): PdfDocument -> bool {
    (d: PdfDocument) => d.id != id
  }

  function ScrollIf(id: string, top: int): PdfDocument -> PdfDocument {
    (d: PdfDocument) => if d.id == id then d.(scrollTop := top) else d
  }

  /** The selection is empty or one of the listed documents. */
  predicate SelectionValid(pdfs: seq<PdfDocument>, current: Option<PdfDocument>) {
    current.None? || current.value in pdfs
  }

  /** `pdfs.find((pdf) => pdf.id === id) || null` */
  function FindPdf(pdfs: seq<PdfDocument>, id: string): Option<PdfDocument> {
    Find(pdfs, HasPdfId(id))
  }

  /**
   * The selection `removePdf` computes: the first remaining document when
   * the current one was removed, the current id looked up again otherwise,
   * and null when that id is missing or empty (the `newCurrentId ?` test).
   */
  function SelectionAfterRemove(pdfs: seq<PdfDocument>, current: Option<PdfDocument>, id: string): Option<PdfDocument> {
    var rest := Filter(pdfs, OtherPdfId(id));
    var newCurrentId :=
      if current.Some? && current.value.id == id then (if |rest| > 0 then Some(rest[0].id) else None)
      else if current.Some? then Some(current.value.id)
      else None;
    if newCurrentId.Some? && newCurrentId.value != "" then FindPdf(rest, newCurrentId.value) else None
  }

  /** `setCurrentPdf` selects the first document with the id, or nothing. */
  lemma {:induction false} FindPdfSpec(pdfs: seq<PdfDocument>, id: string)
    ensures FindPdf(pdfs, id).None? <==> forall i :: 0 <= i < |pdfs| ==> pdfs[i].id != id
    ensures FindPdf(pdfs, id).Some? ==>
      exists i :: 0 <= i < |pdfs| && pdfs[i] == FindPdf(pdfs, id).value && pdfs[i].id == id
        && forall j :: 0 <= j < i ==> pdfs[j].id != id
  {
    var r := FirstIndex(pdfs, HasPdfId(id));
    if r.Some? {
      assert pdfs[r.value] == FindPdf(pdfs, id).value;
    }
  }

  /** Removing the current document selects the first one left, or nothing when none are left. */
  lemma {:induction false} RemoveCurrentSelectsFirst(pdfs: seq<PdfDocument>, current: Option<PdfDocument>, id: string)
    requires current.Some? && current.value.id == id
    ensures var rest := Filter(pdfs, OtherPdfId(id));
      SelectionAfterRemove(pdfs, current, id) == if |rest| > 0 && rest[0].id != "" then Some(rest[0]) else None
  {
    var rest := Filter(pdfs, OtherPdfId(id));
    if |rest| > 0 && rest[0].id != "" {
      var r := FirstIndex(rest, HasPdfId(rest[0].id));
      assert r == Some(0);
    }
  }

  /** Removing another document keeps a listed current document selected, by its id. */
  lemma {:induction false} RemoveOtherKeepsCurrent(pdfs: seq<PdfDocument>, current: Option<PdfDocument>, id: string)
    requires current.Some? && current.value in pdfs && current.value.id != id && current.value.id != ""
    ensures var sel := SelectionAfterRemove(pdfs, current, id);
      sel.Some? && sel.value.id == current.value.id && sel.value in Filter(pdfs, OtherPdfId(id))
  {
    var rest := Filter(pdfs, OtherPdfId(id));
    var i :| 0 <= i < |pdfs| && pdfs[i] == current.value;
    assert current.value in rest;
    var j :| 0 <= j < |rest| && rest[j] == current.value;
    FindPdfSpec(rest, current.value.id);
  }

  /** Whatever `removePdf` selects is still listed. */
  lemma {:induction false} RemoveKeepsSelectionValid(pdfs: seq<PdfDocument>, current: Option<PdfDocument>, id: string)
    ensures SelectionValid(Filter(pdfs, OtherPdfId(id)), SelectionAfterRemove(pdfs, current, id))
  {
    var rest := Filter(pdfs, OtherPdfId(id));
    var sel := SelectionAfterRemove(pdfs, current, id);
    if sel.Some? {
      var r := FirstIndex(rest, HasPdfId(sel.value.id));
      assert r.Some? && rest[r.value] == sel.value;
    }
  }

  /** Updating a scroll position keeps a listed selection listed: it is updated exactly as its entries are. */
  lemma {:induction false} ScrollKeepsSelectionValid(pdfs: seq<PdfDocument>, current: Option<PdfDocument>, id: string, top: int)
    requires SelectionValid(pdfs, current)
    ensures SelectionValid(Map(pdfs, ScrollIf(id, top)),
      if current.Some? && current.value.id == id then Some(current.value.(scrollTop := top)) else current)
  {
    if current.Some? {
      var i :| 0 <= i < |pdfs| && pdfs[i] == current.value;
      assert Map(pdfs, ScrollIf(id, top))[i] == ScrollIf(id, top)(current.value);
    }
  }

  class PdfStore {
    var pdfs: seq<PdfDocument>
    var currentPdf: Option<PdfDocument>

    predicate Valid()
      reads this
    {
      SelectionValid(pdfs, currentPdf)
    }

    constructor ()
      ensures pdfs == [] && currentPdf == None && Valid()
    {
      pdfs := [];
      currentPdf := None;
    }

    /** Appends the document; it becomes current only when the list was empty. */
    method AddPdf(id: string, name: string, url: string)
      modifies this
      ensures pdfs == old(pdfs) + [NewPdf(id, name, url)]
      ensures currentPdf == if old(pdfs) == [] then Some(NewPdf(id, name, url)) else old(currentPdf)
      ensures old(Valid()) ==> Valid()
    {
      var doc := NewPdf(id, name, url);
      currentPdf := if pdfs == [] then Some(doc) else currentPdf;
      pdfs := pdfs + [doc];
    }

    method RemovePdf(id: string)
      modifies this
      ensures pdfs == Filter(old(pdfs), OtherPdfId(id))
      ensures currentPdf == SelectionAfterRemove(old(pdfs), old(currentPdf), id)
      ensures Valid()
    {
      var newPdfs := ComputeFilter(pdfs, OtherPdfId(id));
      var newCurrentId: Option<string> :=
        if currentPdf.Some? && currentPdf.value.id == id then (if |newPdfs| > 0 then Some(newPdfs[0].id) else None)
        else if currentPdf.Some? then Some(currentPdf.value.id)
        else None;
      RemoveKeepsSelectionValid(pdfs, currentPdf, id);
      pdfs := newPdfs;
      currentPdf := if newCurrentId.Some? && newCurrentId.value != "" then FindPdf(newPdfs, newCurrentId.value) else None;
    }

    method SetCurrentPdf(id: string)
      modifies this
      ensures pdfs == old(pdfs) && currentPdf == FindPdf(pdfs, id)
      ensures Valid()
    {
      currentPdf := FindPdf(pdfs, id);
      FindPdfSpec(pdfs, id);
    }

    /** Only `scrollTop` changes, on every entry with the id and on the selection when it has the id. */
    method UpdateScrollPosition(id: string, top: int)
      modifies this
      ensures pdfs == Map(old(pdfs), ScrollIf(id, top))
      ensures currentPdf == if old(currentPdf).Some? && old(currentPdf).value.id == id
        then Some(old(currentPdf).value.(scrollTop := top)) else old(currentPdf)
      ensures old(Valid()) ==> Valid()
    {
      if Valid() {
        ScrollKeepsSelectionValid(pdfs, currentPdf, id, top);
      }
      if currentPdf.Some? && currentPdf.value.id == id {
        currentPdf := Some(currentPdf.value.(scrollTop := top));
      }
      pdfs := ComputeMap(pdfs, ScrollIf(id, top));
    }
  }
}
