/**
 * Saved documents (identical in both versions).  The list of saved
 * documents, the id of the document being edited and its title are session
 * state that the save, load, delete and new-document handlers replace.  The
 * list transforms themselves are a `map` (update one record) and a `filter`
 * (delete by id).
 *
 * The prompt's answer, the confirmation dialogs, the timestamp and the fresh
 * id are inputs here; storage is the list handed back for writing.
 */
module Documents {
  import opened Wrappers
  import Stats
  import opened Invisibles

  /** The title of a document that has not been saved. */
  const NEW_DOCUMENT_TITLE: string := "New Document"

  datatype SavedDoc = SavedDoc(id: string, title: string, content: string, timestamp: int)

  /** `if (currentDocId)`: null and the empty string are both false. */
  predicate IsTruthy(id: Option<string>) {
    id.Some? && id.value != ""
  }

  predicate HasId(docs: seq<SavedDoc>, id: string) {
    exists i :: 0 <= i < |docs| && docs[i].id == id
  }

  predicate DistinctIds(docs: seq<SavedDoc>) {
    forall i, j :: 0 <= i < j < |docs| ==> docs[i].id != docs[j].id
  }

  /**
   * The saved title: the prompt's answer, trimmed, when there is an answer
   * that is not blank; otherwise the current title.
   */
  function FinalTitle(input: Option<string>, docTitle: string): string {
    if input.Some? && Stats.Trim(input.value) != "" then Stats.Trim(input.value) else docTitle
  }

  /** One record of the update `map`. */
  function Touch(d: SavedDoc, id: string, title: string, content: string, timestamp: int): SavedDoc {
    if d.id == id then d.(title := title, content := content, timestamp := timestamp) else d
  }

  /** Save over the records with id `id`. */
  function UpdateDoc(docs: seq<SavedDoc>, id: string, title: string, content: string, timestamp: int): seq<SavedDoc>
    decreases |docs|
  {
    if docs == [] then []
    else [Touch(docs[0], id, title, content, timestamp)] + UpdateDoc(docs[1..], id, title, content, timestamp)
  }

  /** Keep the records whose id is not `id`. */
  function RemoveDoc(docs: seq<SavedDoc>, id: string): seq<SavedDoc>
    decreases |docs|
  {
    if docs == [] then []
    else (if docs[0].id == id then [] else [docs[0]]) + RemoveDoc(docs[1..], id)
  }

  // ---------------------------------------------------------------------
  // Properties of the list transforms
  // ---------------------------------------------------------------------

  /**
   * Updating keeps the length, the order and every id; the records with the
   * id get the new title, content and timestamp, and every other record is
   * unchanged.
   */
  lemma {:induction false} UpdateDocPointwise(docs: seq<SavedDoc>, id: string, title: string, content: string, timestamp: int)
    ensures var r := UpdateDoc(docs, id, title, content, timestamp);
      && |r| == |docs|
      && (forall i :: 0 <= i < |docs| && docs[i].id == id ==>
            r[i] == SavedDoc(id, title, content, timestamp))
      && (forall i :: 0 <= i < |docs| && docs[i].id != id ==> r[i] == docs[i])
    decreases |docs|
  {
    if docs != [] {
      UpdateDocPointwise(docs[1..], id, title, content, timestamp);
      var r := UpdateDoc(docs, id, title, content, timestamp);
      assert forall i :: 1 <= i < |docs| ==> r[i] == UpdateDoc(docs[1..], id, title, content, timestamp)[i - 1];
    }
  }

  /** Updating keeps the set of ids, so it keeps them distinct. */
  lemma UpdateDocIds(docs: seq<SavedDoc>, id: string, title: string, content: string, timestamp: int)
    ensures var r := UpdateDoc(docs, id, title, content, timestamp);
      && (forall x :: HasId(r, x) <==> HasId(docs, x))
      && (DistinctIds(docs) ==> DistinctIds(r))
  {
    UpdateDocPointwise(docs, id, title, content, timestamp);
    var r := UpdateDoc(docs, id, title, content, timestamp);
    assert forall i :: 0 <= i < |docs| ==> r[i].id == docs[i].id;
  }

  /** Deleting keeps exactly the records whose id differs. */
  lemma {:induction false} RemoveDocMembers(docs: seq<SavedDoc>, id: string)
    ensures forall d :: d in RemoveDoc(docs, id) <==> d in docs && d.id != id
    ensures forall x :: HasId(RemoveDoc(docs, id), x) <==> HasId(docs, x) && x != id
    decreases |docs|
  {
    if docs != [] {
      RemoveDocMembers(docs[1..], id);
      var r := RemoveDoc(docs, id);
      var rest := RemoveDoc(docs[1..], id);
      forall x | HasId(docs, x) && x != id
        ensures HasId(r, x)
      {
        var i :| 0 <= i < |docs| && docs[i].id == x;
        if i > 0 {
          assert docs[1..][i - 1].id == x;
          var j :| 0 <= j < |rest| && rest[j].id == x;
          assert r[|r| - |rest| + j] == rest[j];
        } else {
          assert r[0] == docs[0];
        }
      }
      forall x | HasId(r, x)
        ensures HasId(docs, x) && x != id
      {
        var j :| 0 <= j < |r| && r[j].id == x;
        assert r[j] in r;
        assert r[j] in docs;
      }
    }
  }

  /** Deleting keeps the order: it distributes over concatenation. */
  lemma {:induction false} RemoveDocConcat(a: seq<SavedDoc>, b: seq<SavedDoc>, id: string)
    ensures RemoveDoc(a + b, id) == RemoveDoc(a, id) + RemoveDoc(b, id)
    decreases |a|
  {
    if a == [] {
      assert a + b == b;
    } else {
      assert (a + b)[0] == a[0];
      assert (a + b)[1..] == a[1..] + b;
      RemoveDocConcat(a[1..], b, id);
    }
  }

  /** Deleting an id no record has changes nothing. */
  lemma {:induction false} RemoveDocAbsent(docs: seq<SavedDoc>, id: string)
    requires !HasId(docs, id)
    ensures RemoveDoc(docs, id) == docs
    decreases |docs|
  {
    if docs != [] {
      assert docs[0].id != id;
      forall i | 0 <= i < |docs| - 1
        ensures docs[1..][i].id != id
      {
        assert docs[1..][i] == docs[i + 1];
      }
      RemoveDocAbsent(docs[1..], id);
    }
  }

  /**
   * With distinct ids, deleting the id of record `k` removes that record
   * and no other, keeping the rest in order.
   */
  lemma RemoveDocExactlyOne(docs: seq<SavedDoc>, k: nat)
    requires DistinctIds(docs) && k < |docs|
    ensures RemoveDoc(docs, docs[k].id) == docs[..k] + docs[k + 1..]
  {
    OthersLackId(docs, k);
    SplitAround(docs, k);
    RemoveDocSplice(docs[..k], docs[k], docs[k + 1..]);
  }

  /** A list is the records before `k`, record `k`, and the records after it. */
  lemma SplitAround(docs: seq<SavedDoc>, k: nat)
    requires k < |docs|
    ensures docs == docs[..k] + ([docs[k]] + docs[k + 1..])
  {
  }

  /** With distinct ids, no record before or after record `k` has its id. */
  lemma OthersLackId(docs: seq<SavedDoc>, k: nat)
    requires DistinctIds(docs) && k < |docs|
    ensures !HasId(docs[..k], docs[k].id) && !HasId(docs[k + 1..], docs[k].id)
  {
    forall i | 0 <= i < k ensures docs[..k][i].id != docs[k].id {
      assert docs[..k][i] == docs[i];
    }
    var after := docs[k + 1..];
    forall i | 0 <= i < |after| ensures after[i].id != docs[k].id {
      assert after[i] == docs[k + 1 + i];
    }
  }

  /** Deleting the id of a record that is the only one with it. */
  lemma RemoveDocSplice(before: seq<SavedDoc>, d: SavedDoc, after: seq<SavedDoc>)
    requires !HasId(before, d.id) && !HasId(after, d.id)
    ensures RemoveDoc(before + ([d] + after), d.id) == before + after
  {
    var rest := [d] + after;
    assert rest[0] == d && rest[1..] == after;
    RemoveDocAbsent(after, d.id);
    assert RemoveDoc(rest, d.id) == after;
    RemoveDocAbsent(before, d.id);
    RemoveDocConcat(before, rest, d.id);
  }

  /**
   * Putting a record in front keeps every id and adds its own; the ids stay
   * distinct when its id is new.
   */
  lemma Prepend(d: SavedDoc, docs: seq<SavedDoc>)
    ensures HasId([d] + docs, d.id)
    ensures forall x :: HasId(docs, x) ==> HasId([d] + docs, x)
    ensures DistinctIds(docs) && !HasId(docs, d.id) ==> DistinctIds([d] + docs)
  {
    var r := [d] + docs;
    assert r[0] == d;
    assert forall i :: 0 <= i < |docs| ==> r[i + 1] == docs[i];
  }

  /** Deleting keeps the ids distinct. */
  lemma {:induction false} RemoveDocDistinct(docs: seq<SavedDoc>, id: string)
    requires DistinctIds(docs)
    ensures DistinctIds(RemoveDoc(docs, id))
    decreases |docs|
  {
    if docs != [] {
      RemoveDocDistinct(docs[1..], id);
      RemoveDocMembers(docs[1..], id);
      var rest := RemoveDoc(docs[1..], id);
      forall i | 0 <= i < |docs| - 1 ensures docs[1..][i].id != docs[0].id {
        assert docs[1..][i] == docs[i + 1];
      }
      assert !HasId(rest, docs[0].id);
      Prepend(docs[0], rest);
    }
  }

  /**
   * The chosen title: a non-blank answer is taken trimmed (so it is
   * non-empty and has no surrounding whitespace); a cancelled or blank
   * answer keeps the current title.
   */
  lemma FinalTitleChoice(input: Option<string>, docTitle: string)
    ensures var t := FinalTitle(input, docTitle);
      if input.Some? && Stats.Trim(input.value) != "" then
        t == Stats.Trim(input.value) && t != "" && !Stats.IsWs(t[0]) && !Stats.IsWs(t[|t| - 1])
      else t == docTitle
  {
    if input.Some? {
      Stats.TrimIdempotent(input.value);
    }
  }

  /**
   * Saving again and accepting the prompt's suggestion (the current title)
   * keeps a title that came from an answer.
   */
  lemma AcceptingSuggestionKeepsTitle(input: Option<string>, docTitle: string)
    requires input.Some? && Stats.Trim(input.value) != ""
    ensures var t := FinalTitle(input, docTitle); FinalTitle(Some(t), t) == t
  {
    Stats.TrimIdempotent(input.value);
  }

  // ---------------------------------------------------------------------
  // The session
  // ---------------------------------------------------------------------

  /** The document state of one session, with the editor it saves from. */
  class Session {
    var savedDocs: seq<SavedDoc>
    var currentDocId: Option<string>
    var docTitle: string
    const editor: Editor

    /** The current id, when set, names a saved document. */
    predicate Valid()
      reads this
    {
      currentDocId.Some? ==> HasId(savedDocs, currentDocId.value)
    }

    /** A session starts on the stored list, with a new, empty document. */
    constructor(stored: seq<SavedDoc>)
      ensures Valid()
      ensures savedDocs == stored && currentDocId == None && docTitle == NEW_DOCUMENT_TITLE
      ensures fresh(editor) && editor.html == "" && !editor.showInvisibles
    {
      savedDocs := stored;
      currentDocId := None;
      docTitle := NEW_DOCUMENT_TITLE;
      editor := new Editor("");
    }

    /**
     * Save the editor's content (markers stripped when shown) under the
     * chosen title: over the current document when the current id is set,
     * otherwise as a new record in front with the fresh id, which becomes
     * current.  `stored` is the list written to storage.
     */
    method SaveDocument(input: Option<string>, timestamp: int, newId: string) returns (stored: seq<SavedDoc>)
      requires Valid()
      modifies this
      ensures Valid()
      ensures docTitle == FinalTitle(input, old(docTitle))
      ensures var content := StoredContent(editor.showInvisibles, editor.html);
        if IsTruthy(old(currentDocId)) then
          savedDocs == UpdateDoc(old(savedDocs), old(currentDocId).value, docTitle, content, timestamp)
          && currentDocId == old(currentDocId)
        else
          savedDocs == [SavedDoc(newId, docTitle, content, timestamp)] + old(savedDocs)
          && currentDocId == Some(newId)
      ensures stored == savedDocs
      ensures DistinctIds(old(savedDocs)) && (IsTruthy(old(currentDocId)) || !HasId(old(savedDocs), newId))
        ==> DistinctIds(savedDocs)
    {
      var finalTitle := FinalTitle(input, docTitle);
      docTitle := finalTitle;
      var contentToSave := editor.ContentToSave();
      var updatedDocs: seq<SavedDoc>;
      if IsTruthy(currentDocId) {
        updatedDocs := UpdateDoc(savedDocs, currentDocId.value, finalTitle, contentToSave, timestamp);
        UpdateDocIds(savedDocs, currentDocId.value, finalTitle, contentToSave, timestamp);
      } else {
        var newDoc := SavedDoc(newId, finalTitle, contentToSave, timestamp);
        updatedDocs := [newDoc] + savedDocs;
        currentDocId := Some(newId);
        Prepend(newDoc, savedDocs);
      }
      savedDocs := updatedDocs;
      stored := updatedDocs;
    }

    /**
     * Open a listed document: unless the editor holds non-blank text of
     * another document and the user declines, the editor gets the
     * document's content (shown with markers if invisibles are shown) and
     * the document becomes current under its title.
     */
    method LoadDocument(doc: SavedDoc, textBlank: bool, confirmed: bool)
      requires Valid() && doc in savedDocs
      modifies this, editor
      ensures Valid() && savedDocs == old(savedDocs)
      ensures editor.showInvisibles == old(editor.showInvisibles)
      ensures textBlank || old(currentDocId) == Some(doc.id) || confirmed ==>
        && currentDocId == Some(doc.id) && docTitle == doc.title
        && editor.html == (if editor.showInvisibles then ShowInvisibles(doc.content) else doc.content)
      ensures !(textBlank || old(currentDocId) == Some(doc.id) || confirmed) ==>
        currentDocId == old(currentDocId) && docTitle == old(docTitle) && editor.html == old(editor.html)
    {
      if !textBlank && currentDocId != Some(doc.id) && !confirmed {
        return;
      }
      editor.html := doc.content;
      if editor.showInvisibles {
        editor.ApplyVisuals();
      }
      currentDocId := Some(doc.id);
      docTitle := doc.title;
    }

    /**
     * Delete the records with id `id` once confirmed; if that was the
     * current document, the editor's content becomes an unsaved new
     * document.  The editor is never touched.  `stored` is the list written
     * to storage, if any.
     */
    method DeleteDocument(id: string, confirmed: bool) returns (stored: Option<seq<SavedDoc>>)
      requires Valid()
      modifies this
      ensures Valid()
      ensures confirmed ==>
        && savedDocs == RemoveDoc(old(savedDocs), id) && stored == Some(savedDocs)
        && (old(currentDocId) == Some(id) ==> currentDocId == None && docTitle == NEW_DOCUMENT_TITLE)
        && (old(currentDocId) != Some(id) ==> currentDocId == old(currentDocId) && docTitle == old(docTitle))
      ensures !confirmed ==>
        savedDocs == old(savedDocs) && currentDocId == old(currentDocId) && docTitle == old(docTitle) && stored == None
      ensures DistinctIds(old(savedDocs)) ==> DistinctIds(savedDocs)
    {
      if !confirmed {
        return None;
      }
      var updatedDocs := RemoveDoc(savedDocs, id);
      RemoveDocMembers(savedDocs, id);
      if DistinctIds(savedDocs) {
        RemoveDocDistinct(savedDocs, id);
      }
      savedDocs := updatedDocs;
      stored := Some(updatedDocs);
      if currentDocId == Some(id) {
        currentDocId := None;
        docTitle := NEW_DOCUMENT_TITLE;
      }
    }

    /**
     * Start a new document: unless the editor holds non-blank text and the
     * user declines, empty the editor, turn the invisibles view off and
     * forget the current id and title.  The saved list is kept.
     */
    method NewDocument(textBlank: bool, confirmed: bool)
      requires Valid()
      modifies this, editor
      ensures Valid() && savedDocs == old(savedDocs)
      ensures textBlank || confirmed ==>
        && currentDocId == None && docTitle == NEW_DOCUMENT_TITLE
        && editor.html == "" && !editor.showInvisibles
      ensures !(textBlank || confirmed) ==>
        && currentDocId == old(currentDocId) && docTitle == old(docTitle)
        && editor.html == old(editor.html) && editor.showInvisibles == old(editor.showInvisibles)
    {
      if !textBlank && !confirmed {
        return;
      }
      editor.html := "";
      currentDocId := None;
      docTitle := NEW_DOCUMENT_TITLE;
      editor.showInvisibles := false;
    }
  }

  /**
   * Saving a new document under "  Poem " and deleting it again: the list
   * holds one record titled "Poem" that is current, and after the delete
   * the list is empty and the session is back to a new document.
   */
  method SaveThenDelete(id: string) returns (s: Session)
    ensures s.savedDocs == [] && s.currentDocId == None && s.docTitle == NEW_DOCUMENT_TITLE
  {
    s := new Session([]);
    TrimPoem();
    var stored := s.SaveDocument(Some("  Poem "), 0, id);
    assert s.savedDocs == [SavedDoc(id, "Poem", "", 0)] && s.currentDocId == Some(id);
    var written := s.DeleteDocument(id, true);
  }

  lemma TrimPoem()
    ensures Stats.Trim("  Poem ") == "Poem"
  {
    TrimStartPoem();
    TrimEndPoem();
  }

  lemma TrimStartPoem()
    ensures Stats.TrimStart("  Poem ") == "Poem "
  {
    assert Stats.IsWs(' ') && !Stats.IsWs('P');
    assert "  Poem "[1..] == " Poem " && " Poem "[1..] == "Poem ";
    assert Stats.TrimStart("Poem ") == "Poem ";
  }

  lemma TrimEndPoem()
    ensures Stats.TrimEnd("Poem ") == "Poem"
  {
    assert Stats.IsWs(' ') && !Stats.IsWs('m');
    assert "Poem "[..4] == "Poem";
    assert Stats.TrimEnd("Poem") == "Poem";
  }
}
