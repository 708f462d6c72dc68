/** The FAQ page: the mapping from the API's FAQ records to table rows, the
    add/edit dialog's prefill, and the submit and delete handlers with the
    `totalFAQs` counter they maintain. The page never checks `response.ok`;
    it acts on the `message` field of whatever body comes back. */
module Faq {
  import opened Wrappers
  import opened Http
  import opened Text
  import opened Lists

  const StoreOwnersAudience := "Store Owners"
  const ResellersAudience := "Resellers"
  const RequiredMessage := "Question and Answer are required."
  const DeletedMessage := "FAQ deleted successfully"
  const SuccessWord := "successfully"

  /** The engine's errors for the property reads the submit handler makes on
      a body without `message`, a success body without `faq`, and an edit
      with no FAQ selected. */
  const MissingMessageError := "Cannot read properties of undefined (reading 'includes')"
  const MissingFaqError := "Cannot read properties of undefined (reading '_id')"
  const NoSelectionError := "Cannot read properties of null (reading 'srNo')"

  /** An FAQ as the API sends it (dates left out); `kind` is the numeric
      `type`, None for null. */
  datatype FaqRecord = FaqRecord(id: string, question: string, answer: string, kind: Option<int>)

  /** A table row. */
  datatype FaqRow = FaqRow(
    id: string, srNo: int, question: string, answer: string,
    audience: string, status: string, views: int)

  /** The add/edit form; `kind` is the select's value, "" before a choice. */
  datatype Form = Form(question: string, answer: string, kind: string)

  const EmptyForm := Form("", "", "")

  /** The page state the handlers read and write. */
  datatype Page = Page(
    faqs: seq<FaqRow>,
    totalFaqs: int,
    selected: Option<FaqRow>,
    editMode: bool,
    form: Form,
    editorOpen: bool,
    deleteOpen: bool,
    error: Option<string>)

  function FaqId(r: FaqRow): string {
    r.id
  }

  /** `type === 3 ? "Store Owners" : "Resellers"`. */
  function AudienceOf(kind: Option<int>): (r: string)
    ensures r == StoreOwnersAudience <==> kind == Some(3)
    ensures r == StoreOwnersAudience || r == ResellersAudience
  {
    if kind == Some(3) then StoreOwnersAudience else ResellersAudience
  }

  /** The form type the edit dialog preselects for an audience. */
  function FormKind(audience: string): string {
    if audience == StoreOwnersAudience then "3" else "2"
  }

  /** Going from an API type to the audience and back to the form's type
      keeps 3 and turns every other type, null included, into 2. */
  lemma KindRoundTrip(kind: Option<int>)
    ensures FormKind(AudienceOf(kind)) == if kind == Some(3) then "3" else "2"
  {
  }

  /** One API record as the row it becomes at position `srNo - 1`. */
  function ToRow(rec: FaqRecord, srNo: int, views: int): (r: FaqRow)
    ensures r.id == rec.id && r.srNo == srNo && r.views == views
    ensures r.question == rec.question && r.answer == rec.answer
    ensures r.audience == AudienceOf(rec.kind) && r.status == "Active"
  {
    FaqRow(rec.id, srNo, rec.question, rec.answer, AudienceOf(rec.kind), "Active", views)
  }

  /** The fetch mapping: row i carries record i's fields and number i + 1. */
  function MapFaqs(data: seq<FaqRecord>): (rows: seq<FaqRow>)
    ensures |rows| == |data|
    ensures forall i :: 0 <= i < |data| ==> rows[i] == ToRow(data[i], i + 1, 0)
  {
    seq(|data|, i requires 0 <= i < |data| => ToRow(data[i], i + 1, 0))
  }

  /** Every row's stored number is its position plus one. */
  predicate NumberedInOrder(rows: seq<FaqRow>) {
    forall i :: 0 <= i < |rows| ==> rows[i].srNo == i + 1
  }

  /** The state a successful fetch leaves: the mapped rows and their count. */
  function Loaded(p: Page, data: seq<FaqRecord>): (r: Page)
    ensures r.totalFaqs == |r.faqs| == |data|
    ensures NumberedInOrder(r.faqs)
  {
    p.(faqs := MapFaqs(data), totalFaqs := |data|)
  }

  /** The invariant the handlers keep: the counter is the list's length, ids
      are unique, and a selected FAQ (one picked from the table) is listed. */
  predicate Consistent(p: Page) {
    && p.totalFaqs == |p.faqs|
    && UniqueKeys(p.faqs, FaqId)
    && (p.selected.Some? ==> exists i :: 0 <= i < |p.faqs| && p.faqs[i] == p.selected.value)
  }

  /** `handleAddEdit(faq?)`: with a row, edit mode with the form filled from
      it and the row selected; without, add mode with an empty form and no
      selection. The dialog opens either way. */
  function HandleAddEdit(p: Page, faq: Option<FaqRow>): (r: Page)
    ensures r.editorOpen && r.faqs == p.faqs && r.totalFaqs == p.totalFaqs
    ensures r.editMode <==> faq.Some?
    ensures r.selected == faq
    ensures faq.Some? ==> r.form == Form(faq.value.question, faq.value.answer, FormKind(faq.value.audience))
    ensures faq.None? ==> r.form == EmptyForm
  {
    match faq
    case Some(row) =>
      p.(editMode := true, form := Form(row.question, row.answer, FormKind(row.audience)),
         selected := faq, editorOpen := true)
    case None =>
      p.(editMode := false, form := EmptyForm, selected := None, editorOpen := true)
  }

  /** The submit handler's error text for an error `err`. */
  function SaveFailure(editMode: bool, err: Thrown): string {
    "Failed to " + (if editMode then "update" else "add") + " FAQ: " + MessageText(err)
  }

  /** The list change a save confirmed by the server makes: in edit mode the
      rows with the returned id are replaced by the returned FAQ, keeping the
      selected row's number and views; in add mode it is appended. */
  function Saved(p: Page, rec: FaqRecord, sel: FaqRow): seq<FaqRow> {
    if p.editMode then PatchKey(p.faqs, FaqId, rec.id, (_: FaqRow) => ToRow(rec, sel.srNo, sel.views))
    else p.faqs + [ToRow(rec, |p.faqs| + 1, 0)]
  }

  /** `handleSubmitFAQ` given the reply to the save request. */
  function HandleSubmit(p: Page, reply: Reply<Option<FaqRecord>>): Page {
    if IsBlank(p.form.question) || IsBlank(p.form.answer) then
      p.(error := Some(RequiredMessage))
    else
      var fail := (err: Thrown) => p.(error := Some(SaveFailure(p.editMode, err)));
      match TransportError(reply)
      case Some(err) => fail(err)
      case None =>
        match reply.body.message
        case None => fail(ErrorObject(MissingMessageError))
        case Some(m) =>
          if !Contains(m, SuccessWord) then Closed(p, p.faqs, p.totalFaqs)
          else if reply.body.payload.None? then fail(ErrorObject(MissingFaqError))
          else if p.editMode && p.selected.None? then fail(ErrorObject(NoSelectionError))
          else
            var rec := reply.body.payload.value;
            var sel := if p.editMode then p.selected.value else FaqRow("", 0, "", "", "", "", 0);
            Closed(p, Saved(p, rec, sel), if p.editMode then p.totalFaqs else p.totalFaqs + 1)
  }

  /** The end of a submit that did not throw: the dialog closes, the form
      empties and the selection clears. */
  function Closed(p: Page, faqs: seq<FaqRow>, total: int): Page {
    p.(faqs := faqs, totalFaqs := total, editorOpen := false, form := EmptyForm, selected := None)
  }

  /** Submitting a blank question or answer only sets the error. */
  lemma BlankSubmitChangesNothing(p: Page, reply: Reply<Option<FaqRecord>>)
    requires IsBlank(p.form.question) || IsBlank(p.form.answer)
    ensures HandleSubmit(p, reply) == p.(error := Some(RequiredMessage))
  {
  }

  /** A submit that passes validation either throws, leaving everything but
      the error line as it was, or closes the dialog and resets the form and
      selection -- whether or not the reply's message reported success. */
  lemma SubmitOutcomes(p: Page, reply: Reply<Option<FaqRecord>>)
    requires !IsBlank(p.form.question) && !IsBlank(p.form.answer)
    ensures var r := HandleSubmit(p, reply);
      || (exists err :: r == p.(error := Some(SaveFailure(p.editMode, err))))
      || (!r.editorOpen && r.form == EmptyForm && r.selected.None? && r.error == p.error)
    ensures reply.Response? && reply.body.Json? && reply.body.message.Some? &&
            !Contains(reply.body.message.value, SuccessWord) ==>
              HandleSubmit(p, reply) == Closed(p, p.faqs, p.totalFaqs)
  {
    var r := HandleSubmit(p, reply);
    match TransportError(reply)
    case Some(err) =>
      assert r == p.(error := Some(SaveFailure(p.editMode, err)));
    case None =>
      if reply.body.message.None? {
        assert r == p.(error := Some(SaveFailure(p.editMode, ErrorObject(MissingMessageError))));
      } else if Contains(reply.body.message.value, SuccessWord) && reply.body.payload.None? {
        assert r == p.(error := Some(SaveFailure(p.editMode, ErrorObject(MissingFaqError))));
      } else if Contains(reply.body.message.value, SuccessWord) && p.editMode && p.selected.None? {
        assert r == p.(error := Some(SaveFailure(p.editMode, ErrorObject(NoSelectionError))));
      }
  }

  /** A confirmed add appends one row numbered one past the list's length
      and counts it; a confirmed edit replaces the listed FAQ with the returned
      one in place, keeping its number and views, and leaves the count. */
  lemma SubmitSuccess(p: Page, reply: Reply<Option<FaqRecord>>)
    requires !IsBlank(p.form.question) && !IsBlank(p.form.answer)
    requires reply.Response? && reply.body.Json? && reply.body.message.Some?
    requires Contains(reply.body.message.value, SuccessWord) && reply.body.payload.Some?
    requires p.editMode ==> p.selected.Some?
    ensures var r := HandleSubmit(p, reply);
            var rec := reply.body.payload.value;
      && (!p.editMode ==>
            && r.faqs == p.faqs + [ToRow(rec, |p.faqs| + 1, 0)]
            && r.totalFaqs == p.totalFaqs + 1)
      && (p.editMode ==>
            && |r.faqs| == |p.faqs| && r.totalFaqs == p.totalFaqs
            && (forall i :: 0 <= i < |p.faqs| && p.faqs[i].id != rec.id ==> r.faqs[i] == p.faqs[i])
            && (forall i :: 0 <= i < |p.faqs| && p.faqs[i] == p.selected.value && rec.id == p.selected.value.id ==>
                  && r.faqs[i].srNo == p.faqs[i].srNo
                  && r.faqs[i].views == p.faqs[i].views
                  && r.faqs[i].question == rec.question
                  && r.faqs[i].answer == rec.answer))
  {
    var r := HandleSubmit(p, reply);
    var rec := reply.body.payload.value;
    if p.editMode {
      assert r == Closed(p, Saved(p, rec, p.selected.value), p.totalFaqs);
    } else {
      assert r == Closed(p, Saved(p, rec, FaqRow("", 0, "", "", "", "", 0)), p.totalFaqs + 1);
    }
  }

  /** `handleConfirmDelete` given the reply to the delete request. Only the
      exact message "FAQ deleted successfully" removes the FAQ and lowers the
      counter; any message closes the dialog and clears the selection. */
  function HandleConfirmDelete(p: Page, reply: Reply<()>): Page {
    match p.selected
    case None => p
    case Some(sel) =>
      match TransportError(reply)
      case Some(err) => p.(error := Some("Failed to delete FAQ: " + MessageText(err)))
      case None =>
        var (faqs, total) :=
          if reply.body.message == Some(DeletedMessage)
          then (RemoveKey(p.faqs, FaqId, sel.id), p.totalFaqs - 1)
          else (p.faqs, p.totalFaqs);
        p.(faqs := faqs, totalFaqs := total, deleteOpen := false, selected := None)
  }

  /** Deleting acts only on the exact success message: then exactly the
      selected FAQ leaves the list (the others stay in order) and the counter
      drops by one; otherwise the list and counter are untouched. */
  lemma DeleteOutcome(p: Page, reply: Reply<()>)
    requires Consistent(p) && p.selected.Some?
    ensures var r := HandleConfirmDelete(p, reply);
      && (reply.Response? && reply.body.Json? && reply.body.message == Some(DeletedMessage) ==>
            && (exists k :: 0 <= k < |p.faqs| && p.faqs[k] == p.selected.value
                            && r.faqs == p.faqs[..k] + p.faqs[k + 1..])
            && r.totalFaqs == p.totalFaqs - 1 && r.selected.None? && !r.deleteOpen)
      && (!(reply.Response? && reply.body.Json? && reply.body.message == Some(DeletedMessage)) ==>
            r.faqs == p.faqs && r.totalFaqs == p.totalFaqs)
  {
    var k :| 0 <= k < |p.faqs| && p.faqs[k] == p.selected.value;
    RemoveUniqueKey(p.faqs, FaqId, k);
  }

  /** A delete from a consistent page keeps it consistent. */
  lemma DeletePreservesConsistency(p: Page, reply: Reply<()>)
    requires Consistent(p)
    ensures Consistent(HandleConfirmDelete(p, reply))
  {
    if p.selected.Some? && TransportError(reply).None? {
      var sel := p.selected.value;
      var r := HandleConfirmDelete(p, reply);
      assert r.selected.None?;
      if reply.body.message == Some(DeletedMessage) {
        var k :| 0 <= k < |p.faqs| && p.faqs[k] == sel;
        RemoveUniqueKey(p.faqs, FaqId, k);
        FilterKeepsUniqueKeys(p.faqs, FaqId, LacksKey(FaqId, sel.id));
        assert r.faqs == RemoveKey(p.faqs, FaqId, sel.id);
      }
    }
  }

  /** A submit keeps the counter equal to the list's length; it keeps ids
      unique too unless an add returns an id already listed. */
  lemma SubmitPreservesConsistency(p: Page, reply: Reply<Option<FaqRecord>>)
    requires Consistent(p)
    requires !p.editMode && reply.Response? && reply.body.Json? && reply.body.payload.Some? ==>
               forall i :: 0 <= i < |p.faqs| ==> p.faqs[i].id != reply.body.payload.value.id
    ensures Consistent(HandleSubmit(p, reply))
  {
    var r := HandleSubmit(p, reply);
    if !IsBlank(p.form.question) && !IsBlank(p.form.answer) && TransportError(reply).None?
       && reply.body.message.Some? && Contains(reply.body.message.value, SuccessWord)
       && reply.body.payload.Some? && !(p.editMode && p.selected.None?)
    {
      var rec := reply.body.payload.value;
      if p.editMode {
        var sel := p.selected.value;
        var f := (_: FaqRow) => ToRow(rec, sel.srNo, sel.views);
        assert r == Closed(p, PatchKey(p.faqs, FaqId, rec.id, f), p.totalFaqs);
        PatchKeyKeepsKeys(p.faqs, FaqId, rec.id, f);
      } else {
        var row := ToRow(rec, |p.faqs| + 1, 0);
        assert r == Closed(p, p.faqs + [row], p.totalFaqs + 1);
        AppendFreshKey(p.faqs, FaqId, row);
      }
    }
  }

  /** After a fetch, the page is consistent when the API's ids are unique, and
      each row's stored number agrees with the "position of its id plus one"
      numbering the other tables compute. */
  lemma LoadedIsConsistent(p: Page, data: seq<FaqRecord>)
    requires forall i, j :: 0 <= i < j < |data| ==> data[i].id != data[j].id
    requires p.selected.None?
    ensures Consistent(Loaded(p, data))
    ensures var rows := Loaded(p, data).faqs;
      forall i :: 0 <= i < |rows| ==> rows[i].srNo == RowNumber(rows, FaqId, rows[i].id)
  {
    var rows := Loaded(p, data).faqs;
    assert UniqueKeys(rows, FaqId) by {
      forall a, b | 0 <= a < b < |rows|
        ensures FaqId(rows[a]) != FaqId(rows[b])
      {
        assert rows[a].id == data[a].id && rows[b].id == data[b].id;
      }
    }
    forall i | 0 <= i < |rows|
      ensures rows[i].srNo == RowNumber(rows, FaqId, rows[i].id)
    {
      RowNumberOfRow(rows, FaqId, rows[i].id);
    }
  }

  /** Numbers are stored, not recomputed: adding keeps rows numbered in
      order, but deleting any row but the last leaves a gap, since the rows
      after it keep their old numbers, and a later add, numbered one past
      the shorter list's length, repeats the last row's number. */
  lemma StoredNumbersAfterChanges(p: Page, rec: FaqRecord, k: int)
    requires NumberedInOrder(p.faqs)
    requires 0 <= k < |p.faqs| - 1
    ensures NumberedInOrder(p.faqs + [ToRow(rec, |p.faqs| + 1, 0)])
    ensures var rest := p.faqs[..k] + p.faqs[k + 1..];
      !NumberedInOrder(rest) && rest[k].srNo == k + 2
    ensures var rest := p.faqs[..k] + p.faqs[k + 1..];
            var added := rest + [ToRow(rec, |rest| + 1, 0)];
      added[|rest|].srNo == added[|rest| - 1].srNo == |p.faqs|
  {
    var rest := p.faqs[..k] + p.faqs[k + 1..];
    assert rest[k] == p.faqs[k + 1];
    assert rest[|rest| - 1] == p.faqs[|p.faqs| - 1];
  }
}
