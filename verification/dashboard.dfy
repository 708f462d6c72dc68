/** The dashboard's logic: the recent-activity time and type labels, the
    feedback table's status and action cells, and the reply modal with the
    reply handler it calls. The dashboard's concurrent statistics fetch is
    not part of this model. */
module Dashboard {
  import opened Wrappers
  import opened Http
  import opened Text
  import opened Lists

  const JustNow := "Just now"
  const UnknownType := "Unknown"
  const EmptyReplyMessage := "Reply cannot be empty"
  const ReplyFailedMessage := "Failed to send reply. Please try again."
  const ReplyRefused := "Failed to send reply"
  const RepliedStatus := "replied"

  /** `formatTime(hours)` for a whole number of hours. */
  function FormatTime(hours: int): string {
    if hours == 0 then JustNow
    else IntToString(hours) + " hour" + (if hours > 1 then "s" else "") + " ago"
  }

  /** The unit word `formatTime` writes after the count. */
  function HourWord(hours: int): string {
    if hours > 1 then "hours" else "hour"
  }

  /** "Just now" for 0, "1 hour ago" for 1, and the plural with the count
      for more. */
  lemma FormatTimeCases(hours: nat)
    ensures hours == 0 ==> FormatTime(hours) == "Just now"
    ensures hours > 0 ==> FormatTime(hours) == NatToString(hours) + " " + HourWord(hours) + " " + "ago"
    ensures hours == 1 ==> FormatTime(hours) == "1 hour ago"
  {
    if hours > 0 {
      var n := NatToString(hours);
      if hours > 1 {
        assert FormatTime(hours) == n + " hour" + "s" + " ago";
        assert n + " hour" + "s" + " ago" == n + " " + "hours" + " " + "ago";
      } else {
        assert n == "1";
        assert FormatTime(hours) == n + " hour" + "" + " ago";
        assert n + " hour" + "" + " ago" == n + " " + "hour" + " " + "ago";
      }
    }
  }

  /** The text for a positive count is three words, and its first word reads
      back as the count. */
  lemma FormatTimeWords(hours: nat)
    requires hours > 0
    ensures Split(FormatTime(hours), ' ') == [NatToString(hours), HourWord(hours), "ago"]
    ensures ParseDigits(Split(FormatTime(hours), ' ')[0]) == hours
  {
    FormatTimeCases(hours);
    DigitsHaveNo(hours, ' ');
    SplitThreeWords(NatToString(hours), HourWord(hours), "ago");
    NatToStringRoundTrip(hours);
  }

  /** The type badge, `value ? value.replace("-", " ") : "Unknown"`. */
  function TypeLabel(value: Option<string>): string {
    match value
    case Some(v) => if v != "" then ReplaceFirst(v, '-', ' ') else UnknownType
    case None => UnknownType
  }

  /** Only the first dash becomes a space; a value without a dash shows as
      it is, and a missing or empty type shows as "Unknown". */
  lemma TypeLabelSpec(value: Option<string>)
    ensures value.None? || value == Some("") ==> TypeLabel(value) == "Unknown"
    ensures value.Some? && value.value != "" && '-' !in value.value ==> TypeLabel(value) == value.value
    ensures value.Some? ==>
              forall k :: 0 <= k < |value.value| && value.value[k] == '-' && '-' !in value.value[..k] ==>
                TypeLabel(value) == value.value[..k] + " " + value.value[k + 1..]
  {
    if value.Some? {
      ReplaceFirstSpec(value.value, '-', ' ');
    }
  }

  /** The store-owner account type reads as two words. */
  lemma StoreOwnerTypeLabel()
    ensures TypeLabel(Some("store-owner")) == "store owner"
  {
    var v := "store-owner";
    assert v[..5] == "store" && v[6..] == "owner";
    ReplaceFirstAt(v, '-', ' ', 5);
  }

  /** The reseller account type, which has no dash, reads as it is. */
  lemma ResellerTypeLabel()
    ensures TypeLabel(Some("reseller")) == "reseller"
  {
    ReplaceFirstSpec("reseller", '-', ' ');
  }

  /** The status badge, `value.charAt(0).toUpperCase() + value.slice(1)`. */
  function StatusLabel(status: string): (r: string)
    ensures |r| == |status|
    ensures status != "" ==> r[0] == UpperAscii(status[0]) && r[1..] == status[1..]
    ensures status == "replied" ==> r == "Replied"
    ensures status == "pending" ==> r == "Pending"
  {
    Capitalize(status)
  }

  /** A feedback item as the dashboard holds it. */
  datatype FeedbackItem = FeedbackItem(id: string, status: string, reply: Option<string>)

  function ItemId(f: FeedbackItem): string {
    f.id
  }

  /** The action cell: disabled and "Replied" for replied feedback, an
      enabled "Reply" otherwise. */
  datatype Button = Button(disabled: bool, caption: string)

  function ActionButton(f: FeedbackItem): (b: Button)
    ensures b.disabled <==> f.status == RepliedStatus
    ensures b.caption == (if b.disabled then "Replied" else "Reply")
  {
    if f.status == RepliedStatus then Button(true, "Replied") else Button(false, "Reply")
  }

  /** The update a confirmed reply makes to the matching feedback. */
  function MarkReplied(text: string): FeedbackItem -> FeedbackItem {
    (f: FeedbackItem) => f.(status := RepliedStatus, reply := Some(text))
  }

  /** `handleReplySubmit(feedbackId, reply)` given the reply to the request:
      a non-2xx status throws `data.message || "Failed to send reply"`, other
      errors are rethrown as they are, and success marks the feedback. */
  function HandleReplySubmit(items: seq<FeedbackItem>, feedbackId: string, text: string, reply: Reply<()>)
    : (r: (Result<(), Thrown>, seq<FeedbackItem>))
    ensures r.0.Success? <==> reply.Response? && reply.body.Json? && IsOk(reply.status)
    ensures r.0.Failure? ==> r.1 == items
    ensures reply.Response? && reply.body.Json? && !IsOk(reply.status) ==>
              r.0 == Failure(ErrorObject(OrElse(reply.body.message, ReplyRefused)))
    ensures r.0.Success? ==> |r.1| == |items|
    ensures r.0.Success? ==> forall i :: 0 <= i < |items| && items[i].id != feedbackId ==> r.1[i] == items[i]
    ensures r.0.Success? ==> forall i :: 0 <= i < |items| && items[i].id == feedbackId ==>
              r.1[i] == items[i].(status := RepliedStatus, reply := Some(text))
  {
    match TransportError(reply)
    case Some(err) => (Failure(err), items)
    case None =>
      if !IsOk(reply.status) then (Failure(ErrorObject(OrElse(reply.body.message, ReplyRefused))), items)
      else (Success(()), PatchKey(items, ItemId, feedbackId, MarkReplied(text)))
  }

  /** The reply modal's own state. */
  datatype ReplyDialog = ReplyDialog(reply: string, isSubmitting: bool, error: Option<string>)

  /** The page: the feedback list and the feedback whose reply modal is open. */
  datatype Page = Page(feedbacks: seq<FeedbackItem>, selected: Option<FeedbackItem>, dialog: ReplyDialog)

  /** `ReplyModal.handleSubmit` over `handleReplySubmit`: a blank reply only
      sets "Reply cannot be empty"; a success clears the text and closes the
      modal; a failure shows the fixed retry message and keeps the text. */
  function SubmitReply(p: Page, reply: Reply<()>): Page
    requires p.selected.Some?
  {
    if IsBlank(p.dialog.reply) then
      p.(dialog := p.dialog.(error := Some(EmptyReplyMessage)))
    else
      var (outcome, items) := HandleReplySubmit(p.feedbacks, p.selected.value.id, p.dialog.reply, reply);
      if outcome.Success? then
        Page(items, None, ReplyDialog("", false, None))
      else
        p.(dialog := p.dialog.(isSubmitting := false, error := Some(ReplyFailedMessage)))
  }

  /** The modal's three outcomes. A blank reply sends nothing. A failure keeps
      the list, the modal and its text, whatever the server said. A success
      closes the modal and turns the selected feedback's action into a
      disabled "Replied" button, leaving every other row as it was. */
  lemma SubmitReplyOutcome(p: Page, reply: Reply<()>)
    requires p.selected.Some?
    ensures var r := SubmitReply(p, reply);
      && (IsBlank(p.dialog.reply) ==>
            r.feedbacks == p.feedbacks && r.selected == p.selected && r.dialog.reply == p.dialog.reply
            && r.dialog.error == Some(EmptyReplyMessage))
      && (!IsBlank(p.dialog.reply) && !(reply.Response? && reply.body.Json? && IsOk(reply.status)) ==>
            r.feedbacks == p.feedbacks && r.selected == p.selected && r.dialog.reply == p.dialog.reply
            && r.dialog.error == Some(ReplyFailedMessage) && !r.dialog.isSubmitting)
      && (!IsBlank(p.dialog.reply) && reply.Response? && reply.body.Json? && IsOk(reply.status) ==>
            && r.selected.None? && r.dialog.reply == "" && r.dialog.error.None?
            && |r.feedbacks| == |p.feedbacks|
            && (forall i :: 0 <= i < |p.feedbacks| && p.feedbacks[i].id == p.selected.value.id ==>
                  ActionButton(r.feedbacks[i]) == Button(true, "Replied")
                  && r.feedbacks[i].reply == Some(p.dialog.reply))
            && (forall i :: 0 <= i < |p.feedbacks| && p.feedbacks[i].id != p.selected.value.id ==>
                  r.feedbacks[i] == p.feedbacks[i]))
  {
    if !IsBlank(p.dialog.reply) {
      var id := p.selected.value.id;
      var (outcome, items) := HandleReplySubmit(p.feedbacks, id, p.dialog.reply, reply);
      if outcome.Success? {
        assert SubmitReply(p, reply) == Page(items, None, ReplyDialog("", false, None));
        forall i | 0 <= i < |p.feedbacks| && p.feedbacks[i].id == id
          ensures ActionButton(items[i]) == Button(true, "Replied")
        {
          assert items[i].status == RepliedStatus;
        }
      }
    }
  }
}
