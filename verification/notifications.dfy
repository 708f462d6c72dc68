/** The notifications page: the mapping from the API's notifications to rows,
    the statistics cards, and the add handler with its validation and the
    counter updates it makes. */
module Notifications {
  import opened Wrappers
  import opened Http
  import opened Text
  import opened Lists

  const AllUsers := "All Users"
  const StoreOwners := "Store Owners"
  const Resellers := "Resellers"
  const Sent := "Sent"
  const Draft := "Draft"
  const RequiredMessage := "Title and Content are required."
  const CreatedMessage := "Notification created successfully"

  /** A notification as the API sends it: `kind` is the optional `type`, and
      `createdAt` the raw creation date. */
  datatype NotificationRecord = NotificationRecord(
    id: string, heading: string, content: string, kind: Option<string>, read: bool, createdAt: string)

  /** A table row. `id` is None when the create reply carried no
      `notification_id`. `sentDate` holds the creation date for read
      notifications (its locale formatting is not modelled). */
  datatype NotificationRow = NotificationRow(
    id: Option<string>,
    srNo: int,
    title: string,
    content: string,
    audience: string,
    status: string,
    sentDate: Option<string>,
    readCount: int,
    totalRecipients: int)

  /** The four cards. */
  datatype Stats = Stats(totalNotifications: int, sentNotifications: int, draftNotifications: int, avgReadRate: int)

  /** The add form; `kind` is "all", "reseller" or "store_owner". */
  datatype Form = Form(title: string, content: string, kind: string)

  const ResetForm := Form("", "", "all")

  datatype Page = Page(
    notifications: seq<NotificationRow>,
    stats: Stats,
    form: Form,
    addOpen: bool,
    error: Option<string>)

  /** The audience for a `type`: the two account kinds by name, and every
      other value, a missing one included, as "All Users". */
  function AudienceOf(kind: Option<string>): (r: string)
    ensures r == StoreOwners <==> kind == Some("store_owner")
    ensures r == Resellers <==> kind == Some("reseller")
    ensures r == AllUsers <==> kind != Some("store_owner") && kind != Some("reseller")
  {
    if kind == Some("store_owner") then StoreOwners
    else if kind == Some("reseller") then Resellers
    else AllUsers
  }

  /** One API record as the row at position `srNo - 1`. */
  function ToRow(rec: NotificationRecord, srNo: int): NotificationRow {
    NotificationRow(Some(rec.id), srNo, rec.heading, rec.content, AudienceOf(rec.kind),
                    if rec.read then Sent else Draft,
                    if rec.read then Some(rec.createdAt) else None,
                    if rec.read then 1 else 0, 1)
  }

  /** The fetch mapping. */
  function MapNotifications(data: seq<NotificationRecord>): (rows: seq<NotificationRow>)
    ensures |rows| == |data|
    ensures forall i :: 0 <= i < |data| ==> rows[i] == ToRow(data[i], i + 1)
  {
    seq(|data|, i requires 0 <= i < |data| => ToRow(data[i], i + 1))
  }

  /** A read notification maps to a sent row with a sent date and one read;
      an unread one to a draft without a sent date and no reads; each has
      one recipient and is numbered by its position. */
  lemma RowShape(data: seq<NotificationRecord>, i: int)
    requires 0 <= i < |data|
    ensures var r := MapNotifications(data)[i];
      && r.srNo == i + 1 && r.totalRecipients == 1
      && (r.status == Sent <==> data[i].read)
      && (r.status == Draft <==> !data[i].read)
      && (r.sentDate.Some? <==> data[i].read)
      && (r.readCount == 1 <==> data[i].read) && (r.readCount == 0 <==> !data[i].read)
  {
  }

  predicate IsSent(r: NotificationRow) {
    r.status == Sent
  }

  predicate IsDraft(r: NotificationRow) {
    r.status == Draft
  }

  /** `Math.round(100 * sent / total)` for whole numbers: rounding half up. */
  function RoundedPercent(sent: nat, total: nat): int {
    if total == 0 then 0 else (200 * sent + total) / (2 * total)
  }

  /** The read rate a list of rows gives: every row contributes
      `readCount / totalRecipients * 100`, which is 100 for a sent row and 0
      for a draft, and the mean is rounded. */
  function AvgReadRate(rows: seq<NotificationRow>): int {
    RoundedPercent(Count(rows, IsSent), |rows|)
  }

  /** The statistics the fetch computes from the mapped rows. */
  function ComputeStats(rows: seq<NotificationRow>): Stats {
    Stats(|rows|, Count(rows, IsSent), Count(rows, IsDraft), AvgReadRate(rows))
  }

  /** The rounded percentage is 0 for no rows and otherwise within half a
      point of the exact rate, so it lies in [0, 100], is 100 exactly when
      every row is sent, and is 0 when none is. */
  lemma RoundedPercentBounds(sent: nat, total: nat)
    requires sent <= total
    ensures total == 0 ==> RoundedPercent(sent, total) == 0
    ensures total > 0 ==> 2 * total * RoundedPercent(sent, total) <= 200 * sent + total
    ensures total > 0 ==> 200 * sent + total < 2 * total * (RoundedPercent(sent, total) + 1)
    ensures 0 <= RoundedPercent(sent, total) <= 100
    ensures sent == 0 ==> RoundedPercent(sent, total) == 0
    ensures total > 0 && sent == total ==> RoundedPercent(sent, total) == 100
  {
    if total > 0 {
      var n := 200 * sent + total;
      var d := 2 * total;
      var q := n / d;
      DivBounds(n, d);
      assert d * q + d == d * (q + 1);
      CancelLess(d, 0, q + 1);
      assert n < d * 101;
      CancelLess(d, q, 101);
      if sent == 0 {
        assert n < d * 1;
        CancelLess(d, q, 1);
      }
      if sent == total {
        assert d * 99 < d * q + d - d;
        CancelLess(d, 99, q);
      }
    }
  }

  /** Euclidean division by a positive number brackets the dividend. */
  lemma DivBounds(n: int, d: int)
    requires d > 0
    ensures d * (n / d) <= n < d * (n / d) + d
  {
    assert n == d * (n / d) + n % d;
  }

  /** A positive factor can be cancelled from a strict inequality. */
  lemma CancelLess(d: int, a: int, b: int)
    requires d > 0 && d * a < d * b
    ensures a < b
  {
    assert d * (b - a) == d * b - d * a;
  }

  /** The status of every row is "Sent" or "Draft". */
  predicate SentOrDraft(rows: seq<NotificationRow>) {
    forall i :: 0 <= i < |rows| ==> IsSent(rows[i]) || IsDraft(rows[i])
  }

  /** The cards agree with the rows. */
  predicate StatsExact(p: Page) {
    && p.stats.totalNotifications == |p.notifications|
    && p.stats.sentNotifications == Count(p.notifications, IsSent)
    && p.stats.draftNotifications == Count(p.notifications, IsDraft)
  }

  /** After a fetch, sent and draft notifications partition the list and the
      read rate is a percentage: 0 for an empty list. */
  lemma FetchedStats(data: seq<NotificationRecord>)
    ensures var rows := MapNotifications(data);
            var s := ComputeStats(rows);
      && SentOrDraft(rows)
      && s.sentNotifications + s.draftNotifications == s.totalNotifications == |data|
      && 0 <= s.avgReadRate <= 100
      && (|data| == 0 ==> s.avgReadRate == 0)
  {
    var rows := MapNotifications(data);
    SentOrDraftCounts(rows);
    RoundedPercentBounds(Count(rows, IsSent), |rows|);
  }

  /** In a list of sent and draft rows the two counts add up to its length. */
  lemma {:induction false} SentOrDraftCounts(rows: seq<NotificationRow>)
    requires SentOrDraft(rows)
    ensures Count(rows, IsSent) + Count(rows, IsDraft) == |rows|
    ensures Count(rows, IsSent) <= |rows|
  {
    if rows != [] {
      SentOrDraftCounts(rows[1..]);
    }
  }

  /** `handleAddNotification`: an empty form with type "all", dialog open. */
  function OpenAdd(p: Page): (r: Page)
    ensures r.form == ResetForm && r.addOpen
    ensures r.notifications == p.notifications && r.stats == p.stats
  {
    p.(form := ResetForm, addOpen := true)
  }

  /** The row an accepted notification becomes: a draft numbered after the
      current last row, built from the form. */
  function NewRow(p: Page, id: Option<string>): NotificationRow {
    NotificationRow(id, |p.notifications| + 1, p.form.title, p.form.content,
                    AudienceOf(Some(p.form.kind)), Draft, None, 0, 1)
  }

  /** The list and cards after the server confirmed a new notification. */
  function Added(p: Page, id: Option<string>): Page {
    p.(notifications := p.notifications + [NewRow(p, id)],
       stats := p.stats.(totalNotifications := p.stats.totalNotifications + 1,
                         draftNotifications := p.stats.draftNotifications + 1))
  }

  /** `handleSubmitNotification` given the reply to the create request, whose
      payload is `notification_id`. */
  function HandleSubmit(p: Page, reply: Reply<Option<string>>): Page {
    if IsBlank(p.form.title) || IsBlank(p.form.content) then
      p.(error := Some(RequiredMessage))
    else
      match TransportError(reply)
      case Some(err) => p.(error := Some("Failed to add notification: " + MessageText(err)))
      case None =>
        var added := if reply.body.message == Some(CreatedMessage) then Added(p, reply.body.payload) else p;
        added.(addOpen := false, form := ResetForm)
  }

  /** A blank title or content only sets the error. A thrown error only sets
      its message. Otherwise the dialog closes and the form resets, and only
      the exact success message appends one draft, numbered after the old
      last row, counting it in the total and the drafts; the sent count and
      the read rate stay as they were. */
  lemma SubmitOutcome(p: Page, reply: Reply<Option<string>>)
    ensures var r := HandleSubmit(p, reply);
      && ((IsBlank(p.form.title) || IsBlank(p.form.content)) ==> r == p.(error := Some(RequiredMessage)))
      && (!IsBlank(p.form.title) && !IsBlank(p.form.content) ==>
            && ((reply.Unreachable? || reply.body.Unreadable?) ==>
                  r.notifications == p.notifications && r.stats == p.stats && r.form == p.form
                  && r.error.Some?)
            && (reply.Response? && reply.body.Json? ==>
                  !r.addOpen && r.form == ResetForm && r.error == p.error
                  && r.stats.sentNotifications == p.stats.sentNotifications
                  && r.stats.avgReadRate == p.stats.avgReadRate
                  && (reply.body.message == Some(CreatedMessage) ==>
                        && r.notifications == p.notifications + [NewRow(p, reply.body.payload)]
                        && r.notifications[|p.notifications|].srNo == |p.notifications| + 1
                        && IsDraft(r.notifications[|p.notifications|])
                        && r.stats.totalNotifications == p.stats.totalNotifications + 1
                        && r.stats.draftNotifications == p.stats.draftNotifications + 1)
                  && (reply.body.message != Some(CreatedMessage) ==>
                        r.notifications == p.notifications && r.stats == p.stats)))
  {
    var r := HandleSubmit(p, reply);
    if !IsBlank(p.form.title) && !IsBlank(p.form.content) {
      match TransportError(reply)
      case Some(err) =>
        assert r == p.(error := Some("Failed to add notification: " + MessageText(err)));
      case None =>
        if reply.body.message == Some(CreatedMessage) {
          assert r == Added(p, reply.body.payload).(addOpen := false, form := ResetForm);
          assert r.notifications[|p.notifications|] == NewRow(p, reply.body.payload);
        } else {
          assert r == p.(addOpen := false, form := ResetForm);
        }
    }
  }

  /** Submitting keeps the counters equal to the counts and every row sent
      or draft. */
  lemma SubmitKeepsStatsExact(p: Page, reply: Reply<Option<string>>)
    requires StatsExact(p) && SentOrDraft(p.notifications)
    ensures StatsExact(HandleSubmit(p, reply)) && SentOrDraft(HandleSubmit(p, reply).notifications)
  {
    var r := HandleSubmit(p, reply);
    if !IsBlank(p.form.title) && !IsBlank(p.form.content) && TransportError(reply).None?
       && reply.body.message == Some(CreatedMessage)
    {
      assert r == Added(p, reply.body.payload).(addOpen := false, form := ResetForm);
      AddedKeepsStatsExact(p, reply.body.payload);
    } else {
      SubmitOutcome(p, reply);
      assert r.notifications == p.notifications && r.stats == p.stats;
    }
  }

  /** Appending the new draft keeps the counters equal to the counts. */
  lemma AddedKeepsStatsExact(p: Page, id: Option<string>)
    requires StatsExact(p) && SentOrDraft(p.notifications)
    ensures StatsExact(Added(p, id)) && SentOrDraft(Added(p, id).notifications)
  {
    var row := NewRow(p, id);
    assert IsDraft(row) && !IsSent(row);
    CountAppend(p.notifications, row, IsSent);
    CountAppend(p.notifications, row, IsDraft);
  }

}
