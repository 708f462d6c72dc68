/** The feedback page: the mapping from the API's feedback records to rows,
    the statistics cards computed from them, and the reply handler with the
    counter updates it makes. */
module Feedback {
  import opened Wrappers
  import opened Http
  import opened Text
  import opened Lists

  const StoreOwnerType := "Store Owner"
  const ResellerType := "Reseller"
  const RepliedMessage := "Feedback replied successfully"
  const ReplyFailed := "Failed to send reply. Please try again."

  /** A feedback record as the API sends it (dates, names and e-mails left
      out): `kind` is `type`, `suggestion` the text, `status` "replied" or
      "pending". */
  datatype FeedbackRecord = FeedbackRecord(
    id: string, rating: int, kind: string, suggestion: string, status: string, reply: Option<string>)

  /** A table row. */
  datatype FeedbackRow = FeedbackRow(
    id: string, rating: int, userType: string, message: string, replied: bool, reply: Option<string>)

  /** The statistics cards. `averageRating` is the exact mean. */
  datatype Stats = Stats(totalFeedback: int, averageRating: real, pendingReplies: int, repliedCount: int)

  /** The page state the reply handler reads and writes. */
  datatype Page = Page(
    feedbacks: seq<FeedbackRow>,
    stats: Stats,
    selected: Option<FeedbackRow>,
    replyOpen: bool,
    replyMessage: string,
    error: Option<string>)

  function FeedbackId(r: FeedbackRow): string {
    r.id
  }

  function Rating(r: FeedbackRow): int {
    r.rating
  }

  predicate IsReplied(r: FeedbackRow) {
    r.replied
  }

  predicate IsPending(r: FeedbackRow) {
    !r.replied
  }

  /** One API record as a row. */
  function ToRow(rec: FeedbackRecord): (r: FeedbackRow)
    ensures r.id == rec.id && r.rating == rec.rating && r.message == rec.suggestion && r.reply == rec.reply
    ensures r.userType == StoreOwnerType <==> rec.kind == "store_owner"
    ensures r.userType == StoreOwnerType || r.userType == ResellerType
    ensures r.replied <==> rec.status == "replied"
  {
    FeedbackRow(rec.id, rec.rating, if rec.kind == "store_owner" then StoreOwnerType else ResellerType,
                rec.suggestion, rec.status == "replied", rec.reply)
  }

  /** The fetch mapping, record by record. */
  function MapFeedbacks(data: seq<FeedbackRecord>): (rows: seq<FeedbackRow>)
    ensures |rows| == |data|
    ensures forall i :: 0 <= i < |data| ==> rows[i] == ToRow(data[i])
  {
    seq(|data|, i requires 0 <= i < |data| => ToRow(data[i]))
  }

  /** The mean rating, 0 when there is no feedback. */
  function AverageRating(rows: seq<FeedbackRow>): real {
    if |rows| == 0 then 0.0 else (Sum(rows, Rating) as real) / (|rows| as real)
  }

  /** The statistics the fetch computes from the mapped rows. */
  function ComputeStats(rows: seq<FeedbackRow>): Stats {
    Stats(|rows|, AverageRating(rows), Count(rows, IsPending), Count(rows, IsReplied))
  }

  /** The cards agree with the rows: the counters are the counts they name. */
  predicate StatsExact(p: Page) {
    && p.stats.totalFeedback == |p.feedbacks|
    && p.stats.pendingReplies == Count(p.feedbacks, IsPending)
    && p.stats.repliedCount == Count(p.feedbacks, IsReplied)
  }

  /** After a fetch, pending and replied feedback partition the list, and
      the average is 0 for an empty list and otherwise lies between the
      lowest and highest possible rating. */
  lemma FetchedStats(data: seq<FeedbackRecord>, lo: int, hi: int)
    requires forall i :: 0 <= i < |data| ==> lo <= data[i].rating <= hi
    ensures var s := ComputeStats(MapFeedbacks(data));
      && s.pendingReplies + s.repliedCount == s.totalFeedback == |data|
      && (|data| == 0 ==> s.averageRating == 0.0)
      && (|data| > 0 ==> lo as real <= s.averageRating <= hi as real)
  {
    var rows := MapFeedbacks(data);
    CountComplement(rows, IsPending, IsReplied);
    SumBounds(rows, Rating, lo, hi);
    if |rows| > 0 {
      MeanBetween(Sum(rows, Rating), |rows|, lo, hi);
    }
  }

  /** A mean of n values whose sum lies in [lo * n, hi * n] lies in [lo, hi]. */
  lemma MeanBetween(total: int, n: int, lo: int, hi: int)
    requires n > 0 && lo * n <= total <= hi * n
    ensures lo as real <= (total as real) / (n as real) <= hi as real
  {
    var m := (total as real) / (n as real);
    var nr := n as real;
    assert m * nr == total as real;
    assert (lo as real) * nr <= total as real <= (hi as real) * nr;
  }

  /** The reply button is disabled for feedback that already has a reply. */
  predicate ReplyDisabled(r: FeedbackRow) {
    r.replied
  }

  /** The update a confirmed reply makes to the selected feedback. */
  function MarkReplied(text: string): FeedbackRow -> FeedbackRow {
    (r: FeedbackRow) => r.(replied := true, reply := Some(text))
  }

  /** `handleSendReply` given the reply to the request. With nothing
      selected or a blank message it does nothing. Otherwise only the exact
      message "Feedback replied successfully" marks the selected feedback
      and moves one from pending to replied; a thrown error shows
      `ReplyFailed`; and in every case the dialog then closes and the
      message and selection clear. */
  function HandleSendReply(p: Page, reply: Reply<()>): Page {
    if p.selected.None? || IsBlank(p.replyMessage) then p
    else
      var sel := p.selected.value;
      var settled :=
        match TransportError(reply)
        case Some(_) => p.(error := Some(ReplyFailed))
        case None =>
          if reply.body.message == Some(RepliedMessage) then
            p.(feedbacks := PatchKey(p.feedbacks, FeedbackId, sel.id, MarkReplied(p.replyMessage)),
               stats := p.stats.(pendingReplies := p.stats.pendingReplies - 1,
                                 repliedCount := p.stats.repliedCount + 1))
          else p;
      settled.(replyOpen := false, replyMessage := "", selected := None)
  }

  /** What a reply attempt leaves: nothing when there is nothing to send;
      otherwise a closed, cleared dialog, the same total, the same
      pending-plus-replied sum, and rows that change only on the exact
      success message and only where the id is the selected one. */
  lemma SendReplyOutcome(p: Page, reply: Reply<()>)
    ensures var r := HandleSendReply(p, reply);
      && ((p.selected.None? || IsBlank(p.replyMessage)) ==> r == p)
      && (p.selected.Some? && !IsBlank(p.replyMessage) ==>
            && !r.replyOpen && r.replyMessage == "" && r.selected.None?
            && r.stats.totalFeedback == p.stats.totalFeedback
            && r.stats.pendingReplies + r.stats.repliedCount == p.stats.pendingReplies + p.stats.repliedCount
            && |r.feedbacks| == |p.feedbacks|
            && (forall i :: 0 <= i < |p.feedbacks| && p.feedbacks[i].id != p.selected.value.id ==>
                  r.feedbacks[i] == p.feedbacks[i])
            && (reply.Response? && reply.body.Json? && reply.body.message == Some(RepliedMessage) ==>
                  forall i :: 0 <= i < |p.feedbacks| && p.feedbacks[i].id == p.selected.value.id ==>
                    r.feedbacks[i] == p.feedbacks[i].(replied := true, reply := Some(p.replyMessage))
                    && ReplyDisabled(r.feedbacks[i]))
            && (!(reply.Response? && reply.body.Json? && reply.body.message == Some(RepliedMessage)) ==>
                  r.feedbacks == p.feedbacks && r.stats == p.stats)
            && (reply.Unreachable? || reply.body.Unreadable? ==> r.error == Some(ReplyFailed)))
  {
  }

  /** When the selected feedback is a listed, still pending row and ids are
      unique, a confirmed reply keeps the counters equal to the counts. */
  lemma ReplyKeepsStatsExact(p: Page, reply: Reply<()>, k: int)
    requires StatsExact(p) && UniqueKeys(p.feedbacks, FeedbackId)
    requires 0 <= k < |p.feedbacks| && p.selected == Some(p.feedbacks[k]) && !p.feedbacks[k].replied
    ensures StatsExact(HandleSendReply(p, reply))
  {
    var r := HandleSendReply(p, reply);
    if !IsBlank(p.replyMessage) && r.feedbacks != p.feedbacks {
      var f := MarkReplied(p.replyMessage);
      PatchUniqueKey(p.feedbacks, FeedbackId, f, k);
      assert r.feedbacks == p.feedbacks[k := f(p.feedbacks[k])];
      CountUpdate(p.feedbacks, k, f(p.feedbacks[k]), IsPending);
      CountUpdate(p.feedbacks, k, f(p.feedbacks[k]), IsReplied);
    }
  }
}
