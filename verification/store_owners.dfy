/** The store-owners page: its table cells and the approve / reject / delete
    actions, which the confirmation dialog runs against the backend and, on
    success, apply to the list the page holds. */
module StoreOwners {
  import opened Wrappers
  import opened Http
  import opened Lists
  import opened Accounts
  import opened Text
  import ConfirmModal

  /** The store attached to an owner; only its verification flag matters. */
  datatype Store = Store(verified: bool)

  /** One table row: the owner's account and their store. */
  datatype Owner = Owner(user: Account, store: Store)

  datatype Action = Approve | Reject | Delete

  /** The action's name as the page spells it in URLs and error messages. */
  function ActionName(a: Action): string {
    match a
    case Approve => "approve"
    case Reject => "reject"
    case Delete => "delete"
  }

  /** The row key: `owner.user._id`. */
  function OwnerId(o: Owner): string {
    o.user.id
  }

  /** The "Verify" badge: either flag set means approved. */
  function VerifyLabel(o: Owner): (r: string)
    ensures r == "Approved" || r == "Pending"
    ensures r == "Approved" <==> o.user.verified || o.store.verified
  {
    if o.user.verified || o.store.verified then "Approved" else "Pending"
  }

  /** The approve and reject buttons appear only under a "Pending" badge. */
  predicate OffersReview(o: Owner) {
    VerifyLabel(o) == "Pending"
  }

  /** The "Total Promotions" cell. */
  function PromotionsCell(o: Owner): string {
    UsageCell(o.user.subscription.Some?, o.user.usedPromotions, o.user.totalPromotions)
  }

  /** The "Status" cell. */
  function StatusCell(o: Owner): (s: string)
    ensures s == "Active" || s == "Inactive"
    ensures s == "Active" <==> o.user.subscription.Some? && o.user.subscription.value.status == "completed"
  {
    ActivityLabel(o.user.subscription)
  }

  /** The promotions cell is "N/A" exactly without a subscription or with a
      total of 0; otherwise its two numbers read back as the used and total
      promotions. */
  lemma PromotionsCellContent(o: Owner)
    ensures PromotionsCell(o) == "N/A" <==> o.user.subscription.None? || o.user.totalPromotions == 0
    ensures o.user.subscription.Some? && o.user.totalPromotions > 0 ==>
              var parts := Split(PromotionsCell(o), '/');
              parts == [NatToString(o.user.usedPromotions), NatToString(o.user.totalPromotions)]
              && ParseDigits(parts[0]) == o.user.usedPromotions
              && ParseDigits(parts[1]) == o.user.totalPromotions
  {
    UsageCellContent(o.user.subscription.Some?, o.user.usedPromotions, o.user.totalPromotions);
  }

  /** The row update an approve or reject applies: both flags become
      `action === "approve"`. */
  function SetVerified(v: bool): Owner -> Owner {
    (o: Owner) => o.(user := o.user.(verified := v), store := o.store.(verified := v))
  }

  /** The optimistic update after the server accepted `action` for `userId`. */
  function Apply(rows: seq<Owner>, action: Action, userId: string): seq<Owner> {
    if action == Delete then RemoveKey(rows, OwnerId, userId)
    else PatchKey(rows, OwnerId, userId, SetVerified(action == Approve))
  }

  /** What an action leaves behind: how `handleAction` settled, and the list. */
  datatype Applied = Applied(outcome: Result<(), Thrown>, rows: seq<Owner>)

  /** `handleAction` given the backend's reply. The body is read before the
      status is checked; a non-2xx status throws `data.message || "<action>
      failed"`, and the `catch` rethrows every error as
      `err.message || "<action> failed"`. */
  function HandleAction(rows: seq<Owner>, action: Action, userId: string, reply: Reply<()>): (r: Applied)
    ensures r.outcome.Success? <==> reply.Response? && reply.body.Json? && IsOk(reply.status)
    ensures r.outcome.Success? ==> r.rows == Apply(rows, action, userId)
    ensures r.outcome.Failure? ==> r.rows == rows && r.outcome.error.ErrorObject?
    ensures r.outcome.Failure? ==> r.outcome.error.message != ""
    ensures reply.Response? && reply.body.Json? && !IsOk(reply.status) ==>
              r.outcome == Failure(ErrorObject(OrElse(reply.body.message, ActionName(action) + " failed")))
  {
    var fallback := ActionName(action) + " failed";
    match TransportError(reply)
    case Some(err) => Applied(Failure(ErrorObject(CaughtMessage(err, fallback))), rows)
    case None =>
      if !IsOk(reply.status) then
        Applied(Failure(ErrorObject(CaughtMessage(ErrorObject(OrElse(reply.body.message, fallback)), fallback))), rows)
      else Applied(Success(()), Apply(rows, action, userId))
  }

  /** Approving an owner shows them as "Approved" without review buttons;
      rejecting shows "Pending" with the buttons again (there is no
      "Rejected" state). Every other row, and the order and keys of all rows,
      stay as they were, so the row numbers do not move. */
  lemma ReviewOutcome(rows: seq<Owner>, action: Action, userId: string, reply: Reply<()>)
    requires action != Delete
    requires HandleAction(rows, action, userId, reply).outcome.Success?
    ensures var after := HandleAction(rows, action, userId, reply).rows;
      && |after| == |rows|
      && (forall i :: 0 <= i < |rows| ==> OwnerId(after[i]) == OwnerId(rows[i]))
      && (forall i :: 0 <= i < |rows| && OwnerId(rows[i]) == userId ==>
            (VerifyLabel(after[i]) == "Approved" <==> action == Approve)
            && (OffersReview(after[i]) <==> action == Reject))
      && (forall i :: 0 <= i < |rows| && OwnerId(rows[i]) != userId ==> after[i] == rows[i])
      && (forall id :: RowNumber(after, OwnerId, id) == RowNumber(rows, OwnerId, id))
  {
    var after := HandleAction(rows, action, userId, reply).rows;
    var f := SetVerified(action == Approve);
    PatchKeyKeepsKeys(rows, OwnerId, userId, f);
    assert after == PatchKey(rows, OwnerId, userId, f);
    forall id
      ensures RowNumber(after, OwnerId, id) == RowNumber(rows, OwnerId, id)
    {
      var p := HasKey(OwnerId, id);
      assert forall i :: 0 <= i < |rows| ==> p(after[i]) == p(rows[i]);
      FirstIndexSameTests(rows, after, p);
    }
  }

  /** Deleting a listed owner from a list with unique ids removes exactly that
      row and keeps the others in order. */
  lemma DeleteOutcome(rows: seq<Owner>, k: int, reply: Reply<()>)
    requires UniqueKeys(rows, OwnerId) && 0 <= k < |rows|
    requires HandleAction(rows, Delete, OwnerId(rows[k]), reply).outcome.Success?
    ensures HandleAction(rows, Delete, OwnerId(rows[k]), reply).rows == rows[..k] + rows[k + 1..]
  {
    RemoveUniqueKey(rows, OwnerId, k);
  }

  /** The confirmation dialog over `handleAction`: it closes exactly when the
      backend accepted the action; otherwise the list is untouched and the
      dialog shows the server's message, or the transport error's, or
      "<action> failed" -- never the dialog's own fallback, since every error
      `handleAction` throws has a message. */
  function Confirm(rows: seq<Owner>, m: ConfirmModal.Modal, action: Action, userId: string, reply: Reply<()>)
    : (r: (seq<Owner>, ConfirmModal.Modal))
    ensures !r.1.open <==> (HandleAction(rows, action, userId, reply).outcome.Success? || !m.open)
    ensures r.1.error.Some? ==> r.0 == rows
    ensures var fallback := ActionName(action) + " failed";
      reply.Response? && reply.body.Json? && !IsOk(reply.status) ==>
        r.1.error == Some(OrElse(reply.body.message, fallback))
    ensures var fallback := ActionName(action) + " failed";
      reply.Unreachable? ==> r.1.error == Some(OrElse(Some(reply.error), fallback))
  {
    var applied := HandleAction(rows, action, userId, reply);
    (applied.rows, ConfirmModal.HandleConfirm(m, applied.outcome))
  }
}
