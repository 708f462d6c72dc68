/** The resellers page: its table cells and the delete action the
    confirmation dialog runs. */
module Resellers {
  import opened Wrappers
  import opened Http
  import opened Lists
  import opened Accounts
  import opened Text
  import ConfirmModal

  /** The fallback message of every failed delete. */
  const DeleteFailed := "Delete failed"

  /** One table row: the reseller's account. */
  datatype Reseller = Reseller(user: Account)

  /** The row key: `reseller.user._id`. */
  function ResellerId(r: Reseller): string {
    r.user.id
  }

  /** The "Total Scans" cell: the number of recorded scans over the plan's total. */
  function ScansCell(r: Reseller): string {
    UsageCell(r.user.subscription.Some?, r.user.scansUsed, r.user.totalScans)
  }

  /** The "Status" cell. */
  function StatusCell(r: Reseller): (s: string)
    ensures s == "Active" || s == "Inactive"
    ensures s == "Active" <==> r.user.subscription.Some? && r.user.subscription.value.status == "completed"
  {
    ActivityLabel(r.user.subscription)
  }

  /** The scans cell is "N/A" exactly without a subscription or with a total
      of 0; otherwise it is two decimals around a slash that read back as
      the number of recorded scans and the plan's total. */
  lemma ScansCellContent(r: Reseller)
    ensures ScansCell(r) == "N/A" <==> r.user.subscription.None? || r.user.totalScans == 0
    ensures r.user.subscription.Some? && r.user.totalScans > 0 ==>
              var parts := Split(ScansCell(r), '/');
              parts == [NatToString(r.user.scansUsed), NatToString(r.user.totalScans)]
              && ParseDigits(parts[0]) == r.user.scansUsed && ParseDigits(parts[1]) == r.user.totalScans
  {
    UsageCellContent(r.user.subscription.Some?, r.user.scansUsed, r.user.totalScans);
  }

  /** `handleAction("delete", userId)` given the backend's reply: the body is
      read first, a non-2xx status throws `data.message || "Delete failed"`,
      the `catch` rethrows `err.message || "Delete failed"`, and success
      filters the reseller out. */
  function HandleDelete(rows: seq<Reseller>, userId: string, reply: Reply<()>)
    : (r: (Result<(), Thrown>, seq<Reseller>))
    ensures r.0.Success? <==> reply.Response? && reply.body.Json? && IsOk(reply.status)
    ensures r.0.Failure? ==> r.1 == rows && r.0.error.ErrorObject? && r.0.error.message != ""
    ensures reply.Response? && reply.body.Json? && !IsOk(reply.status) ==>
              r.0 == Failure(ErrorObject(OrElse(reply.body.message, DeleteFailed)))
    ensures r.0.Success? ==> forall i :: 0 <= i < |r.1| ==> ResellerId(r.1[i]) != userId
    ensures r.0.Success? ==> forall i :: 0 <= i < |rows| && ResellerId(rows[i]) != userId ==> rows[i] in r.1
  {
    match TransportError(reply)
    case Some(err) => (Failure(ErrorObject(CaughtMessage(err, DeleteFailed))), rows)
    case None =>
      if !IsOk(reply.status) then
        (Failure(ErrorObject(CaughtMessage(ErrorObject(OrElse(reply.body.message, DeleteFailed)), DeleteFailed))), rows)
      else (Success(()), RemoveKey(rows, ResellerId, userId))
  }

  /** A successful delete of the k-th reseller (ids unique) removes exactly
      that row: the list is one shorter, and every later row's "Sr No."
      drops by one while every earlier row keeps its number. */
  lemma DeleteRenumbers(rows: seq<Reseller>, k: int, reply: Reply<()>)
    requires UniqueKeys(rows, ResellerId) && 0 <= k < |rows|
    requires HandleDelete(rows, ResellerId(rows[k]), reply).0.Success?
    ensures var after := HandleDelete(rows, ResellerId(rows[k]), reply).1;
      && after == rows[..k] + rows[k + 1..]
      && (forall j :: 0 <= j < |rows| && j != k ==>
            RowNumber(after, ResellerId, ResellerId(rows[j])) == if j < k then j + 1 else j)
      && RowNumber(after, ResellerId, ResellerId(rows[k])) == 0
  {
    var after := HandleDelete(rows, ResellerId(rows[k]), reply).1;
    RemoveUniqueKey(rows, ResellerId, k);
    forall j | 0 <= j < |rows| && j != k
      ensures RowNumber(after, ResellerId, ResellerId(rows[j])) == if j < k then j + 1 else j
    {
      RowNumberAfterRemoval(rows, ResellerId, k, j);
    }
  }

  /** The confirmation dialog over the delete: it closes exactly when the
      backend accepted; a refusal keeps the list and shows the server's
      message or "Delete failed". */
  function Confirm(rows: seq<Reseller>, m: ConfirmModal.Modal, userId: string, reply: Reply<()>)
    : (r: (seq<Reseller>, ConfirmModal.Modal))
    ensures !r.1.open <==> (HandleDelete(rows, userId, reply).0.Success? || !m.open)
    ensures r.1.error.Some? ==> r.0 == rows
    ensures reply.Response? && reply.body.Json? && !IsOk(reply.status) ==>
              r.1.error == Some(OrElse(reply.body.message, DeleteFailed))
  {
    var (outcome, after) := HandleDelete(rows, userId, reply);
    (after, ConfirmModal.HandleConfirm(m, outcome))
  }
}
