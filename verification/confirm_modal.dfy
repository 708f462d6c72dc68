/** The confirmation dialog the store-owner and reseller pages share: it runs
    the page's action, closes on success and shows the action's error
    otherwise. */
module ConfirmModal {
  import opened Wrappers
  import opened Http

  /** Shown when the action throws something without a usable message. */
  const ActionFailed := "Action failed. Please try again."

  /** `open` is whether the page still holds the pending action the dialog
      is mounted for; `error` is the dialog's error line (null when None). */
  datatype Modal = Modal(open: bool, isSubmitting: bool, error: Option<string>)

  /** `handleConfirm` once the page's `onConfirm` has settled: success runs
      `onClose`, which clears the pending action; failure keeps the dialog and
      shows `err.message || ActionFailed`. Either way submitting ends. */
  function HandleConfirm(m: Modal, outcome: Result<(), Thrown>): (r: Modal)
    ensures !r.isSubmitting
    ensures outcome.Success? ==> !r.open && r.error.None?
    ensures outcome.Failure? ==> r.open == m.open && r.error.Some? && r.error.value != ""
    ensures outcome.Failure? && outcome.error.ErrorObject? && outcome.error.message != "" ==>
              r.error == Some(outcome.error.message)
  {
    match outcome
    case Success(_) => Modal(false, false, None)
    case Failure(err) => Modal(m.open, false, Some(CaughtMessage(err, ActionFailed)))
  }
}
