/** The patent state machine of src/services/patents/lifecycle.js. */
module Lifecycle {
  import opened Wrappers

  /** `PendingAi` is reserved by the schema; no transition reaches it. */
  datatype Status = Draft | PendingAi | PendingAdmin | Approved | Declined

  datatype Action = Submit | Approve | Decline

  function From(action: Action): set<Status> {
    match action
    case Submit => {Draft, Declined}
    case Approve => {PendingAdmin}
    case Decline => {PendingAdmin, Approved}
  }

  function To(action: Action): Status {
    match action
    case Submit => PendingAdmin
    case Approve => Approved
    case Decline => Declined
  }

  const EDITABLE_STATUSES: set<Status> := {Draft, Declined}

  /** The cheap check made before any write; the transaction checks again. */
  function AssertTransition(status: Status, action: Action): Result<Status, Status> {
    if status in From(action) then Success(To(action)) else Failure(status)
  }
}
