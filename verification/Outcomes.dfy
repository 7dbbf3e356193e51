/** How one record ends, and which failures are worth retrying. */
module Outcomes {
  import opened Mapping
  import opened Erp

  datatype Kind = Transient | Permanent
  datatype Decision = Decision(kind: Kind, reason: string)

  /** Everything that can go wrong while a record is processed. */
  datatype Failure = Unmappable(message: PermanentError) | ErpFailed(answer: ErpError)

  /** Bad data and refused items are permanent; anything else may work later. */
  function Classify(f: Failure): Decision {
    match f
    case Unmappable(e) => Decision(Permanent, e.reason)
    case ErpFailed(Rejected) => Decision(Permanent, "erp_rejected")
    case ErpFailed(Unavailable) => Decision(Transient, "erp_unavailable")
    case ErpFailed(Unexpected(code)) => Decision(Transient, "unexpected:" + code)
  }

  datatype Outcome = Wrote(result: WriteResult) | DeadLettered | Retry | DlqSendFailed

  /** The outcomes that let the queue delete the record. */
  predicate Acknowledged(o: Outcome) {
    o.Wrote? || o.DeadLettered?
  }
}
