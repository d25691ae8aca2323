/** The status strings that the browser agent, the activities and the
    workflow exchange in their result dictionaries. */
module Statuses {
  const SUCCESS: string := "SUCCESS"
  const TWO_FA_REQUIRED: string := "2FA_REQUIRED"
  const FAILED: string := "FAILED"

  /** The three outcomes a cancellation attempt can report. */
  predicate IsOutcome(status: string) {
    status == SUCCESS || status == TWO_FA_REQUIRED || status == FAILED
  }
}
