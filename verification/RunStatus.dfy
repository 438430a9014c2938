/** The status of a research run. */
module RunStatus {
  datatype Status = Queued | Running | Completed | Failed | Cancelled

  predicate Terminal(s: Status) {
    s.Completed? || s.Failed? || s.Cancelled?
  }
}
