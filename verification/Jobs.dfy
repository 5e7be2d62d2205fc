/**
 Job states and the transition table (crates/common/src/job.rs).
 */
module Jobs {

  datatype JobStatus =
    | Queued | Starting | Running | Stopping
    | Succeeded | Failed | Cancelled | Lost

  predicate IsTerminal(s: JobStatus) {
    s.Succeeded? || s.Failed? || s.Cancelled? || s.Lost?
  }

  /** The job occupies its node: `is_running` in the source. */
  predicate IsActive(s: JobStatus) {
    s.Starting? || s.Running? || s.Stopping?
  }

  const VALID_TRANSITIONS: set<(JobStatus, JobStatus)> := {
    (Queued, Starting), (Queued, Cancelled), (Queued, Failed),
    (Starting, Running), (Starting, Failed), (Starting, Cancelled),
    (Running, Stopping), (Running, Succeeded), (Running, Failed), (Running, Cancelled), (Running, Lost),
    (Stopping, Succeeded), (Stopping, Failed), (Stopping, Cancelled), (Stopping, Lost),
    (Succeeded, Queued), (Failed, Queued), (Cancelled, Queued)
  }

  predicate CanTransition(from: JobStatus, to: JobStatus) {
    (from, to) in VALID_TRANSITIONS
  }

  /** The states an agent ever reports. */
  predicate AgentReports(s: JobStatus) {
    s.Running? || s.Succeeded? || s.Failed? || s.Cancelled?
  }
}
