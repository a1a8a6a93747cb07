/** Jobs, runs and their states, `internal/job`. */
module JobModel {
  import opened Text
  import opened CronSchedule

  /** Durations are in nanoseconds and may be negative or zero, which means "default" or "no cap". */
  datatype RetryPolicy = RetryPolicy(base: int, max: int, factor: real, jitter: real)

  datatype Job = Job(
    id: string, spec: string, maxRetries: int, backoff: RetryPolicy, dependsOn: seq<string>, enabled: bool)

  datatype RunState = Pending | Running | Succeeded | Failed | Dead | Skipped

  datatype Run = Run(
    id: string, jobID: string, batchID: string, state: RunState, attempt: nat, scheduledFor: Time,
    startedAt: Option<Time>, finishedAt: Option<Time>, leaseExpiry: Time, worker: string, error: string,
    createdAt: Time, updatedAt: Time)
}
