/** The work item that travels through every queue, and the key of every per-task record. */
module Items {
  datatype Item = Item(tenantId: string, taskId: string)

  datatype JobState = JobQueued | JobRunning | JobDone | JobFailed

  predicate Live(s: JobState) { s.JobQueued? || s.JobRunning? }
}
