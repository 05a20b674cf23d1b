/**
 * A job record of the front ends' in-memory store (`window.mockData.jobs`),
 * read by the desktop planning board and the mobile field view.
 */
module Jobs {
  import opened Js
  import opened Timestamps

  /** Unscheduled: waiting in the pool. */
  const Open := "offen"
  /** Scheduled on the planning board. */
  const Planned := "geplant"

  datatype JobRec = JobRec(
    id: string,
    title: string,
    customer: string,
    kind: string,                 // `type`: "Wartung", "Reparatur", ...
    status: string,
    start: Option<Stamp>,
    end: Option<Stamp>,
    assignedTo: seq<string>)      // `assigned_to`: employee ids

  /**
   * The lifecycle invariant of the planning board: an open job has no
   * schedule and no assignment, any other job has both.
   */
  predicate Consistent(j: JobRec) {
    if j.status == Open then j.start == None && j.end == None && j.assignedTo == []
    else j.start.Some? && j.end.Some? && j.assignedTo != []
  }

  predicate AllConsistent(jobs: seq<JobRec>) {
    forall k :: 0 <= k < |jobs| ==> Consistent(jobs[k])
  }
}
