/** The job wrapper record of jobrunner.go: naming a wrapped job and
    projecting its status counter onto a status string. */
module Jobs {
  import opened Wrappers

  /** Identifies one `*Job`; scheduler entries and status records refer to
      jobs by this handle, as the Go code refers to them by pointer. */
  type JobId = nat

  /** Name given to jobs whose type is the function adapter. */
  const Unnamed := "(unnamed)"
  /** Type name that marks the function adapter. */
  const FuncTypeName := "Func"

  const Running := "RUNNING"
  const Idle := "IDLE"

  /** The user's `cron.Job`: `typeName` is what reflection reports as the name
      of its dynamic type; `body` only tells one runnable from another. */
  datatype Runnable = Runnable(typeName: string, body: nat)

  /** The `Job` struct. `status` is the atomic counter (only 0 and 1 are
      ever stored in it), `statusText` the cached `Status` string, `latency`
      the last measured duration in clock ticks (`None` while `Latency` is
      still the empty string) and `lockHeld` the state of the `running`
      mutex. */
  datatype Job = Job(
    name: string,
    inner: Runnable,
    status: nat,
    statusText: string,
    latency: Option<int>,
    lockHeld: bool)

  /** `New`: wraps a runnable under the name of its type, except that the
      function adapter is named `(unnamed)`. Every other field starts at its
      zero value: counter 0, empty status and latency, mutex unlocked. */
  function New(inner: Runnable): (j: Job)
    ensures j.inner == inner
    ensures j.name != FuncTypeName
    ensures inner.typeName != FuncTypeName ==> j.name == inner.typeName
    ensures inner.typeName == FuncTypeName ==> j.name == Unnamed
    ensures j.status == 0 && j.statusText == "" && j.latency == None && !j.lockHeld
  {
    var name := if inner.typeName == FuncTypeName then Unnamed else inner.typeName;
    Job(name, inner, 0, "", None, false)
  }

  /** `StatusUpdate`: reports "RUNNING" exactly when the counter is positive
      and "IDLE" otherwise, and caches the report in `statusText`; nothing
      else of the job changes. */
  function StatusUpdate(j: Job): (r: (Job, string))
    ensures r.1 == Running <==> j.status > 0
    ensures r.1 == Idle <==> j.status == 0
    ensures r.0 == j.(statusText := r.1)
  {
    if j.status > 0 then
      (j.(statusText := Running), Running)
    else
      (j.(statusText := Idle), Idle)
  }

  /** Refreshing the status twice with the counter unchanged gives the same
      job and the same report as refreshing it once. */
  lemma StatusUpdateIdempotent(j: Job)
    ensures StatusUpdate(StatusUpdate(j).0) == StatusUpdate(j)
  {
  }

  /** A freshly wrapped job reports "IDLE". */
  lemma NewJobIsIdle(inner: Runnable)
    ensures StatusUpdate(New(inner)).1 == Idle
    ensures StatusUpdate(New(inner)).0.statusText == Idle
  {
  }
}
