/** The status projection of status.go: the scheduler's entry list turned,
    index by index, into status records, and the one-key map around them. */
module Status {
  import opened Wrappers
  import opened Jobs

  /** `cron.EntryID`. */
  type EntryId = int

  /** The job an entry runs: a wrapped `*Job`, or some other `cron.Job`
      named by its dynamic type. */
  datatype CronJob = Wrapped(job: JobId) | Foreign(typeName: string)

  /** The fields of `cron.Entry` the projection reads; times are clock
      ticks. */
  datatype Entry = Entry(id: EntryId, job: CronJob, next: int, prev: int)

  /** The scheduler, seen only through its list of entries. */
  datatype Scheduler = Scheduler(entries: seq<Entry>)

  /** `StatusData`. */
  datatype StatusData = StatusData(id: EntryId, jobRunner: JobId, next: int, prev: int)

  /** The panic of a failed type assertion: the entry at `index` holds a job
      of type `typeName`, which is not `*Job`. */
  datatype CastPanic = CastPanic(index: nat, typeName: string)

  /** Key under which `StatusJson` places the records. */
  const JsonKey := "jobrunner"

  /** `Entries`: the scheduler's entries, in its order. */
  function Entries(c: Scheduler): (r: seq<Entry>)
    ensures |r| == |c.entries| && forall k :: 0 <= k < |r| ==> r[k] == c.entries[k]
  {
    c.entries
  }

  /** `AddJob`: the type assertion `job.(*Job)`; it succeeds exactly on
      wrapped jobs and yields the wrapped job itself. */
  function AddJob(job: CronJob): (r: Result<JobId, string>)
    ensures r.Success? <==> job.Wrapped?
    ensures r.Success? ==> Wrapped(r.value) == job
    ensures r.Failure? ==> r.error == job.typeName
  {
    match job
    case Wrapped(j) => Success(j)
    case Foreign(t) => Failure(t)
  }

  /** Record `d` carries entry `e`'s ID, wrapped job and fire times. */
  predicate Describes(d: StatusData, e: Entry)
  {
    e.job == Wrapped(d.jobRunner) && d.id == e.id && d.next == e.next && d.prev == e.prev
  }

  /** `k` is the first entry whose job is not a wrapped `*Job`. */
  predicate FirstForeign(entries: seq<Entry>, k: nat)
  {
    && k < |entries|
    && entries[k].job.Foreign?
    && forall i :: 0 <= i < k ==> entries[i].job.Wrapped?
  }

  /** The loop of `StatusPage` over the entries: one record per entry, in
      the same order, each describing its entry; the loop panics at the
      first entry whose job is not a `*Job`. */
  function Project(entries: seq<Entry>): (r: Result<seq<StatusData>, CastPanic>)
    ensures r.Success? <==> forall k :: 0 <= k < |entries| ==> entries[k].job.Wrapped?
    ensures r.Success? ==> |r.value| == |entries|
    ensures r.Success? ==> forall k :: 0 <= k < |entries| ==> Describes(r.value[k], entries[k])
    ensures r.Failure? ==> FirstForeign(entries, r.error.index)
    ensures r.Failure? ==> r.error.typeName == entries[r.error.index].job.typeName
    decreases |entries|
  {
    if |entries| == 0 then Success([])
    else
      var e := entries[0];
      match AddJob(e.job)
      case Failure(t) => Failure(CastPanic(0, t))
      case Success(j) =>
        match Project(entries[1..])
        case Failure(p) => Failure(CastPanic(p.index + 1, p.typeName))
        case Success(rest) => Success([StatusData(e.id, j, e.next, e.prev)] + rest)
  }

  /** `StatusPage`: exactly one record per current scheduler entry, in the
      scheduler's order, record k carrying entry k's ID, job and fire times;
      a panic at the first entry whose job is not a `*Job`. */
  function StatusPage(c: Scheduler): (r: Result<seq<StatusData>, CastPanic>)
    ensures r.Success? <==> forall k :: 0 <= k < |c.entries| ==> c.entries[k].job.Wrapped?
    ensures r.Success? ==> |r.value| == |c.entries|
    ensures r.Success? ==> forall k :: 0 <= k < |c.entries| ==> Describes(r.value[k], c.entries[k])
    ensures r.Failure? ==> FirstForeign(c.entries, r.error.index)
  {
    Project(Entries(c))
  }

  /** `StatusJson`: the same records under the single key "jobrunner". */
  function StatusJson(c: Scheduler): (r: Result<map<string, seq<StatusData>>, CastPanic>)
    ensures r.Success? <==> StatusPage(c).Success?
    ensures r.Success? ==> r.value.Keys == {JsonKey} && r.value[JsonKey] == StatusPage(c).value
    ensures r.Failure? ==> r.error == StatusPage(c).error
  {
    match StatusPage(c)
    case Success(page) => Success(map[JsonKey := page])
    case Failure(p) => Failure(p)
  }

  /** The records name exactly the scheduler's entry IDs. */
  lemma StatusPageIds(c: Scheduler)
    requires StatusPage(c).Success?
    ensures (set d | d in StatusPage(c).value :: d.id) == (set e | e in Entries(c) :: e.id)
  {
    var page := StatusPage(c).value;
    var es := Entries(c);
    var pageIds := set d | d in page :: d.id;
    var entryIds := set e | e in es :: e.id;
    forall x | x in entryIds
      ensures x in pageIds
    {
      var e :| e in es && e.id == x;
      var k :| 0 <= k < |es| && es[k] == e;
      assert Describes(page[k], es[k]);
    }
    forall x | x in pageIds
      ensures x in entryIds
    {
      var d :| d in page && d.id == x;
      var k :| 0 <= k < |page| && page[k] == d;
      assert Describes(page[k], es[k]);
    }
  }

  /** The entry a record was projected from, rebuilt from the record. */
  function EntryOf(d: StatusData): Entry
  {
    Entry(d.id, Wrapped(d.jobRunner), d.next, d.prev)
  }

  /** The projection loses nothing: rebuilding an entry from each record
      gives back the scheduler's entry list, in order. */
  lemma StatusPageRoundTrip(c: Scheduler)
    requires StatusPage(c).Success?
    ensures var page := StatusPage(c).value;
            seq(|page|, k requires 0 <= k < |page| => EntryOf(page[k])) == Entries(c)
  {
    var page := StatusPage(c).value;
    var rebuilt := seq(|page|, k requires 0 <= k < |page| => EntryOf(page[k]));
    forall k | 0 <= k < |page|
      ensures rebuilt[k] == c.entries[k]
    {
      assert Describes(page[k], c.entries[k]);
    }
  }
}
