# jobrunner — a verified model of the job wrapper and its admission gate

The Go library `jobrunner` wraps jobs that the robfig/cron scheduler fires. A
wrapped `Job` carries a display name, an atomic running/idle counter, a cached
status string, the latency of its last run and a private mutex. Process-wide
settings come from `Start`'s options. Given a first option, `Start` makes a
buffered channel of "work permits" that caps how many job bodies run at once.
Without one, the channel stays nil and nothing is capped. Given a second
option, `Start` sets a flag saying whether one job may overlap with itself. A status reporter projects the scheduler's entries onto status
records. A web controller shows them to requests whose address text starts
with "127.0.0.1" or "::1" (see `Access`).

This project models that core in Dafny and proves its properties:

- `Config` (init.go): the permit-pool and self-concurrency setters, the
  `functions` dispatch table and `Start`'s positional option loop, including
  the index panic on a third option.
- `Jobs` (jobrunner.go): the `Job` record, `New` and `StatusUpdate`.
- `Runner` (jobrunner.go): `Job.Run` as a transition system. Each call of
  `Run` is an invocation with its own program point (`Phase`): entry, the
  self-exclusion lock, the permit send, `status := 1`, status refresh, body,
  then the deferred statements in Go's LIFO order (`status := 0`, status
  refresh, permit receive, unlock). Steps of different calls interleave
  freely. A blocked lock or a full channel is a step that is not enabled, so
  `Next` returns `None`. Time is an integer clock that only moves forward.
- `RunnerInvariants`: the inductive invariant and its preservation by every
  step. It says that the channel holds exactly one permit per holder and never
  more than its capacity, that each held mutex has exactly one holder, and
  that (with self-concurrency off) the counter and status string follow the
  phase of the mutex holder. The status-string part holds because only `Run`
  refreshes the string in this model (see "## Left out").
- `RunnerProperties`: consequences for every reachable state, and facts about
  admission, the unwind order and latency. It also has a concrete trace in
  which the status flag races under self-concurrency.
- `Status` (status.go): `Entries`, `AddJob`'s type assertion, `StatusPage` as
  an index-by-index projection that panics at the first foreign job, and
  `StatusJson`. `Entries` is a plain pass-through of the scheduler's list.
  Go's `StatusPage` calls `MainCron.Entries()` itself. The model routes it
  through `Entries` instead, which returns the same list.
- `Access` (controllers/status.go, lines 16-24): the choice of the address
  that is checked (`RemoteAddr`, or the first `X-Forwarded-For` value when
  proxy addresses are accepted) and the loopback prefix test.

Points where the code does something other than a quick reading suggests;
the model follows the code:

- A fault in a job body is not absorbed. The comment at jobrunner.go:49-50
  promises that a panicking job will not take the process down. Yet the
  recovery handler calls `logger.Panic` (jobrunner.go:55), which panics again
  once the deferred statements have run. The model records the fault
  (`Invocation.faulted`) and still runs the full unwind.
- The latency is written right after the body returns normally, before the
  deferred statements run. A faulted body never writes it, and no other
  statement does either.
- The counter is stored as 1 and as 0, never incremented. With
  self-concurrency on, a job can read "IDLE" while one of its calls is still
  in its body (`RunnerProperties.SelfConcurrentStatusRace`).
- A new job's `Status` string is empty until its first refresh. Its counter
  is 0, so a refresh reports "IDLE".
- An option that is not passed to `Start` leaves its global at its current
  value. That value is the Go zero value only on the first call.

## Model

| member | source | states |
|---|---|---|
| Config.MakeWorkPermits | init.go:31-37 | the pool is always created with capacity at least 1; it has exactly the requested capacity iff that is positive, and 10 otherwise; the flag is untouched |
| Config.IsSelfConcurrent | init.go:39-45 | self-concurrency is on exactly when the flag is positive; the pool is untouched |
| Config.ApplyFrom | init.go:50-52 | the dispatch loop from any position fails exactly when more options than table entries are given, failing at index 2; only position 0 sets the pool and only position 1 sets the flag |
| Config.Start | init.go:47-52 | more than two options panic at index 2; option 0 gives the pool (10 when not positive), option 1 the flag (on iff positive); an option not passed leaves its setting as it was |
| Config.StartWithoutOptions | init.go:12-52 | `Start()` on fresh globals leaves the permit channel nil and self-concurrency off |
| Jobs.New | jobrunner.go:26-35 | the job keeps the runnable unchanged and is named after its type, except that "Func" becomes "(unnamed)"; no job is ever named "Func"; counter 0, empty status and latency, mutex free |
| Jobs.StatusUpdate | jobrunner.go:37-45 | reports "RUNNING" iff the counter is positive and "IDLE" iff it is zero, caches that string, and changes nothing else |
| Jobs.StatusUpdateIdempotent | jobrunner.go:37-45 | refreshing twice with the counter unchanged equals refreshing once |
| Jobs.NewJobIsIdle | jobrunner.go:26-43 | a freshly wrapped job reports and caches "IDLE" |
| Runner.Next | jobrunner.go:47-80 | no step changes the pool capacity or the self-concurrency flag; the clock never goes back; no job or call disappears |
| RunnerInvariants.StepPreservesInv | jobrunner.go:47-80 | every enabled step preserves the invariants: permits counted and bounded, mutexes owned by exactly one call, counter and status following the holder's phase, latency non-negative |
| RunnerProperties.PermitBound | jobrunner.go:64-67 | in every reachable state the channel holds one permit per holder and at most C are held for capacity C; with no channel no call holds one |
| RunnerProperties.SelfExclusion | jobrunner.go:59-62 | with self-concurrency off, at most one call of a given job is between lock and unlock in any reachable state |
| RunnerProperties.StatusWhileRunning | jobrunner.go:69-75 | with self-concurrency off, a job's counter is 1 iff one of its calls is between storing 1 and storing 0, and a call in its body sees "RUNNING" |
| RunnerProperties.LockBeforePermit | jobrunner.go:59-67 | with self-concurrency off, every call that holds a permit also holds its job's mutex |
| RunnerProperties.AdmissionWaits | jobrunner.go:59-67 | the lock step blocks iff self-concurrency is off and another call of the job holds the mutex; the permit step blocks iff a channel exists and is full |
| RunnerProperties.ClearStep | jobrunner.go:73 | first deferred statement: the counter goes to 0, nothing else of the job changes |
| RunnerProperties.RefreshStep | jobrunner.go:72 | second deferred statement: the status string is refreshed from the counter |
| RunnerProperties.ReleaseStep | jobrunner.go:66 | third deferred statement: one permit leaves the channel if a channel exists; jobs are untouched |
| RunnerProperties.UnlockStep | jobrunner.go:61 | last deferred statement: the job's mutex is released, nothing else of the job changes |
| RunnerProperties.UnwindNeverBlocks | jobrunner.go:61-73 | from any point after the body has ended, the next deferred statement is always enabled |
| RunnerProperties.Unwind | jobrunner.go:59-73 | after the body, normal or faulted, the four deferred statements run in order: the permit is back, the mutex is free, the latency is left alone, and the job reads "IDLE" with counter 0 |
| RunnerProperties.UnwindFrom | jobrunner.go:59-73 | the same unwind from any state in which the permit and mutex bookkeeping of the call is consistent: the four deferred statements all run, returning the permit, freeing the mutex and leaving the job "IDLE" with its latency unchanged |
| RunnerProperties.LatencyAfterBody | jobrunner.go:48-78 | a normal return sets the latency to the time since entry into `Run`, which includes the admission waits and so is at least the body's run time; a fault leaves the latency unchanged |
| RunnerProperties.LatencyOnlyOnReturn | jobrunner.go:75-78 | only a normal return of a body writes the latency: every other enabled step, including a faulted body, leaves every job's latency unchanged |
| RunnerProperties.SelfConcurrentStatusRace | jobrunner.go:69-73 | with self-concurrency on there is a run in which the job reads counter 0 and "IDLE" while a second call is in its body |
| RunnerProperties.StartBoundsConcurrency | init.go:31-52 | after `Start(c, ...)` at most c calls (10 when c is not positive) ever hold a permit; after `Start()` on fresh globals none does |
| Status.Entries | status.go:18-20 | the scheduler's entry list, unchanged and in order |
| Status.AddJob | status.go:52-54 | the type assertion succeeds exactly on wrapped jobs and returns that job; otherwise it panics naming the foreign type |
| Status.Project | status.go:26-33 | the loop succeeds iff every entry holds a wrapped job; then there is one record per entry, in order, record k describing entry k; otherwise it panics at the first foreign entry |
| Status.StatusPage | status.go:22-42 | one record per current scheduler entry, in the scheduler's order, record k carrying entry k's ID, job, next and previous time; a panic at the first entry whose job is not a `*Job` |
| Status.StatusJson | status.go:44-50 | the result has the single key "jobrunner", mapped to the status page; it fails exactly when the page does |
| Status.StatusPageIds | status.go:27-32 | the set of record IDs equals the set of the scheduler's entry IDs |
| Status.StatusPageRoundTrip | status.go:27-32 | rebuilding an entry from each record gives back the scheduler's entry list, in order |
| Access.HasPrefixIffConcat | controllers/status.go:22 | the prefix test holds iff the address is the prefix followed by some text |
| Access.EffectiveAddress | controllers/status.go:16-21 | with proxies off the address is `RemoteAddr`; with proxies on it is the first forwarded-for value when the header is present, else `RemoteAddr`; it panics iff the header is present with no value |
| Access.Authorize | controllers/status.go:16-24 | allowed iff the effective address is "127.0.0.1" or "::1" followed by anything; otherwise forbidden, naming that address; panics exactly when the address lookup does |
| Access.ProxyOffIgnoresHeaders | controllers/status.go:16-17 | with proxies off, replacing all headers never changes the decision |
| Access.ProxyOnUsesFirstForwardedValue | controllers/status.go:17-20 | with proxies on and the header present, `RemoteAddr` and every forwarded-for value after the first are irrelevant |
| Access.PrefixOnly | controllers/status.go:22-24 | "127.0.0.12:8080" and "127.0.0.1.example.org" are admitted, "::ffff:127.0.0.1" is refused |
| Access.BracketedLoopbackRefused | controllers/status.go:22-24 | a direct request whose `RemoteAddr` is "[::1]:" followed by any port is refused |
| Access.AuthorizeLocalHost | controllers/status.go:22-24 | the corrected decision admits exactly the addresses starting with "127.0.0.1", "::1" or "[::1]" |
| Access.LocalHostAdmitsLoopbackPeers | controllers/status.go:22-24 | the corrected decision admits "127.0.0.1:" and "[::1]:" followed by any port |
| Access.LocalHostAgreesOffBrackets | controllers/status.go:22-24 | the correction decides exactly as `Authorize` for every address that does not start with "[" |

## Left out

- Real concurrency: goroutines, the blocking channel and `sync.Mutex` become an interleaving of atomic steps. No fairness, liveness or timeout is claimed, because a blocked call may wait forever.
- Panic recovery and logging (jobrunner.go:51-57): a body fault is only the `faulted` flag, which drives the unwind. The handler's stack-trace capture, log buffer and re-panic are left out as I/O and control flow outside `Run`.
- Wall-clock time: `time.Now` is an integer clock that a `Tick` step advances. `Latency` holds the tick difference, and its `Duration.String()` text is not modelled.
- `reflect.TypeOf(job).Name()` is a type-name string that the caller supplies.
- The robfig/cron scheduler (expression parsing, timers, entry order, `cron.New`, `MainCron.Start`) is outside this model. The scheduler appears only as its list of entries, and a `Run` call can start at any time.
- stopjob.go (`Stop`, `Remove`) is left out: both only delegate to the scheduler.
- status-page.go is left out: it is an older template-rendering variant of `StatusPage`.
- controllers/status.go rendering is left out: the Revel config lookup (`acceptProxy` is a parameter), `c.Render`/`c.Forbidden` and the `castjob` template function.
- init.go's start-up banner (colour strings and `Printf`) is left out.
- init_test.go holds only logger adapters and smoke tests without assertions, and `StartWithLogger` and `Schedule` are not part of this model.
- Calling `Start` again while calls of `Run` are in flight is not modelled. The deferred permit receive reads the global channel when it runs, so a replaced channel is not modelled. `Runner.Init` takes the settings once.
- `Runner.Next`: a call of the exported `StatusUpdate` (jobrunner.go:37) from outside `Run`, say by a status reader, is not a step. Such a call could set the string to "RUNNING" between the store of 1 and `Run`'s own refresh. The status-string half of `RunnerInvariants.StatusFollowsHolder` relies on there being no such call. Such a call only copies the counter into the string, so a call in its body would still see "RUNNING" and the job would still read "IDLE" after `Unwind`. The proofs here do not cover that extension.
- `Runner.Next`: the 32-bit width of the counter is not modelled, because the code only ever stores 0 or 1 in it.
- Go strings are byte strings. The model uses Dafny strings, and header names are taken as already canonical.

## Findings

| source | as written | input that shows it | evidently intended | confidence | as-written member | corrected member |
|---|---|---|---|---|---|---|
| controllers/status.go:22-24 | the loopback test checks the prefixes "127.0.0.1" and "::1" of `RemoteAddr` | a direct request from the IPv6 loopback address: an HTTP server reports its `RemoteAddr` as "[::1]:54321", which starts with "[" and is refused | IPv6 loopback clients are admitted like IPv4 ones | medium, not executed | Access.BracketedLoopbackRefused | Access.AuthorizeLocalHost |
