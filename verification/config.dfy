/** Start-up configuration of the job runner (init.go): the two process-wide
    settings that `Start` writes, and the positional option dispatch that
    writes them. */
module Config {
  import opened Wrappers

  /** Pool size used when the requested capacity is not positive. */
  const DefaultJobPoolSize: nat := 10

  /** The globals `workPermits` and `selfConcurrent`. `workPermits` is the
      capacity of the permit channel, `None` while the channel is nil (no
      bound on concurrent runs); a freshly made channel is always empty. */
  datatype Settings = Settings(workPermits: Option<nat>, selfConcurrent: bool)

  /** The Go zero values of the globals, before any call of `Start`. */
  const ZeroSettings := Settings(None, false)

  /** `makeWorkPermits`: a fresh permit channel, of the default size when the
      requested capacity is zero or negative. */
  function MakeWorkPermits(s: Settings, bufferCapacity: int): (r: Settings)
    ensures r.selfConcurrent == s.selfConcurrent
    ensures r.workPermits.Some? && r.workPermits.value >= 1
    ensures r.workPermits.value == bufferCapacity <==> bufferCapacity > 0
    ensures bufferCapacity <= 0 ==> r.workPermits.value == DefaultJobPoolSize
  {
    if bufferCapacity <= 0 then
      s.(workPermits := Some(DefaultJobPoolSize))
    else
      s.(workPermits := Some(bufferCapacity))
  }

  /** `isSelfConcurrent`: a signed flag, where only a positive value allows a
      job to overlap with itself. */
  function IsSelfConcurrent(s: Settings, concurrencyFlag: int): (r: Settings)
    ensures r.workPermits == s.workPermits
    ensures r.selfConcurrent <==> concurrencyFlag > 0
  {
    if concurrencyFlag <= 0 then
      s.(selfConcurrent := false)
    else
      s.(selfConcurrent := true)
  }

  /** One entry of the `functions` table. */
  datatype Setter = WorkPermitsSetter | SelfConcurrentSetter

  /** The `functions` table: option i is handed to `Functions[i]`. */
  const Functions: seq<Setter> := [WorkPermitsSetter, SelfConcurrentSetter]

  function Apply(f: Setter, s: Settings, option: int): Settings
  {
    match f
    case WorkPermitsSetter => MakeWorkPermits(s, option)
    case SelfConcurrentSetter => IsSelfConcurrent(s, option)
  }

  /** What `Start` leaves behind: the scheduler was started with the given
      settings, or indexing the `functions` table panicked at `index`, after
      the options before it had already been applied to the globals. */
  datatype StartOutcome =
    | Started(settings: Settings)
    | IndexOutOfRange(settings: Settings, index: nat)

  /** The dispatch loop of `Start` from position `i` on. */
  function ApplyFrom(s: Settings, v: seq<int>, i: nat): (r: StartOutcome)
    requires i <= |v| && i <= |Functions|
    ensures r.Started? <==> |v| <= |Functions|
    ensures r.IndexOutOfRange? ==> r.index == |Functions|
    ensures r.settings.workPermits ==
            if i == 0 < |v| then MakeWorkPermits(s, v[0]).workPermits else s.workPermits
    ensures r.settings.selfConcurrent ==
            if i <= 1 < |v| then v[1] > 0 else s.selfConcurrent
    decreases |v| - i
  {
    if i == |v| then Started(s)
    else if i >= |Functions| then IndexOutOfRange(s, i)
    else ApplyFrom(Apply(Functions[i], s, v[i]), v, i + 1)
  }

  /** `Start(v ...int)` applied to the current globals `s`. The options are
      matched to settings by position only: option 0 is the pool capacity and
      option 1 the self-concurrency flag; an option not passed leaves its
      setting as it was; a third option panics. */
  function Start(s: Settings, v: seq<int>): (r: StartOutcome)
    ensures r.Started? <==> |v| <= 2
    ensures r.IndexOutOfRange? ==> r.index == 2
    ensures |v| >= 1 ==>
              r.settings.workPermits == Some(if v[0] <= 0 then DefaultJobPoolSize else v[0])
    ensures |v| == 0 ==> r.settings.workPermits == s.workPermits
    ensures |v| >= 2 ==> (r.settings.selfConcurrent <==> v[1] > 0)
    ensures |v| <= 1 ==> r.settings.selfConcurrent == s.selfConcurrent
  {
    ApplyFrom(s, v, 0)
  }

  /** `Start()` with no options on fresh globals leaves the permit channel nil
      (no concurrency bound) and self-concurrency off. */
  lemma StartWithoutOptions()
    ensures Start(ZeroSettings, []) == Started(Settings(None, false))
  {
  }
}
