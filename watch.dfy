/**
 * Watch mode: rebuild and rewrite the snapshot on a timer, back off after failures, offer
 * once to replace a default URL that does not answer, and stop when shutdown is requested.
 * The shutdown flag, the terminal and the network are inputs: each cycle of the loop reads
 * its part of an environment trace.
 */
module WatchLoop {
  import opened Wrappers
  import opened Text
  import opened Errors
  import opened MachineInts
  import opened Configuration
  import opened Fetch
  import opened Output
  import opened UrlPrompt

  const MIN_INTERVAL_MS: u64 := 250
  const BACKOFF_MAX_MS: u64 := 10000
  const SLICE_MS: nat := 50

  // ---------------------------------------------------------------------------------------
  // next_backoff

  /** `next_backoff`: doubling, clamped to ten seconds. */
  function NextBackoff(current: u64): (r: u64)
    ensures r == Min(2 * current, BACKOFF_MAX_MS)
  {
    Min(SaturatingMul64(current, 2), BACKOFF_MAX_MS)
  }

  /** The backoff never exceeds its ceiling and never shrinks as the current delay grows. */
  lemma NextBackoffBounds(a: u64, b: u64)
    requires a <= b
    ensures NextBackoff(a) <= NextBackoff(b) <= BACKOFF_MAX_MS
    ensures a <= BACKOFF_MAX_MS ==> a <= NextBackoff(a)
  {
  }

  /** The clamping the source's own test checks. */
  lemma NextBackoffClamps()
    ensures NextBackoff(250) == 500 && NextBackoff(5000) == 10000 && NextBackoff(20000) == 10000
  {
  }

  // ---------------------------------------------------------------------------------------
  // wait_with_shutdown

  /** The sleeps of a wait that is never interrupted: 50 ms slices and a shorter last one. */
  function Slices(ms: nat): (r: seq<nat>)
    ensures forall i :: 0 <= i < |r| ==> 0 < r[i] <= SLICE_MS
    decreases ms
  {
    if ms == 0 then [] else [Min(ms, SLICE_MS)] + Slices(ms - Min(ms, SLICE_MS))
  }

  function Sum(xs: seq<nat>): nat
  {
    if xs == [] then 0 else xs[0] + Sum(xs[1..])
  }

  /** The slices add up to exactly the requested sleep. */
  lemma {:induction false} SlicesSum(ms: nat)
    ensures Sum(Slices(ms)) == ms
    decreases ms
  {
    if ms > 0 {
      var step := Min(ms, SLICE_MS);
      SlicesSum(ms - step);
      assert Slices(ms)[1..] == Slices(ms - step);
    }
  }

  /** The `k`-th load of the shutdown flag during a wait (loads past the trace see `false`). */
  predicate Observe(flags: seq<bool>, k: nat)
  {
    k < |flags| && flags[k]
  }

  /** A wait stops early when one of its loads, one before each slice and one after the last, sees the flag. */
  ghost predicate WaitStops(ms: nat, flags: seq<bool>)
  {
    exists k :: 0 <= k <= |Slices(ms)| && Observe(flags, k)
  }

  /** One more slice: the next step is the head of what is still to sleep. */
  lemma SliceNext(ms: nat, waited: nat, steps: seq<nat>)
    requires waited < ms && steps + Slices(ms - waited) == Slices(ms)
    ensures var step := Min(ms - waited, SLICE_MS);
      (steps + [step]) + Slices(ms - (waited + step)) == Slices(ms)
  {
    var remaining := ms - waited;
    var step := Min(remaining, SLICE_MS);
    assert Slices(remaining) == [step] + Slices(remaining - step);
    assert steps + ([step] + Slices(remaining - step)) == (steps + [step]) + Slices(remaining - step);
  }

  /** A wait that ends after `|steps|` slices saw the flag iff its last load did. */
  lemma WaitVerdict(ms: nat, flags: seq<bool>, steps: seq<nat>)
    requires |steps| <= |Slices(ms)|
    requires forall k :: 0 <= k < |steps| ==> !Observe(flags, k)
    requires Observe(flags, |steps|) || |steps| == |Slices(ms)|
    ensures WaitStops(ms, flags) == Observe(flags, |steps|)
  {
    if Observe(flags, |steps|) {
      assert 0 <= |steps| <= |Slices(ms)| && Observe(flags, |steps|);
    }
  }

  /**
   * `wait_with_shutdown`: sleeps slice by slice, loading the flag before each slice and
   * once at the end, and reports whether it was seen.
   */
  method WaitWithShutdown(sleepMs: nat, flags: seq<bool>) returns (stopped: bool, steps: seq<nat>)
    ensures |steps| <= |Slices(sleepMs)| && steps == Slices(sleepMs)[..|steps|]
    ensures forall k :: 0 <= k < |steps| ==> !Observe(flags, k)
    ensures stopped == Observe(flags, |steps|)
    ensures !stopped ==> steps == Slices(sleepMs)
    ensures stopped == WaitStops(sleepMs, flags)
  {
    var waited: nat := 0;
    steps := [];
    while waited < sleepMs
      invariant waited <= sleepMs
      invariant steps + Slices(sleepMs - waited) == Slices(sleepMs)
      invariant forall k :: 0 <= k < |steps| ==> !Observe(flags, k)
      decreases sleepMs - waited
    {
      if Observe(flags, |steps|) {
        assert Slices(sleepMs)[..|steps|] == steps;
        WaitVerdict(sleepMs, flags, steps);
        return true, steps;
      }
      SliceNext(sleepMs, waited, steps);
      var step := Min(sleepMs - waited, SLICE_MS);
      steps := steps + [step];
      waited := waited + step;
    }
    assert Slices(sleepMs - waited) == [];
    assert steps == Slices(sleepMs);
    stopped := Observe(flags, |steps|);
    WaitVerdict(sleepMs, flags, steps);
  }

  // ---------------------------------------------------------------------------------------
  // maybe_prompt_for_url

  /** The URL question is only worth asking about a default URL that failed in a URL-related way. */
  predicate MayReplaceUrl(config: Config, err: AppError)
  {
    config.urlFromDefault && IsUrlRelated(err)
  }

  /** The configuration after the user chose `url`: it is no longer the default. */
  function WithUrl(config: Config, url: string): (c: Config)
    ensures c.url == url && !c.urlFromDefault
    ensures c == config.(url := url, urlFromDefault := false)
  {
    config.(url := url, urlFromDefault := false)
  }

  /**
   * `maybe_prompt_for_url`: `Ok(true)` exactly when a new URL was taken, and then the
   * configuration carries it; a prompt failure is passed on and changes nothing.
   */
  method MaybePromptForUrl(config: Config, err: AppError, isTerminal: bool, events: seq<PromptEvent>)
    returns (r: Result<bool, AppError>, after: Config)
    ensures !MayReplaceUrl(config, err) ==> r == Success(false) && after == config
    ensures MayReplaceUrl(config, err) && PromptAnswer(isTerminal, events).Failure? ==>
      r == Failure(PromptAnswer(isTerminal, events).error) && after == config
    ensures MayReplaceUrl(config, err) && PromptAnswer(isTerminal, events) == Success(None) ==>
      r == Success(false) && after == config
    ensures MayReplaceUrl(config, err) && PromptAnswer(isTerminal, events).Success? && PromptAnswer(isTerminal, events).value.Some? ==>
      r == Success(true) && after == WithUrl(config, PromptAnswer(isTerminal, events).value.value)
    ensures r == Success(true) ==> IsHttpUrl(after.url) && !after.urlFromDefault
  {
    after := config;
    if !config.urlFromDefault || !IsUrlRelated(err) {
      return Success(false), after;
    }
    var answer := PromptForUrl(isTerminal, events);
    if answer.Failure? {
      return Failure(answer.error), after;
    }
    if answer.value.Some? {
      PromptAnswerIsHttp(isTerminal, events);
      after := WithUrl(config, answer.value.value);
      return Success(true), after;
    }
    r := Success(false);
  }

  // ---------------------------------------------------------------------------------------
  // run_watch: one cycle of the loop

  /** The variables `run_watch` carries from one cycle to the next. */
  datatype WatchState = WatchState(config: Config, prompted: bool, backoffMs: u64, consecutiveErrors: u32)

  /** `interval_ms.max(MIN_INTERVAL_MS)` */
  function BaseInterval(intervalMs: u64): (base: u64)
    ensures base >= MIN_INTERVAL_MS && base >= intervalMs
    ensures base == intervalMs || base == MIN_INTERVAL_MS
  {
    Max(intervalMs, MIN_INTERVAL_MS)
  }

  /** The state before the first cycle. */
  function InitialState(config: Config, base: u64): WatchState
  {
    WatchState(config, false, base, 0)
  }

  /** What a cycle goes on with: retry at once, sleep first, or leave the loop with an error. */
  datatype Decision = Retry(next: WatchState) | Sleep(next: WatchState, sleepMs: u64) | Abort(error: AppError)

  /** The prompt is offered once, for a URL-related failure of the default URL. */
  predicate WantsPrompt(st: WatchState, err: AppError)
  {
    !st.prompted && MayReplaceUrl(st.config, err)
  }

  /** After a failure not cured by the prompt: count it, back off, and sleep the backoff. */
  function AfterFailure(base: u64, st: WatchState): Decision
  {
    var errors := SaturatingAdd32(st.consecutiveErrors, 1);
    var backoff := NextBackoff(st.backoffMs);
    var next := st.(consecutiveErrors := errors, backoffMs := backoff);
    Sleep(next, Max(if errors == 0 then base else backoff, MIN_INTERVAL_MS))
  }

  /**
   * The body of the `run_watch` loop after the shutdown check, given the build result and
   * what the prompt would answer (consulted only when the prompt is offered).
   */
  function Decide(base: u64, st: WatchState, built: Result<OutputPayloads, AppError>,
                  answer: Result<Option<string>, AppError>): Decision
  {
    match built
    case Success(_) =>
      var next := st.(consecutiveErrors := 0, backoffMs := base);
      Sleep(next, Max(base, MIN_INTERVAL_MS))
    case Failure(err) =>
      if WantsPrompt(st, err) then
        match answer
        case Failure(e) => Abort(e)
        case Success(Some(url)) => Retry(st.(config := WithUrl(st.config, url), prompted := true))
        case Success(None) => AfterFailure(base, st.(prompted := true))
      else AfterFailure(base, st)
  }

  /** A successful build resets the error count and the backoff and sleeps the base interval. */
  lemma DecideSuccess(base: u64, st: WatchState, built: Result<OutputPayloads, AppError>,
                      answer: Result<Option<string>, AppError>)
    requires base >= MIN_INTERVAL_MS && built.Success?
    ensures Decide(base, st, built, answer) == Sleep(st.(consecutiveErrors := 0, backoffMs := base), base)
  {
  }

  /**
   * A failed build that the prompt does not cure adds one to the error count (saturating),
   * doubles the backoff up to its ceiling and sleeps that backoff; nothing else changes but
   * `prompted`, which is set when the prompt was offered.
   */
  lemma DecideFailure(base: u64, st: WatchState, built: Result<OutputPayloads, AppError>,
                      answer: Result<Option<string>, AppError>)
    requires built.Failure?
    requires WantsPrompt(st, built.error) ==> answer == Success(None)
    ensures var d := Decide(base, st, built, answer);
      d.Sleep?
      && d.next.consecutiveErrors == SaturatingAdd32(st.consecutiveErrors, 1) >= 1
      && d.next.backoffMs == NextBackoff(st.backoffMs)
      && d.next.config == st.config
      && d.next.prompted == (st.prompted || WantsPrompt(st, built.error))
      && d.sleepMs == Max(NextBackoff(st.backoffMs), MIN_INTERVAL_MS)
  {
  }

  /**
   * The prompt decides only when it is offered: a failure of the prompt leaves the loop,
   * an accepted URL replaces the default and retries at once without counting the failure.
   */
  lemma DecidePrompt(base: u64, st: WatchState, built: Result<OutputPayloads, AppError>,
                     answer: Result<Option<string>, AppError>)
    ensures Decide(base, st, built, answer).Abort? <==>
      built.Failure? && WantsPrompt(st, built.error) && answer.Failure?
    ensures Decide(base, st, built, answer).Abort? ==> Decide(base, st, built, answer).error == answer.error
    ensures Decide(base, st, built, answer).Retry? <==>
      built.Failure? && WantsPrompt(st, built.error) && answer.Success? && answer.value.Some?
    ensures Decide(base, st, built, answer).Retry? ==>
      Decide(base, st, built, answer).next
        == st.(config := st.config.(url := answer.value.value, urlFromDefault := false), prompted := true)
  {
  }

  /** `prompted` never goes back to false, and a URL that is not the default stays as it is. */
  lemma DecideKeeps(base: u64, st: WatchState, built: Result<OutputPayloads, AppError>,
                    answer: Result<Option<string>, AppError>)
    requires !Decide(base, st, built, answer).Abort?
    ensures st.prompted ==> Decide(base, st, built, answer).next.prompted
    ensures built.Failure? && WantsPrompt(st, built.error) ==> Decide(base, st, built, answer).next.prompted
    ensures (st.prompted || !st.config.urlFromDefault) ==> Decide(base, st, built, answer).next.config == st.config
    ensures Decide(base, st, built, answer).next.config.urlFromDefault ==> st.config.urlFromDefault
  {
  }

  /** Every sleep lies between the minimum interval and the larger of the base and the backoff ceiling. */
  lemma DecideSleepBounds(base: u64, st: WatchState, built: Result<OutputPayloads, AppError>,
                          answer: Result<Option<string>, AppError>)
    requires Decide(base, st, built, answer).Sleep?
    ensures MIN_INTERVAL_MS <= Decide(base, st, built, answer).sleepMs <= Max(base, BACKOFF_MAX_MS)
  {
  }

  // ---------------------------------------------------------------------------------------
  // run_watch: the loop

  /**
   * What the environment does during one cycle: whether shutdown was requested before it,
   * what the server answers, what the user types if asked, and what each load of the
   * shutdown flag sees while sleeping.
   */
  datatype CycleInput = CycleInput(
    stopRequested: bool,
    transport: Transport,
    isTerminal: bool,
    promptEvents: seq<PromptEvent>,
    wakeFlags: seq<bool>)

  /** How the loop ended; `TraceExhausted` stands for a run the environment did not follow further. */
  datatype Ending = ShutDown | Aborted(error: AppError) | TraceExhausted

  /**
   * The end of a run: the ending, the last state, the destinations, each requested sleep
   * (including one cut short by shutdown) and the prompts offered.
   */
  datatype RunOutcome = RunOutcome(ending: Ending, last: WatchState, sinks: Sinks, sleeps: seq<u64>, prompts: nat)

  /**
   * The two stages a cycle runs: `build_outputs` and `write_outputs`. The loop's properties
   * hold whatever they do; `RunWatch` runs the modelled stages, `ActualStages`.
   */
  datatype Stages = Stages(
    build: (Config, Transport) -> Result<OutputPayloads, AppError>,
    write: (Config, OutputPayloads, Sinks) -> Sinks)

  /** `build_outputs` and `write_outputs` as modelled, the latter with its outcome only reported. */
  function ActualStages(failures: map<Path, WriteFailure>): (stages: Stages)
    ensures forall c, t :: stages.build(c, t) == BuiltOutputs(c, t)
    ensures forall c, o, s :: stages.write(c, o, s) == Written(c, o, s, failures).0
  {
    Stages((c: Config, t: Transport) => BuiltOutputs(c, t), (c: Config, o: OutputPayloads, s: Sinks) => Written(c, o, s, failures).0)
  }

  /** A cycle after the shutdown check: the decision, the destinations after it, and whether the prompt was offered. */
  datatype CycleResult = CycleResult(decision: Decision, sinks: Sinks, asked: bool)

  /**
   * One cycle: build; on success write (a write failure is only reported); on failure
   * offer the prompt when `WantsPrompt` allows it.
   */
  function Cycle(stages: Stages, base: u64, st: WatchState, input: CycleInput, s: Sinks): (c: CycleResult)
    ensures c.asked ==> !st.prompted && st.config.urlFromDefault
    ensures c.asked <==> stages.build(st.config, input.transport).Failure?
                         && !st.prompted && st.config.urlFromDefault
                         && IsUrlRelated(stages.build(st.config, input.transport).error)
    ensures stages.build(st.config, input.transport).Failure? ==> c.sinks == s
  {
    var built := stages.build(st.config, input.transport);
    var s' := if built.Success? then stages.write(st.config, built.value, s) else s;
    var asked := built.Failure? && WantsPrompt(st, built.error);
    CycleResult(Decide(base, st, built, PromptAnswer(input.isTerminal, input.promptEvents)), s', asked)
  }

  /** What `DecideKeeps` and `DecideSleepBounds` say, for a whole cycle. */
  lemma CycleKeeps(stages: Stages, base: u64, st: WatchState, input: CycleInput, s: Sinks)
    requires !Cycle(stages, base, st, input, s).decision.Abort?
    ensures var d := Cycle(stages, base, st, input, s).decision;
      (st.prompted ==> d.next.prompted)
      && (Cycle(stages, base, st, input, s).asked ==> d.next.prompted)
      && ((st.prompted || !st.config.urlFromDefault) ==> d.next.config == st.config)
      && (d.next.config.urlFromDefault ==> st.config.urlFromDefault)
      && (d.Sleep? ==> MIN_INTERVAL_MS <= d.sleepMs <= Max(base, BACKOFF_MAX_MS))
  {
    var built := stages.build(st.config, input.transport);
    var answer := PromptAnswer(input.isTerminal, input.promptEvents);
    DecideKeeps(base, st, built, answer);
    if Decide(base, st, built, answer).Sleep? {
      DecideSleepBounds(base, st, built, answer);
    }
  }

  /** The `run_watch` loop from cycle `k` on, with what cycles before `k` already slept and asked. */
  ghost function Run(stages: Stages, base: u64, st: WatchState, trace: seq<CycleInput>, k: nat, s: Sinks,
                     sleeps: seq<u64>, prompts: nat): RunOutcome
    requires k <= |trace|
    decreases |trace| - k
  {
    if k == |trace| then RunOutcome(TraceExhausted, st, s, sleeps, prompts)
    else if trace[k].stopRequested then RunOutcome(ShutDown, st, s, sleeps, prompts)
    else
      var c := Cycle(stages, base, st, trace[k], s);
      var prompts' := if c.asked then prompts + 1 else prompts;
      match c.decision
      case Abort(e) => RunOutcome(Aborted(e), st, c.sinks, sleeps, prompts')
      case Retry(next) => Run(stages, base, next, trace, k + 1, c.sinks, sleeps, prompts')
      case Sleep(next, ms) =>
        if WaitStops(ms, trace[k].wakeFlags) then RunOutcome(ShutDown, next, c.sinks, sleeps + [ms], prompts')
        else Run(stages, base, next, trace, k + 1, c.sinks, sleeps + [ms], prompts')
  }

  /** A run offers the prompt at most once, and never once it has been offered. */
  lemma {:induction false} RunPromptsOnce(stages: Stages, base: u64, st: WatchState, trace: seq<CycleInput>, k: nat, s: Sinks,
                                          sleeps: seq<u64>, prompts: nat)
    requires k <= |trace|
    ensures Run(stages, base, st, trace, k, s, sleeps, prompts).prompts <= prompts + (if st.prompted then 0 else 1)
    decreases |trace| - k
  {
    if k < |trace| && !trace[k].stopRequested {
      var c := Cycle(stages, base, st, trace[k], s);
      var prompts' := if c.asked then prompts + 1 else prompts;
      if !c.decision.Abort? {
        CycleKeeps(stages, base, st, trace[k], s);
        var sleeps' := if c.decision.Sleep? then sleeps + [c.decision.sleepMs] else sleeps;
        RunPromptsOnce(stages, base, c.decision.next, trace, k + 1, c.sinks, sleeps', prompts');
      }
    }
  }

  /**
   * Once prompted a run stays prompted, and once the URL is not the default it never changes
   * again; the default never comes back.
   */
  lemma {:induction false} RunKeeps(stages: Stages, base: u64, st: WatchState, trace: seq<CycleInput>, k: nat, s: Sinks,
                                    sleeps: seq<u64>, prompts: nat)
    requires k <= |trace|
    ensures var o := Run(stages, base, st, trace, k, s, sleeps, prompts);
      (st.prompted ==> o.last.prompted)
      && ((st.prompted || !st.config.urlFromDefault) ==> o.last.config == st.config)
      && (o.last.config.urlFromDefault ==> st.config.urlFromDefault)
    decreases |trace| - k
  {
    if k < |trace| && !trace[k].stopRequested {
      var c := Cycle(stages, base, st, trace[k], s);
      var prompts' := if c.asked then prompts + 1 else prompts;
      if !c.decision.Abort? {
        CycleKeeps(stages, base, st, trace[k], s);
        var sleeps' := if c.decision.Sleep? then sleeps + [c.decision.sleepMs] else sleeps;
        RunKeeps(stages, base, c.decision.next, trace, k + 1, c.sinks, sleeps', prompts');
      }
    }
  }

  /** The sleeps of a run extend those before it, and each lies within the sleep bounds. */
  lemma {:induction false} RunSleepBounds(stages: Stages, base: u64, st: WatchState, trace: seq<CycleInput>, k: nat, s: Sinks,
                                          sleeps: seq<u64>, prompts: nat)
    requires k <= |trace|
    ensures var o := Run(stages, base, st, trace, k, s, sleeps, prompts);
      |sleeps| <= |o.sleeps| && o.sleeps[..|sleeps|] == sleeps
      && forall i :: |sleeps| <= i < |o.sleeps| ==> MIN_INTERVAL_MS <= o.sleeps[i] <= Max(base, BACKOFF_MAX_MS)
    decreases |trace| - k
  {
    if k < |trace| && !trace[k].stopRequested {
      var c := Cycle(stages, base, st, trace[k], s);
      var prompts' := if c.asked then prompts + 1 else prompts;
      if c.decision.Sleep? {
        CycleKeeps(stages, base, st, trace[k], s);
        var sleeps' := sleeps + [c.decision.sleepMs];
        assert sleeps'[..|sleeps|] == sleeps;
        if !WaitStops(c.decision.sleepMs, trace[k].wakeFlags) {
          RunSleepBounds(stages, base, c.decision.next, trace, k + 1, c.sinks, sleeps', prompts');
          var o := Run(stages, base, c.decision.next, trace, k + 1, c.sinks, sleeps', prompts');
          assert Run(stages, base, st, trace, k, s, sleeps, prompts) == o;
          assert o.sleeps[..|sleeps'|][..|sleeps|] == o.sleeps[..|sleeps|];
          forall i | |sleeps| <= i < |o.sleeps|
            ensures MIN_INTERVAL_MS <= o.sleeps[i] <= Max(base, BACKOFF_MAX_MS)
          {
            if i == |sleeps| {
              assert o.sleeps[i] == o.sleeps[..|sleeps'|][i] == c.decision.sleepMs;
            }
          }
        }
      } else if c.decision.Retry? {
        RunSleepBounds(stages, base, c.decision.next, trace, k + 1, c.sinks, sleeps, prompts');
      }
    }
  }

  /** A whole watch run from the start: at most one prompt, and every sleep within bounds. */
  lemma WatchRunBounds(stages: Stages, config: Config, intervalMs: u64, trace: seq<CycleInput>, s: Sinks)
    ensures var base := BaseInterval(intervalMs);
      var o := Run(stages, base, InitialState(config, base), trace, 0, s, [], 0);
      o.prompts <= 1
      && (!config.urlFromDefault ==> o.last.config == config && o.prompts == 0)
      && forall i :: 0 <= i < |o.sleeps| ==> MIN_INTERVAL_MS <= o.sleeps[i] <= Max(base, BACKOFF_MAX_MS)
  {
    var base := BaseInterval(intervalMs);
    RunPromptsOnce(stages, base, InitialState(config, base), trace, 0, s, [], 0);
    RunKeeps(stages, base, InitialState(config, base), trace, 0, s, [], 0);
    RunSleepBounds(stages, base, InitialState(config, base), trace, 0, s, [], 0);
    if !config.urlFromDefault {
      RunNoPrompt(stages, base, InitialState(config, base), trace, 0, s, [], 0);
    }
  }

  /** A run whose URL is not the default never offers the prompt. */
  lemma {:induction false} RunNoPrompt(stages: Stages, base: u64, st: WatchState, trace: seq<CycleInput>, k: nat, s: Sinks,
                                       sleeps: seq<u64>, prompts: nat)
    requires k <= |trace| && !st.config.urlFromDefault
    ensures Run(stages, base, st, trace, k, s, sleeps, prompts).prompts == prompts
    decreases |trace| - k
  {
    if k < |trace| && !trace[k].stopRequested {
      var c := Cycle(stages, base, st, trace[k], s);
      if !c.decision.Abort? {
        CycleKeeps(stages, base, st, trace[k], s);
        var sleeps' := if c.decision.Sleep? then sleeps + [c.decision.sleepMs] else sleeps;
        RunNoPrompt(stages, base, c.decision.next, trace, k + 1, c.sinks, sleeps', prompts);
      }
    }
  }

  /** One cycle of the loop body as written, after the shutdown check. */
  method RunCycle(base: u64, st: WatchState, input: CycleInput, dest: Destinations) returns (d: Decision, asked: bool)
    modifies dest
    ensures Cycle(ActualStages(dest.failures), base, st, input, old(dest.State())) == CycleResult(d, dest.State(), asked)
  {
    var built := BuildOutputs(st.config, input.transport);
    var answer: Result<Option<string>, AppError> := Success(None);
    asked := false;
    if built.Success? {
      var _ := dest.WriteOutputs(st.config, built.value);
    } else if WantsPrompt(st, built.error) {
      asked := true;
      answer := PromptForUrl(input.isTerminal, input.promptEvents);
    }
    d := Decide(base, st, built, answer);
  }

  /**
   * `run_watch`: the loop as written, over the environment `trace`. It returns the error of
   * a failed prompt and `Ok` otherwise, with the configuration as the loop left it.
   */
  method RunWatch(config: Config, intervalMs: u64, trace: seq<CycleInput>, dest: Destinations)
    returns (r: Result<(), AppError>, ending: Ending, after: Config, sleeps: seq<u64>, prompts: nat)
    modifies dest
    ensures var o := Run(ActualStages(dest.failures), BaseInterval(intervalMs), InitialState(config, BaseInterval(intervalMs)), trace, 0,
                         old(dest.State()), [], 0);
      ending == o.ending && after == o.last.config && sleeps == o.sleeps && prompts == o.prompts
      && dest.State() == o.sinks
    ensures r == if ending.Aborted? then Failure(ending.error) else Success(())
  {
    var base := BaseInterval(intervalMs);
    ghost var s0 := dest.State();
    var st := InitialState(config, base);
    var k := 0;
    sleeps := [];
    prompts := 0;
    while true
      invariant k <= |trace|
      invariant Run(ActualStages(dest.failures), base, st, trace, k, dest.State(), sleeps, prompts)
             == Run(ActualStages(dest.failures), base, InitialState(config, base), trace, 0, s0, [], 0)
      decreases |trace| - k
    {
      if k == |trace| {
        ending := TraceExhausted;
        break;
      }
      var input := trace[k];
      if input.stopRequested {
        ending := ShutDown;
        break;
      }
      var d, asked := RunCycle(base, st, input, dest);
      if asked {
        prompts := prompts + 1;
      }
      if d.Abort? {
        ending := Aborted(d.error);
        break;
      }
      st := d.next;
      if d.Sleep? {
        sleeps := sleeps + [d.sleepMs];
        var stopped, _ := WaitWithShutdown(d.sleepMs, input.wakeFlags);
        if stopped {
          ending := ShutDown;
          break;
        }
      }
      k := k + 1;
    }
    after := st.config;
    r := if ending.Aborted? then Failure(ending.error) else Success(());
  }
}
