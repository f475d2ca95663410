/**
  The retry decision engine: the two retry verdicts, the error that is finally
  thrown, and the two `autoRetry` loops.

  The retried operation is a script of attempt outcomes, one per call. The
  error-code registry is a map from code to its flags, and the external error
  handler of a node is one reply per attempt. Hooks are recorded as events
  appended to a trace. The synchronous wait between attempts has nothing to
  model; the asynchronous path ends in a `Scheduled` result.
*/
module Retry {
  import opened Wrappers
  import opened ErrorChain

  const DEFAULT_RETRY_PERIOD_SECONDS := 60
  /** Codes of the runner's own error table; only their being distinct matters here. */
  const CALL_ERROR_HANDLE_API_ERROR := "CALL_ERROR_HANDLE_API_ERROR"
  const UNKNOWN_ERROR := "UNKNOWN_ERROR"

  datatype CodeEntry = CodeEntry(recoverable: bool, skippable: bool)

  type Registry = map<string, CodeEntry>

  /** Every TapCodeException in the graph carries a code the registry knows. */
  ghost predicate CodesRegistered(g: Graph, reg: Registry) {
    forall id :: id in g && IsInstance(g, id, TAP_CODE_EXCEPTION) ==> g[id].code in reg
  }

  /** Whether to retry, and whether a before-retry callback was supplied. */
  datatype RetryOptions = RetryOptions(needRetry: bool, beforeRetry: bool)

  /** What `RetryOptions.create()` yields. */
  const FRESH_OPTIONS := RetryOptions(false, false)

  /** How the node's error handler answered for one failure. */
  datatype HandlerReply = NoHandler | ReturnsNull | Returns(options: RetryOptions) | Throws

  /** The exception an `autoRetry` call finally throws. */
  datatype Failure =
    | Rethrown(id: ErrorId)          // an existing TapCodeException, rethrown as it is
    | UnknownWrapping(cause: ErrorId) // a new TapPdkRunnerUnknownException around the error
    | NewCoded(code: string)          // a new TapCodeException with this code

  datatype Hook = ClearFunctionRetry | ResetRetry | SignFunctionRetry | StartRetry

  datatype Event = Fired(hook: Hook) | BeforeRetryRan

  datatype Attempt = Succeeds | Fails(error: ErrorId)

  datatype RetryResult = Completed | Scheduled(delaySeconds: int) | Thrown(failure: Failure)

  /** Running an optional hook: an event only when the hook is configured. */
  function Fire(hooks: set<Hook>, h: Hook): (events: seq<Event>)
    ensures events == [] || events == [Fired(h)]
    ensures |events| == 1 <==> h in hooks
  {
    if h in hooks then [Fired(h)] else []
  }

  /** A non-positive period falls back to sixty seconds. */
  function EffectivePeriod(periodSeconds: int): (r: int)
    ensures r > 0
    ensures periodSeconds > 0 ==> r == periodSeconds
    ensures periodSeconds <= 0 ==> r == DEFAULT_RETRY_PERIOD_SECONDS
  {
    if periodSeconds <= 0 then DEFAULT_RETRY_PERIOD_SECONDS else periodSeconds
  }

  /**
    The exception that is finally thrown: the TapCodeException the matcher finds
    in the chain, rethrown, or else a new unknown-failure exception wrapping `e`.
  */
  function WrapError(g: Graph, e: ErrorId): (f: Failure)
    requires WellFormed(g) && e in g
    ensures f.Rethrown? || f == UnknownWrapping(e)
    ensures f.Rethrown? ==> f.id in g && IsInstance(g, f.id, TAP_CODE_EXCEPTION)
    ensures f.Rethrown? ==> Match(g, Some(e), TAP_CODE_EXCEPTION) == Some(f.id)
    ensures f.Rethrown? <==> Match(g, Some(e), TAP_CODE_EXCEPTION).Some?
  {
    var m := Match(g, Some(e), TAP_CODE_EXCEPTION);
    if m.Some? then Rethrown(m.value) else UnknownWrapping(e)
  }

  /** The options the handler's reply stands for before the registry overrides them. */
  function HandlerOptions(reply: HandlerReply): (r: RetryOptions)
    ensures reply.Returns? ==> r == reply.options
    ensures !reply.Returns? ==> !r.needRetry && !r.beforeRetry
  {
    if reply.Returns? then reply.options else FRESH_OPTIONS
  }

  /**
    The verdict of the node variant: the handler's options (fresh ones when
    there is no handler or it answers null), then the error's own code, when the
    error is a TapCodeException, forces a retry if recoverable and forbids one if
    not recoverable and not the unknown-error code. A handler that throws becomes
    a new TapCodeException with the handler-failure code.
  */
  function NodeVerdict(g: Graph, reg: Registry, e: ErrorId, reply: HandlerReply): (r: Result<RetryOptions, Failure>)
    requires WellFormed(g) && CodesRegistered(g, reg) && e in g
    ensures r.Err? <==> reply.Throws?
    ensures r.Err? ==> r.error == NewCoded(CALL_ERROR_HANDLE_API_ERROR)
    ensures r.Ok? ==> r.value.beforeRetry == HandlerOptions(reply).beforeRetry
    ensures r.Ok? && !IsInstance(g, e, TAP_CODE_EXCEPTION) ==> r.value == HandlerOptions(reply)
    ensures r.Ok? && IsInstance(g, e, TAP_CODE_EXCEPTION) ==>
      (if reg[g[e].code].recoverable then r.value.needRetry
       else if g[e].code != UNKNOWN_ERROR then !r.value.needRetry
       else r.value == HandlerOptions(reply))
  {
    if reply.Throws? then Err(NewCoded(CALL_ERROR_HANDLE_API_ERROR))
    else
      var options := HandlerOptions(reply);
      if IsInstance(g, e, TAP_CODE_EXCEPTION) then
        var code := g[e].code;
        if reg[code].recoverable then Ok(options.(needRetry := true))
        else if code != UNKNOWN_ERROR then Ok(options.(needRetry := false))
        else Ok(options)
      else Ok(options)
  }

  /**
    The verdict of the single-argument variant: fresh options, set to retry only
    when the TapCodeException the matcher finds has a recoverable code.
  */
  function PlainVerdict(g: Graph, reg: Registry, e: ErrorId): (r: RetryOptions)
    requires WellFormed(g) && CodesRegistered(g, reg) && e in g
    ensures !r.beforeRetry
    ensures r.needRetry <==>
      var m := Match(g, Some(e), TAP_CODE_EXCEPTION);
      m.Some? && reg[g[m.value].code].recoverable
  {
    var m := Match(g, Some(e), TAP_CODE_EXCEPTION);
    if m.Some? && reg[g[m.value].code].recoverable then FRESH_OPTIONS.(needRetry := true)
    else FRESH_OPTIONS
  }

  /** The failure `throwIfNeed` throws: the wrapped error when the options forbid a retry. */
  function ThrowIfNeed(g: Graph, options: RetryOptions, e: ErrorId): (r: Option<Failure>)
    requires WellFormed(g) && e in g
    ensures r.Some? <==> !options.needRetry
    ensures r.Some? ==> r.value == WrapError(g, e)
  {
    if !options.needRetry then Some(WrapError(g, e)) else None
  }

  /** The per-call retry state; the loops change only `retryTimes`. */
  class Invoker {
    var retryTimes: int
    const async: bool
    const retryPeriodSeconds: int
    const enableSkipErrorEvent: bool
    const hooks: set<Hook>

    constructor (retryTimes: int, async: bool, retryPeriodSeconds: int, enableSkipErrorEvent: bool, hooks: set<Hook>)
      ensures this.retryTimes == retryTimes && this.async == async
      ensures this.retryPeriodSeconds == retryPeriodSeconds
      ensures this.enableSkipErrorEvent == enableSkipErrorEvent && this.hooks == hooks
    {
      this.retryTimes := retryTimes;
      this.async := async;
      this.retryPeriodSeconds := retryPeriodSeconds;
      this.enableSkipErrorEvent := enableSkipErrorEvent;
      this.hooks := hooks;
    }
  }

  /**
    Books one failure: throws (after the reset hook) when the error is neither
    retried by default nor by the verdict, and otherwise spends one retry.
  */
  method RetryFailed(inv: Invoker, g: Graph, e: ErrorId, retryTimes: int, needDefaultRetry: bool, options: RetryOptions)
    returns (thrown: Option<Failure>, events: seq<Event>)
    requires WellFormed(g) && e in g
    modifies inv
    ensures thrown == (if needDefaultRetry then None else ThrowIfNeed(g, options, e))
    ensures thrown.Some? ==> inv.retryTimes == old(inv.retryTimes) && events == Fire(inv.hooks, ResetRetry)
    ensures thrown.None? ==> inv.retryTimes == retryTimes - 1 && events == []
  {
    events := [];
    if !needDefaultRetry {
      thrown := ThrowIfNeed(g, options, e);
      if thrown.Some? {
        events := Fire(inv.hooks, ResetRetry);
        return;
      }
    } else {
      thrown := None;
    }
    inv.retryTimes := retryTimes - 1;
  }

  /** Which of the two loops runs: the single-argument one, or the node one with the handler's replies. */
  datatype Mode = Plain | ForNode(replies: seq<HandlerReply>)

  /** The invoker's fixed settings. */
  datatype Settings = Settings(async: bool, periodSeconds: int, skipOnError: bool, hooks: set<Hook>)

  function SettingsOf(inv: Invoker): Settings {
    Settings(inv.async, inv.retryPeriodSeconds, inv.enableSkipErrorEvent, inv.hooks)
  }

  /** How a loop ends: its result, the final budget, the number of calls made and the hook trace. */
  datatype RunEnd = RunEnd(result: RetryResult, budget: int, attempts: nat, trace: seq<Event>)

  /** What one failure leads to: the loop stops, or it goes round again after these events. */
  datatype Step = Stop(result: RetryResult, budget: int, events: seq<Event>) | Again(events: seq<Event>)

  ghost predicate Admissible(mode: Mode, g: Graph, reg: Registry, outs: seq<Attempt>) {
    && WellFormed(g) && CodesRegistered(g, reg)
    && (forall k :: 0 <= k < |outs| && outs[k].Fails? ==> outs[k].error in g)
    && (mode.ForNode? ==> |mode.replies| == |outs|)
  }

  function Reply(mode: Mode, k: nat): HandlerReply
    requires mode.ForNode? ==> k < |mode.replies|
  {
    if mode.ForNode? then mode.replies[k] else NoHandler
  }

  /** The skip-on-error test of the node loop: a registered skippable code. */
  predicate Skippable(forNode: bool, s: Settings, g: Graph, reg: Registry, e: ErrorId)
    requires CodesRegistered(g, reg) && e in g
    ensures Skippable(forNode, s, g, reg, e) ==> forNode && s.skipOnError && g[e].code in reg && reg[g[e].code].skippable
    ensures !IsInstance(g, e, TAP_CODE_EXCEPTION) ==> !Skippable(forNode, s, g, reg, e)
  {
    forNode && s.skipOnError && IsInstance(g, e, TAP_CODE_EXCEPTION) && reg[g[e].code].skippable
  }

  /**
    What the catch block learns from one failure before it looks at the budget:
    whether skip-on-error applies (and then whether the reset hook fires, the
    code not being recoverable), the verdict, whether a default-retry class is
    in the chain, and the exception thrown should the loop give up.
  */
  datatype Assessment = Assessment(error: ErrorId, skip: bool, skipResets: bool,
                                   verdict: Result<RetryOptions, Failure>, defaultRetry: bool, wrapped: Failure)

  function Assess(forNode: bool, s: Settings, g: Graph, reg: Registry, e: ErrorId, reply: HandlerReply): Assessment
    requires WellFormed(g) && CodesRegistered(g, reg) && e in g
  {
    var skip := Skippable(forNode, s, g, reg, e);
    Assessment(e, skip, skip && !reg[g[e].code].recoverable,
               if forNode then NodeVerdict(g, reg, e, reply) else Ok(PlainVerdict(g, reg, e)),
               NeedDefaultRetry(g, e), WrapError(g, e))
  }

  /** The catch block of either loop, for an assessed failure with `budget` retries left. */
  function StepOf(s: Settings, a: Assessment, budget: int, retried: bool): (st: Step)
    requires budget >= 0
    ensures st.Again? ==> budget > 0 && !s.async
    ensures st.Stop? ==> st.budget == (if st.result.Scheduled? then budget - 1 else budget)
  {
    if a.skip then
      Stop(Thrown(Rethrown(a.error)), budget, if a.skipResets then Fire(s.hooks, ResetRetry) else [])
    else if budget > 0 then
      if a.verdict.Err? then Stop(Thrown(a.verdict.error), budget, [])
      else if !a.defaultRetry && !a.verdict.value.needRetry then
        Stop(Thrown(a.wrapped), budget, Fire(s.hooks, ResetRetry))
      else
        var events := (if retried then [] else Fire(s.hooks, SignFunctionRetry)) + Fire(s.hooks, StartRetry);
        if s.async then Stop(Scheduled(EffectivePeriod(s.periodSeconds)), budget - 1, events)
        else Again(events + if a.verdict.value.beforeRetry then [BeforeRetryRan] else [])
    else
      Stop(Thrown(a.wrapped), budget, Fire(s.hooks, ClearFunctionRetry))
  }

  /** The catch block of either loop, for a failure `e`. */
  function FailureStep(forNode: bool, s: Settings, g: Graph, reg: Registry, e: ErrorId, reply: HandlerReply,
                       budget: int, retried: bool): Step
    requires WellFormed(g) && CodesRegistered(g, reg) && e in g && budget >= 0
  {
    StepOf(s, Assess(forNode, s, g, reg, e, reply), budget, retried)
  }

  /** One call of the operation: it returns, or it raises an error the catch block assesses. */
  datatype Call = Returned | Raised(assessment: Assessment)

  function Calls(mode: Mode, s: Settings, g: Graph, reg: Registry, outs: seq<Attempt>): seq<Call>
    requires Admissible(mode, g, reg, outs)
  {
    seq(|outs|, k requires 0 <= k < |outs| =>
      if outs[k].Succeeds? then Returned
      else Raised(Assess(mode.ForNode?, s, g, reg, outs[k].error, Reply(mode, k))))
  }

  /**
    The loop from call number `k` on, with `budget` retries left, `retried`
    telling whether this frame has retried already and `trace` the events so far.
  */
  function RunCalls(s: Settings, calls: seq<Call>, budget: int, k: nat, retried: bool, trace: seq<Event>): (r: RunEnd)
    requires budget < 0 || k + budget < |calls|
    ensures budget < 0 ==> r.attempts == k && r.result == Completed
    ensures budget >= 0 ==> 0 <= r.budget <= budget && k < r.attempts <= k + budget + 1
    ensures r.result.Scheduled? ==> s.async
    ensures trace <= r.trace
    decreases if budget < 0 then 0 else budget + 1
  {
    if budget < 0 then RunEnd(Completed, budget, k, trace)
    else match calls[k]
      case Returned =>
        RunEnd(Completed, budget, k + 1,
               trace + if retried then Fire(s.hooks, ClearFunctionRetry) + Fire(s.hooks, ResetRetry) else [])
      case Raised(a) =>
        match StepOf(s, a, budget, retried)
        case Stop(result, b, events) => RunEnd(result, b, k + 1, trace + events)
        case Again(events) => RunCalls(s, calls, budget - 1, k + 1, true, trace + events)
  }

  /** Either loop over the operation's outcomes `outs`. */
  function Run(mode: Mode, s: Settings, g: Graph, reg: Registry, outs: seq<Attempt>,
               budget: int, k: nat, retried: bool, trace: seq<Event>): (r: RunEnd)
    requires Admissible(mode, g, reg, outs)
    requires budget < 0 || k + budget < |outs|
    ensures budget < 0 ==> r.attempts == k && r.result == Completed
    ensures budget >= 0 ==> 0 <= r.budget <= budget && k < r.attempts <= k + budget + 1
    ensures r.result.Scheduled? ==> s.async
    ensures trace <= r.trace
  {
    RunCalls(s, Calls(mode, s, g, reg, outs), budget, k, retried, trace)
  }

  /**
    The part of either catch block that follows a usable verdict with budget
    left: the booking of the failure, then the sign and start hooks and either
    the scheduled retry or, after the before-retry callback, the next call.
  */
  method RetryableFailure(inv: Invoker, g: Graph, e: ErrorId, needDefaultRetry: bool, options: RetryOptions,
                          doRetry: bool, ghost a: Assessment)
    returns (step: Step)
    requires WellFormed(g) && e in g && inv.retryTimes > 0
    requires !a.skip && a.verdict == Ok(options) && a.defaultRetry == needDefaultRetry && a.wrapped == WrapError(g, e)
    modifies inv
    ensures step == StepOf(SettingsOf(inv), a, old(inv.retryTimes), doRetry)
    ensures inv.retryTimes == if step.Stop? then step.budget else old(inv.retryTimes) - 1
  {
    var retryTimes := inv.retryTimes;
    var thrown, trace := RetryFailed(inv, g, e, retryTimes, needDefaultRetry, options);
    if thrown.Some? {
      return Stop(Thrown(thrown.value), retryTimes, trace);
    }
    if !doRetry {
      trace := trace + Fire(inv.hooks, SignFunctionRetry);
    }
    trace := trace + Fire(inv.hooks, StartRetry);
    if inv.async {
      return Stop(Scheduled(EffectivePeriod(inv.retryPeriodSeconds)), inv.retryTimes, trace);
    }
    if options.beforeRetry {
      trace := trace + [BeforeRetryRan];
    }
    step := Again(trace);
  }

  /**
    The catch block of the single-argument loop: the verdict, the booking of
    the failure and the retry hooks.
  */
  method PlainFailure(inv: Invoker, g: Graph, reg: Registry, e: ErrorId, doRetry: bool) returns (step: Step)
    requires WellFormed(g) && CodesRegistered(g, reg) && e in g && inv.retryTimes >= 0
    modifies inv
    ensures step == FailureStep(false, SettingsOf(inv), g, reg, e, NoHandler, old(inv.retryTimes), doRetry)
    ensures inv.retryTimes == if step.Stop? then step.budget else old(inv.retryTimes) - 1
  {
    ghost var a := Assess(false, SettingsOf(inv), g, reg, e, NoHandler);
    var retryTimes := inv.retryTimes;
    if retryTimes > 0 {
      var options := PlainVerdict(g, reg, e);
      step := RetryableFailure(inv, g, e, NeedDefaultRetry(g, e), options, doRetry, a);
    } else {
      step := Stop(Thrown(WrapError(g, e)), retryTimes, Fire(inv.hooks, ClearFunctionRetry));
    }
  }

  /** The single-argument `autoRetry`. */
  method AutoRetry(inv: Invoker, g: Graph, reg: Registry, outs: seq<Attempt>)
    returns (result: RetryResult, attempts: nat, trace: seq<Event>)
    requires Admissible(Plain, g, reg, outs)
    requires inv.retryTimes < |outs|
    modifies inv
    ensures RunEnd(result, inv.retryTimes, attempts, trace)
         == Run(Plain, SettingsOf(inv), g, reg, outs, old(inv.retryTimes), 0, false, [])
  {
    ghost var s := SettingsOf(inv);
    var doRetry := false;
    attempts, trace, result := 0, [], Completed;
    while inv.retryTimes >= 0
      invariant inv.retryTimes >= 0 ==> attempts + inv.retryTimes < |outs|
      invariant Run(Plain, s, g, reg, outs, inv.retryTimes, attempts, doRetry, trace)
             == Run(Plain, s, g, reg, outs, old(inv.retryTimes), 0, false, [])
      invariant result == Completed
      decreases if inv.retryTimes < 0 then 0 else inv.retryTimes + 1
    {
      var outcome := outs[attempts];
      attempts := attempts + 1;
      if outcome.Succeeds? {
        if doRetry {
          trace := trace + Fire(inv.hooks, ClearFunctionRetry) + Fire(inv.hooks, ResetRetry);
        }
        return;
      }
      var step := PlainFailure(inv, g, reg, outcome.error, doRetry);
      trace := trace + step.events;
      if step.Stop? {
        result := step.result;
        return;
      }
      doRetry := true;
    }
  }

  /**
    The catch block of the node loop: the skip-on-error test, the handler's
    verdict, the booking of the failure and the retry hooks.
  */
  method NodeFailure(inv: Invoker, g: Graph, reg: Registry, e: ErrorId, reply: HandlerReply, doRetry: bool)
    returns (step: Step)
    requires WellFormed(g) && CodesRegistered(g, reg) && e in g && inv.retryTimes >= 0
    modifies inv
    ensures step == FailureStep(true, SettingsOf(inv), g, reg, e, reply, old(inv.retryTimes), doRetry)
    ensures inv.retryTimes == if step.Stop? then step.budget else old(inv.retryTimes) - 1
  {
    if inv.enableSkipErrorEvent && IsInstance(g, e, TAP_CODE_EXCEPTION) {
      var entry := reg[g[e].code];
      if entry.skippable {
        var events := [];
        if !entry.recoverable {
          events := Fire(inv.hooks, ResetRetry);
        }
        return Stop(Thrown(Rethrown(e)), inv.retryTimes, events);
      }
    }
    ghost var a := Assess(true, SettingsOf(inv), g, reg, e, reply);
    var retryTimes := inv.retryTimes;
    if retryTimes > 0 {
      var verdict := NodeVerdict(g, reg, e, reply);
      if verdict.Err? {
        return Stop(Thrown(verdict.error), retryTimes, []);
      }
      step := RetryableFailure(inv, g, e, NeedDefaultRetry(g, e), verdict.value, doRetry, a);
    } else {
      step := Stop(Thrown(WrapError(g, e)), retryTimes, Fire(inv.hooks, ClearFunctionRetry));
    }
  }

  /** The node `autoRetry`, with skip-on-error and the node's error handler. */
  method AutoRetryForNode(inv: Invoker, g: Graph, reg: Registry, outs: seq<Attempt>, replies: seq<HandlerReply>)
    returns (result: RetryResult, attempts: nat, trace: seq<Event>)
    requires Admissible(ForNode(replies), g, reg, outs)
    requires inv.retryTimes < |outs|
    modifies inv
    ensures RunEnd(result, inv.retryTimes, attempts, trace)
         == Run(ForNode(replies), SettingsOf(inv), g, reg, outs, old(inv.retryTimes), 0, false, [])
  {
    ghost var s := SettingsOf(inv);
    ghost var mode := ForNode(replies);
    var doRetry := false;
    attempts, trace, result := 0, [], Completed;
    while inv.retryTimes >= 0
      invariant inv.retryTimes >= 0 ==> attempts + inv.retryTimes < |outs|
      invariant Run(mode, s, g, reg, outs, inv.retryTimes, attempts, doRetry, trace)
             == Run(mode, s, g, reg, outs, old(inv.retryTimes), 0, false, [])
      invariant result == Completed
      decreases if inv.retryTimes < 0 then 0 else inv.retryTimes + 1
    {
      var outcome := outs[attempts];
      var reply := replies[attempts];
      attempts := attempts + 1;
      if outcome.Succeeds? {
        if doRetry {
          trace := trace + Fire(inv.hooks, ClearFunctionRetry) + Fire(inv.hooks, ResetRetry);
        }
        return;
      }
      var step := NodeFailure(inv, g, reg, outcome.error, reply, doRetry);
      trace := trace + step.events;
      if step.Stop? {
        result := step.result;
        return;
      }
      doRetry := true;
    }
  }
}
