/**
  What the two `autoRetry` loops promise, stated over their specification `Run`.
*/
module RetryProperties {
  import opened Wrappers
  import opened ErrorChain
  import opened Retry

  /** The single-argument loop retries `e` when it is a default-retry class or its verdict asks for a retry. */
  predicate RetriedByPlain(g: Graph, reg: Registry, e: ErrorId)
    requires WellFormed(g) && CodesRegistered(g, reg) && e in g
  {
    NeedDefaultRetry(g, e) || PlainVerdict(g, reg, e).needRetry
  }

  /** The events of `n` retried failures in a row, `retried` telling whether the frame had retried before. */
  function RetryEvents(hooks: set<Hook>, n: nat, retried: bool): seq<Event> {
    if n == 0 then []
    else (if retried then [] else Fire(hooks, SignFunctionRetry)) + Fire(hooks, StartRetry)
         + RetryEvents(hooks, n - 1, true)
  }

  /** How many times `ev` occurs in `trace`. */
  function Count(trace: seq<Event>, ev: Event): (c: nat)
    ensures c <= |trace|
  {
    if |trace| == 0 then 0 else (if trace[0] == ev then 1 else 0) + Count(trace[1..], ev)
  }

  lemma {:induction false} CountAppend(a: seq<Event>, b: seq<Event>, ev: Event)
    ensures Count(a + b, ev) == Count(a, ev) + Count(b, ev)
    decreases |a|
  {
    if |a| > 0 {
      assert (a + b)[1..] == a[1..] + b;
      CountAppend(a[1..], b, ev);
    } else {
      assert a + b == b;
    }
  }

  /** In `n` retried failures the start hook fires `n` times, the sign hook at most once, no other hook. */
  lemma {:induction false} RetryEventsCount(hooks: set<Hook>, n: nat, retried: bool, ev: Event)
    ensures Count(RetryEvents(hooks, n, retried), ev)
         == (if ev == Fired(StartRetry) && StartRetry in hooks then n else 0)
            + (if ev == Fired(SignFunctionRetry) && SignFunctionRetry in hooks && n > 0 && !retried then 1 else 0)
  {
    if n > 0 {
      RetryEventsCount(hooks, n - 1, true, ev);
      var sign := if retried then [] else Fire(hooks, SignFunctionRetry);
      var rest := RetryEvents(hooks, n - 1, true);
      assert RetryEvents(hooks, n, retried) == sign + Fire(hooks, StartRetry) + rest;
      CountAppend(sign + Fire(hooks, StartRetry), rest, ev);
      CountAppend(sign, Fire(hooks, StartRetry), ev);
    }
  }

  lemma Assoc(a: seq<Event>, b: seq<Event>, c: seq<Event>)
    ensures a + b + c == a + (b + c)
  {
  }

  /** A negative budget at entry: the operation is never called. */
  lemma NegativeBudgetNeverCalls(mode: Mode, s: Settings, g: Graph, reg: Registry, outs: seq<Attempt>, budget: int)
    requires Admissible(mode, g, reg, outs) && budget < 0
    ensures Run(mode, s, g, reg, outs, budget, 0, false, []) == RunEnd(Completed, budget, 0, [])
  {
  }

  /** The thrown exception is a rethrown TapCodeException exactly when one is found in the chain. */
  lemma WrapErrorIff(g: Graph, e: ErrorId)
    requires WellFormed(g) && e in g
    ensures WrapError(g, e).Rethrown? <==> FoundInChain(g, e, TAP_CODE_EXCEPTION)
    ensures WrapError(g, e).Rethrown? ==> Match(g, Some(e), TAP_CODE_EXCEPTION) == Some(WrapError(g, e).id)
    ensures !FoundInChain(g, e, TAP_CODE_EXCEPTION) ==> WrapError(g, e) == UnknownWrapping(e)
  {
    MatchFindsIff(g, e, TAP_CODE_EXCEPTION);
  }

  /**
    The single-argument verdict never asks for a retry unless a TapCodeException
    is found in the chain; an error of any other kind keeps the fresh options.
  */
  lemma PlainVerdictNeedsCodedError(g: Graph, reg: Registry, e: ErrorId)
    requires WellFormed(g) && CodesRegistered(g, reg) && e in g
    ensures PlainVerdict(g, reg, e).needRetry ==> FoundInChain(g, e, TAP_CODE_EXCEPTION)
    ensures !FoundInChain(g, e, TAP_CODE_EXCEPTION) ==> PlainVerdict(g, reg, e) == FRESH_OPTIONS
  {
    MatchFindsIff(g, e, TAP_CODE_EXCEPTION);
  }

  /** Without a handler, or with one answering null, an error that is not coded gets fresh options: no retry. */
  lemma AbsentHandlerGivesFreshOptions(g: Graph, reg: Registry, e: ErrorId, reply: HandlerReply)
    requires WellFormed(g) && CodesRegistered(g, reg) && e in g
    requires reply == NoHandler || reply == ReturnsNull
    requires !IsInstance(g, e, TAP_CODE_EXCEPTION)
    ensures NodeVerdict(g, reg, e, reply) == Ok(FRESH_OPTIONS)
    ensures !NodeVerdict(g, reg, e, reply).value.needRetry
  {
  }

  /** A lone TapCodeException whose code is registered as recoverable. */
  function CodedFailure(): (g: Graph)
    ensures WellFormed(g) && 0 in g
  {
    map[0 := Throwable(TAP_CODE_EXCEPTION, {TAP_CODE_EXCEPTION, "java.lang.RuntimeException"}, None, "111")]
  }

  /** A lone plain exception without a cause. */
  function UncodedFailure(): (g: Graph)
    ensures WellFormed(g) && 0 in g
  {
    map[0 := Throwable("java.lang.Exception", {"java.lang.Exception"}, None, "")]
  }

  /**
    The two verdict cases exercised for the single-argument variant: a recoverable
    coded error asks for a retry, a plain exception does not, whatever the registry holds.
  */
  lemma PlainVerdictExamples(reg: Registry)
    requires "111" in reg && reg["111"].recoverable
    ensures CodesRegistered(CodedFailure(), reg) && PlainVerdict(CodedFailure(), reg, 0).needRetry
    ensures CodesRegistered(UncodedFailure(), reg) && !PlainVerdict(UncodedFailure(), reg, 0).needRetry
  {
    var c := Chain(UncodedFailure(), 0);
    assert c == [0];
  }

  /** A failure the catch block retries, budget permitting: not skipped, the verdict given, and a reason to retry. */
  predicate Retried(a: Assessment) {
    !a.skip && a.verdict.Ok? && (a.defaultRetry || a.verdict.value.needRetry)
  }

  /** A step that spends one unit of budget: a retry in place or a scheduled one. */
  predicate Spent(st: Step) {
    st.Again? || st.result.Scheduled?
  }

  lemma CountFire(hooks: set<Hook>, h: Hook, ev: Event)
    ensures Count(Fire(hooks, h), ev) == if h in hooks && ev == Fired(h) then 1 else 0
  {
  }

  /** A step that spends budget fires the sign hook (first time only), the start hook and the callback. */
  lemma SpentStepCounts(s: Settings, a: Assessment, b: nat, retried: bool, ev: Event)
    requires Spent(StepOf(s, a, b, retried))
    ensures var st := StepOf(s, a, b, retried);
      Count(st.events, ev)
      == (if ev == Fired(StartRetry) && StartRetry in s.hooks then 1 else 0)
         + (if ev == Fired(SignFunctionRetry) && SignFunctionRetry in s.hooks && !retried then 1 else 0)
         + (if ev == BeforeRetryRan && st.Again? && a.verdict.value.beforeRetry then 1 else 0)
  {
    var st := StepOf(s, a, b, retried);
    var sign := if retried then [] else Fire(s.hooks, SignFunctionRetry);
    var extra := if st.Again? && a.verdict.value.beforeRetry then [BeforeRetryRan] else [];
    CountFire(s.hooks, SignFunctionRetry, ev);
    CountFire(s.hooks, StartRetry, ev);
    assert st.events == sign + Fire(s.hooks, StartRetry) + extra;
    CountAppend(sign + Fire(s.hooks, StartRetry), extra, ev);
    CountAppend(sign, Fire(s.hooks, StartRetry), ev);
  }

  /** A step that stops without spending fires only the reset hook or, with no budget left, the clear hook. */
  lemma StoppedStepCounts(s: Settings, a: Assessment, b: nat, retried: bool, ev: Event)
    requires !Spent(StepOf(s, a, b, retried)) && ev != Fired(ResetRetry)
    ensures Count(StepOf(s, a, b, retried).events, ev)
         == (if ev == Fired(ClearFunctionRetry) && ClearFunctionRetry in s.hooks && !a.skip && b == 0 then 1 else 0)
  {
    CountFire(s.hooks, ResetRetry, ev);
    CountFire(s.hooks, ClearFunctionRetry, ev);
  }

  /** The start, sign and clear hooks in the events of one catch block. */
  lemma StepCounts(s: Settings, a: Assessment, b: nat, retried: bool, ev: Event)
    requires ev != Fired(ResetRetry)
    ensures var st := StepOf(s, a, b, retried);
      Count(st.events, ev)
      == (if Spent(st) && ev == Fired(StartRetry) && StartRetry in s.hooks then 1 else 0)
         + (if Spent(st) && ev == Fired(SignFunctionRetry) && SignFunctionRetry in s.hooks && !retried then 1 else 0)
         + (if ev == Fired(ClearFunctionRetry) && ClearFunctionRetry in s.hooks && !a.skip && b == 0 then 1 else 0)
         + (if Spent(st) && ev == BeforeRetryRan && st.Again? && a.verdict.value.beforeRetry then 1 else 0)
  {
    if Spent(StepOf(s, a, b, retried)) {
      SpentStepCounts(s, a, b, retried, ev);
    } else {
      StoppedStepCounts(s, a, b, retried, ev);
    }
  }

  /** `RunCalls` at a raised call the catch block retries in place. */
  lemma RunCallsAgain(s: Settings, calls: seq<Call>, b: nat, k: nat, retried: bool, trace: seq<Event>)
    requires k + b < |calls| && calls[k].Raised? && StepOf(s, calls[k].assessment, b, retried).Again?
    ensures RunCalls(s, calls, b, k, retried, trace)
         == RunCalls(s, calls, b - 1, k + 1, true, trace + StepOf(s, calls[k].assessment, b, retried).events)
  {
  }

  /** A retried failure in the synchronous loop goes round again after the sign and start hooks. */
  lemma RetriedStep(s: Settings, a: Assessment, b: nat, retried: bool)
    requires b > 0 && !s.async && Retried(a)
    ensures StepOf(s, a, b, retried)
         == Again((if retried then [] else Fire(s.hooks, SignFunctionRetry)) + Fire(s.hooks, StartRetry)
                  + if a.verdict.value.beforeRetry then [BeforeRetryRan] else [])
  {
  }

  /** The events of `j` retried failures in a row, with the before-retry callbacks that run. */
  function RetryTrace(s: Settings, calls: seq<Call>, k: nat, j: nat, retried: bool): seq<Event>
    requires k + j <= |calls|
    requires forall i :: k <= i < k + j ==> calls[i].Raised? && Retried(calls[i].assessment)
    decreases j
  {
    if j == 0 then []
    else (if retried then [] else Fire(s.hooks, SignFunctionRetry)) + Fire(s.hooks, StartRetry)
         + (if calls[k].assessment.verdict.Ok? && calls[k].assessment.verdict.value.beforeRetry
            then [BeforeRetryRan] else [])
         + RetryTrace(s, calls, k + 1, j - 1, true)
  }

  /** Without before-retry callbacks the events of `j` retried failures are those of `RetryEvents`. */
  lemma {:induction false} RetryTraceWithoutCallbacks(s: Settings, calls: seq<Call>, k: nat, j: nat, retried: bool)
    requires k + j <= |calls|
    requires forall i :: k <= i < k + j ==> calls[i].Raised? && Retried(calls[i].assessment)
                                            && !calls[i].assessment.verdict.value.beforeRetry
    ensures RetryTrace(s, calls, k, j, retried) == RetryEvents(s.hooks, j, retried)
    decreases j
  {
    if j > 0 {
      RetryTraceWithoutCallbacks(s, calls, k + 1, j - 1, true);
      var ev := (if retried then [] else Fire(s.hooks, SignFunctionRetry)) + Fire(s.hooks, StartRetry);
      assert ev + [] == ev;
    }
  }

  /** From call `k` on, `b` retried failures in a row and then one more failure: the budget runs out. */
  lemma {:induction false} ExhaustFrom(s: Settings, calls: seq<Call>, b: nat, k: nat, retried: bool,
                                       trace: seq<Event>, last: Assessment)
    requires k + b < |calls| && !s.async
    requires forall i :: k <= i < k + b ==> calls[i].Raised? && Retried(calls[i].assessment)
    requires calls[k + b] == Raised(last) && !last.skip
    ensures RunCalls(s, calls, b, k, retried, trace)
         == RunEnd(Thrown(last.wrapped), 0, k + b + 1,
                   trace + RetryTrace(s, calls, k, b, retried) + Fire(s.hooks, ClearFunctionRetry))
    decreases b
  {
    if b > 0 {
      var a := calls[k].assessment;
      RetriedStep(s, a, b, retried);
      var ev := StepOf(s, a, b, retried).events;
      RunCallsAgain(s, calls, b, k, retried, trace);
      ExhaustFrom(s, calls, b - 1, k + 1, true, trace + ev, last);
      Assoc(trace, ev, RetryTrace(s, calls, k + 1, b - 1, true));
    } else {
      assert trace + RetryTrace(s, calls, k, b, retried) == trace;
    }
  }

  /** From call `k` on, `j` retried failures in a row and then a call that returns. */
  lemma {:induction false} RecoverFrom(s: Settings, calls: seq<Call>, b: nat, j: nat, k: nat, retried: bool,
                                       trace: seq<Event>)
    requires j <= b && k + b < |calls| && !s.async
    requires forall i :: k <= i < k + j ==> calls[i].Raised? && Retried(calls[i].assessment)
    requires calls[k + j] == Returned
    ensures RunCalls(s, calls, b, k, retried, trace)
         == RunEnd(Completed, b - j, k + j + 1,
                   trace + RetryTrace(s, calls, k, j, retried)
                   + if retried || j > 0 then Fire(s.hooks, ClearFunctionRetry) + Fire(s.hooks, ResetRetry) else [])
    decreases j
  {
    if j > 0 {
      var a := calls[k].assessment;
      RetriedStep(s, a, b, retried);
      var ev := StepOf(s, a, b, retried).events;
      RunCallsAgain(s, calls, b, k, retried, trace);
      RecoverFrom(s, calls, b - 1, j - 1, k + 1, true, trace + ev);
      Assoc(trace, ev, RetryTrace(s, calls, k + 1, j - 1, true));
    } else {
      assert trace + RetryTrace(s, calls, k, j, retried) == trace;
    }
  }

  /** The calls of the single-argument loop: a raised error is never skipped and always has a verdict. */
  lemma PlainCalls(s: Settings, g: Graph, reg: Registry, outs: seq<Attempt>, i: nat)
    requires Admissible(Plain, g, reg, outs) && i < |outs| && outs[i].Fails?
    ensures var c := Calls(Plain, s, g, reg, outs)[i];
      && c.Raised? && !c.assessment.skip && c.assessment.verdict.Ok?
      && !c.assessment.verdict.value.beforeRetry
      && c.assessment.wrapped == WrapError(g, outs[i].error)
      && (Retried(c.assessment) <==> RetriedByPlain(g, reg, outs[i].error))
  {
  }

  /**
    Budget n >= 0, every call fails and every failure is retried: n + 1 calls,
    the budget ends at 0, the start hook fires n times, the clear hook once,
    and the last error is thrown.
  */
  lemma AllFailuresExhaustBudget(s: Settings, g: Graph, reg: Registry, outs: seq<Attempt>, n: nat)
    requires Admissible(Plain, g, reg, outs) && n < |outs| && !s.async
    requires forall i :: 0 <= i <= n ==> outs[i].Fails?
    requires forall i :: 0 <= i < n ==> RetriedByPlain(g, reg, outs[i].error)
    ensures var r := Run(Plain, s, g, reg, outs, n, 0, false, []);
      && r.result == Thrown(WrapError(g, outs[n].error))
      && r.budget == 0 && r.attempts == n + 1
      && r.trace == RetryEvents(s.hooks, n, false) + Fire(s.hooks, ClearFunctionRetry)
      && Count(r.trace, Fired(ClearFunctionRetry)) == (if ClearFunctionRetry in s.hooks then 1 else 0)
      && Count(r.trace, Fired(StartRetry)) == (if StartRetry in s.hooks then n else 0)
  {
    var calls := Calls(Plain, s, g, reg, outs);
    forall i | 0 <= i <= n
      ensures calls[i].Raised? && !calls[i].assessment.verdict.value.beforeRetry
      ensures i < n ==> Retried(calls[i].assessment)
    {
      PlainCalls(s, g, reg, outs, i);
    }
    ExhaustFrom(s, calls, n, 0, false, [], calls[n].assessment);
    RetryTraceWithoutCallbacks(s, calls, 0, n, false);
    PlainCalls(s, g, reg, outs, n);
    assert [] + RetryEvents(s.hooks, n, false) == RetryEvents(s.hooks, n, false);
    ExhaustedTraceCounts(s.hooks, n);
  }

  /** In the trace of `n` retries and then giving up, the clear hook fires once and the start hook `n` times. */
  lemma ExhaustedTraceCounts(hooks: set<Hook>, n: nat)
    ensures var t := RetryEvents(hooks, n, false) + Fire(hooks, ClearFunctionRetry);
      && Count(t, Fired(ClearFunctionRetry)) == (if ClearFunctionRetry in hooks then 1 else 0)
      && Count(t, Fired(StartRetry)) == (if StartRetry in hooks then n else 0)
  {
    var retries := RetryEvents(hooks, n, false);
    RetryEventsCount(hooks, n, false, Fired(ClearFunctionRetry));
    RetryEventsCount(hooks, n, false, Fired(StartRetry));
    CountAppend(retries, Fire(hooks, ClearFunctionRetry), Fired(ClearFunctionRetry));
    CountAppend(retries, Fire(hooks, ClearFunctionRetry), Fired(StartRetry));
  }

  /**
    Budget n, k <= n retried failures and then a success: k + 1 calls, budget
    n - k left, and the clear hook followed by the reset hook exactly when k > 0.
  */
  lemma FailuresThenSuccess(s: Settings, g: Graph, reg: Registry, outs: seq<Attempt>, n: nat, k: nat)
    requires Admissible(Plain, g, reg, outs) && k <= n < |outs| && !s.async
    requires forall i :: 0 <= i < k ==> outs[i].Fails? && RetriedByPlain(g, reg, outs[i].error)
    requires outs[k] == Succeeds
    ensures var r := Run(Plain, s, g, reg, outs, n, 0, false, []);
      && r.result == Completed && r.budget == n - k && r.attempts == k + 1
      && r.trace == RetryEvents(s.hooks, k, false)
                    + if k > 0 then Fire(s.hooks, ClearFunctionRetry) + Fire(s.hooks, ResetRetry) else []
  {
    var calls := Calls(Plain, s, g, reg, outs);
    forall i | 0 <= i < k
      ensures calls[i].Raised? && Retried(calls[i].assessment) && !calls[i].assessment.verdict.value.beforeRetry
    {
      PlainCalls(s, g, reg, outs, i);
    }
    RecoverFrom(s, calls, n, k, 0, false, []);
    RetryTraceWithoutCallbacks(s, calls, 0, k, false);
    assert [] + RetryEvents(s.hooks, k, false) == RetryEvents(s.hooks, k, false);
  }

  /** Budget 0: one call, and its failure is thrown at once after the clear hook. */
  lemma ZeroBudgetThrowsAtOnce(s: Settings, g: Graph, reg: Registry, outs: seq<Attempt>)
    requires Admissible(Plain, g, reg, outs) && 0 < |outs| && outs[0].Fails?
    ensures Run(Plain, s, g, reg, outs, 0, 0, false, [])
         == RunEnd(Thrown(WrapError(g, outs[0].error)), 0, 1, Fire(s.hooks, ClearFunctionRetry))
  {
    PlainCalls(s, g, reg, outs, 0);
  }

  /** A failure neither class nor verdict retries is thrown after the reset hook, the budget untouched. */
  lemma NotRetriedThrowsAfterReset(s: Settings, g: Graph, reg: Registry, outs: seq<Attempt>, n: nat)
    requires Admissible(Plain, g, reg, outs) && 0 < n < |outs| && outs[0].Fails?
    requires !RetriedByPlain(g, reg, outs[0].error)
    ensures Run(Plain, s, g, reg, outs, n, 0, false, [])
         == RunEnd(Thrown(WrapError(g, outs[0].error)), n, 1, Fire(s.hooks, ResetRetry))
  {
    PlainCalls(s, g, reg, outs, 0);
  }

  /** Asynchronous mode: one retried failure schedules the next call after the period and returns. */
  lemma AsyncSchedulesAfterOneFailure(s: Settings, g: Graph, reg: Registry, outs: seq<Attempt>, n: nat)
    requires Admissible(Plain, g, reg, outs) && 0 < n < |outs| && s.async
    requires outs[0].Fails? && RetriedByPlain(g, reg, outs[0].error)
    ensures var r := Run(Plain, s, g, reg, outs, n, 0, false, []);
      && r.result == Scheduled(EffectivePeriod(s.periodSeconds)) && r.result.delaySeconds > 0
      && r.budget == n - 1 && r.attempts == 1
      && r.trace == Fire(s.hooks, SignFunctionRetry) + Fire(s.hooks, StartRetry)
  {
    PlainCalls(s, g, reg, outs, 0);
    assert [] + (Fire(s.hooks, SignFunctionRetry) + Fire(s.hooks, StartRetry))
        == Fire(s.hooks, SignFunctionRetry) + Fire(s.hooks, StartRetry);
  }

  /**
    Skip-on-error in the node loop: a TapCodeException with a skippable code is
    rethrown unchanged on the first call, whatever the budget, after the reset
    hook only when its code is not recoverable.
  */
  lemma SkippableRethrownAtOnce(s: Settings, g: Graph, reg: Registry, outs: seq<Attempt>, replies: seq<HandlerReply>, n: nat)
    requires Admissible(ForNode(replies), g, reg, outs) && n < |outs| && outs[0].Fails?
    requires s.skipOnError && IsInstance(g, outs[0].error, TAP_CODE_EXCEPTION)
    requires reg[g[outs[0].error].code].skippable
    ensures Run(ForNode(replies), s, g, reg, outs, n, 0, false, [])
         == RunEnd(Thrown(Rethrown(outs[0].error)), n, 1,
                   if reg[g[outs[0].error].code].recoverable then [] else Fire(s.hooks, ResetRetry))
  {
  }

  /** A handler that throws ends the node loop with the handler-failure code, the budget untouched. */
  lemma HandlerFailureThrown(s: Settings, g: Graph, reg: Registry, outs: seq<Attempt>, replies: seq<HandlerReply>, n: nat)
    requires Admissible(ForNode(replies), g, reg, outs) && 0 < n < |outs| && outs[0].Fails?
    requires !Skippable(true, s, g, reg, outs[0].error) && replies[0] == Throws
    ensures Run(ForNode(replies), s, g, reg, outs, n, 0, false, [])
         == RunEnd(Thrown(NewCoded(CALL_ERROR_HANDLE_API_ERROR)), n, 1, [])
  {
  }

  /**
    Budget bookkeeping from any point: each retried failure costs exactly one
    unit and one call and fires the start hook once; the sign hook fires only for
    the frame's first retried failure, the clear hook at most once.
  */
  lemma {:induction false} BudgetAccounting(s: Settings, calls: seq<Call>, b: nat, k: nat, retried: bool,
                                            trace: seq<Event>)
    requires k + b < |calls|
    ensures var r := RunCalls(s, calls, b, k, retried, trace);
      && 0 <= r.budget <= b
      && r.attempts == k + (b - r.budget) + (if r.result.Scheduled? then 0 else 1)
      && (r.result.Scheduled? ==> s.async && r.budget < b)
      && trace <= r.trace
      && Count(r.trace, Fired(StartRetry))
         == Count(trace, Fired(StartRetry)) + (if StartRetry in s.hooks then b - r.budget else 0)
      && Count(r.trace, Fired(SignFunctionRetry))
         == Count(trace, Fired(SignFunctionRetry))
            + (if SignFunctionRetry in s.hooks && !retried && r.budget < b then 1 else 0)
      && Count(r.trace, Fired(ClearFunctionRetry)) <= Count(trace, Fired(ClearFunctionRetry)) + 1
    decreases b
  {
    match calls[k] {
    case Returned =>
      ReturnedCounts(s.hooks, trace, retried, Fired(StartRetry));
      ReturnedCounts(s.hooks, trace, retried, Fired(SignFunctionRetry));
      ReturnedCounts(s.hooks, trace, retried, Fired(ClearFunctionRetry));
    case Raised(a) =>
      var st := StepOf(s, a, b, retried);
      StepTraceCounts(s, a, b, retried, trace, Fired(StartRetry));
      StepTraceCounts(s, a, b, retried, trace, Fired(SignFunctionRetry));
      StepTraceCounts(s, a, b, retried, trace, Fired(ClearFunctionRetry));
      if st.Again? {
        assert RunCalls(s, calls, b, k, retried, trace) == RunCalls(s, calls, b - 1, k + 1, true, trace + st.events);
        BudgetAccounting(s, calls, b - 1, k + 1, true, trace + st.events);
      } else {
        assert RunCalls(s, calls, b, k, retried, trace) == RunEnd(st.result, st.budget, k + 1, trace + st.events);
      }
    }
  }

  /** A call that returns adds the clear hook, and no start or sign hook, to the trace. */
  lemma ReturnedCounts(hooks: set<Hook>, trace: seq<Event>, retried: bool, ev: Event)
    requires ev != Fired(ResetRetry)
    ensures var tail := if retried then Fire(hooks, ClearFunctionRetry) + Fire(hooks, ResetRetry) else [];
      Count(trace + tail, ev)
      == Count(trace, ev) + (if retried && ev == Fired(ClearFunctionRetry) && ClearFunctionRetry in hooks then 1 else 0)
  {
    var tail := if retried then Fire(hooks, ClearFunctionRetry) + Fire(hooks, ResetRetry) else [];
    CountAppend(trace, tail, ev);
    CountFire(hooks, ClearFunctionRetry, ev);
    CountFire(hooks, ResetRetry, ev);
    if retried {
      CountAppend(Fire(hooks, ClearFunctionRetry), Fire(hooks, ResetRetry), ev);
    }
  }

  /** `StepCounts` for the trace the step's events are appended to. */
  lemma StepTraceCounts(s: Settings, a: Assessment, b: nat, retried: bool, trace: seq<Event>, ev: Event)
    requires ev != Fired(ResetRetry) && ev != BeforeRetryRan
    ensures var st := StepOf(s, a, b, retried);
      Count(trace + st.events, ev)
      == Count(trace, ev)
         + (if Spent(st) && ev == Fired(StartRetry) && StartRetry in s.hooks then 1 else 0)
         + (if Spent(st) && ev == Fired(SignFunctionRetry) && SignFunctionRetry in s.hooks && !retried then 1 else 0)
         + (if ev == Fired(ClearFunctionRetry) && ClearFunctionRetry in s.hooks && !a.skip && b == 0 then 1 else 0)
  {
    CountAppend(trace, StepOf(s, a, b, retried).events, ev);
    StepCounts(s, a, b, retried, ev);
  }

  /**
    The same bookkeeping for either loop from its start: every retry spends one
    unit and one call, and only an asynchronous loop returns before its last call.
  */
  lemma RunBudget(mode: Mode, s: Settings, g: Graph, reg: Registry, outs: seq<Attempt>, n: nat)
    requires Admissible(mode, g, reg, outs) && n < |outs|
    ensures var r := Run(mode, s, g, reg, outs, n, 0, false, []);
      && 0 <= r.budget <= n
      && r.attempts == (n - r.budget) + (if r.result.Scheduled? then 0 else 1)
      && (r.result.Scheduled? ==> s.async && r.budget < n)
      && Count(r.trace, Fired(StartRetry)) == (if StartRetry in s.hooks then n - r.budget else 0)
      && Count(r.trace, Fired(SignFunctionRetry)) == (if SignFunctionRetry in s.hooks && r.budget < n then 1 else 0)
      && Count(r.trace, Fired(ClearFunctionRetry)) <= 1
  {
    BudgetAccounting(s, Calls(mode, s, g, reg, outs), n, 0, false, []);
  }

  /**
    A coded error that is not recoverable (and not the unknown-error code) is
    thrown at once whatever the handler answers, unless its chain holds a
    default-retry class: then it is retried all the same.
  */
  lemma NonRecoverableCodeOverridesHandler(s: Settings, g: Graph, reg: Registry, outs: seq<Attempt>,
                                           replies: seq<HandlerReply>, n: nat)
    requires Admissible(ForNode(replies), g, reg, outs) && 0 < n < |outs| && outs[0].Fails? && !s.async
    requires !Skippable(true, s, g, reg, outs[0].error) && !replies[0].Throws?
    requires IsInstance(g, outs[0].error, TAP_CODE_EXCEPTION)
    requires !reg[g[outs[0].error].code].recoverable && g[outs[0].error].code != UNKNOWN_ERROR
    ensures var r := Run(ForNode(replies), s, g, reg, outs, n, 0, false, []);
      if NeedDefaultRetry(g, outs[0].error) then r.attempts > 1 && r.budget < n
      else r == RunEnd(Thrown(WrapError(g, outs[0].error)), n, 1, Fire(s.hooks, ResetRetry))
  {
    var calls := Calls(ForNode(replies), s, g, reg, outs);
    var a := calls[0].assessment;
    var st := StepOf(s, a, n, false);
    if NeedDefaultRetry(g, outs[0].error) {
      assert st.Again?;
      RunCallsAgain(s, calls, n, 0, false, []);
      BudgetAccounting(s, calls, n - 1, 1, true, [] + st.events);
    }
  }
}
