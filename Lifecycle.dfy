/**
 * The lifecycle protocol of `Task.run` as a function of its inputs: what the
 * work function and each hook do, the value of the cancellation flag when it
 * is read, and the launch location. `RunTrace` is the trace the runner
 * produces; the lemmas state what the protocol promises about it.
 */
module Lifecycle {
  import opened Wrappers
  import opened Exceptions
  import opened Events

  /** What the work function `call` does: return a value or throw. */
  datatype CallOutcome<R> = Returns(value: R) | Throws(thrown: Exn)

  /** The handler hooks are posted to. */
  datatype Handler = MainLooperHandler | ParentHandler(id: nat)

  /**
   * The parent task as the runner sees it. Each `on…` field says what that
   * hook does when invoked: `None` returns normally, `Some(e)` throws `e`.
   * `isCancelled` is the flag's value at the one point it is read.
   */
  datatype TaskScript<R> = TaskScript(
    call: CallOutcome<R>,
    onPreExecute: Option<Exn>,
    onSuccess: Option<Exn>,
    onCancelled: Option<Exn>,
    onInterrupted: Option<Exn>,
    onException: Option<Exn>,
    onFinally: Option<Exn>,
    isCancelled: bool,
    launchLocation: Option<seq<Frame>>,
    handler: Option<Handler>)
  {
    /** Every exception the work function or a hook can throw. */
    function Exceptions(): set<Exn>
    {
      (if call.Throws? then {call.thrown} else {}) + HookExceptions()
    }

    /** Every hook throws only RuntimeExceptions, as Java's signatures of the hooks force. */
    predicate HooksThrowRuntime()
    {
      forall e :: e in HookExceptions() ==> e.kind == RuntimeExn
    }

    /** The exceptions the hooks (not `call`) can throw. */
    function HookExceptions(): set<Exn>
    {
      Thrown(onPreExecute) + Thrown(onSuccess) + Thrown(onCancelled)
      + Thrown(onInterrupted) + Thrown(onException) + Thrown(onFinally)
    }

    /** No hook throws. */
    predicate HooksReturn()
    {
      onPreExecute.None? && onSuccess.None? && onCancelled.None?
      && onInterrupted.None? && onException.None? && onFinally.None?
    }
  }

  function Thrown(hook: Option<Exn>): set<Exn>
  {
    if hook.Some? then {hook.value} else {}
  }

  /** The fire-and-forget post of a caught RuntimeException, if one was caught. */
  function Forward<R>(caught: Option<Exn>): seq<Event<R>>
  {
    if caught.Some? then [RuntimeException(caught.value)] else []
  }

  /** The events after `Call`, up to but excluding `Finally`, when `onPreExecute` returned. */
  function CallPhase<R>(p: TaskScript<R>): seq<Event<R>>
  {
    match p.call
    case Returns(v) =>
      if p.isCancelled then [Cancelled] + Forward(p.onCancelled)
      else [Success(v)] + Forward(p.onSuccess)
    case Throws(e) =>
      if e.kind == RuntimeExn then [RuntimeException(e)]
      else if e.kind == InterruptedExn then [Interrupted(e)] + Forward(p.onInterrupted)
      else [Exception(e)] + Forward(p.onException)
  }

  /**
   * The RuntimeException that leaves the inner block of `run` for its outer
   * catch, when `onPreExecute` returned: the one the outcome hook threw. A
   * RuntimeException from `call` itself is forwarded inside and does not escape.
   */
  function Escaping<R>(p: TaskScript<R>): Option<Exn>
  {
    match p.call
    case Returns(_) => if p.isCancelled then p.onCancelled else p.onSuccess
    case Throws(e) =>
      if e.kind == RuntimeExn then None
      else if e.kind == InterruptedExn then p.onInterrupted
      else p.onException
  }

  /** The events before `Finally`: what the outer `try` block of `run` produces. */
  function Body<R>(p: TaskScript<R>): seq<Event<R>>
  {
    if p.onPreExecute.Some? then [PreExecute] + [RuntimeException(p.onPreExecute.value)]
    else [PreExecute] + ([Call] + CallPhase(p))
  }

  /** The trace of one run of the lifecycle. */
  function RunTrace<R>(p: TaskScript<R>): seq<Event<R>>
  {
    Body(p) + ([Finally] + Forward(p.onFinally))
  }

  // ---------------------------------------------------------------------------
  // The expected trace of each path, as the instrumented tests state it.

  /** Nothing throws and the flag is clear: the result reaches `onSuccess`. */
  lemma HappyPath<R>(p: TaskScript<R>, v: R)
    requires p.HooksReturn() && p.call == Returns(v) && !p.isCancelled
    ensures RunTrace(p) == [PreExecute, Call, Success(v), Finally]
  {
  }

  /** The flag is set when `call` returns: `onCancelled` replaces `onSuccess`, the result is dropped. */
  lemma CancelledPath<R>(p: TaskScript<R>)
    requires p.HooksReturn() && p.call.Returns? && p.isCancelled
    ensures RunTrace(p) == [PreExecute, Call, Cancelled, Finally]
  {
  }

  /** An InterruptedException from `call` reaches `onInterrupted`, the same object. */
  lemma InterruptedPath<R>(p: TaskScript<R>, e: Exn)
    requires p.HooksReturn() && p.call == Throws(e) && e.kind == InterruptedExn
    ensures RunTrace(p) == [PreExecute, Call, Interrupted(e), Finally]
  {
  }

  /** Any other checked exception from `call` reaches `onException`, the same object. */
  lemma CheckedFailurePath<R>(p: TaskScript<R>, e: Exn)
    requires p.HooksReturn() && p.call == Throws(e) && e.kind == CheckedExn
    ensures RunTrace(p) == [PreExecute, Call, Exception(e), Finally]
  {
  }

  /** A RuntimeException from `call` reaches `onRuntimeException`; no outcome hook fires. */
  lemma CallRuntimeFailurePath<R>(p: TaskScript<R>, e: Exn)
    requires p.HooksReturn() && p.call == Throws(e) && e.kind == RuntimeExn
    ensures RunTrace(p) == [PreExecute, Call, RuntimeException(e), Finally]
  {
  }

  /**
   * `onPreExecute` throws: the exception is rethrown after the wait and caught
   * by the outer handler, so `call` never runs, whatever it would have done.
   */
  lemma PreExecuteFailurePath<R>(p: TaskScript<R>, e: Exn)
    requires p.onPreExecute == Some(e) && p.onFinally.None?
    ensures RunTrace(p) == [PreExecute, RuntimeException(e), Finally]
  {
  }

  /** `onSuccess` throws: its own event stays, the exception follows it, then `onFinally`. */
  lemma SuccessHookFailurePath<R>(p: TaskScript<R>, v: R, e: Exn)
    requires p.onPreExecute.None? && p.onFinally.None?
    requires p.call == Returns(v) && !p.isCancelled && p.onSuccess == Some(e)
    ensures RunTrace(p) == [PreExecute, Call, Success(v), RuntimeException(e), Finally]
  {
  }

  /** `onCancelled` throws. */
  lemma CancelledHookFailurePath<R>(p: TaskScript<R>, e: Exn)
    requires p.onPreExecute.None? && p.onFinally.None?
    requires p.call.Returns? && p.isCancelled && p.onCancelled == Some(e)
    ensures RunTrace(p) == [PreExecute, Call, Cancelled, RuntimeException(e), Finally]
  {
  }

  /** `onException` (or `onInterrupted`) throws while handling the checked exception `c`. */
  lemma ExceptionHookFailurePath<R>(p: TaskScript<R>, c: Exn, e: Exn)
    requires p.onPreExecute.None? && p.onFinally.None? && p.call == Throws(c)
    requires c.kind == CheckedExn ==> p.onException == Some(e)
    requires c.kind == InterruptedExn ==> p.onInterrupted == Some(e)
    requires c.kind != RuntimeExn
    ensures RunTrace(p) == [PreExecute, Call, if c.kind == InterruptedExn then Interrupted(c) else Exception(c), RuntimeException(e), Finally]
  {
  }

  /**
   * `onFinally` throws: the run is the same as if it had returned,
   * followed by exactly one forward of its exception.
   */
  lemma FinallyFailurePath<R>(p: TaskScript<R>, e: Exn)
    requires p.onFinally == Some(e)
    ensures RunTrace(p) == RunTrace(p.(onFinally := None)) + [RuntimeException(e)]
  {
  }

  // ---------------------------------------------------------------------------
  // Properties of every run.

  /** The flag is consulted only after `call` returned normally. */
  lemma FlagReadOnlyAfterReturn<R>(p: TaskScript<R>)
    requires p.onPreExecute.Some? || p.call.Throws?
    ensures RunTrace(p.(isCancelled := !p.isCancelled)) == RunTrace(p)
  {
  }

  /**
   * When `call` returned `v`, the flag alone decides between the two hooks:
   * `onCancelled` fires iff it is set, `onSuccess(v)` iff it is clear.
   */
  lemma {:induction false} FlagDecidesOutcome<R>(p: TaskScript<R>, v: R)
    requires p.onPreExecute.None? && p.call == Returns(v)
    ensures Count(RunTrace(p), OnCancelled) == (if p.isCancelled then 1 else 0)
    ensures Count(RunTrace(p), OnSuccess) == (if p.isCancelled then 0 else 1)
    ensures !p.isCancelled ==> RunTrace(p)[2] == Success(v)
  {
    var t := RunTrace(p);
    var phase := CallPhase(p);
    assert [PreExecute] + ([Call] + phase) == [PreExecute] + [Call] + phase;
    assert t == ([PreExecute] + [Call] + phase) + ([Finally] + Forward(p.onFinally));
    CountAppend<R>([PreExecute] + [Call] + phase, [Finally] + Forward(p.onFinally), OnCancelled);
    CountAppend<R>([PreExecute] + [Call] + phase, [Finally] + Forward(p.onFinally), OnSuccess);
    CountAppend<R>([PreExecute] + [Call], phase, OnCancelled);
    CountAppend<R>([PreExecute] + [Call], phase, OnSuccess);
    SmallCounts(p);
  }

  /** The counts of the short pieces the trace is built from. */
  lemma {:induction false} SmallCounts<R>(p: TaskScript<R>)
    ensures forall h :: Count<R>([PreExecute] + [Call], h) == (if h == OnPreExecute || h == OnCall then 1 else 0)
    ensures forall h :: (Count<R>([Finally] + Forward(p.onFinally), h)
      == (if h == OnFinally then 1 else 0) + (if h == OnRuntimeException && p.onFinally.Some? then 1 else 0))
    ensures forall h :: Count(CallPhase(p), h) == PhaseCount(p, h)
  {
    forall h ensures Count<R>([PreExecute] + [Call], h) == (if h == OnPreExecute || h == OnCall then 1 else 0) {
      CountPair<R>(PreExecute, Call, h);
    }
    forall h ensures Count<R>([Finally] + Forward(p.onFinally), h)
      == (if h == OnFinally then 1 else 0) + (if h == OnRuntimeException && p.onFinally.Some? then 1 else 0)
    {
      ForwardCount<R>(Finally, p.onFinally, h);
    }
    forall h ensures Count(CallPhase(p), h) == PhaseCount(p, h) {
      match p.call
      case Returns(v) =>
        if p.isCancelled { ForwardCount<R>(Cancelled, p.onCancelled, h); }
        else { ForwardCount(Success(v), p.onSuccess, h); }
      case Throws(e) =>
        if e.kind == RuntimeExn { ForwardCount<R>(RuntimeException(e), None, h); }
        else if e.kind == InterruptedExn { ForwardCount<R>(Interrupted(e), p.onInterrupted, h); }
        else { ForwardCount<R>(Exception(e), p.onException, h); }
    }
  }

  /** The hook counts of `CallPhase`, case by case. */
  function PhaseCount<R>(p: TaskScript<R>, h: Hook): nat
  {
    match p.call
    case Returns(_) =>
      if p.isCancelled then (if h == OnCancelled then 1 else 0) + (if h == OnRuntimeException && p.onCancelled.Some? then 1 else 0)
      else (if h == OnSuccess then 1 else 0) + (if h == OnRuntimeException && p.onSuccess.Some? then 1 else 0)
    case Throws(e) =>
      if e.kind == RuntimeExn then (if h == OnRuntimeException then 1 else 0)
      else if e.kind == InterruptedExn then (if h == OnInterrupted then 1 else 0) + (if h == OnRuntimeException && p.onInterrupted.Some? then 1 else 0)
      else (if h == OnException then 1 else 0) + (if h == OnRuntimeException && p.onException.Some? then 1 else 0)
  }

  lemma CountPair<R>(a: Event<R>, b: Event<R>, h: Hook)
    ensures Count<R>([a] + [b], h) == (if a.HookOf() == h then 1 else 0) + (if b.HookOf() == h then 1 else 0)
  {
    CountAppend<R>([a], [b], h);
    CountSingle(a, h);
    CountSingle(b, h);
  }

  lemma CountSingle<R>(a: Event<R>, h: Hook)
    ensures Count<R>([a], h) == if a.HookOf() == h then 1 else 0
  {
    assert [a][1..] == [];
  }

  lemma ForwardCount<R>(ev: Event<R>, caught: Option<Exn>, h: Hook)
    ensures Count<R>([ev] + Forward(caught), h)
      == (if ev.HookOf() == h then 1 else 0) + (if h == OnRuntimeException && caught.Some? then 1 else 0)
  {
    if caught.Some? {
      CountPair(ev, RuntimeException(caught.value), h);
    } else {
      assert [ev] + Forward<R>(caught) == [ev];
      CountSingle(ev, h);
    }
  }

  /**
   * The shape every run has: `onPreExecute` first and once, `call` second if
   * at all, at most one outcome hook and only after `call`, `onFinally` exactly
   * once and last among the awaited hooks (only its own forwarded exception
   * may follow), and at most two forwarded RuntimeExceptions.
   */
  predicate LifecycleShape<R>(t: seq<Event<R>>)
  {
    2 <= |t|
    && t[0].PreExecute? && Count(t, OnPreExecute) == 1
    && Count(t, OnFinally) == 1
    && (t[|t| - 1].Finally? || (t[|t| - 2].Finally? && t[|t| - 1].RuntimeException?))
    && Count(t, OnCall) <= 1
    && (Count(t, OnCall) == 1 ==> t[1].Call?)
    && CountOutcomes(t) <= 1
    && (CountOutcomes(t) == 1 ==> Count(t, OnCall) == 1 && 3 <= |t| && t[2].IsOutcome())
    && Count(t, OnRuntimeException) <= 2
  }

  /** Every run has the lifecycle shape. */
  lemma {:induction false} RunTraceHasShape<R>(p: TaskScript<R>)
    ensures LifecycleShape(RunTrace(p))
    ensures RunTrace(p)[|RunTrace(p)| - 1]
      == if p.onFinally.Some? then RuntimeException(p.onFinally.value) else Finally
  {
    RunTraceCounts(p);
    var t := RunTrace(p);
    assert t[0] == PreExecute;
    if p.onPreExecute.None? {
      assert t[1] == Call;
      assert t[2] == CallPhase(p)[0];
    }
  }

  /** An outcome hook fires exactly when `onPreExecute` returned and `call` did not throw a RuntimeException. */
  lemma {:induction false} OutcomeFiresIff<R>(p: TaskScript<R>)
    ensures CountOutcomes(RunTrace(p))
      == if p.onPreExecute.None? && !(p.call.Throws? && p.call.thrown.kind == RuntimeExn) then 1 else 0
  {
    RunTraceCounts(p);
  }

  /** The number of invocations of each hook in a run, as a function of the script. */
  function TraceCount<R>(p: TaskScript<R>, h: Hook): nat
  {
    (if h == OnPreExecute || h == OnFinally then 1 else 0)
    + (if h == OnRuntimeException && p.onFinally.Some? then 1 else 0)
    + if p.onPreExecute.Some? then (if h == OnRuntimeException then 1 else 0)
      else (if h == OnCall then 1 else 0) + PhaseCount(p, h)
  }

  lemma {:induction false} RunTraceCounts<R>(p: TaskScript<R>)
    ensures forall h :: Count(RunTrace(p), h) == TraceCount(p, h)
  {
    var fin := [Finally] + Forward<R>(p.onFinally);
    SmallCounts(p);
    forall h ensures Count(RunTrace(p), h) == TraceCount(p, h) {
      CountAppend(Body(p), fin, h);
      if p.onPreExecute.Some? {
        CountPair<R>(PreExecute, RuntimeException(p.onPreExecute.value), h);
      } else {
        CountAppend<R>([PreExecute], [Call] + CallPhase(p), h);
        CountAppend<R>([Call], CallPhase(p), h);
        CountSingle<R>(PreExecute, h);
        CountSingle<R>(Call, h);
      }
    }
  }

  /** Only exceptions thrown by `call` or by a hook are ever handed to a hook. */
  lemma {:induction false} OnlyThrownIsForwarded<R>(p: TaskScript<R>, x: Exn)
    requires x !in p.Exceptions()
    ensures Forwarded(RunTrace(p), x) == 0
  {
    ForwardedPieces(p, x);
  }

  /**
   * An exception from `call` that no hook rethrows is forwarded exactly once,
   * so its stack trace gets exactly one copy of the launch location.
   */
  lemma {:induction false} CallFailureForwardedOnce<R>(p: TaskScript<R>, e: Exn)
    requires p.onPreExecute.None? && p.call == Throws(e)
    requires e !in Thrown(p.onSuccess) + Thrown(p.onCancelled) + Thrown(p.onInterrupted)
                   + Thrown(p.onException) + Thrown(p.onFinally)
    ensures Forwarded(RunTrace(p), e) == 1
  {
    ForwardedPieces(p, e);
  }

  /** How often each piece of the trace forwards `x`. */
  lemma {:induction false} ForwardedPieces<R>(p: TaskScript<R>, x: Exn)
    ensures Forwarded(RunTrace(p), x)
      == (if p.onPreExecute.Some? then (if p.onPreExecute.value == x then 1 else 0) else PhaseForwards(p, x))
       + (if p.onFinally == Some(x) then 1 else 0)
  {
    var fin := [Finally] + Forward<R>(p.onFinally);
    ForwardedAppend(Body(p), fin, x);
    ForwardedOne<R>(Finally, p.onFinally, x);
    if p.onPreExecute.Some? {
      ForwardedOne<R>(PreExecute, p.onPreExecute, x);
    } else {
      ForwardedAppend<R>([PreExecute], [Call] + CallPhase(p), x);
      ForwardedAppend<R>([Call], CallPhase(p), x);
      ForwardedOne<R>(PreExecute, None, x);
      ForwardedOne<R>(Call, None, x);
      match p.call
      case Returns(v) =>
        if p.isCancelled { ForwardedOne<R>(Cancelled, p.onCancelled, x); }
        else { ForwardedOne(Success(v), p.onSuccess, x); }
      case Throws(e) =>
        if e.kind == RuntimeExn { ForwardedOne<R>(RuntimeException(e), None, x); }
        else if e.kind == InterruptedExn { ForwardedOne<R>(Interrupted(e), p.onInterrupted, x); }
        else { ForwardedOne<R>(Exception(e), p.onException, x); }
    }
  }

  /** How often `CallPhase` forwards `x`, case by case. */
  function PhaseForwards<R>(p: TaskScript<R>, x: Exn): nat
  {
    match p.call
    case Returns(_) =>
      if p.isCancelled then (if p.onCancelled == Some(x) then 1 else 0)
      else (if p.onSuccess == Some(x) then 1 else 0)
    case Throws(e) =>
      (if e == x then 1 else 0)
      + (if e.kind == RuntimeExn then 0
         else if e.kind == InterruptedExn then (if p.onInterrupted == Some(x) then 1 else 0)
         else (if p.onException == Some(x) then 1 else 0))
  }

  lemma ForwardedOne<R>(ev: Event<R>, caught: Option<Exn>, x: Exn)
    ensures Forwarded([ev] + Forward(caught), x)
      == (if ev.Forwards(x) then 1 else 0) + (if caught == Some(x) then 1 else 0)
  {
    ForwardedSnoc([], ev, x);
    assert [] + [ev] == [ev];
    if caught.Some? {
      ForwardedSnoc([ev], RuntimeException(caught.value), x);
    } else {
      assert [ev] + Forward<R>(caught) == [ev];
    }
  }
}
