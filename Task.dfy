/**
 * The runner of Task.java: `Run` drives one lifecycle of the parent task,
 * delivering every hook through the handler. Awaited posts are synchronous
 * calls whose RuntimeException comes back as a result; plain posts append
 * their event. `trace` is the order in which the hooks are invoked.
 */
module SafeAsync {
  import opened Wrappers
  import opened Exceptions
  import opened Events
  import opened Lifecycle

  class Task<R> {
    const parent: TaskScript<R>
    const handler: Handler
    var trace: seq<Event<R>>
    /** Each exception's stack trace before this task forwarded it for the first time. */
    ghost var origin: map<Exn, seq<Frame>>

    /**
     * Every exception the parent can throw carries its original stack trace
     * followed by one copy of the launch location per time it was forwarded.
     */
    ghost predicate Valid()
      reads this, parent.Exceptions()
    {
      forall x {:trigger Accounted(x)} :: x in parent.Exceptions() ==> Accounted(x)
    }

    /** The stack trace of `x` is its original one plus a launch location per forward in `trace`. */
    ghost predicate Accounted(x: Exn)
      reads this, x
    {
      x in origin && x.stack == origin[x] + Repeat(LaunchFrames(parent.launchLocation), Forwarded(trace, x))
    }

    /** The handler is the parent's own, or else one on the main looper. */
    constructor (parent: TaskScript<R>)
      requires parent.HooksThrowRuntime()
      ensures this.parent == parent && trace == [] && Valid()
      ensures handler == if parent.handler.Some? then parent.handler.value else MainLooperHandler
    {
      this.parent := parent;
      handler := if parent.handler.Some? then parent.handler.value else MainLooperHandler;
      trace := [];
      origin := map x | x in parent.Exceptions() :: x.stack;
    }

    /** One lifecycle: pre-execute, call, one outcome hook, finally, forwarding every RuntimeException. */
    method Run()
      requires Valid()
      modifies this`trace, parent.Exceptions()
      ensures Valid()
      ensures trace == old(trace) + RunTrace(parent)
      ensures forall x :: x in parent.Exceptions() ==>
        x.stack == old(x.stack) + Repeat(LaunchFrames(parent.launchLocation), Forwarded(RunTrace(parent), x))
      ensures parent.launchLocation.None? ==> forall x :: x in parent.Exceptions() ==> x.stack == old(x.stack)
    {
      ghost var t0 := trace;
      // The RuntimeException that reaches the outer catch, if any.
      var caught := DoPreExecute();
      if caught.Some? {
        DoRuntimeException(caught.value);
        Associative(t0, [PreExecute], [RuntimeException(caught.value)]);
      } else {
        caught := CallAndDispatch();
        Associative(t0, [PreExecute], [Call] + CallPhase(parent));
        if caught.Some? {
          DoRuntimeException(caught.value);
        }
      }
      ghost var t1 := trace;
      assert t1 == t0 + Body(parent);
      var thrown := DoFinally();
      if thrown.Some? {
        DoRuntimeException(thrown.value);
      }
      Associative(t1, [Finally], Forward(parent.onFinally));
      Associative(t0, Body(parent), [Finally] + Forward(parent.onFinally));
      assert trace == t0 + RunTrace(parent);
      forall x | x in parent.Exceptions()
        ensures x.stack == old(x.stack) + Repeat(LaunchFrames(parent.launchLocation), Forwarded(RunTrace(parent), x))
        ensures parent.launchLocation.None? ==> x.stack == old(x.stack)
      {
        assert old(Accounted(x)) && Accounted(x);
        StackAfterRun(old(x.stack), x.stack, origin[x], LaunchFrames(parent.launchLocation), t0, RunTrace(parent), x);
        if parent.launchLocation.None? {
          RepeatNothing(Forwarded(RunTrace(parent), x));
        }
      }
    }

    /**
     * The inner part of the outer `try` of `run`: the call, its classification,
     * the cancellation check and the outcome hook. Returns the RuntimeException
     * that escapes to the outer catch, if any.
     */
    method CallAndDispatch() returns (caught: Option<Exn>)
      requires Valid()
      modifies this`trace, parent.Exceptions()
      ensures Valid()
      ensures caught == Escaping(parent)
      ensures trace + Forward(caught) == old(trace) + ([Call] + CallPhase(parent))
      ensures caught.Some? ==> caught.value in parent.Exceptions()
    {
      caught := None;
      var success := false;
      var result: Option<R> := None;
      var outcome := DoCall();
      match outcome {
        case Returns(v) =>
          result, success := Some(v), true;
        case Throws(e) =>
          if e.kind == RuntimeExn {
            DoRuntimeException(e);
          } else {
            caught := DoException(e);
          }
      }
      if success {
        if parent.isCancelled {
          caught := DoCancel();
        } else {
          caught := DoSuccess(result.value);
        }
      }
    }

    method DoPreExecute() returns (thrown: Option<Exn>)
      requires Valid()
      modifies this`trace
      ensures Valid()
      ensures trace == old(trace) + [PreExecute] && thrown == parent.onPreExecute
    {
      thrown := PostToUiThreadAndWait(PreExecute, parent.onPreExecute);
      forall x | x in parent.Exceptions() ensures Accounted(x) {
        assert old(Accounted(x));
        ForwardedSnoc(old(trace), PreExecute, x);
      }
    }

    /** `call` runs on the background thread itself: its event is appended directly. */
    method DoCall() returns (outcome: CallOutcome<R>)
      requires Valid()
      modifies this`trace
      ensures Valid()
      ensures trace == old(trace) + [Call] && outcome == parent.call
    {
      trace := trace + [Call];
      outcome := parent.call;
      forall x | x in parent.Exceptions() ensures Accounted(x) {
        assert old(Accounted(x));
        ForwardedSnoc(old(trace), Call, x);
      }
    }

    method DoSuccess(r: R) returns (thrown: Option<Exn>)
      requires Valid()
      modifies this`trace
      ensures Valid()
      ensures trace == old(trace) + [Success(r)] && thrown == parent.onSuccess
    {
      thrown := PostToUiThreadAndWait(Success(r), parent.onSuccess);
      forall x | x in parent.Exceptions() ensures Accounted(x) {
        assert old(Accounted(x));
        ForwardedSnoc(old(trace), Success(r), x);
      }
    }

    method DoCancel() returns (thrown: Option<Exn>)
      requires Valid()
      modifies this`trace
      ensures Valid()
      ensures trace == old(trace) + [Cancelled] && thrown == parent.onCancelled
    {
      thrown := PostToUiThreadAndWait(Cancelled, parent.onCancelled);
      forall x | x in parent.Exceptions() ensures Accounted(x) {
        assert old(Accounted(x));
        ForwardedSnoc(old(trace), Cancelled, x);
      }
    }

    /**
     * A checked exception: its stack gets the launch location, then it goes to
     * `onInterrupted` if it is an InterruptedException and to `onException` otherwise.
     */
    method DoException(e: Exn) returns (thrown: Option<Exn>)
      requires Valid() && e in parent.Exceptions()
      modifies this`trace, e
      ensures Valid()
      ensures e.stack == old(e.stack) + LaunchFrames(parent.launchLocation)
      ensures trace == old(trace) + [if e.kind == InterruptedExn then Interrupted(e) else Exception(e)]
      ensures thrown == if e.kind == InterruptedExn then parent.onInterrupted else parent.onException
    {
      AddLaunchLocation(e);
      if e.kind == InterruptedExn {
        thrown := PostToUiThreadAndWait(Interrupted(e), parent.onInterrupted);
      } else {
        thrown := PostToUiThreadAndWait(Exception(e), parent.onException);
      }
      forall x | x in parent.Exceptions() ensures Accounted(x) {
        assert old(Accounted(x));
        ForwardedSnoc(old(trace), if e.kind == InterruptedExn then Interrupted(e) else Exception(e), x);
      }
    }

    /** A RuntimeException: its stack gets the launch location, then a plain post to `onRuntimeException`. */
    method DoRuntimeException(e: Exn)
      requires Valid() && e in parent.Exceptions()
      modifies this`trace, e
      ensures Valid()
      ensures e.stack == old(e.stack) + LaunchFrames(parent.launchLocation)
      ensures trace == old(trace) + [RuntimeException(e)]
    {
      AddLaunchLocation(e);
      Post(RuntimeException(e));
      forall x | x in parent.Exceptions() ensures Accounted(x) {
        assert old(Accounted(x));
        ForwardedSnoc(old(trace), RuntimeException(e), x);
      }
    }

    method DoFinally() returns (thrown: Option<Exn>)
      requires Valid()
      modifies this`trace
      ensures Valid()
      ensures trace == old(trace) + [Finally] && thrown == parent.onFinally
    {
      thrown := PostToUiThreadAndWait(Finally, parent.onFinally);
      forall x | x in parent.Exceptions() ensures Accounted(x) {
        assert old(Accounted(x));
        ForwardedSnoc(old(trace), Finally, x);
      }
    }

    /** Replaces the stack trace by the old one followed by the launch location, when there is one. */
    method AddLaunchLocation(e: Exn)
      modifies e
      ensures e.stack == old(e.stack) + LaunchFrames(parent.launchLocation)
    {
      if parent.launchLocation.Some? {
        e.stack := e.stack + parent.launchLocation.value;
      }
    }

    /**
     * Runs `hook` on the handler and waits for it; a RuntimeException the hook
     * throws is captured and rethrown to the caller after the wait.
     */
    method PostToUiThreadAndWait(hook: Event<R>, throws: Option<Exn>) returns (rethrown: Option<Exn>)
      modifies this`trace
      ensures trace == old(trace) + [hook] && rethrown == throws
    {
      trace := trace + [hook];
      rethrown := throws;
    }

    /** A fire-and-forget post of `hook` to the handler. */
    method Post(hook: Event<R>)
      modifies this`trace
      ensures trace == old(trace) + [hook]
    {
      trace := trace + [hook];
    }
  }

  /** The stack arithmetic of one run: the forwards of the run add their launch locations to the old stack. */
  lemma StackAfterRun<R>(before: seq<Frame>, after: seq<Frame>, origin: seq<Frame>, launch: seq<Frame>,
                         t0: seq<Event<R>>, run: seq<Event<R>>, x: Exn)
    requires before == origin + Repeat(launch, Forwarded(t0, x))
    requires after == origin + Repeat(launch, Forwarded(t0 + run, x))
    ensures after == before + Repeat(launch, Forwarded(run, x))
  {
    ForwardedAppend(t0, run, x);
    RepeatAdd(launch, Forwarded(t0, x), Forwarded(run, x));
  }

  lemma Associative<T>(a: seq<T>, b: seq<T>, c: seq<T>)
    ensures a + b + c == a + (b + c)
  {
  }
}
