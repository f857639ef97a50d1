# Safe async task: the lifecycle driver of `Task.run`

This project models the runner behind the library's safe asynchronous task
(`Task.java`). A user task supplies a work function `call` and hooks:
`onPreExecute`, `onSuccess`, `onCancelled`, `onInterrupted`, `onException`,
`onRuntimeException` and `onFinally`. `Task.run` executes `call` on a
background thread. It delivers every hook to a handler, usually the main
(UI) thread's, in a fixed order:

- `onPreExecute` first, then `call`;
- at most one of `onSuccess`, `onCancelled`, `onInterrupted` and `onException`;
- then `onFinally`;
- every RuntimeException thrown by `call` or by a hook goes to `onRuntimeException`.

Once a few inputs are fixed, the routing is deterministic. The inputs are
what each hook does, what `call` does, and the cancellation flag's value at
the moment it is read. The model is therefore sequential. Its observable
output is the ordered **trace** of hook invocations, the order in which the
tests' mocked callback sees them.

- `Exceptions`: an exception is an object (`class Exn`). Its identity is the
  reference, its `kind` routes it (RuntimeException, InterruptedException,
  other checked exception), and its `stack` is overwritten in place when the
  launch location is appended.
- `Events`: one `Event` per hook invocation, carrying the hook's argument,
  plus counting functions over traces.
- `Lifecycle`: `TaskScript` holds the inputs: what `call` and each hook do,
  the flag value, the launch location and the optional parent handler.
  `RunTrace` is the trace one run produces. The lemmas state the expected trace
  of every path the instrumented tests exercise, plus the properties every
  run has.
- `SafeAsync`: `class Task` mirrors `Task.java`. Its `trace` field records the
  delivered hooks and its methods mirror `run` and its helpers. An awaited
  post (`postToUiThreadAndWait`) is a synchronous call that appends the
  hook's event and returns the RuntimeException the hook threw, if any. A
  plain post (`mHandler.post`) appends its event. This matches the order the
  handler's thread observes: the background thread blocks on every awaited
  post, and the handler queue is FIFO. The ghost invariant `Valid` ties each
  exception's stack trace to its original stack plus one launch location per
  time the task forwarded it.

Java exceptions become return values (`Option<Exn>`, `CallOutcome`). The
cancellation flag and the launch location are inputs. A cancel-with-interrupt
appears as `call` throwing an InterruptedException.

An exception from `onPreExecute` skips `call` and the outcome hooks:
`postToUiThreadAndWait` rethrows it after the wait (Task.java:190-193), the
outer `catch` of `run` forwards it (Task.java:51-52), and only `onFinally`
follows (`Lifecycle.PreExecuteFailurePath`).

## Model

| member | source | states |
|---|---|---|
| SafeAsync.Task.constructor | lib-async/src/main/java/com/label305/stan/async/Task.java:22-25 | for a parent whose hooks throw only RuntimeExceptions, the task keeps its parent; the handler is the parent's own when it has one, otherwise the main-looper handler; the trace starts empty and the stack invariant holds |
| SafeAsync.Task.Run | lib-async/src/main/java/com/label305/stan/async/Task.java:29-60 | one run appends exactly `RunTrace(parent)` to the trace; every exception's stack trace gains one copy of the launch location per time the run forwards it, and with no launch location every stack trace is unchanged |
| SafeAsync.Task.CallAndDispatch | lib-async/src/main/java/com/label305/stan/async/Task.java:33-50 | run's inner block: `Call`, then the call-outcome events; a RuntimeException from `call` is forwarded inside (Task.java:38-39), while one thrown by the outcome hook is returned, exactly `Escaping(parent)`, so that the outer catch forwards it |
| SafeAsync.Task.DoPreExecute | lib-async/src/main/java/com/label305/stan/async/Task.java:62-71 | appends `PreExecute` and returns what `onPreExecute` threw |
| SafeAsync.Task.DoCall | lib-async/src/main/java/com/label305/stan/async/Task.java:73-77 | appends `Call` and returns what the work function did |
| SafeAsync.Task.DoSuccess | lib-async/src/main/java/com/label305/stan/async/Task.java:79-88 | appends `Success(r)` with the given result and returns what `onSuccess` threw |
| SafeAsync.Task.DoCancel | lib-async/src/main/java/com/label305/stan/async/Task.java:90-99 | appends `Cancelled` and returns what `onCancelled` threw |
| SafeAsync.Task.DoException | lib-async/src/main/java/com/label305/stan/async/Task.java:101-120 | appends the launch location to the exception's stack, then appends `Interrupted(e)` for an InterruptedException or `Exception(e)` otherwise, with the same object; returns what that hook threw; the stack invariant is kept |
| SafeAsync.Task.DoRuntimeException | lib-async/src/main/java/com/label305/stan/async/Task.java:122-137 | appends the launch location to the exception's stack, then appends `RuntimeException(e)` with the same object; the stack invariant is kept |
| SafeAsync.Task.DoFinally | lib-async/src/main/java/com/label305/stan/async/Task.java:139-148 | appends `Finally` and returns what `onFinally` threw |
| SafeAsync.Task.AddLaunchLocation | lib-async/src/main/java/com/label305/stan/async/Task.java:123-128 | the new stack trace is the old one followed by the launch location, or the old one unchanged when there is no launch location |
| SafeAsync.Task.PostToUiThreadAndWait | lib-async/src/main/java/com/label305/stan/async/Task.java:156-193 | the hook's event is appended (the hook ran to completion or threw) and its RuntimeException is rethrown to the caller |
| SafeAsync.Task.Post | lib-async/src/main/java/com/label305/stan/async/Task.java:129-136 | a fire-and-forget post appends its event |
| Lifecycle.HappyPath | app/src/androidTest/java/com.label305.stan.asyncutils.test/AsyncTaskTest.java:78-99 | nothing throws and the flag is clear: the trace is exactly PreExecute, Call, Success(r), Finally, with the value `call` returned |
| Lifecycle.CancelledPath | app/src/androidTest/java/com.label305.stan.asyncutils.test/AsyncTaskTest.java:101-124 | the flag is set when `call` returns: the trace is exactly PreExecute, Call, Cancelled, Finally, and the result is dropped |
| Lifecycle.InterruptedPath | app/src/androidTest/java/com.label305.stan.asyncutils.test/AsyncTaskTest.java:153-176 | an InterruptedException from `call`: the trace is exactly PreExecute, Call, Interrupted(e), Finally, with the same object |
| Lifecycle.CheckedFailurePath | app/src/androidTest/java/com.label305.stan.asyncutils.test/AsyncTaskTest.java:126-149 | another checked exception from `call`: the trace is exactly PreExecute, Call, Exception(e), Finally, with the same object |
| Lifecycle.CallRuntimeFailurePath | app/src/androidTest/java/com.label305.stan.asyncutils.test/AsyncTaskTest.java:310-333 | a RuntimeException from `call`: the trace is exactly PreExecute, Call, RuntimeException(e), Finally; no outcome hook fires |
| Lifecycle.PreExecuteFailurePath | lib-async/src/main/java/com/label305/stan/async/Task.java:29-60 | `onPreExecute` throws `e`: the trace is PreExecute, RuntimeException(e), Finally, whatever `call` and the outcome hooks would have done; `call` never runs |
| Lifecycle.SuccessHookFailurePath | app/src/androidTest/java/com.label305.stan.asyncutils.test/AsyncTaskTest.java:192-212 | `onSuccess` throws `e`: its own event stays, then RuntimeException(e), then Finally |
| Lifecycle.CancelledHookFailurePath | app/src/androidTest/java/com.label305.stan.asyncutils.test/AsyncTaskTest.java:214-245 | `onCancelled` throws `e`: Cancelled stays, then RuntimeException(e), then Finally |
| Lifecycle.ExceptionHookFailurePath | app/src/androidTest/java/com.label305.stan.asyncutils.test/AsyncTaskTest.java:248-276 | `onException` or `onInterrupted` throws `e`: that hook's event stays, then RuntimeException(e), then Finally |
| Lifecycle.FinallyFailurePath | lib-async/src/main/java/com/label305/stan/async/Task.java:53-59 | `onFinally` throws `e`: the trace is the one where `onFinally` returns, followed by exactly one RuntimeException(e) |
| Lifecycle.FlagReadOnlyAfterReturn | lib-async/src/main/java/com/label305/stan/async/Task.java:44-50 | when `onPreExecute` or `call` threw, the flag's value does not change the trace: it is never consulted |
| Lifecycle.FlagDecidesOutcome | lib-async/src/main/java/com/label305/stan/async/Task.java:44-50 | when `call` returned `v`, `onCancelled` fires once if and only if the flag is set, and `onSuccess(v)` fires once if and only if it is clear |
| Lifecycle.RunTraceHasShape | lib-async/src/main/java/com/label305/stan/async/Task.java:29-60 | every run: PreExecute first and once; Call second if at all; at most one outcome hook, only after Call; Finally exactly once and last among awaited hooks, with only `onFinally`'s own RuntimeException (the same object) after it; at most two RuntimeException events |
| Lifecycle.OutcomeFiresIff | lib-async/src/main/java/com/label305/stan/async/Task.java:35-52 | an outcome hook fires (exactly once) if and only if `onPreExecute` returned and `call` did not throw a RuntimeException; otherwise none fires |
| Lifecycle.RunTraceCounts | lib-async/src/main/java/com/label305/stan/async/Task.java:29-60 | the number of invocations of each hook in a run, for every combination of throws and the flag |
| Lifecycle.ForwardedPieces | lib-async/src/main/java/com/label305/stan/async/Task.java:29-60 | how many times a run hands a given exception object to a hook, step by step along the path taken |
| Lifecycle.OnlyThrownIsForwarded | lib-async/src/main/java/com/label305/stan/async/Task.java:38-57 | an exception that neither `call` nor any hook throws is never handed to a hook |
| Lifecycle.CallFailureForwardedOnce | lib-async/src/main/java/com/label305/stan/async/Task.java:101-137 | an exception from `call` that no hook rethrows is forwarded exactly once, so with `Run` its stack gains exactly one launch location, for checked and runtime exceptions alike |
| Exceptions.RepeatNothing | lib-async/src/main/java/com/label305/stan/async/Task.java:123-128 | with no launch location, any number of forwards leaves a stack trace unchanged |

## Left out

- Threads: the `Handler`/`Looper` machinery, the `CountDownLatch` blocking and thread identity are not modelled; an awaited post is a synchronous call and a plain post an append, which gives the order the handler thread observes. The main-thread assertions of the tests are not modelled.
- SafeAsync.Task.PostToUiThreadAndWait: the branch where the waiting thread is interrupted (Task.java:179-188) is not modelled; whether the already captured exception is still rethrown then depends on a race between the two threads. The model always waits to completion.
- `AsyncTask` is not part of this model: `cancel`, `cancelInterrupt`, `isCancelled`, `getLaunchLocation`, `getHandler` and the default `onRuntimeException` live there. The flag value at the check, the launch location and the parent handler are inputs (`TaskScript`).
- What happens when `onRuntimeException` itself throws on the handler thread is not modelled; a forwarded RuntimeException is recorded as delivered.
- Throwables that are not Exceptions (`java.lang.Error`) are not modelled. A `Task` is built only for a parent whose hooks throw RuntimeExceptions (`TaskScript.HooksThrowRuntime`), since Java lets a hook throw only unchecked exceptions; the lemmas about `RunTrace` hold for any script.
- SafeAsync.Task.constructor: the handler is recorded as a value; the model does not distinguish deliveries per handler, since every hook of one run goes to the same handler.
- `getParent` (Task.java:196-199) is not modelled separately: it is the `parent` field.
- The 500 ms and 1000 ms sleeps of the tests and their Mockito mechanics are not modelled; the tests are used only for their expected traces.
- The other files of the repository (widgets, the analytics facade, the SVG view tests) are platform glue and are left out.
