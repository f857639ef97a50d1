/**
 * Java exception objects as the task runner sees them: an identity (the
 * object reference), a category that decides how the runner routes it, and a
 * stack trace that the runner overwrites in place.
 */
module Exceptions {
  import opened Wrappers

  /** One element of a Java stack trace. */
  datatype Frame = Frame(declaringClass: string, methodName: string, fileName: string, lineNumber: int)

  /** The three categories `Task.run` distinguishes. */
  datatype ExnKind =
    | RuntimeExn      // a RuntimeException (unchecked)
    | InterruptedExn  // an InterruptedException (checked)
    | CheckedExn      // any other checked Exception

  /** A thrown exception object; two exceptions are the same iff they are the same object. */
  class Exn {
    const kind: ExnKind
    var stack: seq<Frame>
  }

  /** The frames the runner appends for a launch location that may be absent (null). */
  function LaunchFrames(launchLocation: Option<seq<Frame>>): seq<Frame>
  {
    if launchLocation.Some? then launchLocation.value else []
  }

  /** `frames` appended `n` times: the stack suffix after `n` forwards of one exception. */
  function Repeat(frames: seq<Frame>, n: nat): (s: seq<Frame>)
  {
    if n == 0 then [] else Repeat(frames, n - 1) + frames
  }

  lemma {:induction false} RepeatAdd(frames: seq<Frame>, m: nat, n: nat)
    ensures Repeat(frames, m + n) == Repeat(frames, m) + Repeat(frames, n)
  {
    if n > 0 {
      RepeatAdd(frames, m, n - 1);
    }
  }

  /** Without a launch location no forward changes a stack trace. */
  lemma {:induction false} RepeatNothing(n: nat)
    ensures Repeat([], n) == []
  {
    if n > 0 {
      RepeatNothing(n - 1);
    }
  }
}
