/**
 * The observable behaviour of one run: the ordered trace of hook invocations
 * the way the coordinating (UI) thread, and the mocked callback of the tests,
 * see them, with counting functions over such traces.
 */
module Events {
  import opened Exceptions

  /** The hook an event is an invocation of. */
  datatype Hook =
    | OnPreExecute | OnCall | OnSuccess | OnCancelled
    | OnInterrupted | OnException | OnRuntimeException | OnFinally

  /** One hook invocation, with the argument the hook was given. */
  datatype Event<R> =
    | PreExecute
    | Call
    | Success(result: R)
    | Cancelled
    | Interrupted(cause: Exn)
    | Exception(cause: Exn)
    | RuntimeException(cause: Exn)
    | Finally
  {
    function HookOf(): Hook
    {
      match this
      case PreExecute => OnPreExecute
      case Call => OnCall
      case Success(_) => OnSuccess
      case Cancelled => OnCancelled
      case Interrupted(_) => OnInterrupted
      case Exception(_) => OnException
      case RuntimeException(_) => OnRuntimeException
      case Finally => OnFinally
    }

    /** One of the four mutually exclusive outcome hooks. */
    predicate IsOutcome()
    {
      Success? || Cancelled? || Interrupted? || Exception?
    }

    /** An event that hands exception `x` to a hook, after its stack was augmented. */
    predicate Forwards(x: Exn)
    {
      (Interrupted? || Exception? || RuntimeException?) && cause == x
    }
  }

  /** How many events of `t` are invocations of hook `h`. */
  function Count<R>(t: seq<Event<R>>, h: Hook): nat
  {
    if t == [] then 0 else (if t[0].HookOf() == h then 1 else 0) + Count(t[1..], h)
  }

  /** How many outcome hooks fired in `t`. */
  function CountOutcomes<R>(t: seq<Event<R>>): nat
  {
    Count(t, OnSuccess) + Count(t, OnCancelled) + Count(t, OnInterrupted) + Count(t, OnException)
  }

  /** How many times `t` hands exception `x` to a hook. */
  function Forwarded<R>(t: seq<Event<R>>, x: Exn): nat
  {
    if t == [] then 0 else (if t[0].Forwards(x) then 1 else 0) + Forwarded(t[1..], x)
  }

  lemma {:induction false} CountAppend<R>(a: seq<Event<R>>, b: seq<Event<R>>, h: Hook)
    ensures Count(a + b, h) == Count(a, h) + Count(b, h)
  {
    if a == [] {
      assert a + b == b;
    } else {
      assert (a + b)[1..] == a[1..] + b;
      CountAppend(a[1..], b, h);
    }
  }

  lemma {:induction false} ForwardedAppend<R>(a: seq<Event<R>>, b: seq<Event<R>>, x: Exn)
    ensures Forwarded(a + b, x) == Forwarded(a, x) + Forwarded(b, x)
  {
    if a == [] {
      assert a + b == b;
    } else {
      assert (a + b)[1..] == a[1..] + b;
      ForwardedAppend(a[1..], b, x);
    }
  }

  /** Appending one event adds one forward of `x` exactly when that event forwards `x`. */
  lemma ForwardedSnoc<R>(t: seq<Event<R>>, ev: Event<R>, x: Exn)
    ensures Forwarded(t + [ev], x) == Forwarded(t, x) + (if ev.Forwards(x) then 1 else 0)
  {
    ForwardedAppend(t, [ev], x);
    assert [ev][1..] == [];
  }
}
