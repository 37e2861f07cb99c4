/**
 * src/core/mod.rs, the older revision of the core: the event holds a plain
 * function pointer that returns a result, and `call_event` hands that
 * result back. A function pointer captures nothing, so the function is
 * modelled as a function of its argument alone.
 */
module LegacyCore {
  import opened Base

  /** `Result<(), &'static str>`. */
  datatype EventResult = EventOk | EventErr(message: string)

  /** `ScheduledEvent<Args>`. */
  datatype ScheduledEvent<!Args> = ScheduledEvent(runTime: Clock, func: Args -> EventResult)
  {
    function GetScheduled(): Clock
    {
      runTime
    }

    /** `call_event`: exactly the stored function's result. */
    function CallEvent(args: Args): EventResult
    {
      func(args)
    }
  }

  /** `ScheduledEvent::new`: due at `callAbs`, and every call returns what `func` returns. */
  function NewScheduledEvent<Args(!new)>(func: Args -> EventResult, callAbs: Clock): (r: ScheduledEvent<Args>)
    ensures r.GetScheduled() == callAbs
    ensures forall args :: r.CallEvent(args) == func(args)
  {
    ScheduledEvent(callAbs, func)
  }

  /** An event whose function fails reports that failure to its caller, and stays due when it was. */
  lemma FailureIsReported<Args(!new)>(func: Args -> EventResult, callAbs: Clock, args: Args, msg: string)
    requires func(args) == EventErr(msg)
    ensures NewScheduledEvent(func, callAbs).CallEvent(args) == EventErr(msg)
    ensures NewScheduledEvent(func, callAbs).GetScheduled() == callAbs
  {
  }

  /**
   * The scenario of the event test in tests/lib.rs: an event built from a
   * function that always succeeds, due at 10, returns that success when
   * called with 10 and reports 10 as its time.
   */
  lemma ScheduledAtTen(f: int -> EventResult)
    requires forall x :: f(x) == EventOk
    ensures NewScheduledEvent(f, 10).CallEvent(10) == EventOk
    ensures NewScheduledEvent(f, 10).GetScheduled() == 10
  {
  }

  /** The default `Updatable::update`: no effect, and `Ok(())`. */
  function DefaultUpdate<S>(s: S, t: Clock): (r: (S, EventResult))
    ensures r.0 == s && r.1 == EventOk
  {
    (s, EventOk)
  }
}
