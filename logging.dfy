/**
 * `LoggingMiddleware::call` of src/middlewares/logging.rs: print the
 * request path, call the wrapped service, and print the status of the
 * response it returns. (src/middlewares/mod.rs names this module
 * `logging_middleware`; that file is not part of this model, and the
 * `Logging` type defined here is the one modelled.)
 */
module Logging {
  import opened Http

  /** The status line, printed only when the wrapped service returned a response. */
  function StatusLine(o: Outcome): seq<Event>
  {
    if o.Responded? then [StatusLogged(o.response.status)] else []
  }

  function Call(inner: Service, r: RequestView): Run
  {
    var run := inner(r);
    Run(run.outcome, [RequestLogged(r.path)] + run.trace + StatusLine(run.outcome))
  }

  /** `.wrap(Logging)` around a service. */
  function Logging(inner: Service): Service
  {
    r => Call(inner, r)
  }

  /**
   * Logging never answers by itself: the outcome is the wrapped service's,
   * whatever it is, and the wrapped service's effects happen exactly once,
   * between the path line and the status line.
   */
  lemma Transparent(inner: Service, r: RequestView)
    ensures Call(inner, r).outcome == inner(r).outcome
    ensures HandlerRuns(Call(inner, r).trace) == HandlerRuns(inner(r).trace)
  {
    var run := inner(r);
    HandlerRunsAppend([RequestLogged(r.path)], run.trace);
    HandlerRunsAppend([RequestLogged(r.path)] + run.trace, StatusLine(run.outcome));
    assert HandlerRuns([RequestLogged(r.path)]) == 0 by {
      assert [RequestLogged(r.path)][1..] == [];
    }
    if run.outcome.Responded? {
      assert [StatusLogged(run.outcome.response.status)][1..] == [];
    }
  }

  /** The path is logged before anything the wrapped service does. */
  lemma PathLoggedFirst(inner: Service, r: RequestView)
    ensures |Call(inner, r).trace| >= 1 && Call(inner, r).trace[0] == RequestLogged(r.path)
    ensures Call(inner, r).trace[1..1 + |inner(r).trace|] == inner(r).trace
  {
  }

  /**
   * A response's status is logged last; an error or a panic from the
   * wrapped service propagates and no status line is written.
   */
  lemma StatusLoggedLast(inner: Service, r: RequestView)
    ensures inner(r).outcome.Responded? ==>
      Call(inner, r).trace[|Call(inner, r).trace| - 1] == StatusLogged(inner(r).outcome.response.status)
    ensures !inner(r).outcome.Responded? ==> Call(inner, r).trace == [RequestLogged(r.path)] + inner(r).trace
  {
  }
}
