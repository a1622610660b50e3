/**
 * PendingResult of getiplayer_interface.py: a result that is produced on
 * demand and then kept.  Callbacks registered with on_complete are queued;
 * the first one starts a waiter, and the waiter fetches the result and calls
 * every queued callback with it, in the order they were registered, before
 * emptying the queue.
 *
 * The producer (in the facade: reading the tool's output, which may raise)
 * gives a Result: Failure stands for the exception it raises.  A raising
 * producer keeps nothing, so the next get_result runs it again; a waiter
 * whose get_result raises dies before it calls anything, and the callbacks
 * it leaves stay queued with no waiter to call them.
 *
 * The readiness probe (polling the tool's process) is a function value.  A
 * callback is identified by a number, and calling it is recorded in the
 * list of calls made.  The waiter thread is the method RunWaiter, which runs
 * when the thread would.
 */
module Pending {
  import opened Results

  /** A callback handed to on_complete, identified by a number. */
  type Callback = nat

  /** A pending result not yet asked for its value: the result a `then` continuation returns. */
  datatype Task<U> = Task(probe: () -> bool, produce: () -> Result<U>)

  /** Apply a translation that may raise to an outcome that may be an exception. */
  function Bind<T, U>(outcome: Result<T>, translation: T -> Result<U>): (r: Result<U>)
    ensures outcome.Failure? ==> r == Failure(outcome.message)
    ensures outcome.Success? ==> r == translation(outcome.value)
  {
    match outcome
    case Success(v) => translation(v)
    case Failure(message) => Failure(message)
  }

  /** The calls a waiter makes: each queued callback with the one result, in queue order. */
  function Deliveries<T>(queue: seq<Callback>, value: T): (calls: seq<(Callback, T)>)
    ensures |calls| == |queue|
    ensures forall i :: 0 <= i < |queue| ==> calls[i] == (queue[i], value)
  {
    seq(|queue|, i requires 0 <= i < |queue| => (queue[i], value))
  }

  /**
   * How many times the producer has run after `gets` calls of get_result:
   * a producer that succeeds runs on the first call only, one that raises
   * runs on every call.
   */
  function ProducerRuns(succeeds: bool, gets: nat): (runs: nat)
  {
    if succeeds && gets > 0 then 1 else if succeeds then 0 else gets
  }

  /** A producer runs at most once when it succeeds, and once per call when it raises. */
  lemma ProducerRunsMeaning(succeeds: bool, gets: nat)
    ensures ProducerRuns(succeeds, gets) <= gets
    ensures succeeds ==> ProducerRuns(succeeds, gets) <= 1
    ensures !succeeds ==> ProducerRuns(succeeds, gets + 1) == ProducerRuns(succeeds, gets) + 1
    ensures succeeds && gets > 0 ==> ProducerRuns(succeeds, gets + 1) == ProducerRuns(succeeds, gets)
  {
  }

  class PendingResult<T> {
    /** has_result: the readiness probe; after the result is obtained it answers true. */
    var probe: () -> bool
    /** The producer, run by get_result until it succeeds. */
    const produce: () -> Result<T>
    var gotResult: bool
    var result: Option<T>
    /** The callbacks queued and not yet called. */
    var callbacks: seq<Callback>
    /** Whether a waiter has been started and has neither finished nor died. */
    var waiterRunning: bool
    /** Every callback call made so far, with the value it was given. */
    var calls: seq<(Callback, T)>
    /** How many times get_result has been called. */
    ghost var gets: nat
    /** How many times the producer has run. */
    ghost var producerRuns: nat

    /**
     * A result is kept exactly when get_result has been called and the
     * producer succeeds, and it is the producer's value, after which the
     * probe answers true; the producer has run once in all when it
     * succeeds and once per get_result when it raises; a running waiter
     * has callbacks to call.
     */
    ghost predicate Valid()
      reads this
    {
      && (gotResult <==> gets > 0 && produce().Success?)
      && (gotResult ==> result == Some(produce().value) && probe())
      && (!gotResult ==> result == None)
      && producerRuns == ProducerRuns(produce().Success?, gets)
      && (waiterRunning ==> callbacks != [])
    }

    /** Callbacks are queued and no waiter will ever call them: left by a waiter that died. */
    ghost predicate Stuck()
      reads this
    {
      callbacks != [] && !waiterRunning
    }

    constructor (probe: () -> bool, produce: () -> Result<T>)
      ensures Valid()
      ensures this.probe == probe && this.produce == produce
      ensures !gotResult && callbacks == [] && calls == [] && !waiterRunning && gets == 0
    {
      this.probe := probe;
      this.produce := produce;
      gotResult := false;
      result := None;
      callbacks := [];
      waiterRunning := false;
      calls := [];
      gets := 0;
      producerRuns := 0;
    }

    /** has_result: what the probe says; true once the result has been obtained. */
    method HasResult() returns (ready: bool)
      requires Valid()
      ensures ready == probe()
      ensures gotResult ==> ready
    {
      ready := probe();
    }

    /**
     * get_result: while no result is kept, run the producer; keep its value
     * when it succeeds, and keep nothing when it raises, so that the next
     * call runs it again.  Once a value is kept it is returned without
     * running the producer.
     */
    method GetResult() returns (outcome: Result<T>)
      requires Valid()
      modifies this
      ensures Valid()
      ensures outcome == produce() && gets == old(gets) + 1
      ensures gotResult <==> outcome.Success?
      ensures old(gotResult) ==> producerRuns == old(producerRuns) && probe == old(probe)
      ensures !old(gotResult) ==> producerRuns == old(producerRuns) + 1
      ensures outcome.Failure? ==> result == old(result) && probe == old(probe)
      ensures callbacks == old(callbacks) && waiterRunning == old(waiterRunning) && calls == old(calls)
    {
      gets := gets + 1;
      if gotResult {
        return Success(result.value);
      }
      outcome := produce();
      producerRuns := producerRuns + 1;
      if outcome.Success? {
        result := Some(outcome.value);
        probe := () => true;
        gotResult := true;
      }
    }

    /**
     * on_complete: queue the callback, and start a waiter exactly when the
     * queue was empty.  A non-empty queue is taken to have a waiter, so the
     * callbacks a dead waiter left stay uncalled, and so does this one.
     */
    method OnComplete(callback: Callback) returns (startsWaiter: bool)
      requires Valid()
      modifies this
      ensures Valid()
      ensures startsWaiter <==> old(callbacks) == []
      ensures callbacks == old(callbacks) + [callback]
      ensures waiterRunning == (old(waiterRunning) || startsWaiter)
      ensures old(Stuck()) ==> Stuck()
      ensures gotResult == old(gotResult) && result == old(result) && probe == old(probe)
      ensures calls == old(calls) && gets == old(gets) && producerRuns == old(producerRuns)
    {
      startsWaiter := callbacks == [];
      callbacks := callbacks + [callback];
      if startsWaiter {
        waiterRunning := true;
      }
    }

    /**
     * The waiter's run: obtain the result, call every queued callback with
     * it in registration order, then empty the queue.  When get_result
     * raises, the waiter dies at once: no callback is called and the queue
     * is left as it was, with no waiter.
     */
    method RunWaiter()
      requires Valid() && waiterRunning
      modifies this
      ensures Valid()
      ensures gets == old(gets) + 1 && !waiterRunning
      ensures produce().Success? ==>
        && gotResult && result == Some(produce().value)
        && calls == old(calls) + Deliveries(old(callbacks), produce().value)
        && callbacks == []
      ensures produce().Failure? ==>
        && !gotResult && producerRuns == old(producerRuns) + 1
        && calls == old(calls) && callbacks == old(callbacks) && Stuck()
    {
      var outcome := GetResult();
      if outcome.Failure? {
        waiterRunning := false;
        return;
      }
      var value := outcome.value;
      var queue := callbacks;
      for i := 0 to |queue|
        invariant calls == old(calls) + Deliveries(queue[..i], value)
        invariant callbacks == queue && gotResult && result == Some(value)
        invariant Valid() && gets == old(gets) + 1
      {
        assert queue[..i + 1] == queue[..i] + [queue[i]];
        calls := calls + [(queue[i], value)];
      }
      assert queue[..|queue|] == queue;
      callbacks := [];
      waiterRunning := false;
    }

    /**
     * translate: a new pending result with the same probe (as it is now)
     * whose producer applies the translation, which may itself raise, to
     * this one's result.
     */
    method Translate<U>(translation: T -> Result<U>) returns (translated: PendingResult<U>)
      requires Valid()
      ensures fresh(translated) && translated.Valid()
      ensures translated.probe == probe
      ensures translated.produce() == Bind(produce(), translation)
      ensures gotResult ==> translated.produce() == translation(result.value)
      ensures !translated.gotResult && translated.callbacks == [] && translated.calls == []
    {
      var produce := this.produce;
      translated := new PendingResult(probe, () => Bind(produce(), translation));
    }

    /**
     * then: translate by a continuation that itself gives a pending result;
     * the new result is ready when this one is and the continuation's is,
     * and its value is the continuation's value.
     */
    method Then<U>(next: T -> Result<Task<U>>) returns (chained: PendingResult<U>)
      requires Valid()
      ensures fresh(chained) && chained.Valid()
      ensures chained.probe() == (probe() && Bind(produce(), next).Success? && Bind(produce(), next).value.probe())
      ensures chained.produce() == Bind(Bind(produce(), next), (task: Task<U>) => task.produce())
      ensures !chained.gotResult && chained.callbacks == [] && chained.calls == []
    {
      var translated := Translate(next);
      var ready, produceNext := translated.probe, translated.produce;
      chained := new PendingResult(
        () => ready() && produceNext().Success? && produceNext().value.probe(),
        () => Bind(produceNext(), (task: Task<U>) => task.produce()));
    }
  }
}
