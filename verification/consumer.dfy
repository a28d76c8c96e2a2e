/** The `Consumer` of src/consumer.ts: a pool of consumer units on one
    queue, all running the same handler with the same options. */
module Consumer {
  import opened Wrappers
  import opened Payload
  import Defaults
  import Outcomes
  import ConsumerUnit

  /** The consumer options a caller may give; a missing one takes its
      default. */
  datatype Options = Options(concurrencyPerInstance: Option<int>, maxRetry: Option<int>,
                             workerFnTimeoutMs: Option<int>, taskBufferSize: Option<int>)

  /** What is passed as `workerFn`: nothing, something that is not a
      function, or a handler. */
  datatype Callable =
    | Absent
    | NotCallable
    | Fn(handler: (Json, ConsumerUnit.Metadata) -> Outcomes.Outcome)

  /** The two exceptions the constructor throws. */
  datatype PoolError = InvalidConfigError(message: string) | WorkerFnRequired

  datatype Pool = Pool(qname: string, concurrency: int, config: ConsumerUnit.Config,
                       handler: (Json, ConsumerUnit.Metadata) -> Outcomes.Outcome,
                       units: seq<ConsumerUnit.Unit>)

  function OrDefault(v: Option<int>, d: int): (r: int)
    ensures v.Some? ==> r == v.value
    ensures v.None? ==> r == d
  {
    if v.Some? then v.value else d
  }

  /** The options merged over the defaults. */
  function Merged(o: Options): (r: (int, ConsumerUnit.Config))
    ensures r.0 == OrDefault(o.concurrencyPerInstance, Defaults.DefaultConcurrency)
    ensures r.1.maxRetry == OrDefault(o.maxRetry, Defaults.DefaultMaxRetry)
    ensures r.1.workerFnTimeoutMs == OrDefault(o.workerFnTimeoutMs, Defaults.DefaultWorkerFnTimeoutMs)
    ensures r.1.taskBufferSize == OrDefault(o.taskBufferSize, Defaults.DefaultTaskBufferSize)
  {
    (OrDefault(o.concurrencyPerInstance, Defaults.DefaultConcurrency),
     ConsumerUnit.Config(OrDefault(o.workerFnTimeoutMs, Defaults.DefaultWorkerFnTimeoutMs),
                         OrDefault(o.taskBufferSize, Defaults.DefaultTaskBufferSize),
                         OrDefault(o.maxRetry, Defaults.DefaultMaxRetry)))
  }

  /** A unit as constructed: paused, nothing buffered, nothing run. `name`
      is the name it takes when it connects. */
  function FreshUnit(qname: string, name: string, config: ConsumerUnit.Config): ConsumerUnit.Unit {
    ConsumerUnit.Unit(qname, name, config, ConsumerUnit.Idle, [], 0)
  }

  /** The constructor. `names(i)` is the connection name the i-th unit
      comes to have. */
  function New(qname: string, workerFn: Callable, o: Options, names: nat -> string): (r: Result<Pool, PoolError>)
    // the concurrency check comes first
    ensures Merged(o).0 < 1 ==> r == Failure(InvalidConfigError("Concurrency cannot be less than 1"))
    ensures Merged(o).0 >= 1 && !workerFn.Fn? ==> r == Failure(WorkerFnRequired)
    ensures r.Success? <==> Merged(o).0 >= 1 && workerFn.Fn?
    // exactly `concurrency` units, each fresh on the same queue with the same options
    ensures r.Success? ==>
              && |r.value.units| == Merged(o).0 == r.value.concurrency
              && r.value.handler == workerFn.handler
              && forall i :: 0 <= i < |r.value.units| ==> r.value.units[i] == FreshUnit(qname, names(i), Merged(o).1)
  {
    var (concurrency, config) := Merged(o);
    if concurrency < 1 then Failure(InvalidConfigError("Concurrency cannot be less than 1"))
    else if !workerFn.Fn? then Failure(WorkerFnRequired)
    else Success(Pool(qname, concurrency, config, workerFn.handler,
                      seq(concurrency, i requires 0 <= i < concurrency => FreshUnit(qname, names(i), config))))
  }

  /** One event delivered to every unit, in order. */
  function FanOut(units: seq<ConsumerUnit.Unit>, ev: ConsumerUnit.Event): (r: seq<ConsumerUnit.Unit>)
    ensures |r| == |units|
    ensures forall i :: 0 <= i < |units| ==>
              r[i] == units[i].(control := ConsumerUnit.Step(units[i].control, ev))
  {
    seq(|units|, i requires 0 <= i < |units| => units[i].(control := ConsumerUnit.Step(units[i].control, ev)))
  }

  function Start(p: Pool): (r: Pool)
    ensures r == p.(units := FanOut(p.units, ConsumerUnit.StartCall))
    ensures forall i :: 0 <= i < |r.units| ==> !r.units[i].control.paused && r.units[i].control.loopStarted
  {
    p.(units := FanOut(p.units, ConsumerUnit.StartCall))
  }

  function Pause(p: Pool): (r: Pool)
    ensures r == p.(units := FanOut(p.units, ConsumerUnit.PauseCall))
    ensures forall i :: 0 <= i < |r.units| ==> r.units[i].control.paused
  {
    p.(units := FanOut(p.units, ConsumerUnit.PauseCall))
  }

  /** `resume()` calls `resume()` on every unit, which calls `start()`. */
  function Resume(p: Pool): (r: Pool)
    ensures r == p.(units := FanOut(p.units, ConsumerUnit.StartCall))
  {
    p.(units := FanOut(p.units, ConsumerUnit.StartCall))
  }

  /** Every unit keeps one loop at most. */
  predicate Healthy(p: Pool) {
    forall i :: 0 <= i < |p.units| ==> ConsumerUnit.Consistent(p.units[i].control)
  }

  /** A new pool is healthy, and pool calls keep it so. */
  lemma NewPoolHealthy(qname: string, workerFn: Callable, o: Options, names: nat -> string)
    ensures New(qname, workerFn, o, names).Success? ==>
              var p := New(qname, workerFn, o, names).value;
              Healthy(p) && forall i :: 0 <= i < |p.units| ==> p.units[i].control.paused && !p.units[i].control.loopStarted
  {
  }

  lemma FanOutKeepsHealthy(p: Pool, ev: ConsumerUnit.Event)
    requires Healthy(p)
    ensures Healthy(p.(units := FanOut(p.units, ev)))
    ensures forall i :: 0 <= i < |p.units| ==> FanOut(p.units, ev)[i].control.loops <= 1
  {
    forall i | 0 <= i < |p.units|
      ensures ConsumerUnit.Consistent(FanOut(p.units, ev)[i].control)
    {
      ConsumerUnit.AtMostOneLoop(p.units[i].control, [ev]);
      assert [ev][1..] == [];
    }
  }

  /** After `start()` every unit runs exactly one loop, except a unit whose
      loop died in a failed round: that one runs none. */
  lemma StartedPoolRunsOneLoopEach(p: Pool)
    requires Healthy(p)
    ensures forall i :: 0 <= i < |Start(p).units| ==>
              Start(p).units[i].control.loops == (if ConsumerUnit.Stuck(p.units[i].control) then 0 else 1)
  {
    FanOutKeepsHealthy(p, ConsumerUnit.StartCall);
  }

  /** Only the loop flags change: the units keep their queue, name,
      options, buffer and count. */
  lemma FanOutTouchesOnlyControl(p: Pool, ev: ConsumerUnit.Event, i: nat)
    requires i < |p.units|
    ensures var u := FanOut(p.units, ev)[i];
            u.qname == p.units[i].qname && u.name == p.units[i].name && u.config == p.units[i].config
            && u.pendingTasks == p.units[i].pendingTasks && u.totalTasks == p.units[i].totalTasks
  {
  }
}
