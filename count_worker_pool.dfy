/**
 * count/worker_pool.go: the bounded worker count and the loop of one worker.
 *
 * The mutex, the goroutines and the channels are gone; what remains is the
 * state they guard. A spawned worker is known by a number; the goroutine that
 * waits on a worker's `stopped` channel becomes a call of
 * `DecNumberOfWorkers` with that number, which is allowed once per worker.
 */
module WorkerPool {
  import opened Wrappers
  import Run

  /** The largest count the pool can reach: a pool size below zero admits no worker. */
  function Cap(maxPoolSize: int): nat
  {
    if maxPoolSize < 0 then 0 else maxPoolSize
  }

  class Pool {
    const maxPoolSize: int
    var numberOfWorkers: int
    var running: set<nat>       // spawned workers whose stop has not been counted yet
    var spawned: nat            // workers spawned so far, numbered 0 .. spawned - 1
    var handedOff: seq<string>  // origins of the sources handed to a worker, in order

    ghost predicate Valid()
      reads this
    {
      && numberOfWorkers == |running|
      && (forall id :: id in running ==> id < spawned)
      && 0 <= numberOfWorkers <= Cap(maxPoolSize)
    }

    /** `newWorkerPool(ctx, poolSize, workerFunc)`: no workers yet. */
    constructor (poolSize: int)
      ensures Valid() && maxPoolSize == poolSize
      ensures numberOfWorkers == 0 && running == {} && spawned == 0 && handedOff == []
    {
      maxPoolSize := poolSize;
      numberOfWorkers := 0;
      running := {};
      spawned := 0;
      handedOff := [];
    }

    /** `canSpawnWorkers`: one more worker would stay within the cap. */
    function CanSpawnWorkers(): (b: bool)
      reads this
      ensures b ==> numberOfWorkers + 1 <= Cap(maxPoolSize)
      ensures 0 <= numberOfWorkers ==> (b <==> numberOfWorkers < Cap(maxPoolSize))
    {
      numberOfWorkers < maxPoolSize
    }

    /** `incNumberOfWorkers` (the caller holds the lock). */
    method IncNumberOfWorkers()
      modifies this
      ensures numberOfWorkers == old(numberOfWorkers) + 1
      ensures running == old(running) && spawned == old(spawned) && handedOff == old(handedOff)
    {
      numberOfWorkers := numberOfWorkers + 1;
    }

    /** `spawnWorker`: starts worker number `spawned`, whose stop is still to be counted. */
    method SpawnWorker() returns (worker: nat)
      modifies this
      ensures worker == old(spawned) && spawned == old(spawned) + 1
      ensures running == old(running) + {worker}
      ensures numberOfWorkers == old(numberOfWorkers) && handedOff == old(handedOff)
    {
      worker := spawned;
      spawned := spawned + 1;
      running := running + {worker};
    }

    /** `spawnWorkerIfPossible`: below the cap, counts and starts one more worker; at the cap, nothing. */
    method SpawnWorkerIfPossible() returns (worker: Option<nat>)
      requires Valid()
      modifies this
      ensures Valid() && handedOff == old(handedOff)
      ensures old(numberOfWorkers) < maxPoolSize ==>
        && worker == Some(old(spawned))
        && numberOfWorkers == old(numberOfWorkers) + 1
        && running == old(running) + {old(spawned)} && spawned == old(spawned) + 1
      ensures old(numberOfWorkers) >= maxPoolSize ==>
        worker == None && numberOfWorkers == old(numberOfWorkers) && running == old(running) && spawned == old(spawned)
    {
      worker := None;
      if CanSpawnWorkers() {
        IncNumberOfWorkers();
        var w := SpawnWorker();
        assert old(spawned) !in old(running);
        worker := Some(w);
      }
    }

    /** `decNumberOfWorkers`, run once when worker `worker` has stopped. */
    method DecNumberOfWorkers(worker: nat)
      requires Valid() && worker in running
      modifies this
      ensures Valid() && handedOff == old(handedOff) && spawned == old(spawned)
      ensures numberOfWorkers == old(numberOfWorkers) - 1 && running == old(running) - {worker}
    {
      numberOfWorkers := numberOfWorkers - 1;
      running := running - {worker};
    }

    /** `getNumberOfWorkers`: reads the count and changes nothing. */
    method GetNumberOfWorkers() returns (n: int)
      requires Valid()
      ensures n == numberOfWorkers && 0 <= n <= Cap(maxPoolSize)
    {
      n := numberOfWorkers;
    }

    /** `sendWork`: the source goes to a worker unless the context is done first (`delivered` says which). */
    method SendWork(origin: string, delivered: bool)
      modifies this
      ensures handedOff == old(handedOff) + (if delivered then [origin] else [])
      ensures numberOfWorkers == old(numberOfWorkers) && running == old(running) && spawned == old(spawned)
    {
      if delivered {
        handedOff := handedOff + [origin];
      }
    }

    /** `process`: spawn a worker if the cap allows, then send the source. */
    method Process(origin: string, delivered: bool) returns (worker: Option<nat>)
      requires Valid()
      modifies this
      ensures Valid()
      ensures handedOff == old(handedOff) + (if delivered then [origin] else [])
      ensures old(numberOfWorkers) <= numberOfWorkers <= old(numberOfWorkers) + 1
      ensures numberOfWorkers == old(numberOfWorkers) + 1 <==> old(numberOfWorkers) < maxPoolSize
      ensures worker == (if old(numberOfWorkers) < maxPoolSize then Some(old(spawned)) else None)
      ensures running == old(running) + (if worker.Some? then {worker.value} else {})
      ensures spawned == old(spawned) + (if worker.Some? then 1 else 0)
    {
      worker := SpawnWorkerIfPossible();
      SendWork(origin, delivered);
    }
  }

  // ---------------------------------------------------------------------------
  // The loop of one worker (`workerFunc`), as a function of what it observes.
  // ---------------------------------------------------------------------------

  /**
   * What the worker's select observes next. `TaskReceived` carries what
   * processing the source gave (processSource is not part of this model) and
   * whether the context was cancelled by then; `Elapsed` is time passing with
   * nothing else ready.
   */
  datatype Event =
    | TaskReceived(origin: string, subtotal: nat, error: Option<string>, cancelledDuring: bool)
    | Elapsed(duration: nat)
    | ContextDone
    | TasksClosed

  datatype Exit = NoMoreTasks | Cancelled | IdleTimeout | StillWaiting

  /** Idle time since the timer was last armed: at the start or after the last task. */
  function IdleSince(events: seq<Event>): nat
  {
    if events == [] then 0
    else
      match events[|events| - 1]
      case TaskReceived(_, _, _, _) => 0
      case Elapsed(d) => IdleSince(events[..|events| - 1]) + d
      case _ => IdleSince(events[..|events| - 1])
  }

  /** Does event `e` end the worker, after `idle` time without a task? */
  predicate Ends(e: Event, idle: nat, shutdownTimeout: int)
  {
    match e
    case TaskReceived(_, _, _, cancelledDuring) => cancelledDuring
    case Elapsed(d) => idle + d >= shutdownTimeout
    case ContextDone => true
    case TasksClosed => true
  }

  /** Why an ending event ends the worker. */
  function ExitOf(e: Event): Exit
  {
    match e
    case TaskReceived(_, _, _, _) => Cancelled
    case Elapsed(_) => IdleTimeout
    case ContextDone => Cancelled
    case TasksClosed => NoMoreTasks
  }

  function ResultOf(e: Event): Run.Result
    requires e.TaskReceived?
  {
    Run.Result(e.subtotal, e.origin, e.error)
  }

  /** The results sent for `events`: one per task not cut short by cancellation. */
  function Emitted(events: seq<Event>): (r: seq<Run.Result>)
    ensures |r| <= |events|
  {
    if events == [] then []
    else
      var e := events[|events| - 1];
      Emitted(events[..|events| - 1]) + (if e.TaskReceived? && !e.cancelledDuring then [ResultOf(e)] else [])
  }

  /** The tasks among `events`, in order. */
  function Tasks(events: seq<Event>): (ts: seq<Event>)
    ensures forall i :: 0 <= i < |ts| ==> ts[i].TaskReceived?
  {
    if events == [] then []
    else
      var e := events[|events| - 1];
      Tasks(events[..|events| - 1]) + (if e.TaskReceived? then [e] else [])
  }

  /** Without cancellation, every task taken yields exactly one result, carrying its origin, in order. */
  lemma {:induction false} OneResultPerTask(events: seq<Event>)
    requires forall j :: 0 <= j < |events| ==> !(events[j].TaskReceived? && events[j].cancelledDuring)
    ensures |Emitted(events)| == |Tasks(events)|
    ensures forall i :: 0 <= i < |Tasks(events)| ==> Emitted(events)[i] == ResultOf(Tasks(events)[i])
  {
    if events != [] {
      OneResultPerTask(events[..|events| - 1]);
    }
  }

  /**
   * `workerFunc`'s loop: a task is processed and its result sent, which
   * re-arms the idle timer; a task cut short by cancellation ends the worker
   * without a result; a closed task channel, a done context or an expired
   * timer end the worker. Returns the results sent, why the worker stopped
   * (`StillWaiting` when the events ran out first) and how many events it
   * took.
   */
  method RunWorker(events: seq<Event>, shutdownTimeout: int) returns (results: seq<Run.Result>, exit: Exit, consumed: nat)
    ensures consumed <= |events|
    ensures results == Emitted(events[..consumed])
    ensures forall j :: 0 <= j < consumed && (exit == StillWaiting || j < consumed - 1) ==>
      !Ends(events[j], IdleSince(events[..j]), shutdownTimeout)
    ensures exit == StillWaiting ==> consumed == |events|
    ensures exit != StillWaiting ==>
      consumed > 0 && Ends(events[consumed - 1], IdleSince(events[..consumed - 1]), shutdownTimeout) &&
      exit == ExitOf(events[consumed - 1])
  {
    results := [];
    consumed := 0;
    var idle: nat := 0;
    while consumed < |events|
      invariant consumed <= |events|
      invariant idle == IdleSince(events[..consumed])
      invariant results == Emitted(events[..consumed])
      invariant forall j :: 0 <= j < consumed ==> !Ends(events[j], IdleSince(events[..j]), shutdownTimeout)
    {
      var e := events[consumed];
      assert events[..consumed + 1][..consumed] == events[..consumed];
      consumed := consumed + 1;
      match e
      case TasksClosed =>
        return results, NoMoreTasks, consumed;
      case ContextDone =>
        return results, Cancelled, consumed;
      case Elapsed(d) =>
        idle := idle + d;
        if idle >= shutdownTimeout {
          return results, IdleTimeout, consumed;
        }
      case TaskReceived(origin, subtotal, error, cancelledDuring) =>
        if cancelledDuring {
          return results, Cancelled, consumed;
        }
        results := results + [Run.Result(subtotal, origin, error)];
        idle := 0;
    }
    exit := StillWaiting;
  }
}
