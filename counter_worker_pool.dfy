/**
 * counter/worker_pool.go: the dispatch policy of the older pool, whose
 * worker count only grows.
 *
 * The tasks channel is modelled by the sequence of origins handed to it. A
 * non-blocking send succeeds exactly when a worker is idle and waiting on
 * the channel; that is scheduling, so it is an input to `Process`
 * (`trySendSucceeds`). Starting the worker goroutine and the wait group are
 * not modelled; a spawn is the increment of `numberOfWorkers`.
 */
module CounterPool {

  /** How `process` got a source onto the tasks channel. */
  datatype HandOff = TrySent | Sent

  /**
   * The most workers the pool ever holds: `maxPoolSize`, except that the
   * first `process` call always starts one worker, even when `maxPoolSize`
   * is zero or negative.
   */
  function Cap(maxPoolSize: int): (c: int)
    ensures c >= 1 && c >= maxPoolSize
    ensures maxPoolSize >= 1 ==> c == maxPoolSize
  {
    if maxPoolSize >= 1 then maxPoolSize else 1
  }

  /**
   * The number of workers one `process` call starts, given the count before
   * it and whether a non-blocking send would find an idle worker.
   */
  function Spawned(maxPoolSize: int, n: int, trySendSucceeds: bool): (r: nat)
    ensures r <= 2
    ensures n == 0 ==> r >= 1
    ensures n != 0 ==> r <= 1
    ensures 0 <= n <= Cap(maxPoolSize) ==> n + r <= Cap(maxPoolSize)
    ensures r == (if n == 0 then 1 else 0) + 1 <==>
      (if n == 0 then 1 else n) < maxPoolSize && !trySendSucceeds
  {
    var first := if n == 0 then 1 else 0;
    if n + first < maxPoolSize && !trySendSucceeds then first + 1 else first
  }

  /** Which of the two sends delivers the source in one `process` call. */
  function HandOffOf(maxPoolSize: int, n: int, trySendSucceeds: bool): (h: HandOff)
    ensures h == TrySent <==> trySendSucceeds && (if n == 0 then 1 else n) < maxPoolSize
    ensures h == TrySent ==> Spawned(maxPoolSize, n, trySendSucceeds) <= 1
  {
    var afterFirst := if n == 0 then 1 else n;
    if afterFirst < maxPoolSize && trySendSucceeds then TrySent else Sent
  }

  /** The worker count after a series of `process` calls, one flag per call. */
  function CountAfter(maxPoolSize: int, n: int, trySends: seq<bool>): int
  {
    if trySends == [] then n
    else
      var before := CountAfter(maxPoolSize, n, trySends[..|trySends| - 1]);
      before + Spawned(maxPoolSize, before, trySends[|trySends| - 1])
  }

  /**
   * Over any series of `process` calls from a fresh pool the worker count
   * never decreases, never exceeds the cap, and is at least one after the
   * first call.
   */
  lemma {:induction false} CountStaysWithinCap(maxPoolSize: int, trySends: seq<bool>, k: nat)
    requires k <= |trySends|
    ensures 0 <= CountAfter(maxPoolSize, 0, trySends[..k]) <= CountAfter(maxPoolSize, 0, trySends) <= Cap(maxPoolSize)
    ensures |trySends| > 0 ==> CountAfter(maxPoolSize, 0, trySends) >= 1
    decreases |trySends|
  {
    if trySends != [] {
      var init := trySends[..|trySends| - 1];
      if k == |trySends| {
        assert trySends[..k] == trySends;
        CountStaysWithinCap(maxPoolSize, init, |init|);
      } else {
        assert trySends[..k] == init[..k];
        CountStaysWithinCap(maxPoolSize, init, k);
      }
      if init != [] {
        CountStaysWithinCap(maxPoolSize, init, |init|);
      }
    } else {
      assert trySends[..k] == [];
    }
  }

  class WorkerPool {
    const maxPoolSize: int
    var numberOfWorkers: int
    /** Every origin put on the tasks channel, in order. */
    var sent: seq<string>

    ghost predicate Valid()
      reads this
    {
      0 <= numberOfWorkers <= Cap(maxPoolSize)
    }

    /** `newWorkerPool`: no workers yet and nothing sent. */
    constructor (poolSize: int)
      ensures Valid()
      ensures maxPoolSize == poolSize && numberOfWorkers == 0 && sent == []
    {
      maxPoolSize := poolSize;
      numberOfWorkers := 0;
      sent := [];
    }

    /**
     * `canSpawnWorkers`: below the pool size. Once a worker runs, that is
     * exactly "one more stays within the cap".
     */
    function CanSpawnWorkers(): (b: bool)
      reads this
      ensures b ==> numberOfWorkers + 1 <= Cap(maxPoolSize)
      ensures 1 <= numberOfWorkers ==> (b <==> numberOfWorkers < Cap(maxPoolSize))
    {
      numberOfWorkers < maxPoolSize
    }

    method SpawnWorker()
      modifies this
      ensures numberOfWorkers == old(numberOfWorkers) + 1 && sent == old(sent)
    {
      numberOfWorkers := numberOfWorkers + 1;
    }

    /** The non-blocking send: it delivers only when a worker is waiting. */
    method TrySendWork(origin: string, workerWaiting: bool) returns (ok: bool)
      modifies this
      ensures ok == workerWaiting
      ensures sent == if ok then old(sent) + [origin] else old(sent)
      ensures numberOfWorkers == old(numberOfWorkers)
    {
      ok := workerWaiting;
      if ok {
        sent := sent + [origin];
      }
    }

    /** The blocking send: it waits until some worker receives. */
    method SendWork(origin: string)
      modifies this
      ensures sent == old(sent) + [origin] && numberOfWorkers == old(numberOfWorkers)
    {
      sent := sent + [origin];
    }

    /**
     * `process`: start a worker if there is none; under the cap, try a
     * non-blocking send and start one more worker only if it fails; then
     * send, blocking. The source goes onto the channel exactly once.
     */
    method Process(origin: string, trySendSucceeds: bool) returns (how: HandOff)
      requires Valid()
      modifies this
      ensures Valid()
      ensures sent == old(sent) + [origin]
      ensures numberOfWorkers == old(numberOfWorkers) + Spawned(maxPoolSize, old(numberOfWorkers), trySendSucceeds)
      ensures how == HandOffOf(maxPoolSize, old(numberOfWorkers), trySendSucceeds)
    {
      if numberOfWorkers == 0 {
        SpawnWorker();
      }
      if CanSpawnWorkers() {
        var ok := TrySendWork(origin, trySendSucceeds);
        if ok {
          return TrySent;
        }
        SpawnWorker();
      }
      SendWork(origin);
      how := Sent;
    }
  }
}
