/**
 * SocketThread (src/socketthread.cpp) and SocketService (src/socketservice.cpp).
 *
 * A SocketThread owns the asio I/O context and a list of registered adapters;
 * one tick calls `process()` on every adapter in registration order and then
 * polls the context once. Depending on its update method the tick is driven by
 * its own worker thread, by SocketService::update on the main thread, or by
 * the application through `manualProcess`. The two classes refer to each other
 * (start in MAIN_THREAD mode registers with the service, the service ticks its
 * threads), so they share one module.
 *
 * What a tick does to the outside world is recorded in a Journal shared by the
 * service and its threads: one entry per adapter processed, one per poll (and
 * one more when the poll reported an error, which is only logged), one per
 * sleep of a worker thread. The adapters' own `onProcess` bodies are modelled
 * separately (Client, Server); here an adapter is its handle.
 */
module Threading {
  import opened Vectors
  import opened Errors

  type AdapterId = nat
  type ThreadId = nat

  /** ESocketThreadUpdateMethod, an `int` enumeration. */
  const MAIN_THREAD: int := 0
  const SPAWN_OWN_THREAD: int := 1
  const MANUAL: int := 2

  datatype Entry =
    | AdapterProcessed(thread: ThreadId, adapter: AdapterId)
    | Polled(thread: ThreadId)
    | PollErrorLogged(thread: ThreadId)
    | ManualMisuseWarned(thread: ThreadId)
    | Slept(thread: ThreadId, millis: int)

  /** What `mManualProcessFunc` currently does. */
  datatype ManualProcessFunc = WarnOnly | RunProcess

  /** `adapter->process()` for every adapter, in registration order. */
  function ProcessEntries(t: ThreadId, adapters: seq<AdapterId>): (r: seq<Entry>)
    ensures |r| == |adapters|
    ensures forall i :: 0 <= i < |adapters| ==> r[i] == AdapterProcessed(t, adapters[i])
  {
    if adapters == [] then []
    else ProcessEntries(t, adapters[..|adapters| - 1]) + [AdapterProcessed(t, adapters[|adapters| - 1])]
  }

  /** Every entry was recorded by thread `t`. */
  predicate OwnedBy(t: ThreadId, entries: seq<Entry>) {
    forall e :: e in entries ==> e.thread == t
  }

  predicate NeverSleepsOrWarns(entries: seq<Entry>) {
    forall e :: e in entries ==> !e.Slept? && !e.ManualMisuseWarned?
  }

  /** One `process()`: the adapters first, then one poll whose error is only logged. */
  function TickEntries(t: ThreadId, adapters: seq<AdapterId>, pollFailed: bool): (r: seq<Entry>)
    ensures OwnedBy(t, r) && NeverSleepsOrWarns(r) && Polled(t) in r
  {
    ProcessEntries(t, adapters) + [Polled(t)] + (if pollFailed then [PollErrorLogged(t)] else [])
  }

  /** A tick is the adapters in order, then exactly one poll, then the logged poll error if any. */
  lemma TickEntriesShape(t: ThreadId, adapters: seq<AdapterId>, pollFailed: bool)
    ensures var r := TickEntries(t, adapters, pollFailed);
      && |r| == |adapters| + (if pollFailed then 2 else 1)
      && (forall i :: 0 <= i < |adapters| ==> r[i] == AdapterProcessed(t, adapters[i]))
      && r[|adapters|] == Polled(t)
      && (pollFailed ==> r[|adapters| + 1] == PollErrorLogged(t))
  {
  }

  /** The worker loop: one tick and one sleep per iteration. */
  function WorkerEntries(t: ThreadId, adapters: seq<AdapterId>, pollFailures: seq<bool>, interval: int): (r: seq<Entry>)
    ensures OwnedBy(t, r) && forall e :: e in r ==> !e.ManualMisuseWarned?
    ensures |r| >= |pollFailures| * (|adapters| + 2)
  {
    if pollFailures == [] then []
    else
      var n := |pollFailures| - 1;
      WorkerEntries(t, adapters, pollFailures[..n], interval)
        + TickEntries(t, adapters, pollFailures[n]) + [Slept(t, interval)]
  }

  /** The number of polls that reported an error. */
  function FailedPolls(pollFailures: seq<bool>): nat {
    if pollFailures == [] then 0
    else FailedPolls(pollFailures[..|pollFailures| - 1]) + (if pollFailures[|pollFailures| - 1] then 1 else 0)
  }

  /**
   * The worker loop repeats process-then-sleep: one sleep of the interval per
   * iteration and no other sleep, and exactly one tick's entries besides.
   */
  lemma {:induction false} WorkerEntriesShape(t: ThreadId, adapters: seq<AdapterId>, pollFailures: seq<bool>, interval: int)
    ensures var r := WorkerEntries(t, adapters, pollFailures, interval);
      && |r| == |pollFailures| * (|adapters| + 2) + FailedPolls(pollFailures)
      && multiset(r)[Slept(t, interval)] == |pollFailures|
      && (forall e :: e in r && e.Slept? ==> e == Slept(t, interval))
  {
    if pollFailures != [] {
      var n := |pollFailures| - 1;
      var w := WorkerEntries(t, adapters, pollFailures[..n], interval);
      var tick := TickEntries(t, adapters, pollFailures[n]);
      WorkerEntriesShape(t, adapters, pollFailures[..n], interval);
      TickLength(t, adapters, pollFailures[n]);
      assert WorkerEntries(t, adapters, pollFailures, interval) == w + tick + [Slept(t, interval)];
      assert |w + tick + [Slept(t, interval)]| == |w| + |tick| + 1;
      Distribute(n, |adapters| + 2);
      assert Slept(t, interval) !in tick;
      assert multiset(w + tick + [Slept(t, interval)]) == multiset(w) + multiset(tick) + multiset{Slept(t, interval)};
    }
  }

  lemma TickLength(t: ThreadId, adapters: seq<AdapterId>, pollFailed: bool)
    ensures |TickEntries(t, adapters, pollFailed)| == |adapters| + 2 - (if pollFailed then 0 else 1)
  {
    TickEntriesShape(t, adapters, pollFailed);
  }

  lemma Distribute(n: nat, k: nat)
    ensures (n + 1) * k == n * k + k
  {
  }

  /** A registered thread as `update` sees it: its handle and its adapters. */
  datatype ThreadView = ThreadView(id: ThreadId, adapters: seq<AdapterId>)

  ghost function Views(ts: seq<SocketThread>): (r: seq<ThreadView>)
    reads set t | t in ts
    ensures |r| == |ts|
    ensures forall i :: 0 <= i < |ts| ==> r[i] == ThreadView(ts[i].id, ts[i].adapters)
  {
    if ts == [] then [] else [ThreadView(ts[0].id, ts[0].adapters)] + Views(ts[1..])
  }

  /** Every thread of `ts` has a poll among `entries`. */
  predicate PollsEvery(ts: seq<ThreadView>, entries: seq<Entry>) {
    forall i :: 0 <= i < |ts| ==> Polled(ts[i].id) in entries
  }

  /** SocketService::update: every registered thread ticks once, in order. */
  function UpdateEntries(ts: seq<ThreadView>, pollFailures: seq<bool>): (r: seq<Entry>)
    requires |ts| == |pollFailures|
    ensures NeverSleepsOrWarns(r) && PollsEvery(ts, r)
  {
    if ts == [] then []
    else
      var n := |ts| - 1;
      UpdateEntries(ts[..n], pollFailures[..n]) + TickEntries(ts[n].id, ts[n].adapters, pollFailures[n])
  }

  lemma AppendAssoc<T>(a: seq<T>, b: seq<T>, c: seq<T>)
    ensures a + b + c == a + (b + c)
  {
  }

  lemma UpdateEntriesStep(ts: seq<ThreadView>, pollFailures: seq<bool>, i: nat)
    requires |ts| == |pollFailures| && i < |ts|
    ensures UpdateEntries(ts[..i + 1], pollFailures[..i + 1])
         == UpdateEntries(ts[..i], pollFailures[..i]) + TickEntries(ts[i].id, ts[i].adapters, pollFailures[i])
  {
    assert ts[..i + 1][..i] == ts[..i];
    assert pollFailures[..i + 1][..i] == pollFailures[..i];
  }

  /** Every adapter registered with a ticking thread is processed in a tick, and nothing else is. */
  lemma TickProcessesEveryAdapter(t: ThreadId, adapters: seq<AdapterId>, pollFailed: bool, a: AdapterId)
    ensures AdapterProcessed(t, a) in TickEntries(t, adapters, pollFailed) <==> a in adapters
  {
    var r := TickEntries(t, adapters, pollFailed);
    if a in adapters {
      var i :| 0 <= i < |adapters| && adapters[i] == a;
      assert r[..|adapters|][i] == r[i];
    }
    if AdapterProcessed(t, a) in r {
      var i :| 0 <= i < |r| && r[i] == AdapterProcessed(t, a);
      if i < |adapters| {
        assert r[..|adapters|][i] == r[i];
      }
    }
  }

  /** Records what the service and its threads did, in order. */
  class Journal {
    var entries: seq<Entry>

    constructor ()
      ensures entries == []
    {
      entries := [];
    }
  }

  class SocketService {
    var threads: seq<SocketThread>
    const journal: Journal

    constructor (journal: Journal)
      ensures threads == [] && this.journal == journal
    {
      threads := [];
      this.journal := journal;
    }

    /** `init`: the service has nothing to set up and always succeeds. */
    method Init(errorState: ErrorState) returns (ok: bool, errors: ErrorState)
      ensures ok && errors == errorState
    {
      ok, errors := true, errorState;
    }

    /** `registerSocketThread`: append. */
    method RegisterSocketThread(thread: SocketThread)
      modifies this`threads
      ensures threads == old(threads) + [thread]
    {
      threads := threads + [thread];
    }

    /** `removeSocketThread`: the thread must be registered (an assert in the source); its first entry is erased. */
    method RemoveSocketThread(thread: SocketThread)
      requires thread in threads
      modifies this`threads
      ensures threads == EraseFirst(old(threads), thread)
      ensures |threads| == |old(threads)| - 1
    {
      var k := Find(threads, thread);
      FirstIndexUnique(threads, thread, k);
      threads := threads[..k] + threads[k + 1..];
    }

    /**
     * `update`: `process()` on every registered thread, in registration order.
     * `pollFailures[i]` is whether the poll of the i-th thread reports an error.
     */
    method Update(pollFailures: seq<bool>)
      requires |pollFailures| == |threads|
      requires forall t :: t in threads ==> t.service == this
      modifies journal
      ensures journal.entries == old(journal.entries) + UpdateEntries(old(Views(threads)), pollFailures)
    {
      ghost var views := Views(threads);
      var i := 0;
      while i < |threads|
        invariant i <= |threads| == |views| && threads == old(threads)
        invariant forall j :: 0 <= j < |threads| ==> views[j] == ThreadView(threads[j].id, old(threads[j].adapters))
        invariant journal.entries == old(journal.entries) + UpdateEntries(views[..i], pollFailures[..i])
      {
        assert threads[i] in threads && threads[i].adapters == old(threads[i].adapters);
        TickThread(i, views, pollFailures, old(journal.entries));
        i := i + 1;
      }
      assert views[..i] == views && pollFailures[..i] == pollFailures;
    }

    /** The i-th turn of `update`: that thread ticks, extending the journal by its tick. */
    method TickThread(i: nat, ghost views: seq<ThreadView>, pollFailures: seq<bool>, ghost start: seq<Entry>)
      requires i < |threads| == |views| == |pollFailures|
      requires threads[i].service == this && views[i] == ThreadView(threads[i].id, threads[i].adapters)
      requires journal.entries == start + UpdateEntries(views[..i], pollFailures[..i])
      modifies journal
      ensures journal.entries == start + UpdateEntries(views[..i + 1], pollFailures[..i + 1])
    {
      ghost var done := UpdateEntries(views[..i], pollFailures[..i]);
      ghost var tick := TickEntries(views[i].id, views[i].adapters, pollFailures[i]);
      threads[i].Process(pollFailures[i]);
      assert journal.entries == start + done + tick;
      UpdateEntriesStep(views, pollFailures, i);
      AppendAssoc(start, done, tick);
    }
  }

  class SocketThread {
    const id: ThreadId
    const service: SocketService
    const updateMethod: int
    const updateIntervalMillis: int
    var run: bool
    var adapters: seq<AdapterId>
    var manualProcessFunc: ManualProcessFunc
    /** `mThread` holds a spawned worker that has not been joined. */
    var workerRunning: bool

    /** The constructor installs the warning as the manual process function. */
    constructor (id: ThreadId, service: SocketService, updateMethod: int, updateIntervalMillis: int)
      ensures this.id == id && this.service == service
      ensures this.updateMethod == updateMethod && this.updateIntervalMillis == updateIntervalMillis
      ensures !run && adapters == [] && manualProcessFunc == WarnOnly && !workerRunning
    {
      this.id := id;
      this.service := service;
      this.updateMethod := updateMethod;
      this.updateIntervalMillis := updateIntervalMillis;
      run := false;
      adapters := [];
      manualProcessFunc := WarnOnly;
      workerRunning := false;
    }

    /**
     * `start`: one branch per update method; an unknown value fails and leaves
     * `mRun` alone.
     */
    method Start(errorState: ErrorState) returns (ok: bool, errors: ErrorState)
      modifies this`run, this`workerRunning, this`manualProcessFunc, service`threads
      ensures ok <==> updateMethod in {MAIN_THREAD, SPAWN_OWN_THREAD, MANUAL}
      ensures run == (ok || old(run))
      ensures errors == if ok then errorState else errorState.Fail("Unknown Socket thread update method")
      ensures workerRunning == (updateMethod == SPAWN_OWN_THREAD || old(workerRunning))
      ensures service.threads == if updateMethod == MAIN_THREAD then old(service.threads) + [this] else old(service.threads)
      ensures manualProcessFunc == if updateMethod == MANUAL then RunProcess else old(manualProcessFunc)
    {
      errors := errorState;
      if updateMethod == SPAWN_OWN_THREAD {
        workerRunning := true;
      } else if updateMethod == MAIN_THREAD {
        service.RegisterSocketThread(this);
      } else if updateMethod == MANUAL {
        manualProcessFunc := RunProcess;
      } else {
        errors := errorState.Fail("Unknown Socket thread update method");
        return false, errors;
      }
      run := true;
      ok := true;
    }

    /**
     * `stop`: nothing when not running; otherwise clear `mRun` and undo the
     * registration of the mode: join the worker, or leave the service. In MANUAL
     * mode nothing is undone: `mManualProcessFunc` keeps running `process`.
     */
    method Stop()
      requires run && updateMethod == MAIN_THREAD ==> this in service.threads
      modifies this`run, this`workerRunning, service`threads
      ensures !run
      ensures workerRunning == (old(workerRunning) && !(old(run) && updateMethod == SPAWN_OWN_THREAD))
      ensures service.threads ==
                if old(run) && updateMethod == MAIN_THREAD then EraseFirst(old(service.threads), this)
                else old(service.threads)
    {
      if run {
        run := false;
        if updateMethod == SPAWN_OWN_THREAD {
          workerRunning := false;
        } else if updateMethod == MAIN_THREAD {
          service.RemoveSocketThread(this);
        }
      }
    }

    /**
     * `thread()`: process, then sleep, while `mRun` holds. The store to `mRun`
     * that ends the loop comes from another thread's `stop`; here the loop runs
     * one iteration per element of `pollFailures` (the outcome of that
     * iteration's poll) and the concurrent stop lands after the last one.
     */
    method Worker(pollFailures: seq<bool>)
      modifies service.journal
      ensures service.journal.entries ==
                old(service.journal.entries) + if run then WorkerEntries(id, adapters, pollFailures, updateIntervalMillis) else []
    {
      var i := 0;
      while run && i < |pollFailures|
        invariant i <= |pollFailures|
        invariant !run ==> i == 0
        invariant service.journal.entries ==
                    old(service.journal.entries) + WorkerEntries(id, adapters, pollFailures[..i], updateIntervalMillis)
      {
        Iterate(pollFailures, i, old(service.journal.entries));
        i := i + 1;
      }
      assert run ==> pollFailures[..i] == pollFailures;
    }

    /** One iteration of the worker loop: a tick, then a sleep of the update interval. */
    method Iterate(pollFailures: seq<bool>, i: nat, ghost start: seq<Entry>)
      requires i < |pollFailures|
      requires service.journal.entries == start + WorkerEntries(id, adapters, pollFailures[..i], updateIntervalMillis)
      modifies service.journal
      ensures service.journal.entries == start + WorkerEntries(id, adapters, pollFailures[..i + 1], updateIntervalMillis)
    {
      ghost var before := service.journal.entries;
      Process(pollFailures[i]);
      service.journal.entries := service.journal.entries + [Slept(id, updateIntervalMillis)];
      assert pollFailures[..i + 1][..i] == pollFailures[..i];
      assert WorkerEntries(id, adapters, pollFailures[..i + 1], updateIntervalMillis)
          == WorkerEntries(id, adapters, pollFailures[..i], updateIntervalMillis)
             + TickEntries(id, adapters, pollFailures[i]) + [Slept(id, updateIntervalMillis)];
    }

    /** `process`: every adapter in registration order, then one poll; a poll error is logged only. */
    method Process(pollFailed: bool)
      modifies service.journal
      ensures service.journal.entries == old(service.journal.entries) + TickEntries(id, adapters, pollFailed)
    {
      var i := 0;
      while i < |adapters|
        invariant i <= |adapters|
        invariant service.journal.entries == old(service.journal.entries) + ProcessEntries(id, adapters[..i])
      {
        service.journal.entries := service.journal.entries + [AdapterProcessed(id, adapters[i])];
        assert adapters[..i + 1][..i] == adapters[..i];
        i := i + 1;
      }
      assert adapters[..i] == adapters;
      service.journal.entries := service.journal.entries + [Polled(id)];
      if pollFailed {
        service.journal.entries := service.journal.entries + [PollErrorLogged(id)];
      }
    }

    /** `manualProcess`: runs `process` once `start` ran in MANUAL mode, otherwise only warns. */
    method ManualProcess(pollFailed: bool)
      modifies service.journal
      ensures service.journal.entries == old(service.journal.entries) +
                if manualProcessFunc == RunProcess then TickEntries(id, adapters, pollFailed) else [ManualMisuseWarned(id)]
    {
      if manualProcessFunc == RunProcess {
        Process(pollFailed);
      } else {
        service.journal.entries := service.journal.entries + [ManualMisuseWarned(id)];
      }
    }

    /** `registerAdapter`: append. */
    method RegisterAdapter(adapter: AdapterId)
      modifies this`adapters
      ensures adapters == old(adapters) + [adapter]
    {
      adapters := adapters + [adapter];
    }

    /** `removeAdapter`: the adapter must be registered (an assert in the source); its first entry is erased. */
    method RemoveAdapter(adapter: AdapterId)
      requires adapter in adapters
      modifies this`adapters
      ensures adapters == EraseFirst(old(adapters), adapter)
      ensures |adapters| == |old(adapters)| - 1
    {
      var k := Find(adapters, adapter);
      FirstIndexUnique(adapters, adapter, k);
      adapters := adapters[..k] + adapters[k + 1..];
    }
  }
}
