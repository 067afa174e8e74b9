/** `struct _kernel` on one processor: the ready queue, the current thread and the time-slice
    counters, updated in place by the scheduler's calls. */
module Kernel {
  import opened WaitQueue
  import S = Scheduler
  import R = Rotation
  import Runs = SchedulerRuns

  class Kernel {
    const highest: int
    const meta: nat
    const idle: Tid
    var threads: map<Tid, S.Thread>
    var current: Tid
    var cache: Tid
    var runq: seq<Waiter<()>>
    var sliceDuration: int
    var sliceElapsed: int
    var slicePrioCeiling: int

    ghost function View(): S.State
      reads this
    {
      S.State(highest, meta, idle, threads, current, cache, runq)
    }

    ghost function Clock(): R.Clock
      reads this
    {
      R.Clock(View(), sliceDuration, sliceElapsed, slicePrioCeiling)
    }

    /** Before any thread has been started: the idle thread alone can run. */
    constructor (highest: int, meta: nat, idle: Tid, threads: map<Tid, S.Thread>)
      ensures View() == S.State(highest, meta, idle, threads, idle, idle, [])
      ensures Clock() == R.Clock(View(), 0, 0, 0)
    {
      this.highest, this.meta, this.idle, this.threads := highest, meta, idle, threads;
      current, cache, runq := idle, idle, [];
      sliceDuration, sliceElapsed, slicePrioCeiling := 0, 0, 0;
    }

    /** `should_preempt`, one test after the other. */
    method ShouldPreempt(th: Tid, ok: bool) returns (r: bool)
      requires th in threads && current in threads
      ensures r == S.ShouldPreempt(View(), th, ok)
    {
      if ok {
        return true;
      }
      if threads[current].blocked != {} {
        return true;
      }
      if S.Preempt(threads[current]) <= 0x7f || (meta > 0 && threads[th].prio - highest < meta) {
        return true;
      }
      return current == idle;
    }

    method UpdateCache(ok: bool)
      requires S.Queues(View())
      modifies this`cache
      ensures View() == S.UpdateCache(old(View()), ok)
    {
      var th := idle;
      if runq != [] {
        assert runq[0] in runq;
        th := runq[0].tid;
      }
      var yes := ShouldPreempt(th, ok);
      cache := if yes then th else current;
    }

    method AddThreadToReadyQ(t: Tid)
      requires S.Queues(View()) && t in threads && t != idle && S.Ready(View(), t) && !S.RunQueue.Has(runq, t)
      modifies this`runq, this`cache
      ensures View() == S.UpdateCache(S.Add(old(View()), t), false)
    {
      S.AddQueues(View(), t);
      runq := Add(runq, Waiter(t, threads[t].prio, ()));
      UpdateCache(false);
    }

    /** Only a thread that is queued is taken off, and only then does the cache change. */
    method RemoveThreadFromReadyQ(t: Tid)
      requires S.Shape(View()) && t in threads && t != idle
      modifies this`runq, this`cache
      ensures View() == if S.Ready(old(View()), t) then S.UpdateCache(S.Remove(old(View()), t), t == current)
                        else old(View())
    {
      hide S.Queues;
      if threads[t].blocked == {} {
        S.RemoveQueues(View(), t);
        runq := Without(runq, t);
        UpdateCache(t == current);
      }
    }

    /** `pend` and `k_thread_suspend`: off the ready queue, then marked. */
    method BlockThread(t: Tid, why: S.Reason)
      requires S.Inv(View()) && S.Legal(View(), S.Block(t, why))
      modifies this`runq, this`threads, this`cache
      ensures View() == S.Do(old(View()), S.Block(t, why)) && S.Inv(View())
    {
      S.BlockInv(View(), t, why);
      hide S.Queues, S.AllQueued, S.CacheSafe, S.Remove, S.UpdateCache;
      RemoveThreadFromReadyQ(t);
      threads := threads[t := threads[t].(blocked := threads[t].blocked + {why})];
    }

    /** Clearing the reason and `_ready_thread`. */
    method UnblockThread(t: Tid, why: S.Reason)
      requires S.Inv(View()) && S.Legal(View(), S.Unblock(t, why))
      modifies this`runq, this`threads, this`cache
      ensures View() == S.Do(old(View()), S.Unblock(t, why)) && S.Inv(View())
    {
      S.UnblockInv(View(), t, why);
      S.NotReadyNotQueued(View(), t);
      S.SetQueues(View(), t, threads[t].(blocked := threads[t].blocked - {why}));
      hide S.Queues, S.AllQueued, S.CacheSafe, S.Add, S.UpdateCache;
      threads := threads[t := threads[t].(blocked := threads[t].blocked - {why})];
      if threads[t].blocked == {} {
        AddThreadToReadyQ(t);
      }
    }

    /** Off the run queue and on again with priority `prio`. */
    method Requeue(t: Tid, prio: int, ok: bool)
      requires S.Queues(View()) && t in threads && t != idle && S.Ready(View(), t) && -128 <= prio <= 127
      modifies this`runq, this`threads, this`cache
      ensures View() == S.Requeued(old(View()), t, prio, ok)
    {
      ghost var th := threads[t].(prio := prio);
      S.RemoveQueues(View(), t);
      S.SetQueues(S.Remove(View(), t), t, th);
      S.AddQueues(S.Set(S.Remove(View(), t), t, th), t);
      hide S.Queues, Enqueue, Without;
      runq := Without(runq, t);
      threads := threads[t := threads[t].(prio := prio)];
      runq := Add(runq, Waiter(t, threads[t].prio, ()));
      UpdateCache(ok);
    }

    method MoveThreadToEnd(t: Tid)
      requires S.Inv(View()) && S.Legal(View(), S.MoveToEnd(t))
      modifies this`runq, this`threads, this`cache
      ensures View() == S.Do(old(View()), S.MoveToEnd(t)) && S.Inv(View())
    {
      S.MoveInv(View(), t);
      hide S.AllQueued, S.CacheSafe, S.Requeued;
      Requeue(t, threads[t].prio, false);
    }

    method ThreadPrioritySet(t: Tid, prio: int)
      requires S.Inv(View()) && S.Legal(View(), S.SetPrio(t, prio))
      modifies this`runq, this`threads, this`cache
      ensures View() == S.Do(old(View()), S.SetPrio(t, prio)) && S.Inv(View())
      ensures threads == old(threads)[t := old(threads)[t].(prio := prio)]
    {
      S.SetPrioInv(View(), t, prio);
      hide S.AllQueued, S.CacheSafe, S.Requeued, S.Queues;
      if threads[t].blocked == {} {
        Requeue(t, prio, true);
      } else {
        threads := threads[t := threads[t].(prio := prio)];
      }
    }

    /** `_Swap` to the cached thread, restarting the time slice. */
    method Reschedule()
      modifies this`current, this`sliceElapsed
      ensures View() == S.Switch(old(View()))
      ensures sliceElapsed == if current != old(current) then 0 else old(sliceElapsed)
    {
      if cache != current {
        sliceElapsed := 0;
        current := cache;
      }
    }

    method Yield()
      requires S.Inv(View()) && S.Legal(View(), S.Yield)
      modifies this`runq, this`threads, this`cache, this`current, this`sliceElapsed
      ensures View() == S.Do(old(View()), S.Yield) && S.Inv(View())
      ensures sliceElapsed == if current != old(current) then 0 else old(sliceElapsed)
    {
      S.YieldInv(View());
      hide S.AllQueued, S.CacheSafe, S.Requeued, S.Queues;
      if current != idle {
        assert S.Bytes(threads[current]);
        Requeue(current, threads[current].prio, true);
      }
      Reschedule();
    }

    method SchedLock()
      requires S.Inv(View()) && S.Legal(View(), S.Lock)
      modifies this`threads
      ensures View() == S.Do(old(View()), S.Lock) && S.Inv(View())
    {
      S.LockInv(View());
      var n := threads[current].locked;
      threads := threads[current := threads[current].(locked := if n == 0 then 255 else n - 1)];
    }

    method SchedUnlock()
      requires S.Inv(View()) && S.Legal(View(), S.Unlock)
      modifies this`threads, this`cache, this`current, this`sliceElapsed
      ensures View() == S.Do(old(View()), S.Unlock) && S.Inv(View())
      ensures sliceElapsed == if current != old(current) then 0 else old(sliceElapsed)
    {
      S.UnlockInv(View());
      var n := threads[current].locked;
      S.RelockShape(View(), S.UnlockStep(n));
      hide S.AllQueued, S.CacheSafe, S.Queues, S.UpdateCache;
      threads := threads[current := threads[current].(locked := if n == 255 then 0 else n + 1)];
      UpdateCache(true);
      Reschedule();
    }

    // ------------------------------------------------------- time slices

    method IsThreadTimeSlicing() returns (r: bool)
      requires current in threads
      ensures r == R.Slicing(Clock())
    {
      if sliceDuration <= 0 || S.Preempt(threads[current]) > 0x7f || threads[current].prio < slicePrioCeiling {
        return false;
      }
      r := false;
      if runq != [] {
        r := threads[current].prio == runq[0].prio;
      }
    }

    /** `handle_time_slicing`; at the clock interrupt the current thread is ready. */
    method HandleTimeSlicing(ticks: int)
      requires S.Inv(View()) && Runs.Idlest(View())
      requires R.Slicing(Clock()) ==> S.Ready(View(), current)
      modifies this`runq, this`threads, this`cache, this`sliceElapsed
      ensures Clock() == R.Sliced(old(Clock()), ticks) && S.Inv(View())
    {
      assert current in threads;
      assert R.Slicing(Clock()) ==> current != idle by {
        assert runq != [] ==> runq[0] in runq && S.InPlace(View(), runq[0]);
      }
      hide S.Inv, S.Requeued, R.Slicing;
      var slicing := IsThreadTimeSlicing();
      if !slicing {
        return;
      }
      sliceElapsed := sliceElapsed + ticks;
      if sliceElapsed >= sliceDuration {
        sliceElapsed := 0;
        MoveThreadToEnd(current);
      }
    }
  }
}
