/** The target work queue: the fields guarded by its mutex together with the inner queue's sets, and one
    method per lock region. Each method changes one key's view as QueueModel says, and no other key's. */
module WorkQueue {
  import opened Text
  import opened QueueModel

  datatype TargetKey = TargetKey(namespace: string, name: string)

  datatype Completion = CompletionSucceeded | CompletionRetried | CompletionExhausted | CompletionForgotten

  function Slot<V>(m: map<TargetKey, V>, k: TargetKey): Option<V> { if k in m then Some(m[k]) else None }

  class TargetQueue {
    const limits: Limits
    var deleted: set<TargetKey>
    var pending: map<TargetKey, Timer>
    var retrying: map<TargetKey, Timer>
    var held: map<TargetKey, int>
    var periodic: set<TargetKey>
    var nextTimer: nat

    // The inner queue: keys in delivery order, keys with work to do, keys at a worker, retry counters.
    var queue: seq<TargetKey>
    var dirty: set<TargetKey>
    var processing: set<TargetKey>
    var requeues: map<TargetKey, nat>
    var shutting: bool

    ghost function ViewOf(k: TargetKey): View
      reads this
    {
      View(k in deleted, Slot(pending, k), Slot(retrying, k), Slot(held, k), k in periodic,
           k in dirty, k in processing, if k in requeues then requeues[k] else 0)
    }

    /** Exactly the dirty keys that no worker has are queued, once each, and no running timer has a future number. */
    ghost predicate Valid()
      reads this
    {
      && Distinct(queue) && (forall k :: k in queue <==> k in dirty && k !in processing)
      && (forall k :: k in pending ==> pending[k].generation <= nextTimer)
      && (forall k :: k in retrying ==> retrying[k].generation <= nextTimer)
    }

    /** The key's view became v, and no other key's view changed. */
    twostate predicate Becomes(k: TargetKey, v: View)
      reads this
    {
      ViewOf(k) == v && (forall j :: j != k ==> ViewOf(j) == old(ViewOf(j))) && shutting == old(shutting)
    }

    /** The lock region could do this action to the key, did it, and did nothing to any other key. */
    twostate predicate Did(k: TargetKey, now: int, a: Action)
      reads this
    {
      && Enabled(limits, World(now, shutting), old(ViewOf(k)), a)
      && Becomes(k, Next(limits, World(now, shutting), old(ViewOf(k)), a))
    }

    /** The views of all keys, as a value. */
    ghost function Views(): (v: TargetKey -> View)
      reads this
      ensures forall k :: v(k) == ViewOf(k)
    {
      var d, p, r, h, m, q, w, n := deleted, pending, retrying, held, periodic, dirty, processing, requeues;
      (k: TargetKey) =>
        View(k in d, Slot(p, k), Slot(r, k), Slot(h, k), k in m, k in q, k in w, if k in n then n[k] else 0)
    }

    /** So each method is a region of the queue's executions, to which the results about runs apply. */
    twostate lemma DidPerforms(k: TargetKey, now: int, a: Action)
      requires Did(k, now, a)
      ensures Performs(limits, old(Views()), One(k, Event(a, World(now, shutting))), Views())
    {
    }

    constructor (limits: Limits)
      ensures Valid() && !shutting && queue == [] && this.limits == limits
      ensures forall k :: Views()(k) == Fresh
    {
      this.limits := limits;
      deleted, pending, retrying, held, periodic, nextTimer := {}, map[], map[], map[], {}, 0;
      queue, dirty, processing, requeues, shutting := [], {}, {}, map[], false;
    }

    // ---- The inner queue ----------------------------------------------------------------

    method Add(k: TargetKey)
      requires Valid()
      modifies this`queue, this`dirty
      ensures Valid() && Becomes(k, old(ViewOf(k)).(dirty := old(ViewOf(k)).dirty || !shutting))
    {
      if shutting || k in dirty { return; }
      dirty := dirty + {k};
      if k !in processing { queue := queue + [k]; }
    }

    /** The first queued key goes to a worker. */
    method Pop() returns (k: TargetKey)
      requires Valid() && queue != []
      modifies this`queue, this`dirty, this`processing
      ensures Valid() && k == old(queue[0]) && k in old(dirty) && k !in old(processing)
      ensures Becomes(k, old(ViewOf(k)).(dirty := false, processing := true))
    {
      k := queue[0];
      assert k in queue;
      queue, processing, dirty := queue[1..], processing + {k}, dirty - {k};
    }

    /** A key that became dirty meanwhile is queued again. */
    method Done(k: TargetKey)
      requires Valid() && k in processing
      modifies this`queue, this`processing
      ensures Valid() && Becomes(k, old(ViewOf(k)).(processing := false))
    {
      processing := processing - {k};
      if k in dirty { queue := queue + [k]; }
    }

    method ForgetRetries(k: TargetKey)
      requires Valid()
      modifies this`requeues
      ensures Valid() && Becomes(k, old(ViewOf(k)).(requeues := 0))
    {
      requeues := requeues - {k};
    }

    method CountRetry(k: TargetKey)
      requires Valid()
      modifies this`requeues
      ensures Valid() && Becomes(k, old(ViewOf(k)).(requeues := old(ViewOf(k)).requeues + 1))
    {
      requeues := requeues[k := (if k in requeues then requeues[k] else 0) + 1];
    }

    // ---- Timers, holds and marks --------------------------------------------------------

    method StopPending(k: TargetKey)
      requires Valid()
      modifies this`pending
      ensures Valid() && Becomes(k, old(ViewOf(k)).(pending := None))
    {
      pending := pending - {k};
    }

    method StopRetry(k: TargetKey)
      requires Valid()
      modifies this`retrying
      ensures Valid() && Becomes(k, old(ViewOf(k)).(retrying := None))
    {
      retrying := retrying - {k};
    }

    method StartPending(k: TargetKey, deadline: int)
      requires Valid()
      modifies this`pending, this`nextTimer
      ensures Valid() && Becomes(k, old(ViewOf(k)).(pending := Some(Timer(old(nextTimer) + 1, deadline))))
    {
      nextTimer := nextTimer + 1;
      pending := pending[k := Timer(nextTimer, deadline)];
    }

    method StartRetry(k: TargetKey, deadline: int)
      requires Valid()
      modifies this`retrying, this`nextTimer
      ensures Valid() && Becomes(k, old(ViewOf(k)).(retrying := Some(Timer(old(nextTimer) + 1, deadline))))
    {
      nextTimer := nextTimer + 1;
      retrying := retrying[k := Timer(nextTimer, deadline)];
    }

    method Hold(k: TargetKey, until: int)
      requires Valid()
      modifies this`held
      ensures Valid() && Becomes(k, old(ViewOf(k)).(held := Some(until)))
    {
      held := held[k := until];
    }

    method Unhold(k: TargetKey)
      requires Valid()
      modifies this`held
      ensures Valid() && Becomes(k, old(ViewOf(k)).(held := None))
    {
      held := held - {k};
    }

    method MarkPeriodic(k: TargetKey, mark: bool)
      requires Valid()
      modifies this`periodic
      ensures Valid() && Becomes(k, old(ViewOf(k)).(periodic := mark))
    {
      periodic := if mark then periodic + {k} else periodic - {k};
    }

    method MarkDeleted(k: TargetKey, mark: bool)
      requires Valid()
      modifies this`deleted
      ensures Valid() && Becomes(k, old(ViewOf(k)).(deleted := mark))
    {
      deleted := if mark then deleted + {k} else deleted - {k};
    }

    // ---- Lock regions -------------------------------------------------------------------

    /** The first lock region of an event: a waiting event absorbs it, an idle key without debounce is queued.
        No answer means that the second region decides. */
    method EnqueueRead(k: TargetKey, debounce: nat, now: int) returns (answer: Option<bool>)
      requires Valid()
      modifies this`queue, this`dirty
      ensures Valid() && Did(k, now, Action.EnqueueRead(debounce))
      ensures answer == Some(true) <==> Accepts(old(ViewOf(k)), Action.EnqueueRead(debounce))
      ensures answer == Some(false) <==> k in deleted
    {
      if k in deleted { return Some(false); }
      if k in pending { return Some(true); }
      if debounce == 0 && k !in retrying && k !in held {
        Add(k);
        return Some(true);
      }
      return None;
    }

    /** Waits for the debounce, or for the rest of the hold when that is longer. */
    method Await(k: TargetKey, debounce: nat, now: int)
      requires Valid() && k !in deleted && k !in pending && k !in retrying
      modifies this`queue, this`dirty, this`held, this`nextTimer, this`pending
      ensures Valid() && Becomes(k, AfterEnqueue(World(now, shutting), old(ViewOf(k)), debounce, old(nextTimer) + 1))
    {
      var delay: int := debounce;
      if k in held {
        var remaining := held[k] - now;
        if remaining > delay { delay := remaining; }
        else if remaining <= 0 { Unhold(k); }
      }
      if delay <= 0 { Add(k); } else { StartPending(k, now + delay); }
    }

    /** The second lock region of an event. */
    method EnqueueWrite(k: TargetKey, debounce: nat, now: int) returns (accepted: bool)
      requires Valid()
      modifies this`queue, this`dirty, this`retrying, this`held, this`nextTimer, this`pending
      ensures Valid() && Did(k, now, Action.EnqueueWrite(debounce, old(nextTimer) + 1))
      ensures accepted <==> Accepts(old(ViewOf(k)), Action.EnqueueWrite(debounce, old(nextTimer) + 1))
    {
      if k in deleted { return false; }
      if k in pending { return true; }
      if k in retrying {
        if retrying[k].deadline - now >= debounce { return true; }
        StopRetry(k);
      }
      Await(k, debounce, now);
      return true;
    }

    /** The first lock region of a periodic audit only looks for a tombstone; this is the second one: timers give
        way and the key is queued at once. */
    method EnqueuePeriodic(k: TargetKey, now: int) returns (accepted: bool)
      requires Valid()
      modifies this`queue, this`dirty, this`retrying, this`pending, this`periodic
      ensures Valid() && Did(k, now, PeriodicWrite)
      ensures accepted <==> Accepts(old(ViewOf(k)), PeriodicWrite)
    {
      if k in deleted { return false; }
      StopPending(k);
      StopRetry(k);
      MarkPeriodic(k, true);
      Add(k);
      return true;
    }

    method ActivateTarget(k: TargetKey, ghost now: int)
      requires Valid()
      modifies this`deleted
      ensures Valid() && Did(k, now, Activate)
    {
      MarkDeleted(k, false);
    }

    /** The lock region of ForgetTarget; the retry counter is forgotten after it. */
    method ForgetTarget(k: TargetKey, ghost now: int)
      requires Valid()
      modifies this`deleted, this`held, this`periodic, this`pending, this`retrying
      ensures Valid() && Did(k, now, Forget)
    {
      MarkDeleted(k, true);
      Unhold(k);
      MarkPeriodic(k, false);
      StopPending(k);
      StopRetry(k);
    }

    /** Schedules a retry unless a waiting event already comes late enough. */
    method ScheduleRetry(k: TargetKey, delay: int, now: int) returns (scheduled: bool)
      requires Valid()
      modifies this`queue, this`dirty, this`pending, this`retrying, this`nextTimer
      ensures Valid() && (scheduled <==> k !in deleted && !shutting)
      ensures Becomes(k, QueueModel.ScheduleRetry(World(now, shutting), old(ViewOf(k)), delay, old(nextTimer) + 1))
    {
      if k in deleted || shutting { return false; }
      if k in pending {
        if !(pending[k].deadline < now + delay) { return true; }
        StopPending(k);
      }
      StopRetry(k);
      if delay <= 0 { Add(k); } else { StartRetry(k, now + delay); }
      return true;
    }

    /** Schedules a retry and gives the key back to the inner queue. */
    method ScheduleAndDone(k: TargetKey, delay: int, now: int) returns (scheduled: bool)
      requires Valid() && k in processing
      modifies this`queue, this`dirty, this`processing, this`pending, this`retrying, this`nextTimer
      ensures Valid() && (scheduled <==> k !in deleted && !shutting)
      ensures Becomes(k, QueueModel.ScheduleRetry(World(now, shutting), old(ViewOf(k)).(processing := false), delay,
        old(nextTimer) + 1))
    {
      ScheduleThenDone(World(now, shutting), ViewOf(k), delay, nextTimer + 1);
      scheduled := ScheduleRetry(k, delay, now);
      Done(k);
    }

    method CountAndHold(k: TargetKey, until: int)
      requires Valid()
      modifies this`requeues, this`held
      ensures Valid() && Becomes(k, old(ViewOf(k)).(requeues := old(ViewOf(k)).requeues + 1, held := Some(until)))
    {
      CountRetry(k);
      Hold(k, until);
    }

    /** What Get does with a key the inner queue delivered: drop it, put it back behind its hold, or hand it out. */
    method Deliver(k: TargetKey, now: int) returns (handedOut: bool)
      requires Valid() && k in processing && k !in dirty
      modifies this`queue, this`processing, this`requeues, this`periodic, this`pending, this`retrying, this`nextTimer,
        this`dirty
      ensures Valid() && Becomes(k, AfterGet(World(now, shutting), old(ViewOf(k)).(processing := false),
        old(nextTimer) + 1))
      ensures handedOut <==> k in processing
    {
      if k in deleted {
        ForgetRetries(k);
        Done(k);
        return false;
      }
      if k in periodic {
        MarkPeriodic(k, false);
        StopRetry(k);
        return true;
      }
      if k in held && held[k] - now > 0 {
        var scheduled := ScheduleAndDone(k, held[k] - now, now);
        return false;
      }
      return true;
    }

    /** One round of Get. */
    method GetRound(now: int) returns (k: TargetKey, handedOut: bool)
      requires Valid() && queue != []
      modifies this`queue, this`dirty, this`processing, this`requeues, this`periodic, this`pending, this`retrying,
        this`nextTimer
      ensures Valid() && k == old(queue[0])
      ensures Did(k, now, Get(old(nextTimer) + 1))
      ensures handedOut <==> HandsOut(World(now, shutting), old(ViewOf(k)), Get(old(nextTimer) + 1))
      ensures handedOut ==> k in processing && k !in old(processing)
    {
      k := Pop();
      handedOut := Deliver(k, now);
    }

    /** The retries are used up: the key is held at the maximum backoff, and a waiting event waits that long. */
    method Exhaust(k: TargetKey, now: int)
      requires Valid() && k in processing && k !in deleted && ViewOf(k).requeues >= limits.maxRetries
      modifies this`queue, this`dirty, this`processing, this`held, this`pending, this`retrying, this`nextTimer
      ensures Valid() && Becomes(k, AfterComplete(limits, World(now, shutting), old(ViewOf(k)), true, 0,
        old(nextTimer) + 1))
    {
      Hold(k, now + limits.maxBackoff);
      if k in pending { var scheduled := ScheduleAndDone(k, limits.maxBackoff, now); } else { Done(k); }
    }

    /** Another attempt after the delay. */
    method Retry(k: TargetKey, delay: nat, now: int) returns (scheduled: bool)
      requires Valid() && k in processing && k !in deleted && ViewOf(k).requeues < limits.maxRetries
      modifies this`queue, this`dirty, this`processing, this`requeues, this`held, this`pending, this`retrying,
        this`nextTimer
      ensures Valid() && Becomes(k, AfterComplete(limits, World(now, shutting), old(ViewOf(k)), true, delay,
        old(nextTimer) + 1))
      ensures scheduled <==> !shutting
    {
      CountAndHold(k, now + delay);
      scheduled := ScheduleAndDone(k, delay, now);
      if !scheduled { ForgetRetries(k); }
    }

    /** The lock region of Complete; `delay` is what the rate limiter answers. */
    method Complete(k: TargetKey, failed: bool, delay: nat, now: int) returns (completion: Completion)
      requires Valid() && k in processing && delay <= limits.maxBackoff
      modifies this`queue, this`dirty, this`processing, this`requeues, this`held, this`pending, this`retrying,
        this`nextTimer
      ensures Valid() && Did(k, now, Action.Complete(failed, delay, old(nextTimer) + 1))
      ensures completion == CompletionSucceeded <==> !failed && k !in deleted
      ensures var exhausted := old(ViewOf(k)).requeues >= limits.maxRetries;
              && (completion == CompletionExhausted <==> failed && k !in deleted && exhausted)
              && (completion == CompletionRetried <==> failed && k !in deleted && !exhausted && !shutting)
    {
      if k in deleted {
        ForgetRetries(k);
        Done(k);
        return CompletionForgotten;
      }
      if !failed {
        Unhold(k);
        ForgetRetries(k);
        Done(k);
        return CompletionSucceeded;
      }
      if (if k in requeues then requeues[k] else 0) >= limits.maxRetries {
        Exhaust(k, now);
        return CompletionExhausted;
      }
      var scheduled := Retry(k, delay, now);
      return if scheduled then CompletionRetried else CompletionForgotten;
    }

    /** A debounce timer fires, not before its deadline; a cancelled or replaced timer finds another generation. */
    method DebounceFires(k: TargetKey, generation: nat, now: int)
      requires Valid() && (k in pending && pending[k].generation == generation ==> pending[k].deadline <= now)
      modifies this`queue, this`dirty, this`pending
      ensures Valid() && Did(k, now, FirePending(generation))
    {
      if k !in pending || pending[k].generation != generation { return; }
      StopPending(k);
      if k !in deleted && !shutting { Add(k); }
    }

    method RetryFires(k: TargetKey, generation: nat, now: int)
      requires Valid() && (k in retrying && retrying[k].generation == generation ==> retrying[k].deadline <= now)
      modifies this`queue, this`dirty, this`retrying
      ensures Valid() && Did(k, now, FireRetry(generation))
    {
      if k !in retrying || retrying[k].generation != generation { return; }
      StopRetry(k);
      if k !in deleted && !shutting { Add(k); }
    }

    /** The lock region of ShutDown stops every timer. */
    method StopTimers(ghost now: int)
      requires Valid()
      modifies this`pending, this`retrying
      ensures Valid()
      ensures Performs(limits, old(Views()), Every(Event(Action.StopTimers, World(now, shutting))), Views())
    {
      pending, retrying := map[], map[];
    }

    /** The inner queue's ShutDown. */
    method ShutDownInner(ghost now: int)
      requires Valid()
      modifies this`shutting
      ensures Valid() && shutting
      ensures Performs(limits, old(Views()), Every(Event(Elsewhere, World(now, old(shutting)))), Views())
    {
      shutting := true;
    }
  }
}
