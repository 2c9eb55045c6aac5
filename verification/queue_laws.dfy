/** What the work queue owes a key: when its next delivery is due after each event, that a failed attempt is
    retried, what success and exhaustion leave, and that no delivery waits longer than its bounds. */
module QueueLaws {
  import opened Text
  import opened QueueModel

  /** When the key's next delivery is due: at once when it is queued, else when its timer ends. */
  function Due(w: World, v: View): Option<int> {
    if v.dirty then Some(w.now)
    else if v.pending.Some? then Some(v.pending.value.deadline)
    else if v.retrying.Some? then Some(v.retrying.value.deadline)
    else None
  }

  function Max(a: int, b: int): int { if a < b then b else a }

  /** The end of the hold, or now. */
  function HoldEnd(w: World, v: View): int { if v.held.Some? then v.held.value else w.now }

  // ---- Events ---------------------------------------------------------------------------

  /** An event for a key that is not queued is delivered at the later of its debounce and the key's hold; an event or
      a later retry that already waits is left alone. */
  lemma EventDue(l: Limits, v: View, e: Event, v': View)
    requires Happens(l, v, e, v') && e.action.EnqueueWrite? && !v.deleted && !v.dirty && !e.world.shutting
    ensures var until := e.world.now + e.action.debounce;
            if v.pending.Some? || (v.retrying.Some? && v.retrying.value.deadline >= until) then v' == v
            else Due(e.world, v') == Some(Max(until, HoldEnd(e.world, v))) && v'.retrying.None?
    ensures v'.requeues == v.requeues && v'.processing == v.processing && v'.periodic == v.periodic
    ensures !Released(e.world, v) ==> v'.held == v.held
  {
  }

  /** Without a debounce, an event for an idle key queues it in the first region already. */
  lemma EventAtOnce(l: Limits, v: View, e: Event, v': View)
    requires Happens(l, v, e, v') && e.action.EnqueueRead? && !v.deleted && !e.world.shutting
    ensures v' == if v.dirty || !Accepts(v, e.action) || v.pending.Some? then v else v.(dirty := true)
  {
  }

  /** A periodic audit is queued at once, takes the place of timers, and is handed out whatever the hold. */
  lemma AuditAtOnce(l: Limits, v: View, e: Event, v': View, w: World, generation: nat)
    requires Happens(l, v, e, v') && e.action.PeriodicWrite? && !v.deleted && !e.world.shutting
    ensures v'.dirty && v'.pending.None? && v'.retrying.None? && v'.held == v.held && v'.requeues == v.requeues
    ensures HandsOut(w, v', Get(generation))
  {
  }

  /** The running timer queues its key and is gone; any other changes nothing. */
  lemma TimerQueues(l: Limits, v: View, e: Event, v': View)
    requires Happens(l, v, e, v') && (e.action.FirePending? || e.action.FireRetry?) && !v.deleted && !e.world.shutting
    ensures var slot := if e.action.FirePending? then v.pending else v.retrying;
            if slot.None? || slot.value.generation != e.action.generation then v' == v
            else v'.dirty && slot.value.deadline <= e.world.now
    ensures e.action.FirePending? && v' != v ==> v' == v.(dirty := true, pending := None)
    ensures e.action.FireRetry? && v' != v ==> v' == v.(dirty := true, retrying := None)
  {
  }

  // ---- Hand-outs ------------------------------------------------------------------------

  /** A key that is handed out is at a worker, not queued, and its audit mark is used up. */
  lemma HandedOut(l: Limits, v: View, e: Event, v': View)
    requires Happens(l, v, e, v') && HandsOut(e.world, v, e.action)
    ensures !v.processing && v'.processing && !v'.dirty && !v'.periodic
    ensures v'.held == v.held && v'.requeues == v.requeues && v'.pending == v.pending
    ensures v'.retrying == if v.periodic then None else v.retrying
  {
  }

  /** A held key is put back until its hold ends, or until a later event. */
  lemma HeldBack(l: Limits, v: View, e: Event, v': View)
    requires Happens(l, v, e, v') && e.action.Get? && !v.deleted && !HandsOut(e.world, v, e.action)
    requires !e.world.shutting
    ensures v.held.Some? && v.held.value > e.world.now && v'.held == v.held && !v'.processing && !v'.dirty
    ensures var until := if v.pending.Some? then Max(v.pending.value.deadline, v.held.value) else v.held.value;
            Due(e.world, v') == Some(until)
  {
  }

  // ---- Completions ----------------------------------------------------------------------

  /** Every completion takes the key from its worker, and a key that was queued meanwhile stays queued. */
  lemma CompletionReleases(l: Limits, v: View, e: Event, v': View)
    requires Happens(l, v, e, v') && e.action.Complete?
    ensures v.processing && !v'.processing && (v.dirty ==> v'.dirty) && v'.deleted == v.deleted
    ensures v'.periodic == v.periodic
  {
  }

  /** A failed attempt below the limit is counted and retried: after the delay, or with a waiting event that comes
      later. */
  lemma FailureIsRetried(l: Limits, v: View, e: Event, v': View)
    requires Happens(l, v, e, v') && Fails(v, e.action) && v.requeues < l.maxRetries && !e.world.shutting
    ensures Alive(v') && !v'.deleted && v'.requeues == v.requeues + 1
    ensures v'.held == Some(e.world.now + e.action.delay)
    ensures var retry := e.world.now + e.action.delay;
            !v.dirty ==>
              Due(e.world, v') == Some(if v.pending.Some? then Max(v.pending.value.deadline, retry) else retry)
  {
  }

  /** A failed attempt at the limit keeps its count and holds the key at the maximum backoff. There is no automatic
      retry; a waiting event waits for the hold. */
  lemma ExhaustionHolds(l: Limits, v: View, e: Event, v': View)
    requires Happens(l, v, e, v') && Fails(v, e.action) && v.requeues >= l.maxRetries && !e.world.shutting
    ensures v'.requeues == v.requeues && v'.held == Some(e.world.now + l.maxBackoff)
    ensures !v.dirty && v.pending.None? ==> Due(e.world, v') == Due(e.world, v)
    ensures !v.dirty && v.pending.Some? ==>
      Due(e.world, v') == Some(Max(v.pending.value.deadline, e.world.now + l.maxBackoff))
  {
  }

  /** Success leaves no retry count and no hold, and what waits goes on waiting. */
  lemma SuccessClears(l: Limits, v: View, e: Event, v': View)
    requires Happens(l, v, e, v') && e.action.Complete? && !e.action.failed && !v.deleted
    ensures v'.requeues == 0 && v'.held.None? && Due(e.world, v') == Due(e.world, v)
  {
  }

  /** Once an attempt has failed below the limit at step i, the key stays alive up to step j, unless it is handed out
      or forgotten or the queue stops in between. */
  lemma {:induction false} RetryNotLost(l: Limits, views: seq<View>, run: seq<Event>, i: nat, j: nat)
    requires ValidRun(l, views, run) && Sound(l, views[0]) && i < j <= |run|
    requires Fails(views[i], run[i].action) && views[i].requeues < l.maxRetries
    requires forall k :: i <= k < j ==> Keeps(run[k].world, views[k], run[k].action)
    ensures Alive(views[j]) && !views[j].deleted
  {
    if j == i + 1 {
      FailureIsRetried(l, views[i], run[i], views[j]);
    } else {
      RetryNotLost(l, views, run, i, j - 1);
      RunKeepsAlive(l, views, run, j - 1);
    }
  }

  /** So in every execution of the queue a failed key is delivered again. */
  lemma QueueRetries<K(!new)>(l: Limits, states: seq<K -> View>, regions: seq<Region<K>>, k: K, i: nat, j: nat)
    requires Execution(l, states, regions) && states[0](k) == Fresh && i < j <= |regions|
    requires Fails(states[i](k), EventFor(regions[i], k).action) && states[i](k).requeues < l.maxRetries
    requires forall n :: i <= n < j ==>
               Keeps(EventFor(regions[n], k).world, states[n](k), EventFor(regions[n], k).action)
    ensures Alive(states[j](k)) && Sound(l, states[j](k))
  {
    KeyRun(l, states, regions, k);
    RetryNotLost(l, ViewsOf(states, k), EventsFor(regions, k), i, j);
    RunSound(l, ViewsOf(states, k), EventsFor(regions, k), j);
  }

  // ---- Forgotten keys -------------------------------------------------------------------

  /** A forgotten key accepts nothing and reaches no worker until it is activated again. */
  lemma {:induction false} ForgottenRests(l: Limits, views: seq<View>, run: seq<Event>, i: nat, j: nat)
    requires ValidRun(l, views, run) && i <= j <= |run| && views[i].deleted
    requires forall k :: i <= k < j ==> !run[k].action.Activate?
    ensures views[j].deleted && (views[j].processing ==> views[i].processing)
    ensures j < |run| ==> !Accepts(views[j], run[j].action)
  {
    if i < j {
      ForgottenRests(l, views, run, i, j - 1);
      assert Happens(l, views[j - 1], run[j - 1], views[j]);
    }
  }

  /** Forgetting leaves no timer, hold or mark; activating brings back nothing but the tombstone's removal. */
  lemma TombstoneOnly(l: Limits, v: View, e: Event, v': View)
    requires Happens(l, v, e, v') && (e.action.Forget? || e.action.Activate?)
    ensures e.action.Forget? ==> v'.deleted && v'.held.None? && !v'.periodic && v'.pending.None? && v'.retrying.None?
    ensures e.action.Activate? ==> !v'.deleted && v'.(deleted := v.deleted) == v
    ensures v'.dirty == v.dirty && v'.processing == v.processing && v'.requeues == v.requeues
  {
  }

  // ---- Bounded waits --------------------------------------------------------------------

  /** Every timer ends within the longest debounce or backoff from now, and every hold within the backoff. */
  predicate Bounded(l: Limits, longest: nat, now: int, v: View) {
    && (v.held.Some? ==> v.held.value <= now + l.maxBackoff)
    && (v.retrying.Some? ==> v.retrying.value.deadline <= now + l.maxBackoff)
    && (v.pending.Some? ==> v.pending.value.deadline <= now + Max(longest, l.maxBackoff))
  }

  predicate ShortEvent(longest: nat, a: Action) { a.EnqueueWrite? ==> a.debounce <= longest }

  lemma StepBounded(l: Limits, longest: nat, v: View, e: Event, v': View)
    requires Bounded(l, longest, e.world.now, v) && Happens(l, v, e, v') && ShortEvent(longest, e.action)
    ensures Bounded(l, longest, e.world.now, v')
  {
    if e.action.EnqueueWrite? {
      EnqueueBounded(l, longest, e.world, v, e.action.debounce, e.action.generation);
    } else if e.action.Get? {
      GetBounded(l, longest, e.world, v, e.action.generation);
    } else if e.action.Complete? {
      CompleteBounded(l, longest, e.world, v, e.action.failed, e.action.delay, e.action.generation);
    } else {
      NothingLater(l, v, e, v');
    }
  }

  /** Other events set no timer and no hold. */
  lemma NothingLater(l: Limits, v: View, e: Event, v': View)
    requires Happens(l, v, e, v') && !e.action.EnqueueWrite? && !e.action.Get? && !e.action.Complete?
    ensures v'.held == v.held || v'.held.None?
    ensures v'.pending == v.pending || v'.pending.None?
    ensures v'.retrying == v.retrying || v'.retrying.None?
  {
  }

  lemma GetBounded(l: Limits, longest: nat, w: World, v: View, generation: nat)
    requires Bounded(l, longest, w.now, v)
    ensures Bounded(l, longest, w.now, AfterGet(w, v, generation))
  {
    if !Released(w, v) { RetryBounded(l, longest, w, v.(dirty := false), v.held.value - w.now, generation); }
  }

  lemma RetryBounded(l: Limits, longest: nat, w: World, v: View, delay: int, generation: nat)
    requires Bounded(l, longest, w.now, v) && delay <= l.maxBackoff
    ensures Bounded(l, longest, w.now, ScheduleRetry(w, v, delay, generation))
  {
  }

  lemma EnqueueBounded(l: Limits, longest: nat, w: World, v: View, debounce: nat, generation: nat)
    requires Bounded(l, longest, w.now, v) && debounce <= longest
    ensures Bounded(l, longest, w.now, AfterEnqueue(w, v, debounce, generation))
  {
  }

  lemma CompleteBounded(l: Limits, longest: nat, w: World, v: View, failed: bool, delay: nat, generation: nat)
    requires Bounded(l, longest, w.now, v) && delay <= l.maxBackoff
    ensures Bounded(l, longest, w.now, AfterComplete(l, w, v, failed, delay, generation))
  {
  }

  /** In every run of a key no event, retry or hold makes a delivery wait longer than the longest debounce or the
      maximum backoff. */
  lemma {:induction false} WaitBounded(l: Limits, longest: nat, views: seq<View>, run: seq<Event>, n: nat)
    requires ValidRun(l, views, run) && views[0] == Fresh && 0 < n <= |run|
    requires forall i :: 0 <= i < |run| ==> ShortEvent(longest, run[i].action)
    ensures Bounded(l, longest, run[n - 1].world.now, views[n])
  {
    if n > 1 {
      WaitBounded(l, longest, views, run, n - 1);
      assert run[n - 2].world.now <= run[n - 1].world.now;
    }
    StepBounded(l, longest, views[n - 1], run[n - 1], views[n]);
  }
}
