/** The target work queue seen from one key: what each lock region does to the key's bookkeeping,
    and what holds over every interleaving of regions, timers, workers and the clock. */
module QueueModel {
  import opened Text

  /** A running timer; the generation tells it from cancelled ones. */
  datatype Timer = Timer(generation: nat, deadline: int)

  /** Everything the queue knows of one key. `dirty` and `processing` are the inner queue's sets,
      `requeues` its retry counter. */
  datatype View = View(
    deleted: bool, pending: Option<Timer>, retrying: Option<Timer>, held: Option<int>, periodic: bool,
    dirty: bool, processing: bool, requeues: nat)

  const Fresh: View := View(false, None, None, None, false, false, false, 0)

  datatype Limits = Limits(maxRetries: nat, maxBackoff: nat)

  /** The clock and whether the inner queue is shutting down. */
  datatype World = World(now: int, shutting: bool)

  /** One lock region for the key, or a step that does not concern it. Generations are new timer numbers. */
  datatype Action =
    | Elsewhere
    | EnqueueRead(debounce: nat)
    | EnqueueWrite(debounce: nat, generation: nat)
    | PeriodicRead
    | PeriodicWrite
    | Activate
    | Forget
    | ForgetCount
    | Get(generation: nat)
    | Complete(failed: bool, delay: nat, generation: nat)
    | FirePending(generation: nat)
    | FireRetry(generation: nat)
    | StopTimers

  /** The inner queue ignores additions once it shuts down. */
  function Add(w: World, v: View): View { if w.shutting then v else v.(dirty := true) }

  function ScheduleRetry(w: World, v: View, delay: int, generation: nat): View {
    if v.deleted || w.shutting then v
    else if v.pending.Some? && v.pending.value.deadline >= w.now + delay then v
    else if delay <= 0 then Add(w, v.(pending := None, retrying := None))
    else v.(pending := None, retrying := Some(Timer(generation, w.now + delay)))
  }

  /** It makes no difference whether the key is given back before or after the retry is scheduled. */
  lemma ScheduleThenDone(w: World, v: View, delay: int, generation: nat)
    ensures ScheduleRetry(w, v, delay, generation).(processing := false)
      == ScheduleRetry(w, v.(processing := false), delay, generation)
  {
  }

  /** How long an event waits: the debounce, or the rest of the hold when that is longer. */
  function Wait(w: World, v: View, debounce: nat): int {
    if v.held.Some? && v.held.value - w.now > debounce then v.held.value - w.now else debounce
  }

  function AfterEnqueue(w: World, v: View, debounce: nat, generation: nat): View {
    if v.deleted || v.pending.Some? then v
    else if v.retrying.Some? && v.retrying.value.deadline - w.now >= debounce then v
    else
      var wait := Wait(w, v, debounce);
      var u := v.(retrying := None, held := if v.held.Some? && v.held.value <= w.now then None else v.held);
      if wait <= 0 then Add(w, u) else u.(pending := Some(Timer(generation, w.now + wait)))
  }

  /** The hold is over, or there is none. */
  predicate Released(w: World, v: View) { v.held.None? || v.held.value <= w.now }

  /** A worker receives the key. */
  predicate HandsOut(w: World, v: View, a: Action) { a.Get? && !v.deleted && (v.periodic || Released(w, v)) }

  function AfterGet(w: World, v: View, generation: nat): View {
    if v.deleted then v.(dirty := false, requeues := 0)
    else if v.periodic then v.(dirty := false, processing := true, periodic := false, retrying := None)
    else if Released(w, v) then v.(dirty := false, processing := true)
    else ScheduleRetry(w, v.(dirty := false), v.held.value - w.now, generation)
  }

  function AfterComplete(l: Limits, w: World, v: View, failed: bool, delay: nat, generation: nat): View {
    if v.deleted then v.(requeues := 0, processing := false)
    else if !failed then v.(held := None, requeues := 0, processing := false)
    else if v.requeues >= l.maxRetries then
      var u := v.(held := Some(w.now + l.maxBackoff), processing := false);
      if v.pending.Some? then ScheduleRetry(w, u, l.maxBackoff, generation) else u
    else
      var u := v.(held := Some(w.now + delay), requeues := v.requeues + 1, processing := false);
      if w.shutting then u.(requeues := 0) else ScheduleRetry(w, u, delay, generation)
  }

  /** The timer with this generation is the one running in the slot. */
  predicate Runs(slot: Option<Timer>, generation: nat) { slot.Some? && slot.value.generation == generation }

  function Next(l: Limits, w: World, v: View, a: Action): View {
    match a
    case Elsewhere => v
    case EnqueueRead(debounce) =>
      if !v.deleted && v.pending.None? && debounce == 0 && v.retrying.None? && v.held.None? then Add(w, v) else v
    case EnqueueWrite(debounce, generation) => AfterEnqueue(w, v, debounce, generation)
    case PeriodicRead => v
    case PeriodicWrite => if v.deleted then v else Add(w, v.(pending := None, retrying := None, periodic := true))
    case Activate => v.(deleted := false)
    case Forget => v.(deleted := true, held := None, periodic := false, pending := None, retrying := None)
    case ForgetCount => v.(requeues := 0)
    case Get(generation) => AfterGet(w, v, generation)
    case Complete(failed, delay, generation) => AfterComplete(l, w, v, failed, delay, generation)
    case FirePending(generation) =>
      if !Runs(v.pending, generation) then v
      else if v.deleted then v.(pending := None) else Add(w, v.(pending := None))
    case FireRetry(generation) =>
      if !Runs(v.retrying, generation) then v
      else if v.deleted then v.(retrying := None) else Add(w, v.(retrying := None))
    case StopTimers => v.(pending := None, retrying := None)
  }

  /** The region answers its caller with true. */
  predicate Accepts(v: View, a: Action) {
    match a
    case EnqueueRead(debounce) => !v.deleted && (v.pending.Some? || (debounce == 0 && v.retrying.None? && v.held.None?))
    case EnqueueWrite(_, _) => !v.deleted
    case PeriodicWrite => !v.deleted
    case _ => false
  }

  /** When a step can happen: workers get queued keys and complete keys they process, timers fire at their deadline. */
  predicate Enabled(l: Limits, w: World, v: View, a: Action) {
    match a
    case Get(_) => v.dirty && !v.processing
    case Complete(_, delay, _) => v.processing && delay <= l.maxBackoff
    case FirePending(generation) => Runs(v.pending, generation) ==> v.pending.value.deadline <= w.now
    case FireRetry(generation) => Runs(v.retrying, generation) ==> v.retrying.value.deadline <= w.now
    case _ => true
  }

  // ---- Runs -----------------------------------------------------------------------------

  datatype Event = Event(action: Action, world: World)

  /** The views between the events of a run: each step is possible and does what its region does, and the clock
      does not go back. */
  ghost predicate ValidRun(l: Limits, views: seq<View>, run: seq<Event>) {
    && |views| == |run| + 1
    && (forall i :: 0 <= i < |run| ==> Happens(l, views[i], run[i], views[i + 1]))
    && (forall i, j :: 0 <= i < j < |run| ==> run[i].world.now <= run[j].world.now)
  }

  predicate Happens(l: Limits, v: View, e: Event, v': View) {
    Enabled(l, e.world, v, e.action) && v' == Next(l, e.world, v, e.action)
  }

  /** A key never has two timers, a tombstone leaves nothing behind, and retries are bounded. */
  predicate Sound(l: Limits, v: View) {
    && !(v.pending.Some? && v.retrying.Some?)
    && (v.deleted ==> v.pending.None? && v.retrying.None? && v.held.None? && !v.periodic)
    && v.requeues <= l.maxRetries
  }

  lemma CompleteSound(l: Limits, w: World, v: View, failed: bool, delay: nat, generation: nat)
    requires Sound(l, v)
    ensures Sound(l, AfterComplete(l, w, v, failed, delay, generation))
  {
  }

  lemma StepSound(l: Limits, v: View, e: Event, v': View)
    requires Sound(l, v) && Happens(l, v, e, v')
    ensures Sound(l, v')
  {
    match e.action
    case Complete(failed, delay, generation) => CompleteSound(l, e.world, v, failed, delay, generation);
    case _ =>
  }

  /** In every reachable state. */
  lemma {:induction false} RunSound(l: Limits, views: seq<View>, run: seq<Event>, n: nat)
    requires ValidRun(l, views, run) && Sound(l, views[0]) && n <= |run|
    ensures Sound(l, views[n])
  {
    if n > 0 {
      RunSound(l, views, run, n - 1);
      StepSound(l, views[n - 1], run[n - 1], views[n]);
    }
  }

  // ---- No lost wakeup -------------------------------------------------------------------

  /** A delivery is under way: queued, or waiting for a timer. */
  predicate Alive(v: View) { v.dirty || v.pending.Some? || v.retrying.Some? }

  /** The event does not forget the key, stop the queue or hand the key to a worker. */
  predicate Keeps(w: World, v: View, a: Action) { !w.shutting && !a.Forget? && !a.StopTimers? && !HandsOut(w, v, a) }

  lemma StepKeepsAlive(l: Limits, v: View, e: Event, v': View)
    requires Sound(l, v) && Happens(l, v, e, v') && Keeps(e.world, v, e.action) && !v.deleted
      && (Alive(v) || Accepts(v, e.action))
    ensures Alive(v') && !v'.deleted
  {
  }

  lemma RunKeepsAlive(l: Limits, views: seq<View>, run: seq<Event>, k: nat)
    requires ValidRun(l, views, run) && Sound(l, views[0]) && k < |run|
    requires Keeps(run[k].world, views[k], run[k].action) && !views[k].deleted
      && (Alive(views[k]) || Accepts(views[k], run[k].action))
    ensures Alive(views[k + 1]) && !views[k + 1].deleted
  {
    RunSound(l, views, run, k);
    StepKeepsAlive(l, views[k], run[k], views[k + 1]);
  }

  /** Once an enqueue has answered true at step i, the key stays alive up to step j, unless it is handed out or
      forgotten or the queue stops in between. */
  lemma {:induction false} NoLostWakeup(l: Limits, views: seq<View>, run: seq<Event>, i: nat, j: nat)
    requires ValidRun(l, views, run) && Sound(l, views[0]) && i < j <= |run|
    requires Accepts(views[i], run[i].action)
    requires forall k :: i <= k < j ==> Keeps(run[k].world, views[k], run[k].action)
    ensures Alive(views[j]) && !views[j].deleted
  {
    if j > i + 1 { NoLostWakeup(l, views, run, i, j - 1); }
    RunKeepsAlive(l, views, run, j - 1);
  }

  /** A live key that no worker holds can always move on: it is queued, or its timer is due by some time,
      and firing that timer queues it. */
  lemma AliveMovesOn(l: Limits, w: World, v: View) returns (a: Action, due: int)
    requires Sound(l, v) && Alive(v) && !v.deleted && !w.shutting && !v.processing && !v.dirty
    ensures w.now >= due ==> Enabled(l, w, v, a)
    ensures Next(l, w, v, a).dirty && !Next(l, w, v, a).processing
  {
    if v.pending.Some? { a, due := FirePending(v.pending.value.generation), v.pending.value.deadline; }
    else { a, due := FireRetry(v.retrying.value.generation), v.retrying.value.deadline; }
  }

  // ---- Backoff --------------------------------------------------------------------------

  /** When the hold of a failed attempt ends. */
  function HoldUntil(l: Limits, w: World, v: View, delay: nat): int {
    w.now + if v.requeues >= l.maxRetries then l.maxBackoff else delay
  }

  /** The hold is in force until t, and no worker has the key. */
  predicate Holds(w: World, v: View, t: int) { !v.processing && (w.now < t ==> v.held == Some(t)) }

  lemma StepHolds(l: Limits, v: View, e: Event, v': View, w': World, t: int)
    requires Holds(e.world, v, t) && Happens(l, v, e, v') && !e.action.Forget? && !HandsOut(e.world, v, e.action)
      && e.world.now <= w'.now
    ensures Holds(w', v', t)
  {
  }

  /** The attempt that ends at step i fails. */
  predicate Fails(v: View, a: Action) { a.Complete? && a.failed && !v.deleted }

  lemma FailureHolds(l: Limits, v: View, e: Event, v': View, w': World)
    requires Happens(l, v, e, v') && Fails(v, e.action) && e.world.now <= w'.now
    ensures Holds(w', v', HoldUntil(l, e.world, v, e.action.delay))
  {
  }

  /** Neither handed out nor forgotten from step i up to step j. */
  ghost predicate Undisturbed(l: Limits, views: seq<View>, run: seq<Event>, i: nat, j: nat)
    requires i <= j <= |run| < |views|
  {
    forall k :: i <= k < j ==> !run[k].action.Forget? && !HandsOut(run[k].world, views[k], run[k].action)
  }

  lemma {:induction false} HoldLasts(l: Limits, views: seq<View>, run: seq<Event>, i: nat, j: nat)
    requires ValidRun(l, views, run) && i < j < |run| && Fails(views[i], run[i].action)
    requires Undisturbed(l, views, run, i + 1, j)
    ensures Holds(run[j].world, views[j], HoldUntil(l, run[i].world, views[i], run[i].action.delay))
  {
    if j == i + 1 {
      assert Happens(l, views[i], run[i], views[j]);
      FailureHolds(l, views[i], run[i], views[j], run[j].world);
    } else {
      HoldLasts(l, views, run, i, j - 1);
      StepHolds(l, views[j - 1], run[j - 1], views[j], run[j].world,
                HoldUntil(l, run[i].world, views[i], run[i].action.delay));
    }
  }

  /** A periodic mark that is not new was there before, and the key was neither handed out nor forgotten. */
  lemma MarkStays(l: Limits, v: View, e: Event, v': View)
    requires Happens(l, v, e, v') && v'.periodic && !(e.action.PeriodicWrite? && !v.deleted)
    ensures v.periodic && !e.action.Forget? && !HandsOut(e.world, v, e.action)
  {
  }

  /** A periodic mark stems from a request since the key was last handed out or forgotten. */
  lemma {:induction false} PeriodicRequested(l: Limits, views: seq<View>, run: seq<Event>, j: nat) returns (m: nat)
    requires ValidRun(l, views, run) && j <= |run| && !views[0].periodic && views[j].periodic
    ensures m < j && run[m].action.PeriodicWrite? && Accepts(views[m], run[m].action)
    ensures Undisturbed(l, views, run, m + 1, j)
  {
    if run[j - 1].action.PeriodicWrite? && !views[j - 1].deleted {
      m := j - 1;
    } else {
      MarkStays(l, views[j - 1], run[j - 1], views[j]);
      m := PeriodicRequested(l, views, run, j - 1);
    }
  }

  /** After an attempt failed at step i, the key's next hand-out at step j comes no earlier than the backoff
      allows, unless a periodic audit was requested since the hand-out before, or the key was forgotten. */
  lemma BackoffHolds(l: Limits, views: seq<View>, run: seq<Event>, i: nat, j: nat)
    requires ValidRun(l, views, run) && !views[0].periodic && i < j < |run| && Fails(views[i], run[i].action)
    requires HandsOut(run[j].world, views[j], run[j].action) && Undisturbed(l, views, run, i + 1, j)
    ensures run[j].world.now >= HoldUntil(l, run[i].world, views[i], run[i].action.delay)
         || exists m :: 0 <= m < j && run[m].action.PeriodicWrite? && Accepts(views[m], run[m].action)
              && Undisturbed(l, views, run, m + 1, j)
  {
    HoldLasts(l, views, run, i, j);
    if views[j].periodic {
      var m := PeriodicRequested(l, views, run, j);
    }
  }

  // ---- Runs of the whole queue ----------------------------------------------------------

  /** One lock region of the queue: an action on one key, or on every key at once. */
  datatype Region<K> = One(key: K, event: Event) | Every(event: Event)

  /** The region takes the views of all keys from `before` to `after`. */
  ghost predicate Performs<K(!new)>(l: Limits, before: K -> View, r: Region<K>, after: K -> View) {
    match r
    case One(k, e) => Happens(l, before(k), e, after(k)) && forall j :: j != k ==> after(j) == before(j)
    case Every(e) => forall j :: Happens(l, before(j), e, after(j))
  }

  /** What a region is for one key. */
  function EventFor<K(==)>(r: Region<K>, k: K): Event {
    if r.One? && r.key != k then Event(Elsewhere, r.event.world) else r.event
  }

  /** Regions one after the other, on a clock that does not go back. */
  ghost predicate Execution<K(!new)>(l: Limits, states: seq<K -> View>, regions: seq<Region<K>>) {
    && |states| == |regions| + 1
    && (forall i :: 0 <= i < |regions| ==> Performs(l, states[i], regions[i], states[i + 1]))
    && (forall i, j :: 0 <= i < j < |regions| ==> regions[i].event.world.now <= regions[j].event.world.now)
  }

  function ViewsOf<K>(states: seq<K -> View>, k: K): (r: seq<View>)
    ensures |r| == |states| && forall i :: 0 <= i < |states| ==> r[i] == states[i](k)
  {
    seq(|states|, i requires 0 <= i < |states| => states[i](k))
  }

  function EventsFor<K(==)>(regions: seq<Region<K>>, k: K): (r: seq<Event>)
    ensures |r| == |regions| && forall i :: 0 <= i < |regions| ==> r[i] == EventFor(regions[i], k)
  {
    seq(|regions|, i requires 0 <= i < |regions| => EventFor(regions[i], k))
  }

  lemma RegionForKey<K(!new)>(l: Limits, before: K -> View, r: Region<K>, after: K -> View, k: K)
    requires Performs(l, before, r, after)
    ensures Happens(l, before(k), EventFor(r, k), after(k))
  {
  }

  /** Every execution of the queue is, for each key, a run of that key. */
  lemma KeyRun<K(!new)>(l: Limits, states: seq<K -> View>, regions: seq<Region<K>>, k: K)
    requires Execution(l, states, regions)
    ensures ValidRun(l, ViewsOf(states, k), EventsFor(regions, k))
  {
    forall i | 0 <= i < |regions| ensures Happens(l, ViewsOf(states, k)[i], EventsFor(regions, k)[i],
      ViewsOf(states, k)[i + 1]) {
      RegionForKey(l, states[i], regions[i], states[i + 1], k);
    }
  }

  /** In an execution of the queue from its start, an accepted key is not lost. */
  lemma QueueKeepsWakeup<K(!new)>(l: Limits, states: seq<K -> View>, regions: seq<Region<K>>, k: K, i: nat, j: nat)
    requires Execution(l, states, regions) && states[0](k) == Fresh && i < j <= |regions|
    requires Accepts(states[i](k), EventFor(regions[i], k).action)
    requires forall n :: i <= n < j ==>
               Keeps(EventFor(regions[n], k).world, states[n](k), EventFor(regions[n], k).action)
    ensures Alive(states[j](k)) && Sound(l, states[j](k))
  {
    KeyRun(l, states, regions, k);
    NoLostWakeup(l, ViewsOf(states, k), EventsFor(regions, k), i, j);
    RunSound(l, ViewsOf(states, k), EventsFor(regions, k), j);
  }

  /** Nor is it handed out before its backoff ends, unless a periodic audit was requested. */
  lemma QueueBacksOff<K(!new)>(l: Limits, states: seq<K -> View>, regions: seq<Region<K>>, k: K, i: nat, j: nat)
    requires Execution(l, states, regions) && states[0](k) == Fresh && i < j < |regions|
    requires Fails(states[i](k), EventFor(regions[i], k).action)
    requires HandsOut(EventFor(regions[j], k).world, states[j](k), EventFor(regions[j], k).action)
    requires Undisturbed(l, ViewsOf(states, k), EventsFor(regions, k), i + 1, j)
    ensures var e := EventFor(regions[i], k);
            || EventFor(regions[j], k).world.now >= HoldUntil(l, e.world, states[i](k), e.action.delay)
            || exists m :: 0 <= m < j && EventFor(regions[m], k).action.PeriodicWrite?
                           && Undisturbed(l, ViewsOf(states, k), EventsFor(regions, k), m + 1, j)
  {
    KeyRun(l, states, regions, k);
    BackoffHolds(l, ViewsOf(states, k), EventsFor(regions, k), i, j);
  }
}
