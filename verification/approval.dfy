/** Approval of change plans: a stored plan object with resource versions, edited by anybody at any time, and
    a runner that applies operations only under an approved plan. */
module Approval {
  import opened Text

  datatype Phase = PendingApproval | Approved | Applying | Succeeded | Failed | Stale | Interrupted

  predicate Terminal(p: Phase) { p == Succeeded || p == Failed || p == Stale || p == Interrupted }

  /** A change plan. The object name is derived from the hash, so one name stands for one hash here. */
  datatype Plan = Plan(uid: string, hash: string, phase: Phase, annotation: string, expires: Option<int>,
      deleting: bool, rv: nat)

  /** RequireExactApproval: not terminal, not expired now, approved with exactly its own hash. */
  predicate ExactlyApproved(p: Plan, now: int) {
    && !Terminal(p.phase) && (p.expires.Some? ==> now < p.expires.value)
    && p.annotation != "" && p.annotation == p.hash
  }

  /** What updateApprovedPhase checks of the plan it has just read. */
  predicate StillApproved(current: Plan, expected: Plan, now: int) {
    current.uid == expected.uid && current.hash == expected.hash && !current.deleting && ExactlyApproved(current, now)
  }

  /** Where the runner stands. `want` is the hash of the plan it built. */
  datatype Local =
    | Idle
    | Persisted(want: string, plan: Plan)                   // to check the approval of the persisted plan
    | Marking(want: string, plan: Plan)                     // to read the plan for MarkApproved
    | MarkWriting(want: string, plan: Plan, current: Plan)  // to write phase Approved
    | Rebuilding(want: string, plan: Plan)                  // to build the plan again
    | Beginning(want: string, plan: Plan)                   // to read the plan for BeginApprovedApply
    | BeginWriting(want: string, plan: Plan, current: Plan) // to write phase Applying
    | Ready(want: string, plan: Plan)                       // to apply the operations
  {
    function Read(): Option<Plan> { if MarkWriting? || BeginWriting? then Some(current) else None }
  }

  datatype World = World(stored: Option<Plan>, nextRv: nat, now: int, local: Local)

  /** Time passes; anybody creates, edits, deletes or replaces the plan; the runner persists a plan, takes its next
      step, or gives up. */
  datatype Event =
    | Tick(until: int)
    | Edit(plan: Option<Plan>)
    | Persist(want: string)
    | Step(rebuilt: string)
    | GiveUp

  /** The phase write with the version of what was read; a conflict means to read again. */
  function Written(w: World, current: Plan, phase: Phase, done: Local, again: Local): World {
    if w.stored.None? then w.(local := Idle)
    else if w.stored.value.rv != current.rv then w.(local := again)
    else w.(stored := Some(current.(phase := phase, rv := w.nextRv)), nextRv := w.nextRv + 1, local := done)
  }

  function RunnerStep(w: World, rebuilt: string): World {
    match w.local
    case Persisted(want, plan) => w.(local := if ExactlyApproved(plan, w.now) then Marking(want, plan) else Idle)
    case Marking(want, plan) =>
      if w.stored.Some? && StillApproved(w.stored.value, plan, w.now)
      then w.(local := MarkWriting(want, plan, w.stored.value))
      else w.(local := Idle)
    case MarkWriting(want, plan, current) => Written(w, current, Approved, Rebuilding(want, plan), Marking(want, plan))
    case Rebuilding(want, plan) => w.(local := if rebuilt != "" && rebuilt == want then Beginning(want, plan) else Idle)
    case Beginning(want, plan) =>
      if w.stored.Some? && StillApproved(w.stored.value, plan, w.now)
      then w.(local := BeginWriting(want, plan, w.stored.value))
      else w.(local := Idle)
    case BeginWriting(want, plan, current) => Written(w, current, Applying, Ready(want, plan), Beginning(want, plan))
    case Ready(_, _) => w.(local := Idle)
    case Idle => w
  }

  function After(w: World, e: Event): World {
    match e
    case Tick(until) => if until > w.now then w.(now := until) else w
    case Edit(plan) =>
      if plan.None? then w.(stored := None)
      else w.(stored := Some(plan.value.(rv := w.nextRv)), nextRv := w.nextRv + 1)
    case Persist(want) =>
      if w.local == Idle && w.stored.Some? && w.stored.value.hash == want && !Terminal(w.stored.value.phase)
      then w.(local := Persisted(want, w.stored.value))
      else w
    case Step(rebuilt) => RunnerStep(w, rebuilt)
    case GiveUp => w.(local := Idle)
  }

  /** What the runner has read is the stored plan whenever the versions agree, and it wants the hash of its plan. */
  predicate Good(w: World) {
    && (w.stored.Some? ==> w.stored.value.rv < w.nextRv)
    && (w.local.Read().Some? ==>
          w.local.current.rv < w.nextRv && (w.stored.Some? && w.stored.value.rv == w.local.current.rv ==>
            w.stored.value == w.local.current))
    && (w.local != Idle ==> w.local.plan.hash == w.local.want)
  }

  lemma AfterGood(w: World, e: Event)
    requires Good(w)
    ensures Good(After(w, e))
  {
  }

  ghost predicate ValidRun(worlds: seq<World>, events: seq<Event>) {
    |worlds| == |events| + 1 && Good(worlds[0]) && worlds[0].local == Idle && forall i :: 0 <= i < |events| ==>
      worlds[i + 1] == After(worlds[i], events[i])
  }

  lemma {:induction false} RunGood(worlds: seq<World>, events: seq<Event>, n: nat)
    requires ValidRun(worlds, events) && n < |worlds|
    ensures Good(worlds[n])
  {
    if n > 0 {
      RunGood(worlds, events, n - 1);
      AfterGood(worlds[n - 1], events[n - 1]);
    }
  }

  // ---- How the runner comes to apply ----------------------------------------------------

  /** Event m is the status write that begins the apply: at that moment the stored plan is the one that was checked,
      with the runner's UID and hash, live, not terminal and approved with exactly that hash. */
  ghost predicate Begins(worlds: seq<World>, events: seq<Event>, m: int, want: string, plan: Plan)
    requires |worlds| == |events| + 1
  {
    && 0 <= m < |events| && events[m].Step? && worlds[m].local.BeginWriting? && worlds[m].stored.Some?
    && var p := worlds[m].stored.value;
       && worlds[m].local == BeginWriting(want, plan, p)
       && p.uid == plan.uid && p.hash == plan.hash == want && !p.deleting && !Terminal(p.phase) && p.annotation == want
       && worlds[m + 1].stored == Some(p.(phase := Applying, rv := worlds[m].nextRv))
  }

  /** Event k reads the plan that was written later, and finds it the runner's, live, not terminal, approved with
      exactly its hash and unexpired. */
  ghost predicate Checks(worlds: seq<World>, events: seq<Event>, k: int, want: string, plan: Plan, current: Plan)
    requires |worlds| == |events| + 1
  {
    && 0 <= k < |events| && events[k].Step? && worlds[k].local == Beginning(want, plan)
    && worlds[k].stored == Some(current) && current.uid == plan.uid && current.hash == plan.hash && !current.deleting
    && !Terminal(current.phase) && current.annotation != "" && current.annotation == current.hash
    && (current.expires.Some? ==> worlds[k].now < current.expires.value)
  }

  /** Event r builds the plan again and gets the same hash. */
  ghost predicate Rebuilds(worlds: seq<World>, events: seq<Event>, r: int, want: string, plan: Plan)
    requires |worlds| == |events| + 1
  {
    0 <= r < |events| && events[r] == Step(want) && worlds[r].local == Rebuilding(want, plan) && want != ""
  }

  lemma {:induction false} ReadyHasBegun(worlds: seq<World>, events: seq<Event>, n: nat) returns (m: nat)
    requires ValidRun(worlds, events) && n < |worlds| && worlds[n].local.Ready?
    ensures m < n && worlds[m].local.BeginWriting? && worlds[m + 1].local == worlds[n].local
    ensures events[m].Step? && worlds[m].stored.Some? && worlds[m].stored.value.rv == worlds[m].local.current.rv
    ensures worlds[m].local.want == worlds[n].local.want && worlds[m].local.plan == worlds[n].local.plan
  {
    if worlds[n - 1].local == worlds[n].local { m := ReadyHasBegun(worlds, events, n - 1); }
    else { m := n - 1; }
  }

  lemma {:induction false} WritingWasChecked(worlds: seq<World>, events: seq<Event>, n: nat) returns (k: nat)
    requires ValidRun(worlds, events) && n < |worlds| && worlds[n].local.BeginWriting?
    ensures k < n && Checks(worlds, events, k, worlds[n].local.want, worlds[n].local.plan, worlds[n].local.current)
  {
    if worlds[n - 1].local == worlds[n].local { k := WritingWasChecked(worlds, events, n - 1); }
    else { k := n - 1; }
  }

  predicate Finishing(l: Local) { l.Beginning? || l.BeginWriting? || l.Ready? }

  lemma {:induction false} FinishingWasRebuilt(worlds: seq<World>, events: seq<Event>, n: nat) returns (r: nat)
    requires ValidRun(worlds, events) && n < |worlds| && Finishing(worlds[n].local)
    ensures r < n && Rebuilds(worlds, events, r, worlds[n].local.want, worlds[n].local.plan)
  {
    if Finishing(worlds[n - 1].local) { r := FinishingWasRebuilt(worlds, events, n - 1); }
    else { r := n - 1; }
  }

  /** The runner comes to apply only after, in this order, a rebuild with the same hash, a check that found the plan
      approved and unexpired, and the status write of exactly the checked plan. */
  lemma ApplyIsApproved(worlds: seq<World>, events: seq<Event>, n: nat) returns (r: nat, k: nat, m: nat)
    requires ValidRun(worlds, events) && n < |worlds| && worlds[n].local.Ready?
    ensures r < k < m < n
    ensures Rebuilds(worlds, events, r, worlds[n].local.want, worlds[n].local.plan)
    ensures Begins(worlds, events, m, worlds[n].local.want, worlds[n].local.plan)
    ensures Checks(worlds, events, k, worlds[n].local.want, worlds[n].local.plan, worlds[m].stored.value)
  {
    m := ReadyHasBegun(worlds, events, n);
    RunGood(worlds, events, m);
    k := WritingWasChecked(worlds, events, m);
    r := FinishingWasRebuilt(worlds, events, k);
    assert worlds[m].stored == Some(worlds[m].local.current);
  }

  // ---- When an undisturbed runner applies -----------------------------------------------

  /** The runner persists the plan of this hash and takes six steps, and nobody else does anything. */
  function Undisturbed(w: World, want: string, n: nat): World {
    if n == 0 then After(w, Persist(want)) else After(Undisturbed(w, want, n - 1), Step(want))
  }

  /** The stored plan has the wanted hash, is live, not terminal, unexpired, and approved with exactly that hash. */
  predicate Applicable(w: World, want: string) {
    && w.stored.Some? && want != ""
    && var p := w.stored.value;
       && p.hash == want && p.annotation == want && !p.deleting && (p.expires.Some? ==> w.now < p.expires.value)
       && (p.phase == PendingApproval || p.phase == Approved || p.phase == Applying)
  }

  lemma StartsMarking(w: World, want: string)
    requires w.local == Idle
    ensures var u := Undisturbed(w, want, 3);
            if Applicable(w, want) then
              u == w.(stored := Some(w.stored.value.(phase := Approved, rv := w.nextRv)), nextRv := w.nextRv + 1,
                      local := Rebuilding(want, w.stored.value))
            else u.local == Idle && u.stored == w.stored
  {
    assert Undisturbed(w, want, 1) == After(After(w, Persist(want)), Step(want));
    assert Undisturbed(w, want, 2) == After(Undisturbed(w, want, 1), Step(want));
    assert Undisturbed(w, want, 3) == After(Undisturbed(w, want, 2), Step(want));
  }

  /** It comes to apply if and only if the plan is applicable, and the plan is then marked as approved and begun once
      each; otherwise the stored plan is as it was. */
  lemma AppliesExactly(w: World, want: string)
    requires w.local == Idle
    ensures var u := Undisturbed(w, want, 6);
            && (u.local.Ready? <==> Applicable(w, want))
            && (if u.local.Ready? then u.stored == Some(w.stored.value.(phase := Applying, rv := w.nextRv + 1))
                else u.local == Idle && u.stored == w.stored)
  {
    StartsMarking(w, want);
    assert Undisturbed(w, want, 4) == After(Undisturbed(w, want, 3), Step(want));
    assert Undisturbed(w, want, 5) == After(Undisturbed(w, want, 4), Step(want));
    assert Undisturbed(w, want, 6) == After(Undisturbed(w, want, 5), Step(want));
  }

  // ---- Expiry ---------------------------------------------------------------------------

  /** The plan has not expired at the moment of the write. */
  predicate FreshAtWrite(w: World) {
    w.stored.Some? && (w.stored.value.expires.Some? ==> w.now < w.stored.value.expires.value)
  }

  /** Expiry is looked at when the plan is read. A clock that passes the deadline between the read and the write lets
      an expired plan begin. */
  lemma ExpiredPlanBegins(w: World, until: int)
    requires w.local.Beginning? && w.stored.Some? && StillApproved(w.stored.value, w.local.plan, w.now)
    requires w.stored.value.expires.Some? && until >= w.stored.value.expires.value
    ensures var w1 := After(w, Step("")); var w2 := After(w1, Tick(until)); var w3 := After(w2, Step(""));
            w1.local.BeginWriting? && !FreshAtWrite(w2) && w3.local.Ready? && w3.stored.value.phase == Applying
  {
  }

  /** The write is fresh however late it comes exactly for plans without an expiry time, which is how the runner
      persists its plans. */
  lemma FreshHoweverLate(w: World)
    requires w.local.Beginning? && w.stored.Some? && StillApproved(w.stored.value, w.local.plan, w.now)
    ensures (forall until :: FreshAtWrite(After(After(w, Step("")), Tick(until)))) <==> w.stored.value.expires.None?
  {
    if w.stored.value.expires.Some? {
      ExpiredPlanBegins(w, w.stored.value.expires.value);
    }
  }
}
