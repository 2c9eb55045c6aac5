/** What holds in every run of the claim protocol, whatever the interleaving, crashes and lost responses. */
module ClaimSafety {
  import opened Text
  import opened Claims

  /** The shared state and where the one process of each controller stands. */
  datatype World = World(shared: Shared, locals: map<Controller, Local>)

  function Of(w: World, c: Controller): Local { if c in w.locals then w.locals[c] else Idle }

  /** A process starts a create, a mutation of an existing row or a recovery, makes its next call, or crashes;
      somebody else edits the device. */
  datatype Event =
    | Begin(who: Controller, task: Local)
    | Call(who: Controller, choice: Choice)
    | Crash(who: Controller)
    | Outside(device: Snapshot)

  predicate IsTask(l: Local) { l.Listing? || l.Fetching? || l.Recovering? }

  /** Edits by others may change or remove rows of the record but do not add any. */
  predicate NoNewRows(was: Snapshot, now: Snapshot) { now.rows.Keys <= was.rows.Keys }

  /** The effect and the caller's view of one call. */
  ghost function Called(s: Shared, c: Controller, l: Local, ch: Choice): (Shared, Local) {
    if ch.fails then (s, Idle)
    else
      var (s', l') := Step(s, c, l, ch);
      (s', if ch.lost && !l.Posting? then Idle else l')
  }

  ghost function After(w: World, e: Event): World {
    match e
    case Begin(c, task) => if Of(w, c) == Idle && IsTask(task) then w.(locals := w.locals[c := task]) else w
    case Call(c, ch) =>
      var (s, l) := Called(w.shared, c, Of(w, c), ch);
      World(s, w.locals[c := l])
    case Crash(c) => w.(locals := w.locals[c := Idle])
    case Outside(device) => if NoNewRows(w.shared.device, device) then w.(shared := w.shared.(device := device)) else w
  }

  // ---- The invariant --------------------------------------------------------------------

  /** A remembered claim is the stored one whenever the versions agree. */
  predicate CopyOk(s: Shared, l: Local) {
    l.Copy().Some? ==> l.Copy().value.rv < s.nextRv && (Current(s, l.Copy().value) ==> s.claim.value == l.Copy().value)
  }

  /** What a process knows about the claim it remembers at each point. */
  predicate Entitled(c: Controller, l: Local) {
    match l
    case Probing(_, k) => k.phase == Orphaned && k.controller == c
    case Resetting(_, k) => k.phase == Orphaned && k.controller == c
    case Finalizing(f, k) => k.controller == c && k.stamp == f
    case Reserving(f, k) => k.controller == c && k.stamp == f && (k.phase == NoPhase || k.phase == Orphaned)
    case Looking(f, k) => k.controller == c && k.stamp == f && (k.phase == Reserved || k.phase == Confirmed)
    case Posting(f, k) => k.controller == c && k.stamp == f && k.phase == Reserved
    case Relisting(f, k) => k.controller == c && k.stamp == f && k.phase == Reserved
    case Refreshing(f, k, _) => k.controller == c && k.stamp == f && k.phase == Reserved
    case Confirming(k, _) => k.controller == c || k.phase == Confirmed
    case Binding(k, _) => (k.controller == c || k.phase == Confirmed) && Confirmable(k) && k.bound.None?
    case Sealing(k) => (k.controller == c || k.phase == Confirmed) && Confirmable(k)
    case Orphaning(k, _, _) => k.phase == Confirmed
    case Releasing(k, _) => k.phase == Orphaned
    case Removing(k) => k.phase == Orphaned
    case Authorizing(_, _, k, _) => k.phase == Confirmed
    case Mutating(_, _, k, _) => k.phase == Confirmed
    case Auditing(_, _, k) => k.phase == Confirmed
    case Reconciling(k, _, _) => k.phase == Confirmed || (k.phase == Reserved && k.controller == c)
    case Rebinding(k, _, _) => k.phase == Confirmed
    case Rechecking(_, _, k) => k.controller == c && (k.phase == Reserved || k.phase == Confirmed)
    case _ => true
  }

  /** Between reserving and confirming, a process works under its own reservation. */
  predicate UnderReservation(l: Local) {
    (l.Looking? && l.claim.phase == Reserved) || l.Posting? || l.Relisting? || l.Refreshing?
  }

  /** The reservation is still there, or somebody has marked it as a conflict. */
  predicate Firm(s: Shared, c: Controller, l: Local) {
    UnderReservation(l) ==>
      s.claim.Some? && s.claim.value.controller == c
        && (s.claim.value.rv == l.Copy().value.rv || s.claim.value.phase == InConflict)
  }

  predicate LocalGood(s: Shared, c: Controller, l: Local) { CopyOk(s, l) && Entitled(c, l) && Firm(s, c, l) }

  predicate StoreGood(s: Shared) { s.claim.Some? ==> s.claim.value.rv < s.nextRv }

  ghost predicate Good(w: World) { StoreGood(w.shared) && forall c :: LocalGood(w.shared, c, Of(w, c)) }

  // ---- What one call may do to the claim ------------------------------------------------

  /** The changes of the claim that a call of controller c may make. */
  predicate ClaimMove(s: Shared, c: Controller, s': Shared) {
    || (s'.claim == s.claim && s'.nextRv == s.nextRv)
    || (s.claim.None? && s'.claim.Some? && s'.claim.value.controller == c && s'.claim.value.rv == s.nextRv
      && s'.nextRv == s.nextRv + 1)
    || (s.claim.Some? && s'.claim.None? && s.claim.value.phase == Orphaned && s'.nextRv == s.nextRv)
    || (s.claim.Some? && s'.claim.Some? && Rewrites(s.claim.value, c, s'.claim.value) && s'.claim.value.rv == s.nextRv
      && s'.nextRv == s.nextRv + 1)
  }

  /** The life of a claim: reserved, confirmed, orphaned, reserved again, and at any time in conflict for good. */
  predicate Lifecycle(p: Phase, q: Phase) {
    || q == p || q == InConflict
    || (q == Reserved && (p == NoPhase || p == Orphaned))
    || (q == Confirmed && (p == Reserved || p == Orphaned))
    || (q == Orphaned && p == Confirmed)
  }

  /** A rewrite keeps the controller and the life cycle. Another controller's reservation can only become a conflict; a
      bound row stays bound until its claim is orphaned; the recorded state changes only for a confirmed row or for the
      owner's new reservation; and the finalizer goes only from an orphaned claim. */
  predicate Rewrites(k: Claim, c: Controller, k': Claim) {
    && k'.controller == k.controller && Lifecycle(k.phase, k'.phase)
    && (k.phase == Reserved && k.controller != c ==> k'.phase == InConflict)
    && (k.bound.Some? && k.phase != Orphaned ==> k'.bound == k.bound)
    && (k'.stamp != k.stamp ==> k.phase == Confirmed || (k.phase == Orphaned && k.controller == c))
    && (k.finalizer && !k'.finalizer ==> k.phase == Orphaned)
  }

  /** A guarded write made from a true copy. */
  lemma ThenGood(s: Shared, c: Controller, k: Claim, written: Claim, go: Claim -> Local)
    requires StoreGood(s) && (Current(s, k) ==> s.claim.value == k)
    requires Rewrites(k, c, written)
    ensures var (s', l') := Then(s, k, written, go);
            && ClaimMove(s, c, s') && s'.device == s.device && StoreGood(s')
            && (l' == Idle || (s'.claim == Some(written.(rv := s.nextRv)) && s'.nextRv == s.nextRv + 1
              && l' == go(written.(rv := s.nextRv))))
  {
  }

  /** A call of a process moves the claim as allowed, leaves its process knowing what it must, and adds rows only by a
      POST. */
  ghost predicate StepOk(s: Shared, c: Controller, l: Local, ch: Choice) {
    var (s', l') := Step(s, c, l, ch);
    ClaimMove(s, c, s') && LocalGood(s', c, l') && (l.Posting? || NoNewRows(s.device, s'.device))
  }

  lemma ListingGood(s: Shared, c: Controller, l: Local, ch: Choice)
    requires StoreGood(s) && LocalGood(s, c, l) && (l.Listing? || l.Creating?)
    ensures StepOk(s, c, l, ch)
  {
  }

  lemma ProbingGood(s: Shared, c: Controller, l: Local, ch: Choice)
    requires StoreGood(s) && LocalGood(s, c, l) && l.Probing?
    ensures StepOk(s, c, l, ch)
  {
  }

  lemma ResettingGood(s: Shared, c: Controller, f: Stamp, k: Claim, ch: Choice)
    requires StoreGood(s) && LocalGood(s, c, Resetting(f, k))
    ensures StepOk(s, c, Resetting(f, k), ch)
  {
    ThenGood(s, c, k, k.(bound := None, stamp := f, finalizer := true), u => Reserving(f, u));
  }

  lemma FinalizingGood(s: Shared, c: Controller, f: Stamp, k: Claim, ch: Choice)
    requires StoreGood(s) && LocalGood(s, c, Finalizing(f, k))
    ensures StepOk(s, c, Finalizing(f, k), ch)
  {
    ThenGood(s, c, k, k.(finalizer := true), u => Admit(f, u));
  }

  lemma ReservingGood(s: Shared, c: Controller, f: Stamp, k: Claim, ch: Choice)
    requires StoreGood(s) && LocalGood(s, c, Reserving(f, k))
    ensures StepOk(s, c, Reserving(f, k), ch)
  {
    ThenGood(s, c, k, k.(phase := Reserved), u => Looking(f, u));
  }

  lemma LookingGood(s: Shared, c: Controller, l: Local, ch: Choice)
    requires StoreGood(s) && LocalGood(s, c, l) && (l.Looking? || l.Refreshing?)
    ensures StepOk(s, c, l, ch)
  {
  }

  lemma PostingGood(s: Shared, c: Controller, l: Local, ch: Choice)
    requires StoreGood(s) && LocalGood(s, c, l) && (l.Posting? || l.Relisting?)
    ensures StepOk(s, c, l, ch)
  {
  }

  lemma ConfirmingGood(s: Shared, c: Controller, l: Local, ch: Choice)
    requires StoreGood(s) && LocalGood(s, c, l) && l.Confirming?
    ensures StepOk(s, c, l, ch)
  {
  }

  lemma BindingGood(s: Shared, c: Controller, k: Claim, id: Id, ch: Choice)
    requires StoreGood(s) && LocalGood(s, c, Binding(k, id))
    ensures StepOk(s, c, Binding(k, id), ch)
  {
    ThenGood(s, c, k, k.(bound := Some(id)), u => Sealing(u));
  }

  lemma SealingGood(s: Shared, c: Controller, k: Claim, ch: Choice)
    requires StoreGood(s) && LocalGood(s, c, Sealing(k))
    ensures StepOk(s, c, Sealing(k), ch)
  {
    ThenGood(s, c, k, k.(phase := Confirmed), u => Idle);
  }

  lemma MarkingGood(s: Shared, c: Controller, k: Claim, ch: Choice)
    requires StoreGood(s) && LocalGood(s, c, Marking(k))
    ensures StepOk(s, c, Marking(k), ch)
  {
    ThenGood(s, c, k, k.(phase := InConflict), u => Idle);
  }

  lemma OrphaningGood(s: Shared, c: Controller, k: Claim, seen: Snapshot, release: bool, ch: Choice)
    requires StoreGood(s) && LocalGood(s, c, Orphaning(k, seen, release))
    ensures StepOk(s, c, Orphaning(k, seen, release), ch)
  {
    ThenGood(s, c, k, k.(phase := Orphaned), u => if release then Releasing(u, seen) else Idle);
  }

  lemma ReleasingGood(s: Shared, c: Controller, k: Claim, seen: Snapshot, ch: Choice)
    requires StoreGood(s) && LocalGood(s, c, Releasing(k, seen))
    ensures StepOk(s, c, Releasing(k, seen), ch)
  {
    ThenGood(s, c, k, k.(finalizer := false), u => Removing(u));
  }

  lemma RemovingGood(s: Shared, c: Controller, k: Claim, ch: Choice)
    requires StoreGood(s) && LocalGood(s, c, Removing(k))
    ensures StepOk(s, c, Removing(k), ch)
  {
  }

  lemma FetchingGood(s: Shared, c: Controller, l: Local, ch: Choice)
    requires StoreGood(s) && LocalGood(s, c, l) && (l.Fetching? || l.Sampling? || l.Verifying?)
    ensures StepOk(s, c, l, ch)
  {
  }

  lemma AuthorizingGood(s: Shared, c: Controller, l: Local, ch: Choice)
    requires StoreGood(s) && LocalGood(s, c, l) && l.Authorizing?
    ensures StepOk(s, c, l, ch)
  {
  }

  lemma MutatingGood(s: Shared, c: Controller, l: Local, ch: Choice)
    requires StoreGood(s) && LocalGood(s, c, l) && (l.Mutating? || l.Auditing?)
    ensures StepOk(s, c, l, ch)
  {
  }

  lemma ReconcilingGood(s: Shared, c: Controller, l: Local, ch: Choice)
    requires StoreGood(s) && LocalGood(s, c, l) && l.Reconciling?
    ensures StepOk(s, c, l, ch)
  {
  }

  lemma RebindingGood(s: Shared, c: Controller, k: Claim, id: Id, f: Stamp, ch: Choice)
    requires StoreGood(s) && LocalGood(s, c, Rebinding(k, id, f))
    ensures StepOk(s, c, Rebinding(k, id, f), ch)
  {
    ThenGood(s, c, k, k.(stamp := f), u => Sealing(u));
  }

  lemma RecoveringGood(s: Shared, c: Controller, l: Local, ch: Choice)
    requires StoreGood(s) && LocalGood(s, c, l) && (l.Recovering? || l.Rechecking?)
    ensures StepOk(s, c, l, ch)
  {
  }

  lemma StepGood(s: Shared, c: Controller, l: Local, ch: Choice)
    requires StoreGood(s) && LocalGood(s, c, l)
    ensures StepOk(s, c, l, ch)
  {
    match l
    case Idle =>
    case Listing(_) => ListingGood(s, c, l, ch);
    case Creating(_) => ListingGood(s, c, l, ch);
    case Probing(_, _) => ProbingGood(s, c, l, ch);
    case Resetting(f, k) => ResettingGood(s, c, f, k, ch);
    case Finalizing(f, k) => FinalizingGood(s, c, f, k, ch);
    case Reserving(f, k) => ReservingGood(s, c, f, k, ch);
    case Looking(_, _) => LookingGood(s, c, l, ch);
    case Refreshing(_, _, _) => LookingGood(s, c, l, ch);
    case Posting(_, _) => PostingGood(s, c, l, ch);
    case Relisting(_, _) => PostingGood(s, c, l, ch);
    case Confirming(_, _) => ConfirmingGood(s, c, l, ch);
    case Binding(k, id) => BindingGood(s, c, k, id, ch);
    case Sealing(k) => SealingGood(s, c, k, ch);
    case Marking(k) => MarkingGood(s, c, k, ch);
    case Orphaning(k, seen, release) => OrphaningGood(s, c, k, seen, release, ch);
    case Releasing(k, seen) => ReleasingGood(s, c, k, seen, ch);
    case Removing(k) => RemovingGood(s, c, k, ch);
    case Fetching(_, _) => FetchingGood(s, c, l, ch);
    case Sampling(_, _, _) => FetchingGood(s, c, l, ch);
    case Verifying(_, _, _, _) => FetchingGood(s, c, l, ch);
    case Authorizing(_, _, _, _) => AuthorizingGood(s, c, l, ch);
    case Mutating(_, _, _, _) => MutatingGood(s, c, l, ch);
    case Auditing(_, _, _) => MutatingGood(s, c, l, ch);
    case Reconciling(_, _, _) => ReconcilingGood(s, c, l, ch);
    case Rebinding(k, id, f) => RebindingGood(s, c, k, id, f, ch);
    case Recovering(_, _) => RecoveringGood(s, c, l, ch);
    case Rechecking(_, _, _) => RecoveringGood(s, c, l, ch);
  }

  lemma CalledGood(s: Shared, c: Controller, l: Local, ch: Choice)
    requires StoreGood(s) && LocalGood(s, c, l)
    ensures var (s', l') := Called(s, c, l, ch);
            ClaimMove(s, c, s') && LocalGood(s', c, l') && (l.Posting? || NoNewRows(s.device, s'.device))
  {
    StepGood(s, c, l, ch);
  }

  /** What a process knows stays true while another one moves the claim. */
  lemma OthersGood(s: Shared, s': Shared, c: Controller, d: Controller, l: Local)
    requires StoreGood(s) && ClaimMove(s, c, s') && c != d && LocalGood(s, d, l)
    ensures LocalGood(s', d, l)
  {
  }

  /** The invariant holds after every event. */
  lemma AfterGood(w: World, e: Event)
    requires Good(w)
    ensures Good(After(w, e))
  {
    var w' := After(w, e);
    if e.Call? {
      CalledGood(w.shared, e.who, Of(w, e.who), e.choice);
      forall d ensures LocalGood(w'.shared, d, Of(w', d)) {
        if d != e.who {
          assert Of(w', d) == Of(w, d);
          OthersGood(w.shared, w'.shared, e.who, d, Of(w, d));
        }
      }
    } else {
      forall d ensures LocalGood(w'.shared, d, Of(w', d)) { assert LocalGood(w.shared, d, Of(w, d)); }
    }
  }

  // ---- Claims are never taken over, conflicts are never left ----------------------------

  /** Over one event, a claim keeps its controller, a conflict stays one and is not removed, and another controller's
      reservation survives or becomes a conflict. */
  lemma ClaimAuthority(w: World, e: Event)
    requires Good(w) && w.shared.claim.Some?
    ensures var k, k' := w.shared.claim.value, After(w, e).shared.claim;
            && (k'.Some? ==> k'.value.controller == k.controller)
            && (k.phase == InConflict ==> k'.Some? && k'.value.phase == InConflict)
            && (k.phase == Reserved ==> k'.Some?)
  {
    if e.Call? { CalledGood(w.shared, e.who, Of(w, e.who), e.choice); }
  }

  ghost predicate ValidRun(worlds: seq<World>, events: seq<Event>) {
    |worlds| == |events| + 1 && Good(worlds[0]) && forall i :: 0 <= i < |events| ==>
      worlds[i + 1] == After(worlds[i], events[i])
  }

  lemma {:induction false} RunGood(worlds: seq<World>, events: seq<Event>, n: nat)
    requires ValidRun(worlds, events) && n < |worlds|
    ensures Good(worlds[n])
  {
    if n > 0 {
      RunGood(worlds, events, n - 1);
      AfterGood(worlds[n - 1], events[n - 1]);
    }
  }

  /** The store holds a claim at every point between i and j. */
  ghost predicate Present(worlds: seq<World>, i: nat, j: nat)
    requires i <= j < |worlds|
  {
    forall k :: i <= k <= j ==> worlds[k].shared.claim.Some?
  }

  /** In a whole run, while the claim exists it has one controller. */
  lemma {:induction false} ControllerNeverChanges(worlds: seq<World>, events: seq<Event>, i: nat, j: nat)
    requires ValidRun(worlds, events) && i <= j < |worlds| && Present(worlds, i, j)
    ensures worlds[j].shared.claim.value.controller == worlds[i].shared.claim.value.controller
  {
    if i < j {
      ControllerNeverChanges(worlds, events, i, j - 1);
      RunGood(worlds, events, j - 1);
      ClaimAuthority(worlds[j - 1], events[j - 1]);
    }
  }

  /** In a whole run, a conflict stays a conflict of the same controller. */
  lemma {:induction false} ConflictNeverLeft(worlds: seq<World>, events: seq<Event>, i: nat, j: nat)
    requires ValidRun(worlds, events) && i <= j < |worlds|
    requires worlds[i].shared.claim.Some? && worlds[i].shared.claim.value.phase == InConflict
    ensures worlds[j].shared.claim.Some? && worlds[j].shared.claim.value.phase == InConflict
    ensures worlds[j].shared.claim.value.controller == worlds[i].shared.claim.value.controller
  {
    if i < j {
      ConflictNeverLeft(worlds, events, i, j - 1);
      RunGood(worlds, events, j - 1);
      ClaimAuthority(worlds[j - 1], events[j - 1]);
    }
  }

  /** Over one event, a claim stays, moves on in its life cycle, or is removed as an orphan. */
  lemma ClaimLives(w: World, e: Event)
    requires Good(w) && w.shared.claim.Some?
    ensures var k, k' := w.shared.claim.value, After(w, e).shared.claim;
            && (k'.None? ==> k.phase == Orphaned)
            && (k'.Some? ==> k'.value == k || (e.Call? && Rewrites(k, e.who, k'.value)))
  {
    if e.Call? { CalledGood(w.shared, e.who, Of(w, e.who), e.choice); }
  }

  /** In a whole run, a claim that is bound to a row and never orphaned stays bound to that row. */
  lemma {:induction false} BoundRowStays(worlds: seq<World>, events: seq<Event>, i: nat, j: nat)
    requires ValidRun(worlds, events) && i <= j < |worlds| && worlds[i].shared.claim.Some?
    requires worlds[i].shared.claim.value.bound.Some?
    requires forall k :: i <= k < j && worlds[k].shared.claim.Some? ==> worlds[k].shared.claim.value.phase != Orphaned
    ensures worlds[j].shared.claim.Some?
    ensures worlds[j].shared.claim.value.bound == worlds[i].shared.claim.value.bound
  {
    if i < j {
      BoundRowStays(worlds, events, i, j - 1);
      RunGood(worlds, events, j - 1);
      ClaimLives(worlds[j - 1], events[j - 1]);
    }
  }

  // ---- Exactly-once create --------------------------------------------------------------

  predicate AtMostOne(rows: map<Id, Stamp>) { forall i, j :: i in rows && j in rows ==> i == j }

  /** At most one row, and none while a process is about to POST. */
  ghost predicate Once(w: World) {
    AtMostOne(w.shared.device.rows) && forall c :: Of(w, c).Posting? ==> w.shared.device.rows == map[]
  }

  /** No two processes are about to POST. */
  lemma OnePoster(w: World, c: Controller, d: Controller)
    requires Good(w) && Of(w, c).Posting? && Of(w, d).Posting?
    ensures c == d
  {
    assert LocalGood(w.shared, c, Of(w, c)) && LocalGood(w.shared, d, Of(w, d));
  }

  lemma PostAddsOne(s: Shared, c: Controller, l: Local, ch: Choice)
    requires l.Posting? && s.device.rows == map[]
    ensures var (s', l') := Called(s, c, l, ch); AtMostOne(s'.device.rows) && !l'.Posting?
  {
  }

  /** A process comes to POST only when it sees no row. */
  lemma PosterSeesNone(s: Shared, c: Controller, l: Local, ch: Choice)
    requires !l.Posting?
    ensures var (s', l') := Called(s, c, l, ch); l'.Posting? ==> s'.device.rows == map[]
  {
  }

  lemma CallOnce(w: World, c: Controller, ch: Choice)
    requires Good(w) && Once(w)
    ensures Once(After(w, Call(c, ch)))
  {
    var w' := After(w, Call(c, ch));
    var l := Of(w, c);
    CalledGood(w.shared, c, l, ch);
    if l.Posting? { PostAddsOne(w.shared, c, l, ch); } else { PosterSeesNone(w.shared, c, l, ch); }
    forall d | Of(w', d).Posting? ensures w'.shared.device.rows == map[] {
      if d != c {
        assert Of(w', d) == Of(w, d);
        if l.Posting? { OnePoster(w, c, d); }
      }
    }
  }

  lemma AfterOnce(w: World, e: Event)
    requires Good(w) && Once(w)
    ensures Once(After(w, e))
  {
    if e.Call? { CallOnce(w, e.who, e.choice); }
    else {
      var w' := After(w, e);
      forall d | Of(w', d).Posting? ensures w'.shared.device.rows == map[] { assert Of(w, d).Posting?; }
    }
  }

  /** Whatever crashes, fails or gets lost, a record that starts with at most one row, and nobody about to POST,
      never gets a second one. */
  lemma {:induction false} ExactlyOnce(worlds: seq<World>, events: seq<Event>, n: nat)
    requires ValidRun(worlds, events) && n < |worlds| && Once(worlds[0])
    ensures Once(worlds[n])
  {
    if n > 0 {
      ExactlyOnce(worlds, events, n - 1);
      RunGood(worlds, events, n - 1);
      AfterOnce(worlds[n - 1], events[n - 1]);
    }
  }

  // ---- Mutations follow an authority check ----------------------------------------------

  /** Event i is a call of c that checked the claim: the stored claim is the planned one at its version, it is
      confirmed and the only one for its record, and the listing shows its bound row once and as described. */
  ghost predicate Checks(worlds: seq<World>, events: seq<Event>, i: int, c: Controller, l: Local)
    requires |worlds| == |events| + 1
  {
    && 0 <= i < |events| && events[i].Call? && events[i].who == c && !events[i].choice.duplicate
    && l.Mutating? && Of(worlds[i], c) == Authorizing(l.mutation, l.id, l.claim, l.seen)
    && worlds[i].shared.claim == Some(l.claim) && Authorized(l.claim, l.seen)
  }

  /** Event i is a listing by c whose result is the one that was checked. */
  ghost predicate Lists(worlds: seq<World>, events: seq<Event>, i: int, c: Controller, seen: Snapshot)
    requires |worlds| == |events| + 1
  {
    0 <= i < |events| && events[i].Call? && events[i].who == c && worlds[i].shared.device == seen
  }

  lemma CallsToMutating(s: Shared, c: Controller, l: Local, ch: Choice)
    requires Step(s, c, l, ch).1.Mutating? && !l.Mutating?
    ensures l.Authorizing?
  {
  }

  lemma BecomesMutating(w: World, e: Event, c: Controller)
    requires Good(w) && Of(After(w, e), c).Mutating? && Of(w, c) != Of(After(w, e), c)
    ensures e.Call? && e.who == c && !e.choice.duplicate
    ensures var l := Of(After(w, e), c);
            Of(w, c) == Authorizing(l.mutation, l.id, l.claim, l.seen) && w.shared.claim == Some(l.claim)
              && Authorized(l.claim, l.seen)
  {
    assert LocalGood(w.shared, c, Of(w, c));
    if e.Call? && e.who == c && !Of(w, c).Mutating? { CallsToMutating(w.shared, c, Of(w, c), e.choice); }
  }

  lemma BecomesAuthorizing(w: World, e: Event, c: Controller)
    requires Of(After(w, e), c).Authorizing? && Of(w, c) != Of(After(w, e), c)
    ensures e.Call? && e.who == c && w.shared.device == Of(After(w, e), c).seen
  {
  }

  lemma {:induction false} AuthorizingWasListed(worlds: seq<World>, events: seq<Event>, n: nat,
      c: Controller) returns (i: nat)
    requires ValidRun(worlds, events) && n < |worlds| && !Of(worlds[0], c).Authorizing? && Of(worlds[n], c).Authorizing?
    ensures i < n && Lists(worlds, events, i, c, Of(worlds[n], c).seen)
    ensures forall j :: i < j <= n ==> Of(worlds[j], c) == Of(worlds[n], c)
  {
    if Of(worlds[n - 1], c) == Of(worlds[n], c) {
      i := AuthorizingWasListed(worlds, events, n - 1, c);
    } else {
      i := n - 1;
      BecomesAuthorizing(worlds[n - 1], events[n - 1], c);
    }
  }

  lemma {:induction false} MutatingWasChecked(worlds: seq<World>, events: seq<Event>, n: nat,
      c: Controller) returns (i: nat)
    requires ValidRun(worlds, events) && n < |worlds| && !Of(worlds[0], c).Mutating? && Of(worlds[n], c).Mutating?
    ensures i < n && Checks(worlds, events, i, c, Of(worlds[n], c))
    ensures forall j :: i < j <= n ==> Of(worlds[j], c) == Of(worlds[n], c)
  {
    if Of(worlds[n - 1], c) == Of(worlds[n], c) {
      i := MutatingWasChecked(worlds, events, n - 1, c);
    } else {
      i := n - 1;
      RunGood(worlds, events, n - 1);
      BecomesMutating(worlds[n - 1], events[n - 1], c);
    }
  }

  /** Every update, deactivate or delete that reaches the device at step n was authorised by the same process, which
      listed the rows at step i and checked the claim at step j, without crashing or starting over in between. */
  lemma MutationAuthorised(worlds: seq<World>, events: seq<Event>, n: nat, c: Controller) returns (i: nat, j: nat)
    requires ValidRun(worlds, events) && n < |worlds| && Of(worlds[n], c).Mutating?
    requires !Of(worlds[0], c).Mutating? && !Of(worlds[0], c).Authorizing?
    ensures i < j < n && Lists(worlds, events, i, c, Of(worlds[n], c).seen)
      && Checks(worlds, events, j, c, Of(worlds[n], c))
    ensures forall k :: i < k <= n ==> Of(worlds[k], c).Authorizing? || Of(worlds[k], c).Mutating?
  {
    j := MutatingWasChecked(worlds, events, n, c);
    i := AuthorizingWasListed(worlds, events, j, c);
  }

  /** A call changes the rows of the record only as a POST or as an authorised mutation. */
  lemma OnlyWritersWrite(w: World, c: Controller, ch: Choice)
    requires After(w, Call(c, ch)).shared.device != w.shared.device
    ensures Of(w, c).Posting? || Of(w, c).Mutating?
  {
  }

  // ---- Which row is mutated, and whose claim authorises it -------------------------------

  /** An authorised listing in which a state belongs to one row at most. */
  predicate OneInState(rows: map<Id, Stamp>, f: Stamp) {
    forall i, j :: i in rows && j in rows && rows[i] == f && rows[j] == f ==> i == j
  }

  /** The check looks at the row the claim is bound to, the mutation goes to the row of the planned operation, which the
      planner takes from the rows in the claimed state. Every such row is the bound one if and only if the listing shows
      at most one row in that state. */
  lemma PlannedRowIsBound(k: Claim, seen: Snapshot)
    requires Authorized(k, seen)
    ensures (forall id :: id in seen.rows && seen.rows[id] == k.stamp ==> k.bound == Some(id))
       <==> OneInState(seen.rows, k.stamp)
  {
    if OneInState(seen.rows, k.stamp) {
      forall id | id in seen.rows && seen.rows[id] == k.stamp ensures k.bound == Some(id) {
        assert k.bound.value in seen.rows;
      }
    }
  }

  /** In every run of a record that starts with at most one row, a mutation of a listed row goes to the bound row. */
  lemma MutatedRowIsBound(worlds: seq<World>, events: seq<Event>, n: nat, c: Controller)
    requires ValidRun(worlds, events) && n < |worlds| && Once(worlds[0]) && Of(worlds[n], c).Mutating?
    requires !Of(worlds[0], c).Mutating? && !Of(worlds[0], c).Authorizing?
    requires Of(worlds[n], c).id in Of(worlds[n], c).seen.rows
    ensures Of(worlds[n], c).claim.bound == Some(Of(worlds[n], c).id)
  {
    var i, j := MutationAuthorised(worlds, events, n, c);
    ExactlyOnce(worlds, events, i);
  }

  /** The store holds no claim at step m, and one at every later step up to j. */
  ghost predicate MadeAt(worlds: seq<World>, m: int, j: nat)
    requires j < |worlds|
  {
    0 <= m < j && worlds[m].shared.claim.None? && Present(worlds, m + 1, j)
  }

  /** A claim that appears is that of the controller whose call made it. */
  lemma ClaimIsCallers(w: World, e: Event)
    requires Good(w) && w.shared.claim.None? && After(w, e).shared.claim.Some?
    ensures e.Call? && After(w, e).shared.claim.value.controller == e.who
  {
    if e.Call? { CalledGood(w.shared, e.who, Of(w, e.who), e.choice); }
  }

  lemma MadeByCaller(worlds: seq<World>, events: seq<Event>, m: nat, j: nat)
    requires ValidRun(worlds, events) && j < |worlds| && MadeAt(worlds, m, j)
    ensures events[m].Call? && worlds[j].shared.claim.value.controller == events[m].who
  {
    RunGood(worlds, events, m);
    assert worlds[m + 1] == After(worlds[m], events[m]);
    ClaimIsCallers(worlds[m], events[m]);
    ControllerNeverChanges(worlds, events, m + 1, j);
  }

  lemma {:induction false} LastMade(worlds: seq<World>, i: nat, j: nat) returns (m: nat)
    requires i <= j < |worlds| && worlds[j].shared.claim.Some? && !Present(worlds, i, j)
    ensures i <= m && MadeAt(worlds, m, j)
    decreases j
  {
    var k :| i <= k <= j && worlds[k].shared.claim.None?;
    assert k <= j - 1;
    if worlds[j - 1].shared.claim.None? { m := j - 1; } else { m := LastMade(worlds, i, j - 1); }
  }

  /** Since step i the claim has been c's: it was c's then and has stayed, or the last one to be made was made by a
      call of c. */
  ghost predicate OwnSince(worlds: seq<World>, events: seq<Event>, i: nat, j: nat, c: Controller)
    requires |worlds| == |events| + 1 && i <= j < |worlds|
  {
    if Present(worlds, i, j) then worlds[i].shared.claim.value.controller == c
    else exists m :: i <= m && MadeAt(worlds, m, j) && events[m].Call? && events[m].who == c
  }

  /** The check compares the claim's controller with a copy of itself. For any step i, the one of planning included,
      the claim that authorises a mutation is the acting controller's if and only if it was at i and has stayed in the
      store until the check at j, or the last call that made one after i is the acting controller's. */
  lemma AuthorisedByOwnClaim(worlds: seq<World>, events: seq<Event>, i: nat, j: nat, n: nat, c: Controller)
    requires ValidRun(worlds, events) && i <= j < n < |worlds| && Of(worlds[n], c).Mutating?
    requires Checks(worlds, events, j, c, Of(worlds[n], c))
    ensures Of(worlds[n], c).claim.controller == c <==> OwnSince(worlds, events, i, j, c)
  {
    if Present(worlds, i, j) {
      ControllerNeverChanges(worlds, events, i, j);
    } else {
      var m := LastMade(worlds, i, j);
      MadeByCaller(worlds, events, m, j);
      if m': nat :| i <= m' && MadeAt(worlds, m', j) && events[m'].Call? && events[m'].who == c {
        MadeByCaller(worlds, events, m', j);
      }
    }
  }
}
