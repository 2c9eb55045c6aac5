/** Where a shared create can stop, and what undisturbed work does from there. */
module ClaimStages {
  import opened Text
  import opened Claims
  import CS = ClaimSafety

  // ---- Where a create can stop ----------------------------------------------------------

  /** The record and its claim at the points where controller c's create of f can start or stop: no claim, a claim
      without a phase, a reservation before or after its POST, a bound or confirmed claim, or an orphaned claim whose
      row is gone. A claim may lack its finalizer. */
  ghost predicate Stage(s: Shared, c: Controller, f: Stamp) {
    && CS.StoreGood(s)
    && if s.claim.None? then s.device.rows == map[]
       else
         var k := s.claim.value;
         && k.controller == c && (k.phase != Orphaned ==> k.stamp == f)
         && match k.phase
            case NoPhase => k.bound.None? && s.device.rows == map[]
            case Reserved =>
              if k.bound.Some? then OnlyRow(s.device.rows, k.bound.value, f)
              else s.device.rows == map[] || exists id :: OnlyRow(s.device.rows, id, f)
            case Confirmed => k.bound.Some? && OnlyRow(s.device.rows, k.bound.value, f)
            case Orphaned => s.device.rows == map[] && (k.bound.Some? ==> k.bound.value !in s.device.others)
            case InConflict => false
  }

  predicate Admitted(k: Claim) { k.phase == Reserved || k.phase == Confirmed }

  /** The record has no second claim, and its claim is not being deleted. */
  predicate Solo(ch: Choice) { !ch.duplicate && !ch.deleting }

  predicate InReserve(l: Local) {
    l.Listing? || l.Creating? || l.Probing? || l.Resetting? || l.Finalizing? || l.Reserving?
  }

  /** What the process remembers while the create is under way. */
  ghost predicate Underway(s: Shared, c: Controller, f: Stamp, l: Local) {
    match l
    case Idle => true
    case Listing(g) => g == f
    case Creating(g) => g == f && s.claim.None?
    case Probing(g, k) => g == f && s.claim == Some(k) && k.phase == Orphaned
    case Resetting(g, k) => g == f && s.claim == Some(k) && k.phase == Orphaned
    case Finalizing(g, k) => g == f && s.claim == Some(k) && k.phase != Orphaned
    case Reserving(g, k) =>
      g == f && s.claim == Some(k) && (k.phase == NoPhase || k.phase == Orphaned) && k.stamp == f && k.bound.None?
    case Looking(g, k) => g == f && s.claim == Some(k) && Admitted(k)
    case Posting(g, k) => g == f && s.claim == Some(k) && k.phase == Reserved && k.bound.None? && s.device.rows == map[]
    case Relisting(g, k) => g == f && s.claim == Some(k) && k.phase == Reserved && k.bound.None?
    case Refreshing(g, k, seen) => g == f && s.claim == Some(k) && k.phase == Reserved && k.bound.None?
      && seen == s.device
    case Confirming(k, id) => s.claim == Some(k) && Admitted(k) && OnlyRow(s.device.rows, id, f)
    case Binding(k, id) => s.claim == Some(k) && Admitted(k) && k.bound.None? && OnlyRow(s.device.rows, id, f)
    case Sealing(k) => s.claim == Some(k) && Admitted(k) && k.bound.Some?
    case _ => false
  }

  lemma SameRow(rows: map<Id, Stamp>, i: Id, j: Id, f: Stamp, g: Stamp)
    requires OnlyRow(rows, i, f) && OnlyRow(rows, j, g)
    ensures i == j && f == g
  {
    assert i in rows && j in rows;
    assert rows[i] == f && rows[j] == g;
  }

  lemma RowNotEmpty(rows: map<Id, Stamp>, id: Id, f: Stamp)
    requires OnlyRow(rows, id, f)
    ensures rows != map[]
  {
    assert id in rows;
  }

  /** What confirmObserved decides at a stage. */
  lemma ObserveStage(s: Shared, c: Controller, f: Stamp, k: Claim, absent: Local)
    requires Stage(s, c, f) && s.claim == Some(k) && (k.phase == Reserved || k.phase == Confirmed)
    ensures var l := Observe(f, k, s.device, absent);
            if s.device.rows == map[] then l == absent && k.phase == Reserved && k.bound.None?
            else exists id :: OnlyRow(s.device.rows, id, f) && l == Confirming(k, id)
  {
    if k.bound.Some? {
      RowNotEmpty(s.device.rows, k.bound.value, f);
      assert OnlyRow(s.device.rows, k.bound.value, f);
    }
  }

  lemma PostStages(s: Shared, c: Controller, f: Stamp, l: Local, ch: Choice)
    requires Stage(s, c, f) && Underway(s, c, f, l) && (l.Looking? || l.Posting? || l.Relisting? || l.Refreshing?)
    ensures var (s', l') := PostStep(s, l, ch); Stage(s', c, f) && Underway(s', c, f, l')
  {
    match l
    case Looking(_, k) => ObserveStage(s, c, f, k, if k.phase == Reserved then Posting(f, k) else Idle);
    case Refreshing(_, k, _) => ObserveStage(s, c, f, k, Idle);
    case Posting(_, k) =>
      var s' := PostStep(s, l, ch).0;
      assert s'.device.rows == map[] || OnlyRow(s'.device.rows, ch.newId, f);
    case _ =>
  }

  lemma ConfirmStages(s: Shared, c: Controller, f: Stamp, l: Local, ch: Choice)
    requires Stage(s, c, f) && Underway(s, c, f, l) && !ch.duplicate && (l.Confirming? || l.Binding? || l.Sealing?)
    ensures var (s', l') := ConfirmStep(s, l, ch); Stage(s', c, f) && Underway(s', c, f, l')
  {
    if l.Confirming? && l.claim.bound.Some? { SameRow(s.device.rows, l.claim.bound.value, l.id, f, f); }
  }

  lemma ReserveStages(s: Shared, c: Controller, f: Stamp, l: Local, ch: Choice)
    requires Stage(s, c, f) && Underway(s, c, f, l) && Solo(ch) && InReserve(l)
    ensures var (s', l') := ReserveStep(s, c, l, ch); Stage(s', c, f) && Underway(s', c, f, l')
  {
  }

  /** A create that runs alone, with any failure, lost response or crash, stays within the stages. */
  lemma CreateStages(s: Shared, c: Controller, f: Stamp, l: Local, ch: Choice)
    requires Stage(s, c, f) && Underway(s, c, f, l) && Solo(ch)
    ensures var (s', l') := CS.Called(s, c, l, ch); Stage(s', c, f) && Underway(s', c, f, l')
  {
    if InReserve(l) { ReserveStages(s, c, f, l, ch); }
    else if l.Confirming? || l.Binding? || l.Sealing? { ConfirmStages(s, c, f, l, ch); }
    else if l != Idle { PostStages(s, c, f, l, ch); }
  }

  /** A create of f and its repetitions: each entry is one call, or a crash after which the create starts over. */
  ghost function Attempts(s: Shared, c: Controller, f: Stamp, l: Local, calls: seq<Option<Choice>>): (Shared, Local) {
    if |calls| == 0 then (s, l)
    else
      var (s', l') := Attempts(s, c, f, l, calls[..|calls| - 1]);
      var call := calls[|calls| - 1];
      if call.None? || l' == Idle then (s', Listing(f)) else CS.Called(s', c, l', call.value)
  }

  /** Wherever creates that run alone are interrupted, the record is at a stage. */
  lemma {:induction false} StopsAtStage(s: Shared, c: Controller, f: Stamp, calls: seq<Option<Choice>>)
    requires Stage(s, c, f) && forall i :: 0 <= i < |calls| && calls[i].Some? ==> Solo(calls[i].value)
    ensures var (s', l') := Attempts(s, c, f, Idle, calls); Stage(s', c, f) && Underway(s', c, f, l')
  {
    if |calls| > 0 {
      var n := |calls| - 1;
      StopsAtStage(s, c, f, calls[..n]);
      var (s', l') := Attempts(s, c, f, Idle, calls[..n]);
      if calls[n].Some? { CreateStages(s', c, f, l', calls[n].value); }
    }
  }

  // ---- Undisturbed work -------------------------------------------------------------

  /** Every call succeeds and answers, the record has one claim, and a POST gets this ID. */
  function Quiet(newId: Id): Choice { Choice(false, false, false, false, true, newId) }

  /** The state when the work is done, after at most n calls. */
  ghost function Drive(s: Shared, c: Controller, l: Local, newId: Id, n: nat): (Shared, Local)
    decreases n
  {
    if n == 0 || l == Idle then (s, l)
    else
      var (s', l') := CS.Called(s, c, l, Quiet(newId));
      Drive(s', c, l', newId, n - 1)
  }

  /** The record is published: one row as desired, bound by c's confirmed claim. */
  ghost predicate Published(s: Shared, c: Controller, f: Stamp) {
    && CS.StoreGood(s) && s.claim.Some? && s.claim.value.phase == Confirmed && s.claim.value.controller == c
    && s.claim.value.stamp == f && s.claim.value.bound.Some? && OnlyRow(s.device.rows, s.claim.value.bound.value, f)
  }

  ghost predicate Publishes(s: Shared, c: Controller, f: Stamp, l: Local, newId: Id, n: nat) {
    Drive(s, c, l, newId, n).1 == Idle && Published(Drive(s, c, l, newId, n).0, c, f)
  }

  lemma DriveStep(s: Shared, c: Controller, f: Stamp, l: Local, newId: Id, n: nat)
    requires l != Idle
    requires var (s', l') := Step(s, c, l, Quiet(newId)); Publishes(s', c, f, l', newId, n)
    ensures Publishes(s, c, f, l, newId, n + 1)
  {
  }

  lemma ConfirmPublishes(s: Shared, c: Controller, f: Stamp, l: Local, newId: Id)
    requires Stage(s, c, f) && Underway(s, c, f, l) && (l.Confirming? || l.Binding? || l.Sealing?)
    ensures exists n: nat :: Publishes(s, c, f, l, newId, n)
    decreases if l.Confirming? then 2 else if l.Binding? then 1 else 0
  {
    ConfirmStages(s, c, f, l, Quiet(newId));
    var (s', l') := ConfirmStep(s, l, Quiet(newId));
    if l.Sealing? {
      assert Publishes(s', c, f, l', newId, 0);
      DriveStep(s, c, f, l, newId, 0);
    } else {
      if l.Confirming? && l.claim.bound.Some? { SameRow(s.device.rows, l.claim.bound.value, l.id, f, f); }
      ConfirmPublishes(s', c, f, l', newId);
      var n: nat :| Publishes(s', c, f, l', newId, n);
      DriveStep(s, c, f, l, newId, n);
    }
  }

  function Distance(l: Local): nat {
    match l
    case Listing(_) => 8
    case Probing(_, _) => 7
    case Resetting(_, _) => 6
    case Finalizing(_, _) => 5
    case Creating(_) => 5
    case Reserving(_, _) => 4
    case Looking(_, _) => 3
    case Posting(_, _) => 2
    case Relisting(_, _) => 1
    case _ => 0
  }

  /** The POST has its row. */
  ghost predicate Committed(s: Shared, l: Local) { l.Relisting? || l.Refreshing? ==> s.device.rows != map[] }

  lemma CreateCall(s: Shared, c: Controller, f: Stamp, l: Local, newId: Id)
    requires Stage(s, c, f) && Underway(s, c, f, l) && Distance(l) > 0 && Committed(s, l) && newId !in s.device.others
    ensures var (s', l') := Step(s, c, l, Quiet(newId));
            && Stage(s', c, f) && Underway(s', c, f, l') && l' != Idle && Committed(s', l')
            && (l'.Confirming? || l'.Refreshing? || 0 < Distance(l') < Distance(l))
              && s'.device.others == s.device.others
  {
    if InReserve(l) { ReserveStages(s, c, f, l, Quiet(newId)); }
    else {
      PostStages(s, c, f, l, Quiet(newId));
      if l.Looking? { ObserveStage(s, c, f, l.claim, if l.claim.phase == Reserved then Posting(f, l.claim) else Idle); }
      if l.Posting? { RowNotEmpty(PostStep(s, l, Quiet(newId)).0.device.rows, newId, f); }
    }
  }

  lemma RefreshPublishes(s: Shared, c: Controller, f: Stamp, l: Local, newId: Id)
    requires Stage(s, c, f) && Underway(s, c, f, l) && l.Refreshing? && Committed(s, l)
    ensures exists n: nat :: Publishes(s, c, f, l, newId, n)
  {
    ObserveStage(s, c, f, l.claim, Idle);
    PostStages(s, c, f, l, Quiet(newId));
    var (s', l') := PostStep(s, l, Quiet(newId));
    ConfirmPublishes(s', c, f, l', newId);
    var n: nat :| Publishes(s', c, f, l', newId, n);
    DriveStep(s, c, f, l, newId, n);
  }

  /** From every stage an undisturbed create publishes the record. */
  lemma {:induction false} CreatePublishes(s: Shared, c: Controller, f: Stamp, l: Local, newId: Id)
    requires Stage(s, c, f) && Underway(s, c, f, l) && Distance(l) > 0 && Committed(s, l) && newId !in s.device.others
    ensures exists n: nat :: Publishes(s, c, f, l, newId, n)
    decreases Distance(l)
  {
    CreateCall(s, c, f, l, newId);
    var (s', l') := Step(s, c, l, Quiet(newId));
    if l'.Confirming? { ConfirmPublishes(s', c, f, l', newId); }
    else if l'.Refreshing? { RefreshPublishes(s', c, f, l', newId); }
    else { CreatePublishes(s', c, f, l', newId); }
    var n: nat :| Publishes(s', c, f, l', newId, n);
    DriveStep(s, c, f, l, newId, n);
  }

  lemma ReconcileStage(s: Shared, c: Controller, f: Stamp, k: Claim, id: Id)
    requires Stage(s, c, f) && s.claim == Some(k) && k.phase == Reserved && OnlyRow(s.device.rows, id, f)
    ensures Reconcile(k, s.device, false) == Confirming(k, id)
  {
    RowNotEmpty(s.device.rows, id, f);
    var other :| OnlyRow(s.device.rows, other, k.stamp);
    forall i | OnlyRow(s.device.rows, i, f) ensures i == id { SameRow(s.device.rows, i, id, f, f); }
    if k.bound.Some? { SameRow(s.device.rows, k.bound.value, id, f, f); }
  }

  lemma ReconcilingCall(s: Shared, c: Controller, f: Stamp, k: Claim, id: Id, newId: Id)
    requires Stage(s, c, f) && s.claim == Some(k) && k.phase == Reserved && OnlyRow(s.device.rows, id, f)
    ensures Step(s, c, Reconciling(k, s.device, false), Quiet(newId)) == (s, Confirming(k, id))
  {
    ReconcileStage(s, c, f, k, id);
  }

  lemma ReconcilePublishes(s: Shared, c: Controller, f: Stamp, k: Claim, id: Id, newId: Id)
    requires Stage(s, c, f) && s.claim == Some(k) && k.phase == Reserved && OnlyRow(s.device.rows, id, f)
    ensures exists n: nat :: Publishes(s, c, f, Reconciling(k, s.device, false), newId, n)
  {
    ReconcilingCall(s, c, f, k, id, newId);
    ConfirmPublishes(s, c, f, Confirming(k, id), newId);
    var n: nat :| Publishes(s, c, f, Confirming(k, id), newId, n);
    DriveStep(s, c, f, Reconciling(k, s.device, false), newId, n);
  }

  lemma RecheckingCall(s: Shared, c: Controller, f: Stamp, k: Claim, id: Id, newId: Id)
    requires k.phase == Reserved && OnlyRow(s.device.rows, id, f)
    ensures Step(s, c, Rechecking(f, id, k), Quiet(newId)) == (s, Reconciling(k, s.device, false))
  {
    assert id in s.device.rows && s.device.rows[id] == f;
  }

  lemma RecheckPublishes(s: Shared, c: Controller, f: Stamp, k: Claim, id: Id, newId: Id)
    requires Stage(s, c, f) && s.claim == Some(k) && k.phase == Reserved && OnlyRow(s.device.rows, id, f)
    ensures exists n: nat :: Publishes(s, c, f, Rechecking(f, id, k), newId, n)
  {
    RecheckingCall(s, c, f, k, id, newId);
    ReconcilePublishes(s, c, f, k, id, newId);
    var n: nat :| Publishes(s, c, f, Reconciling(k, s.device, false), newId, n);
    DriveStep(s, c, f, Rechecking(f, id, k), newId, n);
  }

  lemma RecoveringCall(s: Shared, c: Controller, f: Stamp, id: Id, newId: Id)
    requires Stage(s, c, f) && s.claim.Some? && s.claim.value.phase == Reserved && OnlyRow(s.device.rows, id, f)
    ensures Step(s, c, Recovering(f, id), Quiet(newId)) == (s, Rechecking(f, id, s.claim.value))
  {
    var k := s.claim.value;
    if k.bound.Some? { SameRow(s.device.rows, k.bound.value, id, f, f); }
  }

  /** When the row is already there, recovering the interrupted claim publishes the record. */
  lemma RecoverPublishes(s: Shared, c: Controller, f: Stamp, id: Id, newId: Id)
    requires Stage(s, c, f) && s.claim.Some? && s.claim.value.phase == Reserved && OnlyRow(s.device.rows, id, f)
    ensures exists n: nat :: Publishes(s, c, f, Recovering(f, id), newId, n)
  {
    var k := s.claim.value;
    RecoveringCall(s, c, f, id, newId);
    RecheckPublishes(s, c, f, k, id, newId);
    var n: nat :| Publishes(s, c, f, Rechecking(f, id, k), newId, n);
    DriveStep(s, c, f, Recovering(f, id), newId, n);
  }

  /** For a published record, recovering finds nothing to do. */
  lemma PublishedRests(s: Shared, c: Controller, f: Stamp, newId: Id)
    requires Published(s, c, f)
    ensures Drive(s, c, Recovering(f, s.claim.value.bound.value), newId, 2) == (s, Idle)
  {
    var k := s.claim.value;
    var id := k.bound.value;
    assert id in s.device.rows && s.device.rows[id] == f;
    assert CS.Called(s, c, Recovering(f, id), Quiet(newId)) == (s, Rechecking(f, id, k));
    assert CS.Called(s, c, Rechecking(f, id, k), Quiet(newId)) == (s, Idle);
    assert Drive(s, c, Rechecking(f, id, k), newId, 1) == Drive(s, c, Idle, newId, 0);
  }

  // ---- Erasing a second copy ------------------------------------------------------------

  /** One more undisturbed call. */
  lemma DriveOne(s: Shared, c: Controller, l: Local, newId: Id, n: nat, s': Shared, l': Local)
    requires l != Idle && Step(s, c, l, Quiet(newId)) == (s', l')
    ensures Drive(s, c, l, newId, n + 1) == Drive(s', c, l', newId, n)
  {
  }

  lemma CheckCalls(s: Shared, c: Controller, k: Claim, m: Mutation, id: Id, newId: Id, n: nat)
    requires s.claim == Some(k) && Authorized(k, s.device)
    ensures Drive(s, c, Verifying(m, id, k, s.device), newId, n + 2)
         == Drive(s, c, Mutating(m, id, k, s.device), newId, n)
  {
    DriveOne(s, c, Verifying(m, id, k, s.device), newId, n + 1, s, Authorizing(m, id, k, s.device));
    DriveOne(s, c, Authorizing(m, id, k, s.device), newId, n, s, Mutating(m, id, k, s.device));
  }

  lemma FetchCalls(s: Shared, c: Controller, k: Claim, m: Mutation, id: Id, newId: Id, n: nat)
    requires s.claim == Some(k)
    ensures Drive(s, c, Fetching(m, id), newId, n + 2) == Drive(s, c, Verifying(m, id, k, s.device), newId, n)
  {
    DriveOne(s, c, Fetching(m, id), newId, n + 1, s, Sampling(m, id, k));
    DriveOne(s, c, Sampling(m, id, k), newId, n, s, Verifying(m, id, k, s.device));
  }

  function Without(s: Shared, id: Id): Shared { s.(device := s.device.(rows := s.device.rows - {id})) }

  lemma WriteCalls(s: Shared, c: Controller, k: Claim, id: Id, newId: Id, n: nat)
    ensures Drive(s, c, Mutating(Erase, id, k, s.device), newId, n + 2)
         == Drive(Without(s, id), c, Reconciling(k, Without(s, id).device, true), newId, n)
  {
    var t := Without(s, id);
    DriveOne(s, c, Mutating(Erase, id, k, s.device), newId, n + 1, t, Auditing(Erase, id, k));
    DriveOne(t, c, Auditing(Erase, id, k), newId, n, t, Reconciling(k, t.device, true));
  }

  /** The calls of an undisturbed erase up to the audit, under a claim whose bound row passes the check. */
  lemma EraseCalls(s: Shared, c: Controller, k: Claim, id: Id, newId: Id, n: nat)
    requires s.claim == Some(k) && Authorized(k, s.device)
    ensures Drive(s, c, Fetching(Erase, id), newId, n + 6)
         == Drive(Without(s, id), c, Reconciling(k, Without(s, id).device, true), newId, n)
  {
    FetchCalls(s, c, k, Erase, id, newId, n + 4);
    CheckCalls(s, c, k, Erase, id, newId, n + 2);
    WriteCalls(s, c, k, id, newId, n);
  }

  /** Two rows in the claimed state, one of them bound. */
  ghost predicate TwoCopies(s: Shared, k: Claim, keep: Id, drop: Id) {
    && CS.StoreGood(s) && s.claim == Some(k) && k.phase == Confirmed && keep != drop
    && (k.bound == Some(keep) || k.bound == Some(drop)) && s.device.rows == map[keep := k.stamp, drop := k.stamp]
    && keep !in s.device.others && drop !in s.device.others
  }

  lemma ReconcileCopies(k: Claim, seen: Snapshot, keep: Id)
    requires OnlyRow(seen.rows, keep, k.stamp) && k.phase == Confirmed && k.bound.Some?
    ensures Reconcile(k, seen, true) == if k.bound == Some(keep) then Confirming(k, keep) else Marking(k)
  {
    RowNotEmpty(seen.rows, keep, k.stamp);
    forall i | OnlyRow(seen.rows, i, k.stamp) ensures i == keep { SameRow(seen.rows, i, keep, k.stamp, k.stamp); }
  }

  /** The store after a status write. */
  function Phased(s: Shared, k: Claim, phase: Phase): Shared {
    s.(claim := Some(k.(phase := phase, rv := s.nextRv)), nextRv := s.nextRv + 1)
  }

  lemma KeptCopyConfirmed(s: Shared, c: Controller, k: Claim, keep: Id, newId: Id)
    requires s.claim == Some(k) && k.phase == Confirmed && k.bound == Some(keep)
      && OnlyRow(s.device.rows, keep, k.stamp)
    ensures Drive(s, c, Reconciling(k, s.device, true), newId, 3) == (Phased(s, k, Confirmed), Idle)
  {
    ReconcileCopies(k, s.device, keep);
    DriveOne(s, c, Reconciling(k, s.device, true), newId, 2, s, Confirming(k, keep));
    DriveOne(s, c, Confirming(k, keep), newId, 1, s, Sealing(k));
    DriveOne(s, c, Sealing(k), newId, 0, Phased(s, k, Confirmed), Idle);
  }

  lemma LostCopyConflicts(s: Shared, c: Controller, k: Claim, keep: Id, newId: Id)
    requires s.claim == Some(k) && k.phase == Confirmed && k.bound.Some? && k.bound != Some(keep)
    requires OnlyRow(s.device.rows, keep, k.stamp)
    ensures Drive(s, c, Reconciling(k, s.device, true), newId, 2) == (Phased(s, k, InConflict), Idle)
  {
    ReconcileCopies(k, s.device, keep);
    DriveOne(s, c, Reconciling(k, s.device, true), newId, 1, s, Marking(k));
    DriveOne(s, c, Marking(k), newId, 0, Phased(s, k, InConflict), Idle);
  }

  /** With two rows in the claimed state the checks of the bound row let either be erased. The claim stays confirmed if
      the bound row was kept, and ends in conflict, which is never left, if the bound row was the one erased. */
  lemma OtherRowErased(s: Shared, c: Controller, k: Claim, keep: Id, drop: Id, newId: Id) returns (s': Shared, n: nat)
    requires TwoCopies(s, k, keep, drop)
    ensures Drive(s, c, Fetching(Erase, drop), newId, n) == (s', Idle)
    ensures OnlyRow(s'.device.rows, keep, k.stamp) && s'.claim.Some?
    ensures s'.claim.value.phase == if k.bound == Some(keep) then Confirmed else InConflict
  {
    var t := Without(s, drop);
    assert t.device.rows == map[keep := k.stamp];
    assert s.device.rows[keep] == k.stamp && s.device.rows[drop] == k.stamp;
    if k.bound == Some(keep) {
      s' := Phased(t, k, Confirmed);
      KeptCopyConfirmed(t, c, k, keep, newId);
      n := EraseEnds(s, c, k, drop, newId, 3, s');
    } else {
      s' := Phased(t, k, InConflict);
      LostCopyConflicts(t, c, k, keep, newId);
      n := EraseEnds(s, c, k, drop, newId, 2, s');
    }
  }

  lemma EraseEnds(s: Shared, c: Controller, k: Claim, id: Id, newId: Id, m: nat, s': Shared) returns (n: nat)
    requires s.claim == Some(k) && Authorized(k, s.device)
    requires Drive(Without(s, id), c, Reconciling(k, Without(s, id).device, true), newId, m) == (s', Idle)
    ensures Drive(s, c, Fetching(Erase, id), newId, n) == (s', Idle)
  {
    EraseCalls(s, c, k, id, newId, m);
    n := m + 6;
  }
}
