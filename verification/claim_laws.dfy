/** How undisturbed work ends where it does not publish: against another claim, a second claim, rows that are not the
    claimed one, a lost row, or a check that fails. Nothing else changes in any of these cases. */
module ClaimLaws {
  import opened Text
  import opened Claims
  import opened ClaimStages
  import CS = ClaimSafety

  lemma MarkCall(s: Shared, c: Controller, k: Claim, newId: Id)
    requires s.claim == Some(k)
    ensures Drive(s, c, Marking(k), newId, 1) == (Phased(s, k, InConflict), Idle)
  {
    DriveOne(s, c, Marking(k), newId, 0, Phased(s, k, InConflict), Idle);
  }

  // ---- Creates --------------------------------------------------------------------------

  /** A create that finds a claim of another controller, or for another state of the record, ends with that claim in
      conflict. */
  lemma OtherClaimConflicts(s: Shared, c: Controller, k: Claim, f: Stamp, newId: Id)
    requires s.claim == Some(k) && (k.controller != c || (k.stamp != f && k.phase != Orphaned))
    ensures Drive(s, c, Listing(f), newId, 2) == (Phased(s, k, InConflict), Idle)
  {
    DriveOne(s, c, Listing(f), newId, 1, s, Marking(k));
    MarkCall(s, c, k, newId);
  }

  /** The controller's own orphaned claim is left alone while a row of the record, or the bound ID, is on the device. */
  lemma OrphanWaits(s: Shared, c: Controller, k: Claim, f: Stamp, newId: Id)
    requires s.claim == Some(k) && k.controller == c && k.phase == Orphaned && k.stamp == f && k.finalizer
    requires s.device.rows != map[] || (k.bound.Some? && k.bound.value in s.device.others)
    ensures Drive(s, c, Listing(f), newId, 2) == (s, Idle)
  {
    DriveOne(s, c, Listing(f), newId, 1, s, Probing(f, k));
    DriveOne(s, c, Probing(f, k), newId, 0, s, Idle);
  }

  /** A claim that is in conflict stops the create. */
  lemma ConflictStops(s: Shared, c: Controller, k: Claim, f: Stamp, newId: Id)
    requires s.claim == Some(k) && k.controller == c && k.stamp == f && k.phase == InConflict && k.finalizer
    ensures Drive(s, c, Listing(f), newId, 1) == (s, Idle)
  {
    DriveOne(s, c, Listing(f), newId, 0, s, Idle);
  }

  /** c's live claim for the record as desired. */
  predicate Own(s: Shared, c: Controller, k: Claim, f: Stamp) {
    s.claim == Some(k) && k.controller == c && k.stamp == f && k.finalizer && Admitted(k)
  }

  lemma OwnLooks(s: Shared, c: Controller, k: Claim, f: Stamp, newId: Id, n: nat)
    requires Own(s, c, k, f)
    ensures Drive(s, c, Listing(f), newId, n + 1) == Drive(s, c, Looking(f, k), newId, n)
  {
    DriveOne(s, c, Listing(f), newId, n, s, Looking(f, k));
  }

  /** Rows that are not exactly one row in the claimed state put the claim in conflict. */
  lemma OtherRowsConflict(s: Shared, c: Controller, k: Claim, f: Stamp, newId: Id)
    requires Own(s, c, k, f) && s.device.rows != map[] && forall id :: !OnlyRow(s.device.rows, id, f)
    ensures Drive(s, c, Listing(f), newId, 3) == (Phased(s, k, InConflict), Idle)
  {
    OwnLooks(s, c, k, f, newId, 2);
    DriveOne(s, c, Looking(f, k), newId, 1, s, Marking(k));
    MarkCall(s, c, k, newId);
  }

  lemma LookConfirms(s: Shared, c: Controller, k: Claim, f: Stamp, id: Id, newId: Id)
    requires OnlyRow(s.device.rows, id, f)
    ensures Step(s, c, Looking(f, k), Quiet(newId)) == (s, Confirming(k, id))
  {
    RowNotEmpty(s.device.rows, id, f);
    forall i | OnlyRow(s.device.rows, i, f) ensures i == id { SameRow(s.device.rows, i, id, f, f); }
  }

  /** So does a single row under another ID than the bound one. */
  lemma OtherIdConflicts(s: Shared, c: Controller, k: Claim, f: Stamp, id: Id, newId: Id)
    requires Own(s, c, k, f) && OnlyRow(s.device.rows, id, f) && k.bound.Some? && k.bound.value != id
    ensures Drive(s, c, Listing(f), newId, 4) == (Phased(s, k, InConflict), Idle)
  {
    OwnLooks(s, c, k, f, newId, 3);
    LookConfirms(s, c, k, f, id, newId);
    DriveOne(s, c, Looking(f, k), newId, 2, s, Confirming(k, id));
    DriveOne(s, c, Confirming(k, id), newId, 1, s, Marking(k));
    MarkCall(s, c, k, newId);
  }

  /** A confirmed record whose row is gone is orphaned by the first create. */
  lemma LostRowOrphans(s: Shared, c: Controller, k: Claim, f: Stamp, newId: Id)
    requires Own(s, c, k, f) && k.phase == Confirmed && s.device.rows == map[]
    ensures Drive(s, c, Listing(f), newId, 3) == (Phased(s, k, Orphaned), Idle)
  {
    OwnLooks(s, c, k, f, newId, 2);
    DriveOne(s, c, Looking(f, k), newId, 1, s, Orphaning(k, s.device, false));
    DriveOne(s, c, Orphaning(k, s.device, false), newId, 0, Phased(s, k, Orphaned), Idle);
  }

  /** And published again by the second one. */
  lemma LostRowReturns(s: Shared, c: Controller, k: Claim, f: Stamp, newId: Id)
    requires CS.StoreGood(s) && Own(s, c, k, f) && k.phase == Confirmed && s.device.rows == map[]
    requires newId !in s.device.others && (k.bound.Some? ==> k.bound.value !in s.device.others)
    ensures exists n: nat :: Publishes(Phased(s, k, Orphaned), c, f, Listing(f), newId, n)
  {
    CreatePublishes(Phased(s, k, Orphaned), c, f, Listing(f), newId);
  }

  // ---- A second claim -------------------------------------------------------------------

  /** The process is about to make sure that the record has one claim. */
  predicate ChecksUnique(l: Local) {
    l.Confirming? || l.Releasing? || l.Authorizing? || l.Reconciling? || l.Rebinding?
  }

  /** Wherever a second claim for the record shows, the claim is put in conflict and nothing else happens. */
  lemma SecondClaimConflicts(s: Shared, c: Controller, l: Local, ch: Choice, newId: Id)
    requires ch.duplicate && s.claim.Some?
    requires l.Listing? || (ChecksUnique(l) && s.claim == Some(l.claim))
    ensures var (s', l') := Step(s, c, l, ch);
            s' == s && Drive(s', c, l', newId, 1) == (Phased(s, s.claim.value, InConflict), Idle)
  {
    assert Step(s, c, l, ch) == (s, Marking(s.claim.value));
    MarkCall(s, c, s.claim.value, newId);
  }

  // ---- Mutations ------------------------------------------------------------------------

  /** A mutation whose claim is gone or not confirmed is not sent. */
  lemma UnclaimedNotMutated(s: Shared, c: Controller, m: Mutation, id: Id, newId: Id)
    requires s.claim.None? || s.claim.value.phase != Confirmed
    ensures Drive(s, c, Fetching(m, id), newId, 3) == (s, Idle)
  {
    if s.claim.None? {
      DriveOne(s, c, Fetching(m, id), newId, 2, s, Idle);
    } else {
      FetchCalls(s, c, s.claim.value, m, id, newId, 1);
      DriveOne(s, c, Verifying(m, id, s.claim.value, s.device), newId, 0, s, Idle);
    }
  }

  lemma CheckFails(s: Shared, c: Controller, k: Claim, m: Mutation, id: Id, newId: Id)
    requires s.claim == Some(k) && k.phase == Confirmed && k.bound.Some? && !Authorized(k, s.device)
    ensures Drive(s, c, Verifying(m, id, k, s.device), newId, 3) == (Phased(s, k, InConflict), Idle)
  {
    DriveOne(s, c, Verifying(m, id, k, s.device), newId, 2, s, Authorizing(m, id, k, s.device));
    DriveOne(s, c, Authorizing(m, id, k, s.device), newId, 1, s, Marking(k));
    MarkCall(s, c, k, newId);
  }

  /** A confirmed claim whose bound row is not listed exactly once in the claimed state goes to conflict, and the
      mutation is not sent. */
  lemma UnprovenNotMutated(s: Shared, c: Controller, k: Claim, m: Mutation, id: Id, newId: Id)
    requires s.claim == Some(k) && k.phase == Confirmed && k.bound.Some?
    requires var b := k.bound.value; b !in s.device.rows || b in s.device.others || s.device.rows[b] != k.stamp
    ensures Drive(s, c, Fetching(m, id), newId, 5) == (Phased(s, k, InConflict), Idle)
  {
    FetchCalls(s, c, k, m, id, newId, 3);
    CheckFails(s, c, k, m, id, newId);
  }

  /** A listing that changed between the two looks, or a claim that changed before the check, stops the mutation. */
  lemma ChangedNotMutated(s: Shared, c: Controller, l: Local, ch: Choice)
    requires l.Verifying? || l.Authorizing?
    requires if l.Verifying? then s.device != l.seen else s.claim.None? || s.claim.value.rv != l.claim.rv
    ensures Step(s, c, l, ch) == (s, Idle)
  {
  }

  // ---- Recovery -------------------------------------------------------------------------

  /** The claim is another controller's, or neither a reservation for this state that may take the row nor confirmed
      for the row. */
  predicate Unrelated(k: Claim, c: Controller, f: Stamp, id: Id) {
    || k.controller != c
    || (k.phase != Reserved && k.phase != Confirmed)
    || (k.phase == Reserved && (k.stamp != f || (k.bound.Some? && k.bound.value != id)))
    || (k.phase == Confirmed && k.bound != Some(id))
  }

  lemma UnrelatedNotRecovered(s: Shared, c: Controller, f: Stamp, id: Id, newId: Id)
    requires s.claim.None? || Unrelated(s.claim.value, c, f, id)
    ensures Drive(s, c, Recovering(f, id), newId, 1) == (s, Idle)
  {
    DriveOne(s, c, Recovering(f, id), newId, 0, s, Idle);
  }

  /** Nor is a claim whose row is gone or in another state than desired. */
  lemma OtherStateNotRecovered(s: Shared, c: Controller, f: Stamp, id: Id, newId: Id)
    requires s.claim.Some? && !Unrelated(s.claim.value, c, f, id)
    requires id !in s.device.rows || s.device.rows[id] != f
    ensures Drive(s, c, Recovering(f, id), newId, 2) == (s, Idle)
  {
    DriveOne(s, c, Recovering(f, id), newId, 1, s, Rechecking(f, id, s.claim.value));
    DriveOne(s, c, Rechecking(f, id, s.claim.value), newId, 0, s, Idle);
  }

  // ---- The finalizer --------------------------------------------------------------------

  /** Past the reservation, the remembered claim has its finalizer. */
  predicate Guarded(l: Local) {
    (l.Reserving? || l.Looking? || l.Posting? || l.Relisting? || l.Refreshing? || l.Confirming? || l.Binding?
      || l.Sealing?) ==> l.claim.finalizer
  }

  lemma GuardedReserve(s: Shared, c: Controller, f: Stamp, l: Local, newId: Id)
    requires Stage(s, c, f) && Underway(s, c, f, l) && InReserve(l) && Guarded(l)
    ensures Guarded(ReserveStep(s, c, l, Quiet(newId)).1) && ReserveStep(s, c, l, Quiet(newId)).1 != Idle
  {
  }

  lemma GuardedRest(s: Shared, c: Controller, f: Stamp, l: Local, newId: Id)
    requires Stage(s, c, f) && Underway(s, c, f, l) && !InReserve(l) && l != Idle && Guarded(l)
    ensures var (s', l') := Step(s, c, l, Quiet(newId));
            Guarded(l') && (l' == Idle ==> s'.claim.Some? && s'.claim.value.finalizer)
  {
    if l.Looking? { ObserveStage(s, c, f, l.claim, if l.claim.phase == Reserved then Posting(f, l.claim) else Idle); }
    if l.Refreshing? { ObserveStage(s, c, f, l.claim, Idle); }
  }

  /** When an undisturbed create from any stage has ended, the claim has its finalizer. */
  lemma {:induction false} CreateHoldsClaim(s: Shared, c: Controller, f: Stamp, l: Local, newId: Id, n: nat)
    requires Stage(s, c, f) && Underway(s, c, f, l) && Guarded(l) && l != Idle && Drive(s, c, l, newId, n).1 == Idle
    ensures var s' := Drive(s, c, l, newId, n).0; s'.claim.Some? && s'.claim.value.finalizer
    decreases n
  {
    CreateStages(s, c, f, l, Quiet(newId));
    var (s', l') := CS.Called(s, c, l, Quiet(newId));
    if InReserve(l) { GuardedReserve(s, c, f, l, newId); } else { GuardedRest(s, c, f, l, newId); }
    if l' != Idle { CreateHoldsClaim(s', c, f, l', newId, n - 1); }
  }
}
