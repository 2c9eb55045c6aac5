/** The shared-zone claim protocol for one record identity: the claim in a store with optimistic
    resource versions, the device rows of that record, and one process per controller ID. Every store
    or device call is one step; a process may crash between any two of them, a call may fail, and a
    response may be lost after its effect. */
module Claims {
  import opened Text

  type Id = string
  type Controller = string

  /** What tells two rows of one identity apart: the rest of the fingerprint. */
  datatype Stamp = Stamp(ttl: int, disabled: bool)

  datatype Phase = NoPhase | Reserved | Confirmed | Orphaned | InConflict

  datatype Claim = Claim(controller: Controller, stamp: Stamp, bound: Option<Id>, phase: Phase, finalizer: bool,
      rv: nat)

  /** What a device listing shows: the rows of the identity, and the IDs of all other rows. */
  datatype Snapshot = Snapshot(rows: map<Id, Stamp>, others: set<Id>)

  datatype Shared = Shared(claim: Option<Claim>, nextRv: nat, device: Snapshot)

  datatype Mutation = Erase | Put(stamp: Stamp)

  /** Where a process stands: the call it makes next and what it remembers. */
  datatype Local =
    | Idle
    // ReconcileCreate: Reserve
    | Listing(stamp: Stamp)
    | Creating(stamp: Stamp)
    | Probing(stamp: Stamp, claim: Claim)
    | Resetting(stamp: Stamp, claim: Claim)
    | Finalizing(stamp: Stamp, claim: Claim)
    | Reserving(stamp: Stamp, claim: Claim)
    // ReconcileCreate: relist, POST, relist, refresh
    | Looking(stamp: Stamp, claim: Claim)
    | Posting(stamp: Stamp, claim: Claim)
    | Relisting(stamp: Stamp, claim: Claim)
    | Refreshing(stamp: Stamp, claim: Claim, seen: Snapshot)
    // Confirm and the single status writes
    | Confirming(claim: Claim, id: Id)
    | Binding(claim: Claim, id: Id)
    | Sealing(claim: Claim)
    | Marking(claim: Claim)
    | Orphaning(claim: Claim, seen: Snapshot, release: bool)
    | Releasing(claim: Claim, seen: Snapshot)
    | Removing(claim: Claim)
    // applyExisting
    | Fetching(mutation: Mutation, id: Id)
    | Sampling(mutation: Mutation, id: Id, claim: Claim)
    | Verifying(mutation: Mutation, id: Id, claim: Claim, seen: Snapshot)
    | Authorizing(mutation: Mutation, id: Id, claim: Claim, seen: Snapshot)
    | Mutating(mutation: Mutation, id: Id, claim: Claim, seen: Snapshot)
    | Auditing(mutation: Mutation, id: Id, claim: Claim)
    | Reconciling(claim: Claim, seen: Snapshot, release: bool)
    | Rebinding(claim: Claim, id: Id, stamp: Stamp)
    // recoverInterruptedClaim
    | Recovering(stamp: Stamp, id: Id)
    | Rechecking(stamp: Stamp, id: Id, claim: Claim)
  {
    function Copy(): Option<Claim> {
      match this
      case Idle => None
      case Listing(_) => None
      case Creating(_) => None
      case Fetching(_, _) => None
      case Recovering(_, _) => None
      case _ => Some(claim)
    }
  }

  /** What the outside decides about one call: whether it fails, whether its response is lost, whether the listing of
      claims shows a second claim for the record, whether an orphaned claim is being deleted, and whether and under
      which ID the device commits a POST. */
  datatype Choice = Choice(fails: bool, lost: bool, duplicate: bool, deleting: bool, committed: bool, newId: Id)

  /** A write that the store accepts only at the version of the copy it was made from. */
  function Write(s: Shared, copy: Claim, written: Claim): Option<(Shared, Claim)> {
    if s.claim.Some? && s.claim.value.rv == copy.rv then
      var stored := written.(rv := s.nextRv);
      Some((s.(claim := Some(stored), nextRv := s.nextRv + 1), stored))
    else None
  }

  /** The record has exactly this one row. */
  ghost predicate OnlyRow(rows: map<Id, Stamp>, id: Id, stamp: Stamp) { rows == map[id := stamp] }

  /** Reserve on an existing claim, after a possible orphan recovery. */
  function Admit(stamp: Stamp, k: Claim): Local {
    match k.phase
    case Reserved => Looking(stamp, k)
    case Confirmed => Looking(stamp, k)
    case NoPhase => Reserving(stamp, k)
    case _ => Idle
  }

  function Match(c: Controller, stamp: Stamp, k: Claim): Local {
    if k.controller != c || k.stamp != stamp then Marking(k)
    else if !k.finalizer then Finalizing(stamp, k)
    else Admit(stamp, k)
  }

  /** confirmObserved: what the rows of the record mean for the claim. */
  ghost function Observe(stamp: Stamp, k: Claim, seen: Snapshot, absent: Local): Local {
    if seen.rows == map[] then
      if k.phase == Confirmed then Orphaning(k, seen, false) else absent
    else if exists id :: OnlyRow(seen.rows, id, stamp) then
      var id :| OnlyRow(seen.rows, id, stamp);
      Confirming(k, id)
    else Marking(k)
  }

  /** The claim is still at the version of the copy. */
  predicate Current(s: Shared, k: Claim) { s.claim.Some? && s.claim.value.rv == k.rv }

  predicate Confirmable(k: Claim) { k.phase == Reserved || k.phase == Orphaned || k.phase == Confirmed }

  /** Goes on with what a guarded write returns, or gives up. */
  function Then(s: Shared, k: Claim, written: Claim, go: Claim -> Local): (Shared, Local) {
    var w := Write(s, k, written);
    if w.None? then (s, Idle) else (w.value.0, go(w.value.1))
  }

  /** Reserve, call by call. */
  function ReserveStep(s: Shared, c: Controller, l: Local, ch: Choice): (Shared, Local) {
    match l
    case Listing(f) =>
      if ch.duplicate then (s, if s.claim.Some? then Marking(s.claim.value) else Idle)
      else if s.claim.None? then (s, Creating(f))
      else
        var k := s.claim.value;
        (s, if k.phase == Orphaned && k.controller == c && !ch.deleting then Probing(f, k) else Match(c, f, k))
    case Creating(f) =>
      if s.claim.Some? then (s, Idle)
      else
        var k := Claim(c, f, None, NoPhase, true, s.nextRv);
        (s.(claim := Some(k), nextRv := s.nextRv + 1), Reserving(f, k))
    case Probing(f, k) =>
      if s.device.rows != map[] || (k.bound.Some? && k.bound.value in s.device.others) then (s, Match(c, f, k))
      else (s, Resetting(f, k))
    case Resetting(f, k) => Then(s, k, k.(bound := None, stamp := f, finalizer := true), u => Reserving(f, u))
    case Finalizing(f, k) => Then(s, k, k.(finalizer := true), u => Admit(f, u))
    case Reserving(f, k) => Then(s, k, k.(phase := Reserved), u => Looking(f, u))
    case _ => (s, l)
  }

  /** ReconcileCreate after its reservation: relist, POST, relist, refresh. */
  ghost function PostStep(s: Shared, l: Local, ch: Choice): (Shared, Local) {
    match l
    case Looking(f, k) => (s, Observe(f, k, s.device, if k.phase == Reserved then Posting(f, k) else Idle))
    case Posting(f, k) =>
      if ch.committed && ch.newId !in s.device.rows && ch.newId !in s.device.others
      then (s.(device := s.device.(rows := s.device.rows[ch.newId := f])), Relisting(f, k))
      else (s, Relisting(f, k))
    case Relisting(f, k) => (s, Refreshing(f, k, s.device))
    case Refreshing(f, k, seen) => (s, if s.claim.None? then Idle else Observe(f, s.claim.value, seen, Idle))
    case _ => (s, l)
  }

  /** Confirm, and marking a conflict. */
  function ConfirmStep(s: Shared, l: Local, ch: Choice): (Shared, Local) {
    match l
    case Confirming(k, id) =>
      if !Current(s, k) then (s, Idle)
      else if ch.duplicate then (s, Marking(k))
      else if !Confirmable(k) then (s, Idle)
      else if k.bound.Some? && k.bound.value != id then (s, Marking(k))
      else if k.bound == Some(id) then (s, Sealing(k))
      else (s, Binding(k, id))
    case Binding(k, id) => Then(s, k, k.(bound := Some(id)), u => Sealing(u))
    case Sealing(k) => Then(s, k, k.(phase := Confirmed), u => Idle)
    case Marking(k) => Then(s, k, k.(phase := InConflict), u => Idle)
    case _ => (s, l)
  }

  /** MarkOrphaned and ReleaseAndDeleteClaim. */
  function ReleaseStep(s: Shared, l: Local, ch: Choice): (Shared, Local) {
    match l
    case Orphaning(k, seen, release) =>
      Then(s, k, k.(phase := Orphaned), u => if release then Releasing(u, seen) else Idle)
    case Releasing(k, seen) =>
      if ch.duplicate then (s, if Current(s, k) then Marking(k) else Idle)
      else if k.bound.Some? && (k.bound.value in seen.rows || k.bound.value in seen.others) then (s, Idle)
      else if k.stamp in seen.rows.Values then (s, Idle)
      else Then(s, k, k.(finalizer := false), u => Removing(u))
    case Removing(k) => (if Current(s, k) then s.(claim := None) else s, Idle)
    case _ => (s, l)
  }

  /** AuthorizeMutation: the bound row is listed exactly once, as the claim describes it. */
  predicate Authorized(k: Claim, seen: Snapshot) {
    k.phase == Confirmed && k.bound.Some? && k.bound.value in seen.rows && k.bound.value !in seen.others
      && seen.rows[k.bound.value] == k.stamp
  }

  /** ReconcileClaim: what a stable listing means for the claim. */
  ghost function Reconcile(k: Claim, seen: Snapshot, release: bool): Local {
    if seen.rows == map[] then
      if k.phase == Reserved then Idle else Orphaning(k, seen, release)
    else if exists id :: OnlyRow(seen.rows, id, k.stamp) then
      var id :| OnlyRow(seen.rows, id, k.stamp);
      if k.bound.Some? && k.bound.value != id then Marking(k) else Confirming(k, id)
    else Marking(k)
  }

  /** applyExisting, call by call. */
  function ApplyStep(s: Shared, l: Local, ch: Choice): (Shared, Local) {
    match l
    case Fetching(m, id) => (s, if s.claim.None? then Idle else Sampling(m, id, s.claim.value))
    case Sampling(m, id, k) => (s, Verifying(m, id, k, s.device))
    case Verifying(m, id, k, seen) =>
      (s, if s.device == seen && k.phase == Confirmed then Authorizing(m, id, k, s.device) else Idle)
    case Authorizing(m, id, k, seen) =>
      if !Current(s, k) then (s, Idle)
      else if ch.duplicate then (s, Marking(k))
      else if k.bound.None? then (s, Idle)
      else if Authorized(k, seen) then (s, Mutating(m, id, k, seen))
      else (s, Marking(k))
    case Mutating(m, id, k, seen) =>
      var rows := s.device.rows;
      var rows' :=
        if !ch.committed then rows
        else if m.Erase? then rows - {id}
        else if id in rows then rows[id := m.stamp]
        else rows;
      (s.(device := s.device.(rows := rows')), Auditing(m, id, k))
    case Auditing(m, id, k) =>
      (s, if m.Erase? then Reconciling(k, s.device, true)
          else if id in s.device.rows && s.device.rows[id] == m.stamp then Rebinding(k, id, m.stamp)
          else Idle)
    case _ => (s, l)
  }

  /** The claim reserves the record as desired, or confirms the row. */
  predicate Recovers(k: Claim, f: Stamp, id: Id) {
    || (k.phase == Reserved && k.stamp == f && (k.bound.None? || k.bound == Some(id)))
    || (k.phase == Confirmed && k.bound == Some(id))
  }

  /** ReconcileClaim, RebindConfirmed and recoverInterruptedClaim. */
  ghost function RecoverStep(s: Shared, c: Controller, l: Local, ch: Choice): (Shared, Local) {
    match l
    case Reconciling(k, seen, release) =>
      if !Current(s, k) then (s, Idle)
      else if ch.duplicate then (s, Marking(k))
      else (s, Reconcile(k, seen, release))
    case Rebinding(k, id, f) =>
      if ch.duplicate then (s, if Current(s, k) then Marking(k) else Idle)
      else if k.bound != Some(id) then (s, Idle)
      else Then(s, k, k.(stamp := f), u => Sealing(u))
    case Recovering(f, id) =>
      if s.claim.None? then (s, Idle)
      else
        var k := s.claim.value;
        (s, if k.controller == c && Recovers(k, f, id) then Rechecking(f, id, k) else Idle)
    case Rechecking(f, id, k) =>
      (s, if !(id in s.device.rows && s.device.rows[id] == f) then Idle
          else if k.phase == Reserved then Reconciling(k, s.device, false)
          else if k.stamp == f then Idle
          else Rebinding(k, id, f))
    case _ => (s, l)
  }

  ghost function Step(s: Shared, c: Controller, l: Local, ch: Choice): (Shared, Local) {
    match l
    case Confirming(_, _) => ConfirmStep(s, l, ch)
    case Binding(_, _) => ConfirmStep(s, l, ch)
    case Sealing(_) => ConfirmStep(s, l, ch)
    case Marking(_) => ConfirmStep(s, l, ch)
    case Orphaning(_, _, _) => ReleaseStep(s, l, ch)
    case Releasing(_, _) => ReleaseStep(s, l, ch)
    case Removing(_) => ReleaseStep(s, l, ch)
    case Fetching(_, _) => ApplyStep(s, l, ch)
    case Sampling(_, _, _) => ApplyStep(s, l, ch)
    case Verifying(_, _, _, _) => ApplyStep(s, l, ch)
    case Authorizing(_, _, _, _) => ApplyStep(s, l, ch)
    case Mutating(_, _, _, _) => ApplyStep(s, l, ch)
    case Auditing(_, _, _) => ApplyStep(s, l, ch)
    case Reconciling(_, _, _) => RecoverStep(s, c, l, ch)
    case Rebinding(_, _, _) => RecoverStep(s, c, l, ch)
    case Recovering(_, _) => RecoverStep(s, c, l, ch)
    case Rechecking(_, _, _) => RecoverStep(s, c, l, ch)
    case Looking(_, _) => PostStep(s, l, ch)
    case Posting(_, _) => PostStep(s, l, ch)
    case Relisting(_, _) => PostStep(s, l, ch)
    case Refreshing(_, _, _) => PostStep(s, l, ch)
    case _ => ReserveStep(s, c, l, ch)
  }
}
