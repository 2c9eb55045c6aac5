/** Updates of a published record in shared mode: where an update ends, where it can stop, and how an update that
    stopped between the device and the claim is recovered. */
module ClaimUpdate {
  import opened Text
  import opened Dns
  import opened PlanSpec
  import opened PlanNames
  import opened PlanRecords
  import opened PlanSafety
  import opened Claims
  import opened ClaimStages
  import opened ClaimRecovery
  import opened ClaimTakeover
  import opened Ownership
  import CS = ClaimSafety

  // ---- Where an update can stop ---------------------------------------------------------

  /** c's confirmed claim at stamp g is bound to the record's one row, which is in state f. */
  ghost predicate BoundAt(s: Shared, c: Controller, g: Stamp, f: Stamp, id: Id) {
    && CS.StoreGood(s) && s.claim.Some? && s.claim.value.phase == Confirmed && s.claim.value.controller == c
    && s.claim.value.stamp == g && s.claim.value.bound == Some(id)
    && OnlyRow(s.device.rows, id, f) && id !in s.device.others
  }

  /** The update from g to f is not begun, or has reached the device only, or is done. */
  ghost predicate UpdateStage(s: Shared, c: Controller, g: Stamp, f: Stamp, id: Id) {
    BoundAt(s, c, g, g, id) || BoundAt(s, c, g, f, id) || BoundAt(s, c, f, f, id)
  }

  /** What the process remembers while the update, or the recovery of one, is under way. */
  ghost predicate Updating(s: Shared, c: Controller, g: Stamp, f: Stamp, id: Id, l: Local) {
    match l
    case Idle => true
    case Fetching(m, i) => m == Put(f) && i == id && BoundAt(s, c, g, g, id)
    case Sampling(m, i, k) => m == Put(f) && i == id && s.claim == Some(k) && BoundAt(s, c, g, g, id)
    case Verifying(m, i, k, _) => m == Put(f) && i == id && s.claim == Some(k) && BoundAt(s, c, g, g, id)
    case Authorizing(m, i, k, seen) =>
      m == Put(f) && i == id && s.claim == Some(k) && BoundAt(s, c, g, g, id) && seen == s.device
    case Mutating(m, i, k, _) => m == Put(f) && i == id && s.claim == Some(k) && BoundAt(s, c, g, g, id)
    case Auditing(m, i, k) => m == Put(f) && i == id && s.claim == Some(k)
    case Rebinding(k, i, h) => h == f && i == id && s.claim == Some(k) && OnlyRow(s.device.rows, id, f)
    case Sealing(k) => s.claim == Some(k) && BoundAt(s, c, f, f, id)
    case Recovering(h, i) => h == f && i == id
    case Rechecking(h, i, k) => h == f && i == id && s.claim == Some(k)
    case _ => false
  }

  lemma RowIs(rows: map<Id, Stamp>, id: Id, f: Stamp)
    requires OnlyRow(rows, id, f)
    ensures id in rows && rows[id] == f && rows[id := f] == rows
  {
    assert id in rows;
  }

  lemma ApplyStays(s: Shared, c: Controller, g: Stamp, f: Stamp, id: Id, l: Local, ch: Choice)
    requires UpdateStage(s, c, g, f, id) && Updating(s, c, g, f, id, l) && Solo(ch)
    requires l.Fetching? || l.Sampling? || l.Verifying? || l.Authorizing? || l.Auditing?
    ensures var (s', l') := ApplyStep(s, l, ch); s' == s && Updating(s, c, g, f, id, l')
  {
    forall h | OnlyRow(s.device.rows, id, h) ensures id in s.device.rows && s.device.rows[id] == h {
      RowIs(s.device.rows, id, h);
    }
  }

  lemma WriteStays(s: Shared, c: Controller, g: Stamp, f: Stamp, id: Id, l: Local, ch: Choice)
    requires UpdateStage(s, c, g, f, id) && Updating(s, c, g, f, id, l) && l.Mutating?
    ensures var (s', l') := ApplyStep(s, l, ch); UpdateStage(s', c, g, f, id) && Updating(s', c, g, f, id, l')
  {
    RowIs(s.device.rows, id, g);
    var s' := ApplyStep(s, l, ch).0;
    if ch.committed {
      assert s'.device.rows == map[id := f];
      assert BoundAt(s', c, g, f, id);
    } else {
      assert s' == s;
    }
  }

  lemma RebindStays(s: Shared, c: Controller, g: Stamp, f: Stamp, id: Id, l: Local, ch: Choice)
    requires UpdateStage(s, c, g, f, id) && Updating(s, c, g, f, id, l) && Solo(ch) && (l.Rebinding? || l.Sealing?)
    ensures var (s', l') := Step(s, c, l, ch); UpdateStage(s', c, g, f, id) && Updating(s', c, g, f, id, l')
  {
    if l.Rebinding? {
      var s' := RecoverStep(s, c, l, ch).0;
      assert BoundAt(s', c, f, f, id);
    }
  }

  lemma RecoverStays(s: Shared, c: Controller, g: Stamp, f: Stamp, id: Id, l: Local, ch: Choice)
    requires UpdateStage(s, c, g, f, id) && Updating(s, c, g, f, id, l) && (l.Recovering? || l.Rechecking?)
    ensures var (s', l') := RecoverStep(s, c, l, ch); s' == s && Updating(s, c, g, f, id, l')
  {
    forall h | OnlyRow(s.device.rows, id, h) ensures id in s.device.rows && s.device.rows[id] == h {
      RowIs(s.device.rows, id, h);
    }
  }

  /** An update or a recovery that runs alone, with any failure, lost response or crash, stays within the stages. */
  lemma UpdateStays(s: Shared, c: Controller, g: Stamp, f: Stamp, id: Id, l: Local, ch: Choice)
    requires UpdateStage(s, c, g, f, id) && Updating(s, c, g, f, id, l) && Solo(ch)
    ensures var (s', l') := CS.Called(s, c, l, ch); UpdateStage(s', c, g, f, id) && Updating(s', c, g, f, id, l')
  {
    if l.Mutating? { WriteStays(s, c, g, f, id, l, ch); }
    else if l.Rebinding? || l.Sealing? { RebindStays(s, c, g, f, id, l, ch); }
    else if l.Recovering? || l.Rechecking? { RecoverStays(s, c, g, f, id, l, ch); }
    else if l != Idle { ApplyStays(s, c, g, f, id, l, ch); }
  }

  // ---- Where it ends --------------------------------------------------------------------

  /** The store after the claim was given another stamp. */
  function Restamped(s: Shared, k: Claim, f: Stamp): Shared {
    s.(claim := Some(k.(stamp := f, rv := s.nextRv)), nextRv := s.nextRv + 1)
  }

  /** The device after the row was written. */
  function Rewritten(s: Shared, id: Id, f: Stamp): Shared {
    s.(device := s.device.(rows := s.device.rows[id := f]))
  }

  lemma RebindCalls(s: Shared, c: Controller, k: Claim, id: Id, f: Stamp, newId: Id) returns (s': Shared, n: nat)
    requires s.claim == Some(k) && k.phase == Confirmed && k.bound == Some(id)
    ensures Drive(s, c, Rebinding(k, id, f), newId, n) == (s', Idle)
    ensures s'.device == s.device && s'.claim == Some(k.(stamp := f, rv := s.nextRv + 1)) && s'.nextRv == s.nextRv + 2
  {
    var s1 := Restamped(s, k, f);
    var k1 := s1.claim.value;
    s', n := Phased(s1, k1, Confirmed), 2;
    DriveOne(s, c, Rebinding(k, id, f), newId, 1, s1, Sealing(k1));
    DriveOne(s1, c, Sealing(k1), newId, 0, s', Idle);
  }

  lemma PutCalls(s: Shared, c: Controller, k: Claim, id: Id, f: Stamp, newId: Id, n: nat)
    requires id in s.device.rows
    ensures Drive(s, c, Mutating(Put(f), id, k, s.device), newId, n + 2)
         == Drive(Rewritten(s, id, f), c, Rebinding(k, id, f), newId, n)
  {
    var t := Rewritten(s, id, f);
    DriveOne(s, c, Mutating(Put(f), id, k, s.device), newId, n + 1, t, Auditing(Put(f), id, k));
    DriveOne(t, c, Auditing(Put(f), id, k), newId, n, t, Rebinding(k, id, f));
  }

  lemma UpdateCalls(s: Shared, c: Controller, k: Claim, id: Id, f: Stamp, newId: Id, n: nat)
    requires s.claim == Some(k) && Authorized(k, s.device) && id in s.device.rows
    ensures Drive(s, c, Fetching(Put(f), id), newId, n + 6)
         == Drive(Rewritten(s, id, f), c, Rebinding(k, id, f), newId, n)
  {
    FetchCalls(s, c, k, Put(f), id, newId, n + 4);
    CheckCalls(s, c, k, Put(f), id, newId, n + 2);
    PutCalls(s, c, k, id, f, newId, n);
  }

  /** An undisturbed update of the bound and only row ends with that row in the new state and the claim confirmed for
      it; nothing else of the claim changes but its version. */
  lemma UpdatePublishes(s: Shared, c: Controller, k: Claim, g: Stamp, f: Stamp, id: Id, newId: Id)
    returns (s': Shared, n: nat)
    requires BoundAt(s, c, g, g, id) && s.claim == Some(k)
    ensures Drive(s, c, Fetching(Put(f), id), newId, n) == (s', Idle)
    ensures BoundAt(s', c, f, f, id) && Published(s', c, f) && s'.claim.value.(rv := k.rv) == k.(stamp := f)
  {
    RowIs(s.device.rows, id, g);
    var t := Rewritten(s, id, f);
    assert t.device.rows == map[id := f];
    var m: nat;
    s', m := RebindCalls(t, c, k, id, f, newId);
    UpdateCalls(s, c, k, id, f, newId, m);
    n := m + 6;
  }

  lemma RecheckCalls(s: Shared, c: Controller, k: Claim, id: Id, f: Stamp, newId: Id, n: nat)
    requires s.claim == Some(k) && k.controller == c && k.phase == Confirmed && k.bound == Some(id) && k.stamp != f
    requires id in s.device.rows && s.device.rows[id] == f
    ensures Drive(s, c, Recovering(f, id), newId, n + 2) == Drive(s, c, Rebinding(k, id, f), newId, n)
  {
    DriveOne(s, c, Recovering(f, id), newId, n + 1, s, Rechecking(f, id, k));
    DriveOne(s, c, Rechecking(f, id, k), newId, n, s, Rebinding(k, id, f));
  }

  /** An update that reached the device and not the claim is completed by recovering the claim. */
  lemma RecoverRebinds(s: Shared, c: Controller, g: Stamp, f: Stamp, id: Id, newId: Id) returns (s': Shared, n: nat)
    requires BoundAt(s, c, g, f, id) && g != f
    ensures Drive(s, c, Recovering(f, id), newId, n) == (s', Idle)
    ensures BoundAt(s', c, f, f, id) && Published(s', c, f)
    ensures s'.device == s.device && s'.claim.value.(rv := s.claim.value.rv) == s.claim.value.(stamp := f)
  {
    var k := s.claim.value;
    RowIs(s.device.rows, id, f);
    var m: nat;
    s', m := RebindCalls(s, c, k, id, f, newId);
    RecheckCalls(s, c, k, id, f, newId, m);
    n := m + 2;
  }

  // ---- One cycle ------------------------------------------------------------------------

  lemma RecoverRests(s: Shared, c: Controller, g: Stamp, f: Stamp, id: Id, newId: Id)
    requires BoundAt(s, c, g, g, id) && g != f
    ensures Drive(s, c, Recovering(f, id), newId, 2) == (s, Idle)
  {
    var k := s.claim.value;
    RowIs(s.device.rows, id, g);
    DriveOne(s, c, Recovering(f, id), newId, 1, s, Rechecking(f, id, k));
    DriveOne(s, c, Rechecking(f, id, k), newId, 0, s, Idle);
  }

  /** The record's row, still in its old state, is kept for it. */
  lemma OldRow(p: Problem, t: string, d: Endpoint, s: Shared, c: Controller, g: Stamp, id: Id)
    requires PlansFor(p, t, d, s, c) && BoundAt(s, c, g, g, id)
    ensures var e := BoundRow(d, id, g, s, c);
            && e in p.current && OwnedBy(e, c) && KeyOf(e) == KeyOf(d) && multiset(p.current)[e] == 1
            && (forall x :: x in p.current && KeyOf(x) == KeyOf(d) <==> x == e)
            && p.Copies(KeyOf(d)) != [] && Head(p.Copies(KeyOf(d))) == e && p.StaleCount(e) == 0
  {
    OneOwnRow(p, t, d, s, c, id, g);
    OnlyCopy(p, d, BoundRow(d, id, g, s, c));
  }

  /** What concerns a record whose row is in another state: its update, or a conflict about the row. */
  lemma ConcernsOld(p: Problem, t: string, sources: Sources, d: Endpoint, s: Shared, c: Controller, g: Stamp, id: Id,
      o: Operation)
    requires PlansFor(p, t, d, s, c) && BoundAt(s, c, g, g, id) && p.Count(o) > 0 && Concerns(t, sources, d, o)
    ensures p.Clean(d) ==> o == Update(d, BoundRow(d, id, g, s, c))
    ensures !p.Clean(d) ==> o.Conflict? && o.desired == d && WorkOn(t, sources, o) == Recovering(StampOf(d), id)
  {
    var e := BoundRow(d, id, g, s, c);
    OldRow(p, t, d, s, c, g, id);
    ConcernsOwn(p, t, sources, d, s, c, o);
    if o.Mutates() { OnlyUpdated(p, d, e, o); }
  }

  /** The only copy of a record is mutated by its update or not at all. */
  lemma OnlyUpdated(p: Problem, d: Endpoint, e: Endpoint, o: Operation)
    requires p.Wf() && p.Desires(d) && e in p.current && OwnedBy(e, p.owner) && KeyOf(e) == KeyOf(d)
    requires multiset(p.current)[e] == 1 && p.StaleCount(e) == 0 && o.Mutates() && o.current == e && p.Count(o) > 0
    ensures o == Update(d, e) && p.Clean(d)
  {
    Role(p, o);
    if o.Update? { KeptRow(p, o.desired, e); }
    if o.Replace? { PublishedNotReplaced(p, d, e, o); }
  }

  lemma UpdateIsPlanned(p: Problem, t: string, d: Endpoint, s: Shared, c: Controller, g: Stamp, id: Id)
    requires PlansFor(p, t, d, s, c) && BoundAt(s, c, g, g, id) && g != StampOf(d) && p.Clean(d)
    ensures p.Count(Update(d, BoundRow(d, id, g, s, c))) == 1
  {
    OldRow(p, t, d, s, c, g, id);
  }

  /** A published record whose desired state changed: one undisturbed cycle ends with the row and the claim in the new
      state if and only if no CNAME rule and no foreign row of its type stands against the record. */
  lemma UpdateCycle(p: Problem, t: string, sources: Sources, d: Endpoint, s: Shared, c: Controller, g: Stamp, id: Id,
      newId: Id)
    returns (s': Shared)
    requires PlansFor(p, t, d, s, c) && BoundAt(s, c, g, g, id) && g != StampOf(d)
    ensures CycleEnds(p, t, sources, d, s, c, newId, s')
    ensures if p.Clean(d) then BoundAt(s', c, StampOf(d), StampOf(d), id) else s' == s
  {
    var f := StampOf(d);
    forall o: Operation | p.Count(o) > 0 && Concerns(t, sources, d, o)
      ensures p.Clean(d) ==> o == Update(d, BoundRow(d, id, g, s, c))
      ensures !p.Clean(d) ==> o.Conflict? && o.desired == d && WorkOn(t, sources, o) == Recovering(f, id)
    {
      ConcernsOld(p, t, sources, d, s, c, g, id, o);
    }
    if p.Clean(d) {
      var op := Update(d, BoundRow(d, id, g, s, c));
      UpdateIsPlanned(p, t, d, s, c, g, id);
      var n: nat;
      s', n := UpdatePublishes(s, c, s.claim.value, g, f, id, newId);
      assert OnlyConcern(p, t, sources, d, op) && Drive(s, c, WorkOn(t, sources, op), newId, n) == (s', Idle);
    } else {
      s' := s;
      if op: Operation :| p.Count(op) > 0 && Concerns(t, sources, d, op) {
        RecoverRests(s, c, g, f, id, newId);
        ConflictOnce(p, t, sources, d, op);
        assert OnlyConcern(p, t, sources, d, op) && Drive(s, c, WorkOn(t, sources, op), newId, 2) == (s, Idle);
      }
    }
  }

  lemma ConflictOnce(p: Problem, t: string, sources: Sources, d: Endpoint, op: Operation)
    requires op.Conflict? && op.desired == d && p.Count(op) > 0 && Concerns(t, sources, d, op)
    requires forall o: Operation :: p.Count(o) > 0 && Concerns(t, sources, d, o) ==> o.Conflict? && o.desired == d
    ensures OnlyConcern(p, t, sources, d, op)
  {
    assert p.Count(op) == 1;
    forall o: Operation | p.Count(o) > 0 && Concerns(t, sources, d, o) ensures o == op { OneConflict(p, o, op); }
  }

  /** An update that stopped between the device and the claim: the row is no longer listed as owned, and one undisturbed
      cycle completes the update if and only if the claim names the record's source and the plan reports the row. */
  lemma InterruptedUpdate(p: Problem, t: string, sources: Sources, d: Endpoint, s: Shared, c: Controller, g: Stamp,
      id: Id, newId: Id)
    returns (s': Shared)
    requires PlansFor(p, t, d, s, c) && BoundAt(s, c, g, StampOf(d), id) && g != StampOf(d)
    ensures CycleEnds(p, t, sources, d, s, c, newId, s')
    ensures var reported := SourceMatches(sources, d) && Reported(p, d, BoundRow(d, id, StampOf(d), s, c));
            if reported then BoundAt(s', c, StampOf(d), StampOf(d), id) else s' == s
  {
    var f := StampOf(d);
    var e := BoundRow(d, id, f, s, c);
    var op := Conflict(d, Some(e), LogicalUnowned);
    OneOwnRow(p, t, d, s, c, id, f);
    forall o: Operation | p.Count(o) > 0 && Concerns(t, sources, d, o) ensures o == op && Reported(p, d, e) {
      ConcernsUnconfirmed(p, t, sources, d, s, c, id, f, o);
    }
    s' := s;
    if SourceMatches(sources, d) && Reported(p, d, e) {
      ReportedConcerns(p, t, sources, d, e, id);
      var n: nat;
      s', n := RecoverRebinds(s, c, g, f, id, newId);
      assert OnlyConcern(p, t, sources, d, op) && Drive(s, c, WorkOn(t, sources, op), newId, n) == (s', Idle);
    }
  }

  lemma ReportedConcerns(p: Problem, t: string, sources: Sources, d: Endpoint, e: Endpoint, id: Id)
    requires p.Wf() && p.Desires(d) && Reported(p, d, e) && SourceMatches(sources, d) && IdentityFor(t, d).Some?
    requires e.providerID == id && id != "" && IdentityFor(t, e) == IdentityFor(t, d)
    ensures var op := Conflict(d, Some(e), LogicalUnowned);
            p.Count(op) == 1 && WorkOn(t, sources, op) == Recovering(StampOf(d), id) && Concerns(t, sources, d, op)
  {
    ReportedIsPlanned(p, d, e);
  }

  // ---- Records that are no longer desired -----------------------------------------------

  /** A plan that does not desire the record, made from a listing that shows its row as the claim binds it. */
  ghost predicate PlansWithout(p: Problem, t: string, r: Endpoint, s: Shared, c: Controller, g: Stamp, id: Id) {
    var e := BoundRow(r, id, g, s, c);
    && p.Wf() && p.owner == c && KeyOf(r) !in p.byKey && IdentityFor(t, r).Some? && id != ""
    && (forall x :: x in p.current && KeyOf(x) == KeyOf(r) <==> x == e) && multiset(p.current)[e] == 1
  }

  /** What concerns such a record is the cleanup of its row. */
  lemma ConcernsUndesired(p: Problem, t: string, sources: Sources, r: Endpoint, s: Shared, c: Controller, g: Stamp,
      id: Id, o: Operation)
    requires PlansWithout(p, t, r, s, c, g, id) && BoundAt(s, c, g, g, id)
    requires p.Count(o) > 0 && Concerns(t, sources, r, o)
    ensures o.Mutates() && o.current == BoundRow(r, id, g, s, c) && IsCleanupOf(p, o)
  {
    IdentityIsKey(t, RecordOf(o), r);
    if o.Mutates() {
      PlanSafety.Mutation(p, o);
      if o.Update? { KeptRow(p, o.desired, o.current); }
    } else if o.Conflict? {
      ConflictObserves(p, o);
    }
  }

  /** A delete or deactivate as the policy has it. */
  predicate IsCleanupOf(p: Problem, o: Operation) {
    || (o.Delete? && p.cleanup == CleanupDelete)
    || (o.Deactivate? && p.cleanup == CleanupDeactivate && o.desired == o.current.(disabled := true))
  }

  lemma CleanupConcerns(p: Problem, t: string, sources: Sources, r: Endpoint, s: Shared, c: Controller, g: Stamp,
      id: Id, op: Operation)
    requires PlansWithout(p, t, r, s, c, g, id) && BoundAt(s, c, g, g, id) && p.Count(op) > 0
    requires (op.Delete? || op.Deactivate?) && op.current == BoundRow(r, id, g, s, c)
    ensures OnlyConcern(p, t, sources, r, op)
  {
    Role(p, op);
    forall o: Operation | p.Count(o) > 0 && Concerns(t, sources, r, o) ensures o == op {
      ConcernsUndesired(p, t, sources, r, s, c, g, id, o);
      OneMutation(p, o, op);
    }
  }

  /** One undisturbed cycle that deletes the row of a published record leaves neither row nor claim. */
  lemma DeleteCycle(p: Problem, t: string, sources: Sources, r: Endpoint, s: Shared, c: Controller, g: Stamp, id: Id,
      newId: Id)
    returns (s': Shared)
    requires PlansWithout(p, t, r, s, c, g, id) && BoundAt(s, c, g, g, id)
    requires p.Count(Delete(BoundRow(r, id, g, s, c))) > 0
    ensures CycleEnds(p, t, sources, r, s, c, newId, s') && s'.claim.None? && s'.device.rows == map[]
  {
    var op := Delete(BoundRow(r, id, g, s, c));
    CleanupConcerns(p, t, sources, r, s, c, g, id, op);
    var n: nat;
    s', n := EraseRemovesClaim(s, c, s.claim.value, id, newId);
    assert Drive(s, c, WorkOn(t, sources, op), newId, n) == (s', Idle);
  }

  /** One that deactivates it leaves the row disabled and the claim confirmed for it. */
  lemma DeactivateCycle(p: Problem, t: string, sources: Sources, r: Endpoint, s: Shared, c: Controller, g: Stamp,
      id: Id, newId: Id)
    returns (s': Shared)
    requires PlansWithout(p, t, r, s, c, g, id) && BoundAt(s, c, g, g, id)
    requires var e := BoundRow(r, id, g, s, c); p.Count(Deactivate(e.(disabled := true), e)) > 0
    ensures CycleEnds(p, t, sources, r, s, c, newId, s')
    ensures BoundAt(s', c, g.(disabled := true), g.(disabled := true), id)
  {
    var e := BoundRow(r, id, g, s, c);
    var op := Deactivate(e.(disabled := true), e);
    CleanupConcerns(p, t, sources, r, s, c, g, id, op);
    var n: nat;
    s', n := UpdatePublishes(s, c, s.claim.value, g, g.(disabled := true), id, newId);
    assert Drive(s, c, WorkOn(t, sources, op), newId, n) == (s', Idle);
  }
}
