/** Crash recovery of a shared create, for any other desired records and rows at its name: exactly when one
    undisturbed cycle of binding, planning and applying ends with a confirmed claim and one row, and exactly
    when the next plan leaves the record alone. */
module ClaimRecovery {
  import opened Text
  import opened Dns
  import opened PlanSpec
  import opened PlanNames
  import opened PlanRecords
  import opened PlanSafety
  import opened Claims
  import opened ClaimStages
  import opened Ownership

  // ---- Binding and planning -------------------------------------------------------------

  function StampOf(d: Endpoint): Stamp { Stamp(d.ttl, d.disabled) }

  /** The claim labels a row of its identity in this state as owned; the provider ID is not compared. */
  predicate Labels(s: Shared, c: Controller, f: Stamp) {
    s.claim.Some? && s.claim.value.phase == Confirmed && s.claim.value.controller == c && s.claim.value.stamp == f
  }

  /** A row of d's identity as the shared client lists it. */
  function BoundRow(d: Endpoint, id: Id, f: Stamp, s: Shared, c: Controller): Endpoint {
    d.(ttl := f.ttl, disabled := f.disabled, providerID := id, ownerID := if Labels(s, c, f) then c else "")
  }

  ghost predicate IsOwnRow(d: Endpoint, s: Shared, c: Controller, e: Endpoint) {
    exists id :: id in s.device.rows && e == BoundRow(d, id, s.device.rows[id], s, c)
  }

  /** A plan of controller c that desires d, made from a listing that shows the record's rows as the claim binds them.
      The name may have any other desired records and any other rows. */
  ghost predicate PlansFor(p: Problem, t: string, d: Endpoint, s: Shared, c: Controller) {
    && p.Wf() && p.owner == c && c != "" && p.Desires(d) && IdentityFor(t, d).Some? && "" !in s.device.rows
    && (forall e :: e in p.current && KeyOf(e) == KeyOf(d) <==> IsOwnRow(d, s, c, e))
    && (forall e :: e in p.current && KeyOf(e) == KeyOf(d) ==> multiset(p.current)[e] == 1)
  }

  lemma NoOwnRow(p: Problem, t: string, d: Endpoint, s: Shared, c: Controller)
    requires PlansFor(p, t, d, s, c) && s.device.rows == map[]
    ensures forall e :: e in p.current ==> KeyOf(e) != KeyOf(d)
  {
  }

  /** The record's one row. */
  lemma OneOwnRow(p: Problem, t: string, d: Endpoint, s: Shared, c: Controller, id: Id, f: Stamp)
    requires PlansFor(p, t, d, s, c) && OnlyRow(s.device.rows, id, f)
    ensures var e := BoundRow(d, id, f, s, c);
            && KeyOf(e) == KeyOf(d) && multiset(p.current)[e] == 1 && id != ""
            && (forall x :: x in p.current && KeyOf(x) == KeyOf(d) <==> x == e)
  {
    var e := BoundRow(d, id, f, s, c);
    assert id in s.device.rows && s.device.rows[id] == f;
    assert IsOwnRow(d, s, c, e);
  }

  // ---- What the shared client does for an operation -------------------------------------

  /** The source objects that the record's claim names. */
  type Sources = seq<SourceRef>

  /** A create names its source object in full. */
  predicate Complete(r: SourceRef) {
    r.apiVersion != "" && r.kind != "" && r.namespace != "" && r.name != "" && r.uid != ""
  }

  /** The claim names the record's source object. */
  predicate SourceMatches(sources: Sources, x: Endpoint) { x.source.uid != "" && x.source in sources }

  /** The work on an operation, for a claim that names these sources: a create, a mutation of an existing row, or the
      recovery of an interrupted claim when the conflict is about a row of the desired record itself. A replacement is
      refused, and so is a create or a recovery for a source that does not fit. */
  function WorkOn(t: string, sources: Sources, op: Operation): Local {
    match op
    case Create(x) => if Complete(x.source) then Listing(StampOf(x)) else Idle
    case Update(x, e) => Fetching(Put(StampOf(x)), e.providerID)
    case Deactivate(x, e) => Fetching(Put(StampOf(x)), e.providerID)
    case Delete(e) => Fetching(Erase, e.providerID)
    case Replace(_, _, _) => Idle
    case Conflict(x, None, _) => Idle
    case Conflict(x, Some(e), _) =>
      if e.providerID == "" || IdentityFor(t, e).None? || IdentityFor(t, x) != IdentityFor(t, e)
        || !SourceMatches(sources, x) then Idle
      else Recovering(StampOf(x), e.providerID)
  }

  /** The record whose claim the work is about. */
  function RecordOf(op: Operation): Endpoint { if op.Mutates() then op.current else op.desired }

  predicate Concerns(t: string, sources: Sources, d: Endpoint, op: Operation) {
    WorkOn(t, sources, op) != Idle && IdentityFor(t, RecordOf(op)) == IdentityFor(t, d)
  }

  /** The rows that a conflict may report are listed rows, and its record is desired. */
  lemma ConflictObserves(p: Problem, o: Operation)
    requires p.Wf() && o.Conflict? && p.Count(o) > 0
    ensures p.Desires(o.desired) && (o.observed.Some? ==> o.observed.value in p.current)
  {
    var g := GroupOf(o.desired);
    if p.Resolve(g) == Settled(o) {
      SettledObserves(p, g);
    } else {
      UnownedOfMember(p, LogicalOf(o.desired));
      assert p.UnownedOf(LogicalOf(o.desired))[0] in p.UnownedOf(LogicalOf(o.desired));
    }
  }

  lemma SettledObserves(p: Problem, g: Group)
    requires p.Wf() && p.Resolve(g).Settled? && p.Resolve(g).operation.Conflict?
    ensures var o := p.Resolve(g).operation; o.observed.Some? ==> o.observed.value in p.current
  {
    OwnedInMember(p, g);
    if p.NameConflict(g).None? { TransitionObserves(p, g); }
  }

  lemma TransitionObserves(p: Problem, g: Group)
    requires p.Transition(g).Some? && p.Transition(g).value.Conflict?
    ensures var o := p.Transition(g).value; o.observed.Some? ==> o.observed.value in p.current
  {
    OwnedInMember(p, g);
    if p.OwnedIn(g) != [] { HeadInRows(p.OwnedIn(g)); }
    var l := LogicalOf(First(p.DesiredIn(g), p.before));
    UnownedOfMember(p, l);
    EmptyOrFirst(p.UnownedOf(l));
  }

  /** An operation that concerns d is about d itself or about one of its own rows. */
  lemma ConcernsOwn(p: Problem, t: string, sources: Sources, d: Endpoint, s: Shared, c: Controller, o: Operation)
    requires PlansFor(p, t, d, s, c) && p.Count(o) > 0 && Concerns(t, sources, d, o)
    ensures o.Create? ==> o.desired == d
    ensures o.Conflict? ==> o.desired == d && o.observed.Some?
    ensures o.Conflict? ==> o.observed.value in p.current && KeyOf(o.observed.value) == KeyOf(d)
    ensures o.Mutates() ==> o.current in p.current && KeyOf(o.current) == KeyOf(d) && OwnedBy(o.current, c)
  {
    IdentityIsKey(t, RecordOf(o), d);
    if o.Mutates() { PlanSafety.Mutation(p, o); }
    if o.Conflict? {
      ConflictObserves(p, o);
      IdentityIsKey(t, o.observed.value, d);
    }
  }

  // ---- Which operations concern the record ----------------------------------------------

  /** The plan reports the record's own row e: the name has no conflict of its own, and e is the first row of its type
      that the controller does not own. A name in a CNAME transition is reported only for its single record. */
  ghost predicate Reported(p: Problem, d: Endpoint, e: Endpoint) {
    && p.NameConflict(GroupOf(d)).None? && (p.Transition(GroupOf(d)).None? || p.DesiredIn(GroupOf(d)) == {d})
    && p.UnownedOf(LogicalOf(d)) != [] && p.UnownedOf(LogicalOf(d))[0] == e
  }

  /** Two conflicts of a plan about one record are one. */
  lemma OneConflict(p: Problem, a: Operation, b: Operation)
    requires a.Conflict? && b.Conflict? && a.desired == b.desired && p.Count(a) > 0 && p.Count(b) > 0
    ensures a == b
  {
  }

  /** No name-level conflict reports a row of the record's own type that the controller does not own. */
  lemma NameConflictElsewhere(p: Problem, d: Endpoint, e: Endpoint, o: Operation)
    requires p.NameConflict(GroupOf(d)) == Some(o) && o.desired == d && o.observed == Some(e)
    ensures e.recordType != d.recordType
  {
  }

  /** A transition that reports an unowned row is that of a single record with foreign rows of its type. */
  lemma TransitionReports(p: Problem, d: Endpoint, e: Endpoint, o: Operation)
    requires p.Wf() && p.Transition(GroupOf(d)) == Some(o) && o.Conflict? && o.desired == d && o.observed == Some(e)
    requires !OwnedBy(e, p.owner)
    ensures p.DesiredIn(GroupOf(d)) == {d} && p.UnownedOf(LogicalOf(d)) != [] && p.UnownedOf(LogicalOf(d))[0] == e
    ensures o.reason == LogicalUnowned
  {
    var g := GroupOf(d);
    OwnedInMember(p, g);
    if p.OwnedIn(g) != [] { HeadInRows(p.OwnedIn(g)); }
    if |p.DesiredIn(g)| == 1 { Single(p.DesiredIn(g), First(p.DesiredIn(g), p.before)); }
  }

  lemma ReportedByTransition(p: Problem, d: Endpoint)
    requires p.Transition(GroupOf(d)).Some? && p.DesiredIn(GroupOf(d)) == {d} && p.UnownedOf(LogicalOf(d)) != []
    ensures p.Transition(GroupOf(d)) == Some(Conflict(d, Some(p.UnownedOf(LogicalOf(d))[0]), LogicalUnowned))
  {
    assert First(p.DesiredIn(GroupOf(d)), p.before) == d;
  }

  lemma ReportedIsPlanned(p: Problem, d: Endpoint, e: Endpoint)
    requires p.Wf() && p.Desires(d) && Reported(p, d, e)
    ensures p.Count(Conflict(d, Some(e), LogicalUnowned)) == 1
  {
    if p.Transition(GroupOf(d)).Some? { ReportedByTransition(p, d); }
  }

  lemma PlannedIsReported(p: Problem, d: Endpoint, e: Endpoint, o: Operation)
    requires p.Wf() && p.Count(o) > 0 && o.Conflict? && o.desired == d && o.observed == Some(e)
    requires !OwnedBy(e, p.owner) && KeyOf(e) == KeyOf(d)
    ensures Reported(p, d, e)
  {
    var g := GroupOf(d);
    if p.Resolve(g) == Settled(o) {
      if p.NameConflict(g).Some? { NameConflictElsewhere(p, d, e, o); } else { TransitionReports(p, d, e, o); }
    } else {
      NoTransition(p, g);
    }
  }

  /** Without a row of its own, the only operation that concerns the record is its creation. */
  lemma ConcernsAbsent(p: Problem, t: string, sources: Sources, d: Endpoint, s: Shared, c: Controller, o: Operation)
    requires PlansFor(p, t, d, s, c) && s.device.rows == map[] && p.Count(o) > 0 && Concerns(t, sources, d, o)
    ensures o == Create(d) && p.Creates(d)
  {
    NoOwnRow(p, t, d, s, c);
    ConcernsOwn(p, t, sources, d, s, c, o);
  }

  /** With an unconfirmed row, it is the conflict that reports this row. */
  lemma ConcernsUnconfirmed(p: Problem, t: string, sources: Sources, d: Endpoint, s: Shared, c: Controller, id: Id,
      f: Stamp, o: Operation)
    requires PlansFor(p, t, d, s, c) && OnlyRow(s.device.rows, id, f) && !Labels(s, c, f)
    requires p.Count(o) > 0 && Concerns(t, sources, d, o)
    ensures var e := BoundRow(d, id, f, s, c); Reported(p, d, e) && o == Conflict(d, Some(e), LogicalUnowned)
  {
    var e := BoundRow(d, id, f, s, c);
    OneOwnRow(p, t, d, s, c, id, f);
    ConcernsOwn(p, t, sources, d, s, c, o);
    UnownedOfMember(p, LogicalOf(d));
    assert e in p.current && e in p.UnownedOf(LogicalOf(d));
    if o.Conflict? {
      PlannedIsReported(p, d, e, o);
      ReportedIsPlanned(p, d, e);
      OneConflict(p, o, Conflict(d, Some(e), LogicalUnowned));
    }
  }

  lemma OnlyCopy(p: Problem, d: Endpoint, e: Endpoint)
    requires p.Desires(d) && e in p.current && OwnedBy(e, p.owner) && KeyOf(e) == KeyOf(d)
      && multiset(p.current)[e] == 1
    requires forall x :: x in p.current && KeyOf(x) == KeyOf(d) ==> x == e
    ensures p.Copies(KeyOf(d)) != [] && Head(p.Copies(KeyOf(d))) == e && p.StaleCount(e) == 0
  {
    CopiesMember(p, KeyOf(d));
    assert e in p.Copies(KeyOf(d));
    HeadInRows(p.Copies(KeyOf(d)));
  }

  /** A published row is not mutated. */
  lemma PublishedRowRests(p: Problem, d: Endpoint, e: Endpoint, o: Operation)
    requires p.Wf() && p.Desires(d) && e in p.current && OwnedBy(e, p.owner) && KeyOf(e) == KeyOf(d)
    requires multiset(p.current)[e] == 1 && EqualRecord(e, d)
    requires forall x :: x in p.current && KeyOf(x) == KeyOf(d) ==> x == e
    requires o.Mutates() && p.Count(o) > 0 && KeyOf(o.current) == KeyOf(d)
    ensures o.Replace? && p.Resolve(GroupOf(d)) == Settled(o)
  {
    PlanSafety.Mutation(p, o);
    OnlyCopy(p, d, e);
    Role(p, o);
    if o.Update? { KeptRow(p, o.desired, e); }
  }

  /** Nor is it replaced: the name's only owned row would have to be another record. */
  lemma PublishedNotReplaced(p: Problem, d: Endpoint, e: Endpoint, o: Operation)
    requires p.Wf() && p.Desires(d) && e in p.current && OwnedBy(e, p.owner) && KeyOf(e) == KeyOf(d) && o.Replace?
    ensures p.Resolve(GroupOf(d)) != Settled(o)
  {
    var g := GroupOf(d);
    if p.Resolve(g) == Settled(o) {
      SettledReplace(p, g, o.desired, o.current, o.reason);
      ReplaceByTransition(p, g, o);
      DesiredInMember(p);
      OwnedInMember(p, g);
    }
  }

  /** With the row confirmed, only a conflict at the name may still concern the record, and it is about this row. */
  lemma ConcernsPublished(p: Problem, t: string, sources: Sources, d: Endpoint, s: Shared, c: Controller, o: Operation)
    requires PlansFor(p, t, d, s, c) && Published(s, c, StampOf(d)) && p.Count(o) > 0 && Concerns(t, sources, d, o)
    ensures o.Conflict? && WorkOn(t, sources, o) == Recovering(StampOf(d), s.claim.value.bound.value)
  {
    var id := s.claim.value.bound.value;
    var e := BoundRow(d, id, StampOf(d), s, c);
    OneOwnRow(p, t, d, s, c, id, StampOf(d));
    ConcernsOwn(p, t, sources, d, s, c, o);
    OnlyCopy(p, d, e);
    if o.Mutates() {
      PublishedRowRests(p, d, e, o);
      PublishedNotReplaced(p, d, e, o);
    }
  }

  // ---- One cycle ------------------------------------------------------------------------

  ghost predicate NoneConcerns(p: Problem, t: string, sources: Sources, d: Endpoint) {
    forall o: Operation :: p.Count(o) > 0 ==> !Concerns(t, sources, d, o)
  }

  ghost predicate OnlyConcern(p: Problem, t: string, sources: Sources, d: Endpoint, op: Operation) {
    && p.Count(op) == 1 && Concerns(t, sources, d, op)
    && forall o: Operation :: p.Count(o) > 0 && Concerns(t, sources, d, o) ==> o == op
  }

  /** The cycle takes the record from s to s': of the plan's operations, the one that concerns the record is worked on
      undisturbed, or none does. */
  ghost predicate CycleEnds(p: Problem, t: string, sources: Sources, d: Endpoint, s: Shared, c: Controller, newId: Id,
      s': Shared) {
    || (NoneConcerns(p, t, sources, d) && s' == s)
    || (exists op: Operation, n: nat ::
          OnlyConcern(p, t, sources, d, op) && Drive(s, c, WorkOn(t, sources, op), newId, n) == (s', Idle))
  }

  /** When one cycle recovers the record: it is published already; or it has no row, the plan creates it and its source
      is complete; or the claim names its source and its row is the one the plan reports. */
  ghost predicate Recoverable(p: Problem, sources: Sources, d: Endpoint, s: Shared, c: Controller) {
    || (s.claim.Some? && s.claim.value.phase == Confirmed)
    || (s.device.rows == map[] && p.Creates(d) && Complete(d.source))
    || (SourceMatches(sources, d)
        && exists id :: id in s.device.rows && Reported(p, d, BoundRow(d, id, s.device.rows[id], s, c)))
  }

  lemma AbsentCycle(p: Problem, t: string, sources: Sources, d: Endpoint, s: Shared, c: Controller, newId: Id)
    returns (s': Shared)
    requires Stage(s, c, StampOf(d)) && PlansFor(p, t, d, s, c) && newId !in s.device.others && s.device.rows == map[]
    ensures CycleEnds(p, t, sources, d, s, c, newId, s')
    ensures Published(s', c, StampOf(d)) <==> p.Creates(d) && Complete(d.source)
  {
    var f := StampOf(d);
    forall o: Operation | p.Count(o) > 0 && Concerns(t, sources, d, o) ensures o == Create(d) && p.Creates(d) {
      ConcernsAbsent(p, t, sources, d, s, c, o);
    }
    if p.Creates(d) && Complete(d.source) {
      s' := CreatedCycle(p, t, sources, d, s, c, newId);
    } else {
      s' := s;
      NotPublished(s, c, f);
    }
  }

  lemma CreatedCycle(p: Problem, t: string, sources: Sources, d: Endpoint, s: Shared, c: Controller, newId: Id)
    returns (s': Shared)
    requires Stage(s, c, StampOf(d)) && IdentityFor(t, d).Some? && newId !in s.device.others && p.Creates(d)
    requires Complete(d.source)
    requires forall o: Operation :: p.Count(o) > 0 && Concerns(t, sources, d, o) ==> o == Create(d)
    ensures CycleEnds(p, t, sources, d, s, c, newId, s') && Published(s', c, StampOf(d))
  {
    var f := StampOf(d);
    assert OnlyConcern(p, t, sources, d, Create(d));
    CreatePublishes(s, c, f, Listing(f), newId);
    var n: nat :| Publishes(s, c, f, Listing(f), newId, n);
    s' := Drive(s, c, Listing(f), newId, n).0;
    assert Drive(s, c, WorkOn(t, sources, Create(d)), newId, n) == (s', Idle);
  }

  lemma NotPublished(s: Shared, c: Controller, f: Stamp)
    requires s.device.rows == map[]
    ensures !Published(s, c, f)
  {
    if Published(s, c, f) { RowNotEmpty(s.device.rows, s.claim.value.bound.value, f); }
  }

  lemma UnconfirmedCycle(p: Problem, t: string, sources: Sources, d: Endpoint, s: Shared, c: Controller, newId: Id,
      id: Id)
    returns (s': Shared)
    requires Stage(s, c, StampOf(d)) && PlansFor(p, t, d, s, c) && OnlyRow(s.device.rows, id, StampOf(d))
    requires s.claim.Some? && s.claim.value.phase == Reserved
    ensures CycleEnds(p, t, sources, d, s, c, newId, s')
    ensures Published(s', c, StampOf(d)) <==>
      SourceMatches(sources, d) && Reported(p, d, BoundRow(d, id, StampOf(d), s, c))
  {
    var f := StampOf(d);
    var e := BoundRow(d, id, f, s, c);
    OneOwnRow(p, t, d, s, c, id, f);
    forall o: Operation | p.Count(o) > 0 && Concerns(t, sources, d, o)
      ensures o == Conflict(d, Some(e), LogicalUnowned) && Reported(p, d, e) {
      ConcernsUnconfirmed(p, t, sources, d, s, c, id, f, o);
    }
    if SourceMatches(sources, d) && Reported(p, d, e) {
      s' := ReportedCycle(p, t, sources, d, s, c, newId, id);
    } else {
      s' := s;
    }
  }

  lemma ReportedCycle(p: Problem, t: string, sources: Sources, d: Endpoint, s: Shared, c: Controller, newId: Id, id: Id)
    returns (s': Shared)
    requires Stage(s, c, StampOf(d)) && PlansFor(p, t, d, s, c) && OnlyRow(s.device.rows, id, StampOf(d)) && id != ""
    requires s.claim.Some? && s.claim.value.phase == Reserved && SourceMatches(sources, d)
    requires var e := BoundRow(d, id, StampOf(d), s, c);
             && Reported(p, d, e)
             && forall o: Operation :: p.Count(o) > 0 && Concerns(t, sources, d, o) ==>
                  o == Conflict(d, Some(e), LogicalUnowned)
    ensures CycleEnds(p, t, sources, d, s, c, newId, s') && Published(s', c, StampOf(d))
  {
    var f := StampOf(d);
    var op := Conflict(d, Some(BoundRow(d, id, f, s, c)), LogicalUnowned);
    ReportedIsPlanned(p, d, BoundRow(d, id, f, s, c));
    assert WorkOn(t, sources, op) == Recovering(f, id);
    assert OnlyConcern(p, t, sources, d, op);
    RecoverPublishes(s, c, f, id, newId);
    var n: nat :| Publishes(s, c, f, Recovering(f, id), newId, n);
    s' := Drive(s, c, Recovering(f, id), newId, n).0;
    assert Drive(s, c, WorkOn(t, sources, op), newId, n) == (s', Idle);
  }

  lemma PublishedCycle(p: Problem, t: string, sources: Sources, d: Endpoint, s: Shared, c: Controller, newId: Id)
    requires PlansFor(p, t, d, s, c) && Published(s, c, StampOf(d))
    ensures CycleEnds(p, t, sources, d, s, c, newId, s)
  {
    if op: Operation :| p.Count(op) > 0 && Concerns(t, sources, d, op) {
      ConcernsPublished(p, t, sources, d, s, c, op);
      ConcernsOwn(p, t, sources, d, s, c, op);
      assert p.Count(op) == 1;
      forall o: Operation | p.Count(o) > 0 && Concerns(t, sources, d, o) ensures o == op {
        ConcernsPublished(p, t, sources, d, s, c, o);
        ConcernsOwn(p, t, sources, d, s, c, o);
        OneConflict(p, o, op);
      }
      PublishedRests(s, c, StampOf(d), newId);
      assert OnlyConcern(p, t, sources, d, op) && Drive(s, c, WorkOn(t, sources, op), newId, 2) == (s, Idle);
    }
  }

  /** Wherever a create of d stopped and whatever else is desired or listed at its name, one undisturbed cycle ends with
      a confirmed claim and exactly one row if and only if the record is recoverable from the listing. */
  lemma CrashRecovery(p: Problem, t: string, sources: Sources, d: Endpoint, s: Shared, c: Controller, newId: Id)
    returns (s': Shared)
    requires Stage(s, c, StampOf(d)) && PlansFor(p, t, d, s, c) && newId !in s.device.others
    ensures CycleEnds(p, t, sources, d, s, c, newId, s')
    ensures Published(s', c, StampOf(d)) <==> Recoverable(p, sources, d, s, c)
  {
    var f := StampOf(d);
    if s.device.rows == map[] {
      s' := AbsentCycle(p, t, sources, d, s, c, newId);
      ConfirmedHasRow(s, c, f);
    } else if s.claim.value.phase == Confirmed {
      s' := s;
      PublishedCycle(p, t, sources, d, s, c, newId);
    } else {
      var id :| OnlyRow(s.device.rows, id, f);
      s' := UnconfirmedCycle(p, t, sources, d, s, c, newId, id);
      assert id in s.device.rows && s.device.rows[id] == f;
      assert forall i :: i in s.device.rows ==> i == id;
    }
  }

  lemma ConfirmedHasRow(s: Shared, c: Controller, f: Stamp)
    requires Stage(s, c, f) && s.device.rows == map[]
    ensures s.claim.Some? ==> s.claim.value.phase != Confirmed
  {
    if s.claim.Some? && s.claim.value.phase == Confirmed { RowNotEmpty(s.device.rows, s.claim.value.bound.value, f); }
  }

  // ---- The plan after it ----------------------------------------------------------------

  /** The operation is for the record: it desires d, or mutates a row of d. */
  predicate ForRecordOf(d: Endpoint, o: Operation) {
    (!o.Delete? && o.desired == d) || (o.Mutates() && KeyOf(o.current) == KeyOf(d))
  }

  /** The name is settled on another record, or under no rule and free of foreign rows of the record's type. */
  ghost predicate AtRest(p: Problem, d: Endpoint) {
    if p.Resolve(GroupOf(d)).Settled? then p.Resolve(GroupOf(d)).operation.desired != d
    else p.UnownedOf(LogicalOf(d)) == []
  }

  lemma RestlessIsPlanned(p: Problem, d: Endpoint)
    requires p.Wf() && p.Desires(d) && !AtRest(p, d)
    ensures exists o: Operation :: p.Count(o) > 0 && ForRecordOf(d, o)
  {
    var g := GroupOf(d);
    if p.Resolve(g).Settled? {
      SettledName(p, g);
      assert p.Count(p.Resolve(g).operation) > 0;
    } else {
      assert p.Count(Conflict(d, Some(p.UnownedOf(LogicalOf(d))[0]), LogicalUnowned)) > 0;
    }
  }

  lemma RestingHasNone(p: Problem, d: Endpoint, e: Endpoint, o: Operation)
    requires p.Wf() && p.Desires(d) && e in p.current && OwnedBy(e, p.owner) && KeyOf(e) == KeyOf(d)
    requires multiset(p.current)[e] == 1 && EqualRecord(e, d)
    requires forall x :: x in p.current && KeyOf(x) == KeyOf(d) ==> x == e
    requires AtRest(p, d) && ForRecordOf(d, o)
    ensures p.Count(o) == 0
  {
    OnlyCopy(p, d, e);
    if p.Count(o) > 0 {
      if o.Update? { KeptRow(p, o.desired, o.current); }
      if o.Mutates() && KeyOf(o.current) == KeyOf(d) {
        PublishedRowRests(p, d, e, o);
        PublishedNotReplaced(p, d, e, o);
      }
    }
  }

  /** For a published record the plan has no operation if and only if the record is at rest in it. */
  lemma PlanRests(p: Problem, t: string, d: Endpoint, s: Shared, c: Controller)
    requires PlansFor(p, t, d, s, c) && Published(s, c, StampOf(d))
    ensures (forall o: Operation :: ForRecordOf(d, o) ==> p.Count(o) == 0) <==> AtRest(p, d)
  {
    var id := s.claim.value.bound.value;
    OneOwnRow(p, t, d, s, c, id, StampOf(d));
    if AtRest(p, d) {
      forall o: Operation | ForRecordOf(d, o) ensures p.Count(o) == 0 {
        RestingHasNone(p, d, BoundRow(d, id, StampOf(d), s, c), o);
      }
    } else {
      RestlessIsPlanned(p, d);
    }
  }

  // ---- Records that one cycle does not recover ------------------------------------------

  /** When the plan pairs the missing record with a stale row, its only operation for the record is a replacement, which
      the shared client refuses: the cycle changes nothing, and so does every later one with such a listing. */
  lemma PairedIsStuck(p: Problem, t: string, sources: Sources, d: Endpoint, s: Shared, c: Controller, stale: Endpoint,
      newId: Id)
    requires PlansFor(p, t, d, s, c) && s.device.rows == map[] && p.Paired(d, stale)
    ensures p.Count(Replace(d, stale, TargetChanged)) == 1
    ensures WorkOn(t, sources, Replace(d, stale, TargetChanged)) == Idle
    ensures CycleEnds(p, t, sources, d, s, c, newId, s) && !Published(s, c, StampOf(d))
  {
    forall o: Operation | p.Count(o) > 0 ensures !Concerns(t, sources, d, o) {
      if Concerns(t, sources, d, o) { ConcernsAbsent(p, t, sources, d, s, c, o); }
    }
    NotPublished(s, c, StampOf(d));
  }

  /** Two desired records of one name and type, and the rows the device lists for them. */
  function TwoRecords(a: Endpoint, b: Endpoint, current: seq<Endpoint>, owner: string): Problem {
    Problem(map[KeyOf(a) := a, KeyOf(b) := b], current, owner, CleanupDelete, (e: Endpoint) => true, KeyBefore)
  }

  /** Two different address records of one name, both claimable. */
  predicate Siblings(t: string, a: Endpoint, b: Endpoint) {
    && IdentityFor(t, a).Some? && IdentityFor(t, b).Some? && LogicalOf(a) == LogicalOf(b) && KeyOf(a) != KeyOf(b)
    && a.recordType != CNAME && Separable(KeyOf(a)) && Separable(KeyOf(b))
  }

  lemma SiblingsWf(t: string, a: Endpoint, b: Endpoint, current: seq<Endpoint>, owner: string)
    requires Siblings(t, a, b)
    ensures TwoRecords(a, b, current, owner).Wf()
  {
    KeyBeforeIsWeakOrder();
    KeyOrderTotal(a, b);
  }

  lemma SiblingsFree(t: string, a: Endpoint, b: Endpoint, current: seq<Endpoint>, owner: string)
    requires Siblings(t, a, b) && forall e :: e in current ==> e.recordType == a.recordType
    ensures var p := TwoRecords(a, b, current, owner); p.Resolve(GroupOf(a)).Clear? && p.Desires(a) && p.Desires(b)
  {
    var p := TwoRecords(a, b, current, owner);
    SiblingsWf(t, a, b, current, owner);
    DesiredInMember(p);
    AddressesAreFree(p, GroupOf(a));
  }

  lemma FirstUnowned(p: Problem, x: Endpoint, y: Endpoint, l: Logical)
    requires p.current == [x, y] && LogicalOf(x) == l && LogicalOf(y) == l && !OwnedBy(y, p.owner)
    ensures p.UnownedOf(l) == (if OwnedBy(x, p.owner) then [] else [x]) + [y]
  {
    var ofType := (e: Endpoint) => LogicalOf(e) == l;
    var foreign := (e: Endpoint) => !OwnedBy(e, p.owner);
    assert p.current == [x] + [y] && [x] == [] + [x];
    FilterAppend([], x, ofType);
    FilterAppend([x], y, ofType);
    assert LogicalRows(p.current, l) == [x] + [y];
    FilterAppend([], x, foreign);
    FilterAppend([x], y, foreign);
  }

  /** Two address records were posted and neither claim was confirmed. The plan reports the row of the first one for
      both, so the cycle recovers the first record and not the second. */
  lemma SiblingNotReported(t: string, a: Endpoint, b: Endpoint, x: Endpoint, y: Endpoint, owner: string)
    requires Siblings(t, a, b) && KeyOf(x) == KeyOf(a) && KeyOf(y) == KeyOf(b)
    requires !OwnedBy(x, owner) && !OwnedBy(y, owner)
    ensures var p := TwoRecords(a, b, [x, y], owner);
            && p.Count(Conflict(a, Some(x), LogicalUnowned)) == 1 && Reported(p, a, x)
            && p.Count(Conflict(b, Some(x), LogicalUnowned)) == 1 && !Reported(p, b, y)
            && forall reason :: p.Count(Conflict(b, Some(y), reason)) == 0
  {
    var p := TwoRecords(a, b, [x, y], owner);
    SiblingsFree(t, a, b, [x, y], owner);
    NoTransition(p, GroupOf(a));
    FirstUnowned(p, x, y, LogicalOf(a));
    assert p.Count(Conflict(b, Some(x), LogicalUnowned)) == 1;
  }

  /** Once the first row is bound, the next plan reports the second. */
  lemma SiblingReportedNext(t: string, a: Endpoint, b: Endpoint, x: Endpoint, y: Endpoint, owner: string)
    requires Siblings(t, a, b) && KeyOf(x) == KeyOf(a) && KeyOf(y) == KeyOf(b)
    requires OwnedBy(x, owner) && !OwnedBy(y, owner)
    ensures Reported(TwoRecords(a, b, [x, y], owner), b, y)
  {
    var p := TwoRecords(a, b, [x, y], owner);
    SiblingsFree(t, a, b, [x, y], owner);
    NoTransition(p, GroupOf(a));
    FirstUnowned(p, x, y, LogicalOf(a));
  }

  // ---- Single records -------------------------------------------------------------------

  /** One desired record and the rows of its name. */
  function OneRecord(d: Endpoint, current: seq<Endpoint>, owner: string): Problem {
    Problem(map[KeyOf(d) := d], current, owner, CleanupDelete, (e: Endpoint) => true, KeyBefore)
  }

  lemma OneRecordFree(d: Endpoint, current: seq<Endpoint>, owner: string)
    requires |d.targets| == 1 && forall e :: e in current ==> KeyOf(e) == KeyOf(d)
    ensures var p := OneRecord(d, current, owner);
            p.Wf() && p.Desires(d) && p.Resolve(GroupOf(d)).Clear? && p.DesiredIn(GroupOf(d)) == {d}
  {
    var p := OneRecord(d, current, owner);
    KeyBeforeIsWeakOrder();
    assert p.byKey[KeyOf(d)] == d;
    assert forall x :: x in p.DesiredIn(GroupOf(d)) <==> x == d;
    SingleIsFree(p, d);
  }

  /** A create that stopped after its POST is recovered by the plan for its name, if the claim names its source. */
  lemma PostedRecovers(t: string, sources: Sources, d: Endpoint, s: Shared, c: Controller, id: Id)
    requires IdentityFor(t, d).Some? && c != "" && id != "" && OnlyRow(s.device.rows, id, StampOf(d))
    requires Stage(s, c, StampOf(d)) && s.claim.Some? && s.claim.value.phase == Reserved
    ensures var p := OneRecord(d, [BoundRow(d, id, StampOf(d), s, c)], c);
            PlansFor(p, t, d, s, c) && (Recoverable(p, sources, d, s, c) <==> SourceMatches(sources, d))
  {
    var e := BoundRow(d, id, StampOf(d), s, c);
    var p := OneRecord(d, [e], c);
    OneRecordFree(d, [e], c);
    assert id in s.device.rows && s.device.rows[id] == StampOf(d);
    assert forall i :: i in s.device.rows ==> i == id;
    assert forall x :: x in p.current <==> x == e;
    assert IsOwnRow(d, s, c, e);
    NoTransition(p, GroupOf(d));
    UnownedOfMember(p, LogicalOf(d));
    assert e in p.UnownedOf(LogicalOf(d));
    assert p.UnownedOf(LogicalOf(d))[0] in p.UnownedOf(LogicalOf(d));
    assert Reported(p, d, e);
  }

  lemma TwoOwnedCopies(p: Problem, x: Endpoint, y: Endpoint, k: Key)
    requires p.current == [x, y] && KeyOf(x) == k && KeyOf(y) == k && OwnedBy(x, p.owner) && OwnedBy(y, p.owner)
    requires PlanSpec.HasId(x) && PlanSpec.HasId(y) && Less(x.providerID, y.providerID)
    ensures p.Copies(k) == [x, y] && Head(p.Copies(k)) == x && x != y && multiset(p.current)[y] == 1
  {
    var ofKey, owned := (e: Endpoint) => KeyOf(e) == k, (e: Endpoint) => OwnedBy(e, p.owner);
    assert p.current == [x] + [y] && [x] == [] + [x];
    FilterAppend([], x, ofKey);
    FilterAppend([x], y, ofKey);
    assert KeyRows(p.current, k) == [x] + [y];
    FilterAppend([], x, owned);
    FilterAppend([x], y, owned);
    LessIrreflexive(x.providerID);
    if Less(y.providerID, x.providerID) { LessTransitive(x.providerID, y.providerID, x.providerID); }
    HeadAppend([x], y);
  }

  lemma CopyDeleted(d: Endpoint, x: Endpoint, y: Endpoint, owner: string)
    requires |d.targets| == 1 && KeyOf(x) == KeyOf(d) && KeyOf(y) == KeyOf(d) && OwnedBy(x, owner) && OwnedBy(y, owner)
    requires PlanSpec.HasId(x) && PlanSpec.HasId(y) && Less(x.providerID, y.providerID)
    ensures OneRecord(d, [x, y], owner).Count(Delete(y)) == 1
  {
    var p := OneRecord(d, [x, y], owner);
    TwoOwnedCopies(p, x, y, KeyOf(d));
    CopiesClean(d, x, y, owner);
    SurplusDeleted(p, d, y);
  }

  lemma CopiesClean(d: Endpoint, x: Endpoint, y: Endpoint, owner: string)
    requires |d.targets| == 1 && KeyOf(x) == KeyOf(d) && KeyOf(y) == KeyOf(d) && OwnedBy(x, owner) && OwnedBy(y, owner)
    ensures var p := OneRecord(d, [x, y], owner); p.Clean(d) && forall z :: p.Desires(z) ==> z == d
  {
    var p := OneRecord(d, [x, y], owner);
    OneRecordFree(d, [x, y], owner);
    NoUnowned(p, LogicalOf(d));
  }

  lemma TwoElements(x: Endpoint, y: Endpoint)
    requires x != y
    ensures forall e :: e in [x, y] <==> e == x || e == y
    ensures multiset([x, y])[x] == 1 && multiset([x, y])[y] == 1
  {
    assert [x, y] == [x] + [y];
  }

  lemma OwnRowsAre(d: Endpoint, s: Shared, c: Controller, i: Id, j: Id, e: Endpoint)
    requires s.device.rows == map[i := StampOf(d), j := StampOf(d)]
    ensures IsOwnRow(d, s, c, e) <==> e == BoundRow(d, i, StampOf(d), s, c) || e == BoundRow(d, j, StampOf(d), s, c)
  {
    assert i in s.device.rows && j in s.device.rows && s.device.rows[i] == StampOf(d) && s.device.rows[j] == StampOf(d);
  }

  lemma CopiesListed(t: string, d: Endpoint, s: Shared, c: Controller, i: Id, j: Id)
    requires IdentityFor(t, d).Some? && c != "" && i != "" && j != "" && i != j
    requires s.device.rows == map[i := StampOf(d), j := StampOf(d)]
    ensures var x, y := BoundRow(d, i, StampOf(d), s, c), BoundRow(d, j, StampOf(d), s, c);
            PlansFor(OneRecord(d, [x, y], c), t, d, s, c)
  {
    var x, y := BoundRow(d, i, StampOf(d), s, c), BoundRow(d, j, StampOf(d), s, c);
    var p := OneRecord(d, [x, y], c);
    OneRecordFree(d, [x, y], c);
    TwoElements(x, y);
    forall e ensures e in p.current && KeyOf(e) == KeyOf(d) <==> IsOwnRow(d, s, c, e) { OwnRowsAre(d, s, c, i, j, e); }
  }

  /** Both copies of a record in the claimed state are listed as owned, whichever the claim is bound to, and the plan
      deletes the one with the greater ID. */
  lemma DuplicateIsPlanned(t: string, sources: Sources, d: Endpoint, s: Shared, c: Controller, i: Id, j: Id,
      x: Endpoint, y: Endpoint)
    requires IdentityFor(t, d).Some? && c != "" && i != "" && Less(i, j) && Labels(s, c, StampOf(d))
    requires s.device.rows == map[i := StampOf(d), j := StampOf(d)]
    requires x == BoundRow(d, i, StampOf(d), s, c) && y == BoundRow(d, j, StampOf(d), s, c)
    ensures PlansFor(OneRecord(d, [x, y], c), t, d, s, c)
    ensures OneRecord(d, [x, y], c).Count(Delete(y)) == 1 && WorkOn(t, sources, Delete(y)) == Fetching(Erase, j)
  {
    LessIrreflexive(i);
    CopiesListed(t, d, s, c, i, j);
    CopyDeleted(d, x, y, c);
  }

  /** With its only record kept, a name's surplus copies are deleted. */
  lemma SurplusDeleted(p: Problem, d: Endpoint, y: Endpoint)
    requires p.Clean(d) && (forall x :: p.Desires(x) ==> x == d) && p.cleanup == CleanupDelete && p.allowed(y)
    requires p.Copies(KeyOf(d)) != [] && Head(p.Copies(KeyOf(d))) != y
    requires y in p.current && OwnedBy(y, p.owner) && KeyOf(y) == KeyOf(d) && multiset(p.current)[y] == 1
    ensures p.Count(Delete(y)) == 1
  {
    assert !p.LogicalConflict(LogicalOf(y));
    assert p.StaleCount(y) == 1;
    assert forall x :: !p.Missing(x);
    assert p.Cleans(y);
  }
}
