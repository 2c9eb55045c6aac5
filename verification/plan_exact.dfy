/** The plan read on its input: when a name is replaced, what a conflict reports, which copy is kept, the apply order,
    and what a cleanup policy that does not delete preserves. */
module PlanExact {
  import opened Text
  import opened Dns
  import opened PlanSpec
  import opened PlanNames
  import opened PlanRecords
  import opened PlanRows
  import opened PlanSafety

  // ---- Names under no CNAME rule --------------------------------------------------------

  /** The name mixes no CNAME with another type, neither among its records nor between records and rows,
      and its CNAME, if one is desired, has a single target and an owned row or no owned CNAME row. */
  ghost predicate NoCnameRule(p: Problem, g: Group) {
    var s := p.DesiredIn(g);
    s != {} ==>
      && !TypeClash(s) && !ManyCnameTargets(s)
      && (forall d, e :: d in s && e in p.current && GroupOf(e) == g ==> !Clash(d.recordType, e.recordType))
      && !RetargetsCname(s, p.OwnedIn(g))
  }

  lemma ClearExactly(p: Problem, g: Group)
    ensures p.Resolve(g).Clear? <==> NoCnameRule(p, g)
  {
    OwnedInMember(p, g);
    var s := p.DesiredIn(g);
    if s != {} {
      assert p.Clashing(g) == {} <==>
        forall d, e :: d in s && e in p.UnownedIn(g) ==> !Clash(d.recordType, e.recordType) by {
        ClashingExactly(p, g);
      }
    }
  }

  lemma ClashingExactly(p: Problem, g: Group)
    ensures p.Clashing(g) == {} <==>
      forall d, e :: d in p.DesiredIn(g) && e in p.UnownedIn(g) ==> !Clash(d.recordType, e.recordType)
  {
    if p.Clashing(g) == {} {
      forall d, e | d in p.DesiredIn(g) && e in p.UnownedIn(g) ensures !Clash(d.recordType, e.recordType) {
        assert d !in p.Clashing(g);
      }
    }
  }

  // ---- Replacements ---------------------------------------------------------------------

  /** The name has this desired record and this owned row only, the row may be rewritten in place, and no foreign row
      of the name stands in the way. */
  ghost predicate OneToOne(p: Problem, g: Group, d: Endpoint, c: Endpoint) {
    && p.DesiredIn(g) == {d} && p.OwnedIn(g) == [c] && HasId(c) && p.allowed(c)
    && (d.recordType == CNAME ==> |d.targets| <= 1)
    && (forall e :: e in p.current && GroupOf(e) == g && !OwnedBy(e, p.owner) ==>
          e.recordType != d.recordType && !Clash(d.recordType, e.recordType))
  }

  lemma OneToOneFree(p: Problem, g: Group, d: Endpoint, c: Endpoint)
    requires p.Wf() && OneToOne(p, g, d, c)
    ensures p.NameConflict(g).None? && p.UnownedOf(LogicalOf(d)) == [] && First(p.DesiredIn(g), p.before) == d
    ensures p.Desires(d) && GroupOf(d) == g
  {
    OwnedInMember(p, g);
    DesiredInMember(p);
    assert d in p.DesiredIn(g);
    UnownedOfMember(p, LogicalOf(d));
    EmptyOrFirst(p.UnownedOf(LogicalOf(d)));
    assert p.Clashing(g) == {};
  }

  lemma SettledIsOneToOne(p: Problem, d: Endpoint, c: Endpoint, reason: Reason)
    requires p.Wf() && p.Resolve(GroupOf(d)) == Settled(Replace(d, c, reason))
    ensures OneToOne(p, GroupOf(d), d, c)
  {
    var g := GroupOf(d);
    SettledReplace(p, g, d, c, reason);
    NoNameConflict(p, g);
    UnownedOfMember(p, LogicalOf(d));
    forall e | e in p.current && GroupOf(e) == g && !OwnedBy(e, p.owner)
      ensures e.recordType != d.recordType && !Clash(d.recordType, e.recordType)
    {
      NoUnownedClash(p, g, d, e);
      assert e.recordType == d.recordType ==> e in p.UnownedOf(LogicalOf(d));
    }
  }

  /** A record is replaced by one of another type, with this reason, if and only if the name is one to one and exactly
      one of the two types is CNAME. The cleanup policy does not matter. */
  lemma TypeReplacedExactly(p: Problem, d: Endpoint, c: Endpoint)
    requires p.Wf() && p.Desires(d)
    ensures p.Count(Replace(d, c, TypeChanged)) > 0 <==>
      OneToOne(p, GroupOf(d), d, c) && Clash(d.recordType, c.recordType)
  {
    var g := GroupOf(d);
    if p.Count(Replace(d, c, TypeChanged)) > 0 {
      SettledIsOneToOne(p, d, c, TypeChanged);
      ReplacedBy(p, d, c, TypeChanged);
    }
    if OneToOne(p, g, d, c) && Clash(d.recordType, c.recordType) {
      OneToOneFree(p, g, d, c);
      assert ChangesCnameType(p.DesiredIn(g), p.OwnedIn(g));
      assert !RetargetsCname(p.DesiredIn(g), p.OwnedIn(g));
    }
  }

  lemma ReplacedBy(p: Problem, d: Endpoint, c: Endpoint, reason: Reason)
    requires p.Wf() && p.Resolve(GroupOf(d)) == Settled(Replace(d, c, reason))
    ensures reason == TypeChanged ==> Clash(d.recordType, c.recordType)
    ensures reason == TargetChanged ==>
      d.recordType == CNAME && c.recordType == CNAME && KeyOf(c) != KeyOf(d) && p.cleanup == CleanupDelete
    ensures reason == TypeChanged || reason == TargetChanged
  {
    var g := GroupOf(d);
    SettledReplace(p, g, d, c, reason);
    ReplaceByTransition(p, g, Replace(d, c, reason));
    assert c in p.OwnedIn(g) && d in p.DesiredIn(g);
  }

  /** A CNAME is given its new target in place if and only if the name is one to one and cleanup may delete. */
  lemma RetargetedExactly(p: Problem, d: Endpoint, c: Endpoint)
    requires p.Wf() && p.Desires(d) && d.recordType == CNAME
    ensures p.Count(Replace(d, c, TargetChanged)) > 0 <==>
      OneToOne(p, GroupOf(d), d, c) && c.recordType == CNAME && KeyOf(c) != KeyOf(d) && p.cleanup == CleanupDelete
  {
    var g := GroupOf(d);
    if p.Resolve(g) == Settled(Replace(d, c, TargetChanged)) {
      SettledIsOneToOne(p, d, c, TargetChanged);
      ReplacedBy(p, d, c, TargetChanged);
    } else if p.Count(Replace(d, c, TargetChanged)) > 0 {
      CnameNotPaired(p, d, c);
    }
    if OneToOne(p, g, d, c) && c.recordType == CNAME && KeyOf(c) != KeyOf(d) && p.cleanup == CleanupDelete {
      OneToOneFree(p, g, d, c);
      assert RetargetsCname(p.DesiredIn(g), p.OwnedIn(g));
    }
  }

  /** A missing CNAME has no owned row of its type to be paired with: it would be retargeted. */
  lemma CnameNotPaired(p: Problem, d: Endpoint, c: Endpoint)
    requires p.Wf() && d.recordType == CNAME
    ensures !p.Paired(d, c)
  {
    if p.Paired(d, c) {
      var g := GroupOf(d);
      SurplusRow(p, c);
      NoTransition(p, g);
      DesiredInMember(p);
      assert d in p.DesiredIn(g);
      CnameDesiredAlone(p, g, d);
      OwnedInMember(p, g);
      CopiesMember(p, KeyOf(d));
    }
  }

  /** Every replacement either changes the type between CNAME and another, or keeps the type, gives the row another
      target and needs cleanup by deletion. Its row has an ID, and its record's type has no foreign rows. */
  lemma Replacement(p: Problem, op: Operation)
    requires p.Wf() && op.Replace? && p.Count(op) > 0
    ensures HasId(op.current) && p.UnownedOf(LogicalOf(op.desired)) == [] && p.Desires(op.desired)
    ensures if Clash(op.desired.recordType, op.current.recordType) then op.reason == TypeChanged
            else op.reason == TargetChanged && LogicalOf(op.current) == LogicalOf(op.desired)
                 && KeyOf(op.current) != KeyOf(op.desired) && p.cleanup == CleanupDelete
  {
    var d, c := op.desired, op.current;
    if p.Resolve(GroupOf(d)) == Settled(op) {
      SettledReplace(p, GroupOf(d), d, c, op.reason);
      ReplacedBy(p, d, c, op.reason);
    } else {
      SurplusRow(p, c);
      CopiesMember(p, KeyOf(d));
      assert KeyOf(c) == KeyOf(d) ==> c in p.Copies(KeyOf(d));
    }
  }

  // ---- Policies that do not delete ------------------------------------------------------

  /** A policy other than delete removes no row and replaces none but to change its type, and keep changes no row that
      is not desired. */
  lemma WithoutDelete(p: Problem, op: Operation)
    requires p.Wf() && p.Count(op) > 0 && p.cleanup != CleanupDelete
    ensures !op.Delete? && (op.Deactivate? ==> p.cleanup == CleanupDeactivate)
    ensures op.Replace? ==> Clash(op.desired.recordType, op.current.recordType)
    ensures op.Mutates() && !op.Replace? ==> KeyOf(op.desired) == KeyOf(op.current)
  {
    if op.Replace? { Replacement(p, op); }
    if op.Update? { KeptRow(p, op.desired, op.current); }
  }

  /** The row is the same record, or its name changed between CNAME and another type. */
  predicate SameOrChanged(was: Endpoint, now: Endpoint) {
    KeyOf(now) == KeyOf(was) || (GroupOf(now) == GroupOf(was) && Clash(now.recordType, was.recordType))
  }

  /** So without delete every row is still there after any run, and keeps its key unless its name changed between CNAME
      and another type. */
  lemma RowsStay(p: Problem, rows: Rows, steps: seq<Step>, id: string)
    requires Run(p, rows, steps) && p.cleanup != CleanupDelete && id in rows
    ensures var r := ApplyAll(rows, steps, p.owner); id in r && SameOrChanged(rows[id], r[id])
  {
    RunIsDisciplined(p, rows, steps);
    forall i | 0 <= i < |steps| && steps[i].op.Mutates() && steps[i].Row() == id
      ensures steps[i].Writes() && SameOrChanged(rows[id], Written(steps[i].op.desired, p.owner, id))
    {
      WithoutDelete(p, steps[i].op);
      Mutation(p, steps[i].op);
      assert Current(steps[i]) == rows[id];
    }
    StaysGood(rows, steps, p.owner, |steps|, id, (e: Endpoint) => SameOrChanged(rows[id], e));
  }

  /** A name that is settled as a whole has its one operation and no other. */
  lemma OnlyTheSettling(p: Problem, g: Group, o: Operation)
    requires p.Wf() && p.Resolve(g).Settled? && p.Count(o) > 0 && o.Name() == g
    ensures p.Resolve(g) == Settled(o) && p.Count(o) == 1
  {
    SettledName(p, g);
    match o
    case Delete(c) => SurplusRow(p, c);
    case Deactivate(_, c) => SurplusRow(p, c);
    case _ =>
  }

  lemma SettlingIsPlanned(p: Problem, g: Group)
    requires p.Wf() && p.Resolve(g).Settled?
    ensures p.Count(p.Resolve(g).operation) == 1 && p.Resolve(g).operation.Name() == g
  {
    SettledName(p, g);
  }

  /** A lone CNAME whose owned row has another target, under a policy that must keep the row. */
  ghost predicate Retained(p: Problem, d: Endpoint, c: Endpoint) {
    && p.Desires(d) && p.DesiredIn(GroupOf(d)) == {d} && d.recordType == CNAME && p.cleanup != CleanupDelete
    && c in p.current && OwnedBy(c, p.owner) && GroupOf(c) == GroupOf(d) && c.recordType == CNAME
    && (forall e :: e in p.current && OwnedBy(e, p.owner) ==> KeyOf(e) != KeyOf(d))
  }

  lemma RetainedIsSettled(p: Problem, d: Endpoint, c: Endpoint)
    requires p.Wf() && Retained(p, d, c)
    ensures p.Resolve(GroupOf(d)).Settled? && p.Resolve(GroupOf(d)).operation.Conflict?
    ensures p.Resolve(GroupOf(d)).operation.desired == d
  {
    var g := GroupOf(d);
    OwnedInMember(p, g);
    assert c in p.OwnedIn(g);
    assert RetargetsCname(p.DesiredIn(g), p.OwnedIn(g));
    assert First(p.DesiredIn(g), p.before) == d;
  }

  /** It gets exactly one conflict, and no operation touches its name. */
  lemma RetainedIsConflict(p: Problem, d: Endpoint, c: Endpoint) returns (op: Operation)
    requires p.Wf() && Retained(p, d, c)
    ensures op.Conflict? && op.desired == d && p.Count(op) == 1
    ensures forall o: Operation :: p.Count(o) > 0 && o.Name() == GroupOf(d) ==> o == op
  {
    RetainedIsSettled(p, d, c);
    op := p.Resolve(GroupOf(d)).operation;
    SettlingIsPlanned(p, GroupOf(d));
    forall o: Operation | p.Count(o) > 0 && o.Name() == GroupOf(d) ensures o == op {
      OnlyTheSettling(p, GroupOf(d), o);
    }
  }

  // ---- Conflicts ------------------------------------------------------------------------

  /** No desired record of the name comes before d. */
  ghost predicate FirstDesired(p: Problem, d: Endpoint) {
    p.Desires(d) && forall x :: p.Desires(x) && GroupOf(x) == GroupOf(d) && x != d ==> p.before(d, x)
  }

  ghost predicate ForeignAt(p: Problem, g: Group, e: Endpoint) {
    e in p.current && GroupOf(e) == g && !OwnedBy(e, p.owner)
  }

  ghost predicate OwnedAt(p: Problem, g: Group, e: Endpoint) {
    e in p.current && GroupOf(e) == g && OwnedBy(e, p.owner)
  }

  /** The desired record of the name clashes with this foreign row. */
  ghost predicate ClashesAt(p: Problem, g: Group, x: Endpoint, e: Endpoint) {
    p.Desires(x) && GroupOf(x) == g && ForeignAt(p, g, e) && Clash(x.recordType, e.recordType)
  }

  /** What the reason of a planned conflict says about the input. */
  ghost predicate Tells(p: Problem, d: Endpoint, observed: Option<Endpoint>, reason: Reason) {
    var g := GroupOf(d);
    match reason
    case CnameAndOther => FirstDesired(p, d) && observed.None? && TypeClash(p.DesiredIn(g))
    case CnameManyTargets => FirstDesired(p, d) && observed.None? && ManyCnameTargets(p.DesiredIn(g))
    case CnameUnowned =>
      && observed.Some? && ForeignAt(p, g, observed.value) && Clash(d.recordType, observed.value.recordType)
      && (forall x, e :: ClashesAt(p, g, x, e) && x != d ==> p.before(d, x))
    case LogicalUnowned =>
      observed.Some? && ForeignAt(p, g, observed.value) && observed.value.recordType == d.recordType
    case CnameTargetRetained =>
      && p.DesiredIn(g) == {d} && d.recordType == CNAME && (exists e :: OwnedAt(p, g, e) && e.recordType == CNAME)
      && observed.Some? && OwnedAt(p, g, observed.value) && KeyOf(observed.value) != KeyOf(d)
    case CnameTypeAmbiguous =>
      && FirstDesired(p, d) && observed.Some? && OwnedAt(p, g, observed.value)
      && (exists x, e :: p.Desires(x) && GroupOf(x) == g && OwnedAt(p, g, e) && Clash(x.recordType, e.recordType))
    case _ => false
  }

  lemma FirstIsFirstDesired(p: Problem, g: Group)
    requires p.Wf() && p.DesiredIn(g) != {}
    ensures var d := First(p.DesiredIn(g), p.before); FirstDesired(p, d) && GroupOf(d) == g
  {
    DesiredInMember(p);
    FirstPrecedes(p, p.DesiredIn(g));
  }

  lemma NameConflictTells(p: Problem, g: Group)
    requires p.Wf() && p.NameConflict(g).Some?
    ensures var o := p.NameConflict(g).value;
            o.Conflict? && GroupOf(o.desired) == g && Tells(p, o.desired, o.observed, o.reason)
  {
    DesiredInMember(p);
    OwnedInMember(p, g);
    FirstIsFirstDesired(p, g);
    if !TypeClash(p.DesiredIn(g)) && !ManyCnameTargets(p.DesiredIn(g)) {
      FirstPrecedes(p, p.Clashing(g));
      var d := First(p.Clashing(g), p.before);
      forall x, e | ClashesAt(p, g, x, e) && x != d ensures p.before(d, x) {
        assert e in p.UnownedIn(g) && x in p.Clashing(g);
      }
    }
  }

  lemma TransitionForm(p: Problem, g: Group)
    requires p.Transition(g).Some? && p.Transition(g).value.Conflict?
    ensures var o, d := p.Transition(g).value, First(p.DesiredIn(g), p.before);
            && o.desired == d && p.DesiredIn(g) != {}
            && match o.reason
               case LogicalUnowned =>
                 p.UnownedOf(LogicalOf(d)) != [] && o.observed == Some(p.UnownedOf(LogicalOf(d))[0])
               case CnameTargetRetained => RetargetsCname(p.DesiredIn(g), p.OwnedIn(g))
               case CnameTypeAmbiguous => ChangesCnameType(p.DesiredIn(g), p.OwnedIn(g))
               case _ => false
    ensures var o := p.Transition(g).value;
            o.reason != LogicalUnowned ==> p.OwnedIn(g) != [] && o.observed == Some(Head(p.OwnedIn(g)))
  {
  }

  lemma TransitionTells(p: Problem, g: Group)
    requires p.Wf() && p.Transition(g).Some? && p.Transition(g).value.Conflict?
    ensures var o := p.Transition(g).value; GroupOf(o.desired) == g && Tells(p, o.desired, o.observed, o.reason)
  {
    TransitionForm(p, g);
    FirstIsFirstDesired(p, g);
    OwnedInMember(p, g);
    var o := p.Transition(g).value;
    if o.reason == LogicalUnowned {
      UnownedOfMember(p, LogicalOf(o.desired));
      assert p.UnownedOf(LogicalOf(o.desired))[0] in p.UnownedOf(LogicalOf(o.desired));
    } else {
      HeadInRows(p.OwnedIn(g));
      DesiredInMember(p);
    }
  }

  /** Every planned conflict tells the truth. */
  lemma ConflictTells(p: Problem, o: Operation)
    requires p.Wf() && o.Conflict? && p.Count(o) > 0
    ensures p.Desires(o.desired) && Tells(p, o.desired, o.observed, o.reason)
  {
    var g := GroupOf(o.desired);
    if p.Resolve(g) == Settled(o) {
      if p.NameConflict(g).Some? { NameConflictTells(p, g); } else { TransitionTells(p, g); }
    } else {
      UnownedOfMember(p, LogicalOf(o.desired));
      assert p.UnownedOf(LogicalOf(o.desired))[0] in p.UnownedOf(LogicalOf(o.desired));
    }
  }

  /** Nothing is written for a record whose type has a foreign row, or that clashes with one. */
  lemma ForeignStopsWrites(p: Problem, o: Operation, e: Endpoint)
    requires p.Wf() && (o.Create? || o.Update? || o.Replace?) && p.Count(o) > 0 && ForeignAt(p, GroupOf(o.desired), e)
    ensures e.recordType != o.desired.recordType && !Clash(o.desired.recordType, e.recordType)
  {
    var g, d := GroupOf(o.desired), o.desired;
    if o.Replace? && p.Resolve(g) == Settled(o) {
      SettledIsOneToOne(p, d, o.current, o.reason);
    } else {
      NoTransition(p, g);
      DesiredInMember(p);
      NoUnownedClash(p, g, d, e);
      UnownedOfMember(p, LogicalOf(d));
    }
  }

  // ---- The kept copy --------------------------------------------------------------------

  /** Of several owned copies of a record the one with an ID is kept, and among those the one with the least ID. */
  lemma {:induction false} HeadIsPreferred(rows: seq<Endpoint>, e: Endpoint)
    requires e in rows
    ensures HasId(e) ==> HasId(Head(rows))
    ensures HasId(e) == HasId(Head(rows)) ==> !Less(e.providerID, Head(rows).providerID)
  {
    var n := |rows| - 1;
    var h := Head(rows);
    if n == 0 || e == rows[n] {
      LessIrreflexive(e.providerID);
      if n > 0 && h != e && Less(e.providerID, h.providerID) { assert !Preferred(e, h); }
    } else {
      HeadIsPreferred(rows[..n], e);
      var b := Head(rows[..n]);
      if h == rows[n] && h != b && HasId(e) == HasId(h) && Less(e.providerID, h.providerID) {
        LessTransitive(e.providerID, h.providerID, b.providerID);
      }
    }
  }

  /** An update goes to such a copy, and the plan writes it exactly when it differs from the record. */
  lemma UpdatedExactly(p: Problem, d: Endpoint, c: Endpoint)
    requires p.Wf() && p.Count(Update(d, c)) > 0
    ensures c in p.current && OwnedBy(c, p.owner) && KeyOf(c) == KeyOf(d) && !EqualRecord(c, d)
    ensures forall e :: e in p.current && OwnedBy(e, p.owner) && KeyOf(e) == KeyOf(d) ==>
      (HasId(e) ==> HasId(c)) && (HasId(e) == HasId(c) ==> !Less(e.providerID, c.providerID))
  {
    KeptRow(p, d, c);
    CopiesMember(p, KeyOf(d));
    forall e | e in p.current && OwnedBy(e, p.owner) && KeyOf(e) == KeyOf(d)
      ensures (HasId(e) ==> HasId(c)) && (HasId(e) == HasId(c) ==> !Less(e.providerID, c.providerID))
    {
      HeadIsPreferred(p.Copies(KeyOf(d)), e);
    }
  }
}
