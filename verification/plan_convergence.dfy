/** Convergence: when every planned operation succeeds and every row is in cleanup scope, two
    cycles of planning and applying reach rows for which a third plan holds only conflicts. */
module PlanConvergence {
  import opened Text
  import opened Dns
  import opened PlanSpec
  import opened PlanNames
  import opened PlanRecords
  import opened PlanRows
  import opened PlanSafety

  ghost predicate Executes(steps: seq<Step>, op: Operation) { exists i :: 0 <= i < |steps| && steps[i].op == op }

  /** One full cycle from p: every operation succeeds, in any order, and q plans from a new listing of the rows. */
  ghost predicate Cycle(p: Problem, rows: Rows, steps: seq<Step>, q: Problem) {
    && p.cleanup == CleanupDelete && (forall e :: p.allowed(e))
    && Run(p, rows, steps)
    && (forall op :: p.Count(op) > 0 ==> Executes(steps, op))
    && q == p.(current := q.current)
    && Lists(q.current, ApplyAll(rows, steps, p.owner))
  }

  /** What the next listing holds: foreign rows as they were, and owned rows that were left alone or written. */
  ghost predicate Left(p: Problem, q: Problem, e: Endpoint) {
    e in p.current && e in q.current && forall op: Operation :: op.Mutates() && p.Count(op) > 0 ==> op.current != e
  }

  ghost predicate WrittenBy(p: Problem, op: Operation, e: Endpoint) {
    && Writing(p, op) && e == Written(op.desired, p.owner, e.providerID)
    && (op.Create? || op.current.providerID == e.providerID)
  }

  lemma NextForeign(p: Problem, rows: Rows, steps: seq<Step>, q: Problem, e: Endpoint)
    requires Cycle(p, rows, steps, q) && !OwnedBy(e, p.owner)
    ensures e in p.current <==> e in q.current
  {
    ForeignRowsKept(p, rows, steps, e);
  }

  lemma NextWritten(p: Problem, rows: Rows, steps: seq<Step>, q: Problem, op: Operation) returns (e: Endpoint)
    requires Cycle(p, rows, steps, q) && Writing(p, op)
    ensures e in q.current && WrittenBy(p, op, e)
  {
    RunIsDisciplined(p, rows, steps);
    assert Executes(steps, op);
    var k :| 0 <= k < |steps| && steps[k].op == op;
    WrittenStays(rows, steps, p.owner, k, |steps|);
    e := Written(op.desired, p.owner, steps[k].Row());
  }

  lemma NextUntouched(p: Problem, rows: Rows, steps: seq<Step>, q: Problem, e: Endpoint)
    requires Cycle(p, rows, steps, q) && e in p.current
    requires forall op: Operation :: op.Mutates() && p.Count(op) > 0 ==> op.current != e
    ensures e in q.current
  {
    RunIsDisciplined(p, rows, steps);
    forall i | 0 <= i < |steps| && steps[i].op.Mutates() ensures steps[i].Row() != e.providerID {
      assert Current(steps[i]) != e && p.Count(steps[i].op) > 0;
      assert rows[Current(steps[i]).providerID] == Current(steps[i]);
    }
    Untouched(rows, steps, p.owner, |steps|, e.providerID);
  }

  lemma NextOrigin(p: Problem, rows: Rows, steps: seq<Step>, q: Problem, e: Endpoint)
    requires Cycle(p, rows, steps, q) && e in q.current
    ensures Left(p, q, e) || exists op :: WrittenBy(p, op, e)
  {
    RunIsDisciplined(p, rows, steps);
    var n, id, r := |steps|, e.providerID, ApplyAll(rows, steps, p.owner);
    Provenance(rows, steps, p.owner, n, id);
    if k :| k < n && Wrote(steps, k, id) && r[id] == Written(steps[k].op.desired, p.owner, id) {
      assert WrittenBy(p, steps[k].op, e);
    } else {
      forall op: Operation | op.Mutates() && p.Count(op) > 0 ensures op.current != e {
        assert Executes(steps, op);
        var i :| 0 <= i < n && steps[i].op == op;
        assert steps[i].op.Mutates() && steps[i].Row() != id;
      }
    }
  }

  /** The facts about a cycle that the rest of the proof needs. */
  ghost predicate Follows(p: Problem, q: Problem) {
    && p.cleanup == CleanupDelete && (forall e :: p.allowed(e))
    && p.Wf() && q.Wf() && q == p.(current := q.current)
    && (forall e {:trigger multiset(p.current)[e]} {:trigger e in p.current} :: e in p.current ==>
      multiset(p.current)[e] == 1)
    && (forall e {:trigger multiset(q.current)[e]} {:trigger e in q.current} :: e in q.current ==>
      multiset(q.current)[e] == 1 && HasId(e))
    && (forall a, b {:trigger a in q.current, b in q.current} ::
          a in q.current && b in q.current && a.providerID == b.providerID ==> a == b)
    && (forall e :: !OwnedBy(e, p.owner) ==> (e in p.current <==> e in q.current))
    && (forall e :: e in q.current ==> Left(p, q, e) || exists op :: WrittenBy(p, op, e))
    && (forall e :: e in p.current && (forall op: Operation :: op.Mutates() && p.Count(op) > 0 ==> op.current != e) ==>
      e in q.current)
    && (forall op :: Writing(p, op) ==> exists e :: e in q.current && WrittenBy(p, op, e))
  }

  lemma FollowsWritten(p: Problem, q: Problem, op: Operation) returns (e: Endpoint)
    requires Follows(p, q) && Writing(p, op)
    ensures e in q.current && WrittenBy(p, op, e)
  {
    e :| e in q.current && WrittenBy(p, op, e);
  }

  lemma FollowsOrigin(p: Problem, q: Problem, e: Endpoint) returns (op: Operation)
    requires Follows(p, q) && e in q.current && !Left(p, q, e)
    ensures WrittenBy(p, op, e)
  {
    op :| WrittenBy(p, op, e);
  }

  lemma CycleFollows(p: Problem, rows: Rows, steps: seq<Step>, q: Problem)
    requires Cycle(p, rows, steps, q)
    ensures Follows(p, q)
  {
    RunIsDisciplined(p, rows, steps);
    AfterValid(rows, steps, p.owner, |steps|);
    ListsDistinct(p.current, rows);
    ListsDistinct(q.current, ApplyAll(rows, steps, p.owner));
    forall e | !OwnedBy(e, p.owner) ensures e in p.current <==> e in q.current { NextForeign(p, rows, steps, q, e); }
    forall e | e in q.current ensures Left(p, q, e) || exists op :: WrittenBy(p, op, e) {
      NextOrigin(p, rows, steps, q, e);
    }
    forall e | e in p.current && (forall op: Operation :: op.Mutates() && p.Count(op) > 0 ==> op.current != e)
      ensures e in q.current {
      NextUntouched(p, rows, steps, q, e);
    }
    forall op | Writing(p, op) ensures exists e :: e in q.current && WrittenBy(p, op, e) {
      var e := NextWritten(p, rows, steps, q, op);
    }
  }

  // ---- What a cycle leaves as it is -----------------------------------------------------

  lemma SameUnownedOf(p: Problem, q: Problem, l: Logical)
    requires Follows(p, q)
    ensures p.UnownedOf(l) == [] <==> q.UnownedOf(l) == []
  {
    UnownedOfMember(p, l);
    UnownedOfMember(q, l);
    if p.UnownedOf(l) != [] { assert p.UnownedOf(l)[0] in q.UnownedOf(l); }
    if q.UnownedOf(l) != [] { assert q.UnownedOf(l)[0] in p.UnownedOf(l); }
  }

  lemma SameClashing(p: Problem, q: Problem, g: Group)
    requires Follows(p, q)
    ensures p.Clashing(g) == q.Clashing(g)
  {
    OwnedInMember(p, g);
    OwnedInMember(q, g);
    forall d ensures FirstClash(d, p.UnownedIn(g)).Some? <==> FirstClash(d, q.UnownedIn(g)).Some? {}
    assert p.DesiredIn(g) == q.DesiredIn(g);
  }

  lemma SameNameConflict(p: Problem, q: Problem, g: Group)
    requires Follows(p, q)
    ensures p.NameConflict(g).Some? <==> q.NameConflict(g).Some?
  {
    SameClashing(p, q, g);
    assert p.DesiredIn(g) == q.DesiredIn(g);
  }

  /** Every row of the name is as before. */
  ghost predicate Quiet(p: Problem, q: Problem, g: Group) {
    forall e :: GroupOf(e) == g ==> (e in p.current <==> e in q.current)
  }

  /** Only the operation that settles a name is about that name. */
  lemma OnlySettled(p: Problem, g: Group, o: Operation)
    requires p.Wf() && p.Resolve(g).Settled? && p.Count(o) > 0 && o.Name() == g
    ensures p.Resolve(g) == Settled(o)
  {
    match o
    case Conflict(_, _, _) =>
    case Create(_) =>
    case Update(_, _) =>
    case Replace(d, c, _) =>
      if p.Paired(d, c) { SurplusRow(p, c); }
    case Delete(c) => SurplusRow(p, c);
    case Deactivate(_, c) => SurplusRow(p, c);
  }

  /** No operation that writes or mutates is about a name in conflict. */
  lemma ConflictHasNoOther(p: Problem, g: Group, op: Operation)
    requires p.Wf() && p.Resolve(g).Settled? && p.Resolve(g).operation.Conflict? && p.Count(op) > 0 && !op.Conflict?
    ensures op.Name() != g && (op.Mutates() ==> GroupOf(op.current) != g)
  {
    if op.Mutates() { Mutation(p, op); }
    if op.Name() == g { OnlySettled(p, g, op); }
  }

  lemma ConflictLeaves(p: Problem, q: Problem, e: Endpoint)
    requires Follows(p, q) && p.Resolve(GroupOf(e)).Settled? && p.Resolve(GroupOf(e)).operation.Conflict?
      && e in p.current
    ensures e in q.current
  {
    forall op: Operation | op.Mutates() && p.Count(op) > 0 ensures op.current != e {
      ConflictHasNoOther(p, GroupOf(e), op);
    }
  }

  lemma ConflictAddsNothing(p: Problem, q: Problem, e: Endpoint)
    requires Follows(p, q) && p.Resolve(GroupOf(e)).Settled? && p.Resolve(GroupOf(e)).operation.Conflict?
      && e in q.current
    ensures e in p.current
  {
    if !Left(p, q, e) {
      var op := FollowsOrigin(p, q, e);
      ConflictHasNoOther(p, GroupOf(e), op);
    }
  }

  lemma ConflictIsQuiet(p: Problem, q: Problem, g: Group)
    requires Follows(p, q) && p.Resolve(g).Settled? && p.Resolve(g).operation.Conflict?
    ensures Quiet(p, q, g)
  {
    forall e | GroupOf(e) == g ensures e in p.current <==> e in q.current {
      if e in p.current { ConflictLeaves(p, q, e); }
      if e in q.current { ConflictAddsNothing(p, q, e); }
    }
  }

  lemma SameOwnedIn(p: Problem, q: Problem, g: Group)
    requires Quiet(p, q, g) && p.owner == q.owner
    ensures forall e :: e in p.OwnedIn(g) <==> e in q.OwnedIn(g)
  {
    OwnedInMember(p, g);
    OwnedInMember(q, g);
  }

  lemma OwnedInCount(p: Problem, g: Group)
    ensures forall e {:trigger multiset(p.OwnedIn(g))[e]} :: multiset(p.OwnedIn(g))[e] <= multiset(p.current)[e]
  {
    FilterMember(p.current, (e: Endpoint) => GroupOf(e) == g);
    FilterMember(GroupRows(p.current, g), (e: Endpoint) => OwnedBy(e, p.owner));
  }

  lemma OnlyElement(s: seq<Endpoint>, c: Endpoint)
    requires forall e :: e in s <==> e == c
    requires multiset(s)[c] <= 1
    ensures s == [c]
  {
    assert c in s;
    if |s| > 1 {
      assert s[0] in s && s[1] in s;
      CountAtLeast(s, 0, 1);
    }
  }

  lemma SameSingle(p: Problem, q: Problem, g: Group, c: Endpoint)
    requires Quiet(p, q, g) && p.owner == q.owner && p.OwnedIn(g) == [c]
    requires forall e {:trigger multiset(q.current)[e]} :: multiset(q.current)[e] <= 1
    ensures q.OwnedIn(g) == [c]
  {
    SameOwnedIn(p, q, g);
    OwnedInCount(q, g);
    assert multiset(q.OwnedIn(g))[c] <= 1;
    OnlyElement(q.OwnedIn(g), c);
  }

  lemma SameTransition(p: Problem, q: Problem, g: Group)
    requires p.byKey == q.byKey && p.owner == q.owner && Quiet(p, q, g)
    ensures p.Transition(g).Some? <==> q.Transition(g).Some?
  {
    SameOwnedIn(p, q, g);
    assert p.DesiredIn(g) == q.DesiredIn(g);
    assert RetargetsCname(p.DesiredIn(g), p.OwnedIn(g)) <==> RetargetsCname(p.DesiredIn(g), q.OwnedIn(g));
    assert ChangesCnameType(p.DesiredIn(g), p.OwnedIn(g)) <==> ChangesCnameType(p.DesiredIn(g), q.OwnedIn(g));
  }

  /** A transition is a replacement exactly when these conditions on sets of rows hold. */
  lemma TransitionKind(p: Problem, g: Group, d: Endpoint, c: Endpoint)
    requires p.Transition(g).Some? && p.cleanup == CleanupDelete && p.allowed(c)
    requires p.DesiredIn(g) == {d} && p.OwnedIn(g) == [c] && HasId(c) && p.UnownedOf(LogicalOf(d)) == []
    ensures p.Transition(g).value.Replace?
  {
    assert First(p.DesiredIn(g), p.before) == d;
  }

  lemma ReplaceNeverAppears(p: Problem, q: Problem, g: Group)
    requires Follows(p, q) && Quiet(p, q, g) && p.NameConflict(g).None?
    requires q.Transition(g).Some? && q.Transition(g).value.Replace?
    ensures p.Transition(g).Some? && p.Transition(g).value.Replace?
  {
    var Replace(d, c, reason) := q.Transition(g).value;
    TransitionReplaces(q, g, d, c, reason);
    Single(q.DesiredIn(g), d);
    assert p.DesiredIn(g) == q.DesiredIn(g);
    SameTransition(p, q, g);
    SameSingle(q, p, g, c);
    SameUnownedOf(p, q, LogicalOf(d));
    TransitionKind(p, g, d, c);
  }

  lemma TransitionIsKnown(p: Problem, g: Group)
    requires p.Transition(g).Some?
    ensures p.Transition(g).value.Conflict? || p.Transition(g).value.Replace?
  {
  }

  /** A name in conflict stays in conflict. */
  lemma ConflictStays(p: Problem, q: Problem, g: Group)
    requires Follows(p, q) && p.Resolve(g).Settled? && p.Resolve(g).operation.Conflict?
    ensures q.Resolve(g).Settled? && q.Resolve(g).operation.Conflict?
  {
    SameNameConflict(p, q, g);
    NameConflictIsConflict(q, g);
    if p.NameConflict(g).None? {
      ConflictIsQuiet(p, q, g);
      SameTransition(p, q, g);
      TransitionIsKnown(q, g);
      if q.Transition(g).value.Replace? { ReplaceNeverAppears(p, q, g); }
    }
  }

  // ---- The first cycle: nothing is missing afterwards -----------------------------------

  lemma CopyOf(q: Problem, e: Endpoint)
    requires e in q.current && OwnedBy(e, q.owner)
    ensures q.Copies(KeyOf(e)) != []
  {
    CopiesMember(q, KeyOf(e));
    assert e in q.Copies(KeyOf(e));
  }

  lemma WrittenIsCopied(p: Problem, q: Problem, op: Operation)
    requires Follows(p, q) && Writing(p, op)
    ensures q.Copies(KeyOf(op.desired)) != []
  {
    var e := FollowsWritten(p, q, op);
    CopyOf(q, e);
  }

  /** A kept row that already agrees is left alone. */
  lemma KeptIsLeft(p: Problem, d: Endpoint, c: Endpoint, op: Operation)
    requires p.Wf() && p.Keeps(d, c) && EqualRecord(c, d) && multiset(p.current)[c] == 1
    requires op.Mutates() && p.Count(op) > 0
    ensures op.current != c
  {
    KeptRow(p, d, c);
    if op.current == c {
      Role(p, op);
      if op.Update? { KeptRow(p, op.desired, c); }
    }
  }

  lemma KeptIsCopied(p: Problem, q: Problem, d: Endpoint)
    requires Follows(p, q) && p.Clean(d) && p.Copies(KeyOf(d)) != []
    ensures q.Copies(KeyOf(d)) != []
  {
    var c := Head(p.Copies(KeyOf(d)));
    KeptRow(p, d, c);
    if EqualRecord(c, d) {
      forall op: Operation | op.Mutates() && p.Count(op) > 0 ensures op.current != c {
        KeptIsLeft(p, d, c, op);
      }
      CopyOf(q, c);
    } else {
      WrittenIsCopied(p, q, Update(d, c));
    }
  }

  lemma MissingIsCopied(p: Problem, q: Problem, d: Endpoint)
    requires Follows(p, q) && p.Missing(d)
    ensures q.Copies(KeyOf(d)) != []
  {
    if p.Creates(d) {
      WrittenIsCopied(p, q, Create(d));
    } else {
      var c :| p.Paired(d, c);
      WrittenIsCopied(p, q, Replace(d, c, TargetChanged));
    }
  }

  /** A record that is free of conflicts after its name was settled has been written by the replacement. */
  lemma SettledIsCopied(p: Problem, q: Problem, d: Endpoint)
    requires Follows(p, q) && q.Clean(d) && p.Resolve(GroupOf(d)).Settled?
    ensures q.Copies(KeyOf(d)) != []
  {
    var g := GroupOf(d);
    SettledName(p, g);
    var o := p.Resolve(g).operation;
    if o.Conflict? { ConflictStays(p, q, g); }
    else {
      SettledReplace(p, g, o.desired, o.current, o.reason);
      DesiredInMember(p);
      assert d in p.DesiredIn(g);
      WrittenIsCopied(p, q, o);
    }
  }

  /** After a cycle no desired record that is free of conflicts lacks its row. */
  lemma NothingMissing(p: Problem, q: Problem, d: Endpoint)
    requires Follows(p, q)
    ensures !q.Missing(d)
  {
    if q.Clean(d) {
      if p.Resolve(GroupOf(d)).Settled? { SettledIsCopied(p, q, d); }
      else {
        SameUnownedOf(p, q, LogicalOf(d));
        if p.Missing(d) { MissingIsCopied(p, q, d); } else { KeptIsCopied(p, q, d); }
      }
    }
  }

  // ---- The second cycle: nothing is left to do ------------------------------------------

  ghost predicate Full(p: Problem) { forall d :: !p.Missing(d) }

  /** With nothing missing, every surplus row is deleted. */
  lemma SurplusDeleted(p: Problem, q: Problem, e: Endpoint)
    requires Follows(p, q) && Full(p) && p.StaleCount(e) > 0
    ensures !Left(p, q, e)
  {
    assert p.Cleans(e);
    var op := Delete(e);
    assert op.Mutates() && p.Count(op) > 0 && op.current == e;
  }

  ghost predicate Refreshed(p: Problem, d: Endpoint, c: Endpoint, e: Endpoint) {
    p.Keeps(d, c) && e == Written(d, p.owner, c.providerID)
  }

  /** With nothing missing, what is written at a name without name-level rules is a kept row. */
  lemma WriteIsRefresh(p: Problem, op: Operation, e: Endpoint)
    requires p.Wf() && p.cleanup == CleanupDelete && Full(p) && WrittenBy(p, op, e) && p.Resolve(GroupOf(e)).Clear?
    ensures op.Update? && Refreshed(p, op.desired, op.current, e)
  {
    assert GroupOf(op.desired) == GroupOf(e);
    assert !p.Missing(op.desired);
  }

  /** Where an owned row of such a name comes from. */
  lemma OwnedOrigin(p: Problem, q: Problem, e: Endpoint)
    requires Follows(p, q) && Full(p) && e in q.current && p.Resolve(GroupOf(e)).Clear?
    ensures (Left(p, q, e) && p.StaleCount(e) == 0) || exists d, c :: Refreshed(p, d, c, e)
  {
    if Left(p, q, e) {
      if p.StaleCount(e) > 0 { SurplusDeleted(p, q, e); }
    } else {
      var op :| WrittenBy(p, op, e);
      WriteIsRefresh(p, op, e);
    }
  }

  lemma ReplacedIsGone(p: Problem, q: Problem, g: Group, o: Operation, e: Endpoint)
    requires p.Wf() && o.Replace? && p.Resolve(g) == Settled(o) && OwnedBy(e, p.owner) && GroupOf(e) == g
    ensures !Left(p, q, e)
  {
    SettledReplace(p, g, o.desired, o.current, o.reason);
    OwnedInMember(p, g);
    assert o.Mutates() && p.Count(o) > 0;
    assert e in p.current ==> e in p.OwnedIn(g);
  }

  /** After a replacement that settled a name, its owned rows are the written one. */
  lemma ReplacedName(p: Problem, q: Problem, g: Group, o: Operation, e: Endpoint)
    requires Follows(p, q) && o.Replace? && p.Resolve(g) == Settled(o)
    requires e in q.current && OwnedBy(e, q.owner) && GroupOf(e) == g
    ensures e == Written(o.desired, p.owner, o.current.providerID)
  {
    ReplacedIsGone(p, q, g, o, e);
    var op := FollowsOrigin(p, q, e);
    assert op.Name() == g;
    OnlySettled(p, g, op);
  }

  /** e is what the cycle wrote for a record that is free of conflicts. */
  ghost predicate Placed(p: Problem, d: Endpoint, e: Endpoint) {
    p.Clean(d) && e == Written(d, p.owner, e.providerID)
  }

  lemma WriteIsPlaced(p: Problem, op: Operation, e: Endpoint)
    requires p.Wf() && p.cleanup == CleanupDelete && WrittenBy(p, op, e) && p.Resolve(GroupOf(e)).Clear?
    ensures Placed(p, op.desired, e)
  {
    assert GroupOf(op.desired) == GroupOf(e);
  }

  /** Where a row of a name without name-level rules comes from. */
  lemma ClearOrigin(p: Problem, q: Problem, e: Endpoint)
    requires Follows(p, q) && e in q.current && p.Resolve(GroupOf(e)).Clear?
    ensures Left(p, q, e) || exists d :: Placed(p, d, e)
  {
    if !Left(p, q, e) {
      var op := FollowsOrigin(p, q, e);
      WriteIsPlaced(p, op, e);
    }
  }

  /** A record under a foreign conflict keeps its owned rows. */
  lemma ForeignIsLeft(p: Problem, q: Problem, d: Endpoint, e: Endpoint)
    requires Follows(p, q) && p.Foreign(d) && e in p.current && KeyOf(e) == KeyOf(d)
    ensures e in q.current
  {
    forall op: Operation | op.Mutates() && p.Count(op) > 0 ensures op.current != e {
      if op.current == e {
        Mutation(p, op);
        Role(p, op);
        assert p.LogicalConflict(LogicalOf(e));
        if op.Update? { KeptRow(p, op.desired, e); }
      }
    }
  }

  lemma NoRetarget(p: Problem, q: Problem, g: Group)
    requires Follows(p, q) && p.Resolve(g).Clear?
    ensures !RetargetsCname(q.DesiredIn(g), q.OwnedIn(g))
  {
    if RetargetsCname(q.DesiredIn(g), q.OwnedIn(g)) {
      var d :| q.DesiredIn(g) == {d} && d.recordType == CNAME
        && (forall e :: e in q.OwnedIn(g) ==> KeyOf(e) != KeyOf(d))
            && (exists e :: e in q.OwnedIn(g) && e.recordType == CNAME);
      var e :| e in q.OwnedIn(g) && e.recordType == CNAME;
      RetargetImpossible(p, q, g, d, e);
    }
  }

  lemma CopyIsOwned(q: Problem, d: Endpoint)
    requires q.Copies(KeyOf(d)) != []
    ensures exists x :: x in q.OwnedIn(GroupOf(d)) && KeyOf(x) == KeyOf(d)
  {
    OwnedInMember(q, GroupOf(d));
    CopiesMember(q, KeyOf(d));
    assert q.Copies(KeyOf(d))[0] in q.Copies(KeyOf(d));
  }

  lemma RetargetImpossible(p: Problem, q: Problem, g: Group, d: Endpoint, e: Endpoint)
    requires Follows(p, q) && p.Resolve(g).Clear?
    requires q.DesiredIn(g) == {d} && d.recordType == CNAME && e in q.OwnedIn(g) && e.recordType == CNAME
    ensures exists x :: x in q.OwnedIn(g) && KeyOf(x) == KeyOf(d)
  {
    assert p.DesiredIn(g) == q.DesiredIn(g);
    DesiredInMember(p);
    assert d in p.DesiredIn(g);
    if p.Clean(d) {
      if p.Missing(d) { MissingIsCopied(p, q, d); } else { KeptIsCopied(p, q, d); }
      CopyIsOwned(q, d);
    } else {
      ForeignRetarget(p, q, g, d, e);
    }
  }

  lemma ForeignNotPlaced(p: Problem, q: Problem, g: Group, d: Endpoint, e: Endpoint)
    requires Follows(p, q) && p.DesiredIn(g) == {d} && p.Foreign(d) && GroupOf(d) == g
    requires e in q.current && GroupOf(e) == g
    ensures Left(p, q, e)
  {
    ClearOrigin(p, q, e);
    DesiredInMember(p);
    assert forall d' :: Placed(p, d', e) ==> d' in p.DesiredIn(g);
  }

  lemma ForeignRetarget(p: Problem, q: Problem, g: Group, d: Endpoint, e: Endpoint)
    requires Follows(p, q) && p.DesiredIn(g) == {d} && d.recordType == CNAME && p.Foreign(d) && GroupOf(d) == g
    requires e in q.OwnedIn(g) && e.recordType == CNAME
    ensures exists x :: x in q.OwnedIn(g) && KeyOf(x) == KeyOf(d)
  {
    OwnedInMember(q, g);
    OwnedInMember(p, g);
    NoTransition(p, g);
    ForeignNotPlaced(p, q, g, d, e);
    assert e in p.OwnedIn(g);
    var x :| x in p.OwnedIn(g) && KeyOf(x) == KeyOf(d);
    ForeignIsLeft(p, q, d, x);
  }

  lemma NoTypeChange(p: Problem, q: Problem, g: Group)
    requires Follows(p, q) && p.Resolve(g).Clear?
    ensures !ChangesCnameType(q.DesiredIn(g), q.OwnedIn(g))
  {
    if ChangesCnameType(q.DesiredIn(g), q.OwnedIn(g)) {
      var d, e :| d in q.DesiredIn(g) && e in q.OwnedIn(g) && Clash(d.recordType, e.recordType);
      TypeChangeImpossible(p, q, g, d, e);
    }
  }

  lemma TypeChangeImpossible(p: Problem, q: Problem, g: Group, d: Endpoint, e: Endpoint)
    requires Follows(p, q) && p.Resolve(g).Clear?
    requires d in q.DesiredIn(g) && e in q.OwnedIn(g)
    ensures !Clash(d.recordType, e.recordType)
  {
    assert p.DesiredIn(g) == q.DesiredIn(g);
    OwnedInMember(q, g);
    OwnedInMember(p, g);
    ClearOrigin(p, q, e);
    NoTransition(p, g);
    if Left(p, q, e) {
      assert e in p.OwnedIn(g);
    } else {
      var d' :| Placed(p, d', e);
      DesiredInMember(p);
      assert d' in p.DesiredIn(g);
      NoNameConflict(p, g);
    }
  }

  /** A name without name-level rules stays that way. */
  lemma ClearStays(p: Problem, q: Problem, g: Group)
    requires Follows(p, q) && p.Resolve(g).Clear?
    ensures q.Resolve(g).Clear?
  {
    SameNameConflict(p, q, g);
    NoRetarget(p, q, g);
    NoTypeChange(p, q, g);
  }

  lemma ReplaceClears(p: Problem, q: Problem, g: Group, d: Endpoint, c: Endpoint, reason: Reason)
    requires Follows(p, q) && p.Resolve(g) == Settled(Replace(d, c, reason))
    ensures q.Resolve(g).Clear?
  {
    SettledReplace(p, g, d, c, reason);
    SameNameConflict(p, q, g);
    OwnedInMember(q, g);
    assert q.DesiredIn(g) == {d};
    forall e | e in q.OwnedIn(g) ensures KeyOf(e) == KeyOf(d) { ReplacedName(p, q, g, Replace(d, c, reason), e); }
    assert !RetargetsCname(q.DesiredIn(g), q.OwnedIn(g));
    assert !ChangesCnameType(q.DesiredIn(g), q.OwnedIn(g));
  }

  /** After a cycle a name is in conflict, or under no name-level rule. */
  lemma OnlyConflictsSettle(p: Problem, q: Problem, g: Group)
    requires Follows(p, q)
    ensures q.Resolve(g).Settled? ==> q.Resolve(g).operation.Conflict?
    ensures q.Resolve(g).Clear? ==> p.Resolve(g).Clear? || p.Resolve(g).operation.Replace?
  {
    if p.Resolve(g).Clear? { ClearStays(p, q, g); }
    else {
      SettledName(p, g);
      var o := p.Resolve(g).operation;
      if o.Conflict? { ConflictStays(p, q, g); } else { ReplaceClears(p, q, g, o.desired, o.current, o.reason); }
    }
  }

  // ---- One row per desired record -------------------------------------------------------

  lemma CleanBefore(p: Problem, q: Problem, d: Endpoint)
    requires Follows(p, q) && q.Clean(d) && p.Resolve(GroupOf(d)).Clear?
    ensures p.Clean(d)
  {
    SameUnownedOf(p, q, LogicalOf(d));
  }

  /** An unchanged row that is not surplus is the kept one. */
  lemma UnchangedIsKept(p: Problem, d: Endpoint, e: Endpoint)
    requires p.Clean(d) && p.allowed(e) && e in p.current && OwnedBy(e, p.owner) && KeyOf(e) == KeyOf(d)
    requires multiset(p.current)[e] == 1 && p.StaleCount(e) == 0
    ensures p.Keeps(d, e)
  {
    CleanIsNoConflict(p, d);
    CopyOf(p, e);
  }

  lemma LeftAgrees(p: Problem, q: Problem, d: Endpoint, e: Endpoint)
    requires p.Keeps(d, e) && Left(p, q, e)
    ensures EqualRecord(e, d)
  {
    var op := Update(d, e);
    assert op.Mutates() && op.current == e;
  }

  /** Every owned copy of d in the new listing is the row kept for d before, and agrees with d. */
  lemma CopyOfClear(p: Problem, q: Problem, d: Endpoint, e: Endpoint)
    requires Follows(p, q) && Full(p) && p.Clean(d)
    requires e in q.current && OwnedBy(e, p.owner) && KeyOf(e) == KeyOf(d)
    ensures p.Copies(KeyOf(d)) != [] && e.providerID == Head(p.Copies(KeyOf(d))).providerID
    ensures |d.targets| <= 1 ==> EqualRecord(e, d)
  {
    OwnedOrigin(p, q, e);
    if d', c :| Refreshed(p, d', c, e) {
      assert KeyOf(d') == KeyOf(d) && d' == d;
    } else {
      UnchangedIsKept(p, d, e);
      LeftAgrees(p, q, d, e);
    }
  }

  /** The owned rows of a record that is free of conflicts: all under one ID, and agreeing. */
  lemma CopyOfClean(p: Problem, q: Problem, d: Endpoint, a: Endpoint, b: Endpoint)
    requires Follows(p, q) && Full(p) && q.Clean(d)
    requires a in q.current && OwnedBy(a, p.owner) && KeyOf(a) == KeyOf(d)
    requires b in q.current && OwnedBy(b, p.owner) && KeyOf(b) == KeyOf(d)
    ensures a == b
    ensures |d.targets| <= 1 ==> EqualRecord(a, d)
  {
    var g := GroupOf(d);
    OnlyConflictsSettle(p, q, g);
    if p.Resolve(g).Clear? {
      CleanBefore(p, q, d);
      CopyOfClear(p, q, d, a);
      CopyOfClear(p, q, d, b);
    } else {
      var o := p.Resolve(g).operation;
      SettledReplace(p, g, o.desired, o.current, o.reason);
      DesiredInMember(p);
      assert d in p.DesiredIn(g);
      ReplacedName(p, q, g, o, a);
      ReplacedName(p, q, g, o, b);
    }
  }

  /** A desired record that is free of conflicts has exactly one owned row, and it agrees. */
  lemma OneRowPerRecord(p: Problem, q: Problem, d: Endpoint)
    requires Follows(p, q) && Full(p) && q.Clean(d)
    ensures exists c :: q.Copies(KeyOf(d)) == [c] && (|d.targets| <= 1 ==> EqualRecord(c, d))
  {
    NothingMissing(p, q, d);
    CopiesMember(q, KeyOf(d));
    var c := q.Copies(KeyOf(d))[0];
    assert c in q.Copies(KeyOf(d));
    forall e ensures e in q.Copies(KeyOf(d)) <==> e == c {
      if e in q.Copies(KeyOf(d)) { CopyOfClean(p, q, d, e, c); }
    }
    CopiesCount(q, c);
    OnlyElement(q.Copies(KeyOf(d)), c);
    CopyOfClean(p, q, d, c, c);
  }

  lemma LogicalConflictStays(p: Problem, q: Problem, l: Logical)
    requires Follows(p, q) && p.LogicalConflict(l) && q.Resolve(Group(l.zone, l.dnsName)).Clear?
    ensures q.LogicalConflict(l)
  {
    var d :| p.Foreign(d) && LogicalOf(d) == l;
    SameUnownedOf(p, q, LogicalOf(d));
    assert q.Foreign(d);
  }

  /** An owned row in no conflict belongs to a desired record. */
  lemma RowIsDesired(p: Problem, q: Problem, e: Endpoint)
    requires Follows(p, q) && Full(p) && e in q.current && OwnedBy(e, q.owner)
    requires q.Resolve(GroupOf(e)).Clear? && !q.LogicalConflict(LogicalOf(e))
    ensures KeyOf(e) in q.byKey
  {
    var g := GroupOf(e);
    OnlyConflictsSettle(p, q, g);
    if p.Resolve(g).Clear? {
      OwnedOrigin(p, q, e);
      if p.LogicalConflict(LogicalOf(e)) { LogicalConflictStays(p, q, LogicalOf(e)); }
    } else {
      var o := p.Resolve(g).operation;
      SettledReplace(p, g, o.desired, o.current, o.reason);
      ReplacedName(p, q, g, o, e);
    }
  }

  lemma FreeIsClean(q: Problem, d: Endpoint)
    requires q.Desires(d) && q.Resolve(GroupOf(d)).Clear? && !q.LogicalConflict(LogicalOf(d))
    ensures q.Clean(d)
  {
    assert !q.Foreign(d);
  }

  lemma DesiredRowKept(p: Problem, q: Problem, c: Endpoint)
    requires Follows(p, q) && Full(p) && c in q.current && OwnedBy(c, q.owner)
    requires KeyOf(c) in q.byKey && q.Clean(q.byKey[KeyOf(c)])
    ensures q.StaleCount(c) == 0
  {
    OneRowPerRecord(p, q, q.byKey[KeyOf(c)]);
    CopiesMember(q, KeyOf(c));
    assert c in q.Copies(KeyOf(c));
  }

  lemma NothingSurplus(p: Problem, q: Problem, c: Endpoint)
    requires Follows(p, q) && Full(p)
    ensures q.StaleCount(c) == 0
  {
    if q.StaleCount(c) > 0 {
      SurplusRow(q, c);
      RowIsDesired(p, q, c);
      FreeIsClean(q, q.byKey[KeyOf(c)]);
      DesiredRowKept(p, q, c);
    }
  }

  // ---- The theorem ----------------------------------------------------------------------

  /** A conflict of the plan stops the (zone, name, type), alone or with its whole name. */
  ghost predicate Covered(p: Problem, l: Logical) {
    exists op: Operation :: op.Conflict? && p.Count(op) > 0
      && (p.Resolve(Group(l.zone, l.dnsName)) == Settled(op) || (p.Foreign(op.desired) && LogicalOf(op.desired) == l))
  }

  lemma StoppedIsCovered(p: Problem, q: Problem, l: Logical)
    requires Follows(p, q) && Full(p)
    requires q.Resolve(Group(l.zone, l.dnsName)).Settled? || q.LogicalConflict(l)
    ensures Covered(q, l)
  {
    var g := Group(l.zone, l.dnsName);
    OnlyConflictsSettle(p, q, g);
    if q.Resolve(g).Settled? {
      SettledName(q, g);
      assert q.Count(q.Resolve(g).operation) > 0;
    } else {
      var d :| q.Foreign(d) && LogicalOf(d) == l;
      assert q.Count(Conflict(d, Some(q.UnownedOf(LogicalOf(d))[0]), LogicalUnowned)) > 0;
    }
  }

  /** What the third plan may hold. */
  lemma ThirdPlan(p: Problem, q: Problem, op: Operation)
    requires Follows(p, q) && Full(p) && q.Count(op) > 0
    ensures op.Conflict? || (op.Update? && |op.desired.targets| > 1)
  {
    match op
    case Conflict(_, _, _) =>
    case Create(d) => NothingMissing(p, q, d);
    case Update(d, c) =>
      OneRowPerRecord(p, q, d);
    case Replace(d, c, _) =>
      OnlyConflictsSettle(p, q, GroupOf(d));
      NothingMissing(p, q, d);
    case Delete(c) => NothingSurplus(p, q, c);
    case Deactivate(_, c) => NothingSurplus(p, q, c);
  }

  /** The owned rows and the desired records of one (zone, name, type) match one to one. */
  ghost predicate Matched(q: Problem, l: Logical) {
    && (forall d :: q.Desires(d) && LogicalOf(d) == l ==>
          exists c :: q.Copies(KeyOf(d)) == [c] && (|d.targets| <= 1 ==> EqualRecord(c, d)))
    && (forall e :: e in q.current && OwnedBy(e, q.owner) && LogicalOf(e) == l ==> KeyOf(e) in q.byKey)
  }

  lemma UncoveredMatches(p: Problem, q: Problem, l: Logical)
    requires Follows(p, q) && Full(p) && !Covered(q, l)
    ensures Matched(q, l)
  {
    if q.Resolve(Group(l.zone, l.dnsName)).Settled? || q.LogicalConflict(l) { StoppedIsCovered(p, q, l); }
    forall d | q.Desires(d) && LogicalOf(d) == l
      ensures exists c :: q.Copies(KeyOf(d)) == [c] && (|d.targets| <= 1 ==> EqualRecord(c, d))
    {
      FreeIsClean(q, d);
      OneRowPerRecord(p, q, d);
    }
    forall e | e in q.current && OwnedBy(e, q.owner) && LogicalOf(e) == l ensures KeyOf(e) in q.byKey {
      RowIsDesired(p, q, e);
    }
  }

  /** Two cycles converge. The third plan holds conflicts only, apart from updates towards desired
      records with several targets, of which a device row can hold but one. Where no conflict covers a
      (zone, name, type), its owned rows match its desired records. Foreign rows are untouched. */
  lemma Converges(p0: Problem, rows0: Rows, steps0: seq<Step>, p1: Problem, rows1: Rows, steps1: seq<Step>, p2: Problem)
    requires Cycle(p0, rows0, steps0, p1)
    requires rows1 == ApplyAll(rows0, steps0, p0.owner) && Cycle(p1, rows1, steps1, p2)
    ensures forall op :: p2.Count(op) > 0 ==> op.Conflict? || (op.Update? && |op.desired.targets| > 1)
    ensures forall l :: !Covered(p2, l) ==> Matched(p2, l)
    ensures forall e :: !OwnedBy(e, p0.owner) ==> (e in p0.current <==> e in p2.current)
  {
    CycleFollows(p0, rows0, steps0, p1);
    CycleFollows(p1, rows1, steps1, p2);
    forall d ensures !p1.Missing(d) { NothingMissing(p0, p1, d); }
    forall op | p2.Count(op) > 0 ensures op.Conflict? || (op.Update? && |op.desired.targets| > 1) {
      ThirdPlan(p1, p2, op);
    }
    forall l | !Covered(p2, l) ensures Matched(p2, l) { UncoveredMatches(p1, p2, l); }
  }

  /** A desired record with several targets is updated again in every plan. */
  lemma ManyTargetsUpdated(p: Problem, q: Problem, d: Endpoint)
    requires Follows(p, q) && Full(p) && SingleTargets(q)
    requires q.Clean(d) && |d.targets| > 1
    ensures exists c :: q.Count(Update(d, c)) > 0
  {
    OneRowPerRecord(p, q, d);
    KeptWithFewerTargets(q, d, Head(q.Copies(KeyOf(d))));
  }

  lemma KeptWithFewerTargets(q: Problem, d: Endpoint, c: Endpoint)
    requires q.Keeps(d, c) && SingleTargets(q) && |d.targets| > 1
    ensures q.Count(Update(d, c)) > 0
  {
    KeptRow(q, d, c);
    assert !EqualRecord(c, d);
  }

  // ---- Exactly when nothing is left to do -----------------------------------------------

  /** The planner may reconcile the record: there are no foreign rows of its type, and its name is under no name-level
      rule or is settled by a replacement. */
  ghost predicate Reconcilable(p: Problem, d: Endpoint) {
    && p.Desires(d) && p.UnownedOf(LogicalOf(d)) == []
    && (p.Resolve(GroupOf(d)).Clear? || p.Resolve(GroupOf(d)).operation.Replace?)
  }

  /** The records that a cycle can reconcile are those that are free of conflicts after it. */
  lemma ReconcilableIsClean(p: Problem, q: Problem, d: Endpoint)
    requires Follows(p, q)
    ensures Reconcilable(p, d) <==> q.Clean(d)
    ensures Reconcilable(q, d) <==> q.Clean(d)
  {
    var g := GroupOf(d);
    SameUnownedOf(p, q, LogicalOf(d));
    OnlyConflictsSettle(p, q, g);
    if p.Resolve(g).Clear? { ClearStays(p, q, g); }
    else {
      SettledName(p, g);
      var o := p.Resolve(g).operation;
      if o.Replace? { ReplaceClears(p, q, g, o.desired, o.current, o.reason); }
    }
  }

  ghost predicate SingleTargets(p: Problem) { forall e :: e in p.current ==> |e.targets| <= 1 }

  lemma SingleTargetsStay(p: Problem, q: Problem)
    requires Follows(p, q) && SingleTargets(p)
    ensures SingleTargets(q)
  {
    forall e | e in q.current ensures |e.targets| <= 1 {
      if !Left(p, q, e) { var op := FollowsOrigin(p, q, e); }
    }
  }

  lemma ThirdPlanExactly(p: Problem, q: Problem)
    requires Follows(p, q) && Full(p) && SingleTargets(q)
    ensures (forall op :: q.Count(op) > 0 ==> op.Conflict?) <==> (forall d :: q.Clean(d) ==> |d.targets| <= 1)
  {
    forall d | q.Clean(d) && |d.targets| > 1 ensures exists op: Operation :: q.Count(op) > 0 && !op.Conflict? {
      ManyTargetsUpdated(p, q, d);
      var c :| q.Count(Update(d, c)) > 0;
    }
    forall op | q.Count(op) > 0 && !op.Conflict? ensures exists d :: q.Clean(d) && |d.targets| > 1 {
      ThirdPlan(p, q, op);
      assert q.Clean(op.desired);
    }
  }

  /** For a device whose rows carry at most one target, the third plan holds nothing but conflicts if and only if no
      record that the first plan may reconcile has several targets. */
  lemma ConvergedExactly(p0: Problem, rows0: Rows, steps0: seq<Step>, p1: Problem, rows1: Rows, steps1: seq<Step>,
      p2: Problem)
    requires Cycle(p0, rows0, steps0, p1) && SingleTargets(p0)
    requires rows1 == ApplyAll(rows0, steps0, p0.owner) && Cycle(p1, rows1, steps1, p2)
    ensures (forall op :: p2.Count(op) > 0 ==> op.Conflict?) <==> (forall d :: Reconcilable(p0, d) ==> |d.targets| <= 1)
  {
    CycleFollows(p0, rows0, steps0, p1);
    CycleFollows(p1, rows1, steps1, p2);
    forall d ensures !p1.Missing(d) { NothingMissing(p0, p1, d); }
    SingleTargetsStay(p0, p1);
    SingleTargetsStay(p1, p2);
    ThirdPlanExactly(p1, p2);
    forall d ensures p2.Clean(d) <==> Reconcilable(p0, d) {
      ReconcilableIsClean(p0, p1, d);
      ReconcilableIsClean(p1, p2, d);
    }
  }

  // ---- A first cycle --------------------------------------------------------------------

  /** One desired record and an empty device. */
  function NewRecord(d: Endpoint, owner: string): Problem {
    Problem(map[KeyOf(d) := d], [], owner, CleanupDelete, (e: Endpoint) => true, KeyBefore)
  }

  lemma NewRecordDesired(d: Endpoint, owner: string)
    ensures NewRecord(d, owner).Wf() && NewRecord(d, owner).DesiredIn(GroupOf(d)) == {d}
  {
    KeyBeforeIsWeakOrder();
    var p := NewRecord(d, owner);
    assert p.byKey[KeyOf(d)] == d;
    assert forall x :: x in p.DesiredIn(GroupOf(d)) <==> x == d;
  }

  lemma NewRecordPlan(d: Endpoint, owner: string, op: Operation)
    requires d.recordType == CNAME ==> |d.targets| <= 1
    ensures NewRecord(d, owner).Count(op) == if op == Create(d) then 1 else 0
  {
    var p := NewRecord(d, owner);
    NewRecordDesired(d, owner);
    SingleIsFree(p, d);
    NothingListed(p, d);
    if p.Count(op) > 0 {
      if op.Mutates() { Mutation(p, op); } else { OperationAtName(p, d, op); }
    }
  }

  /** A new record is published in one cycle: the plan is its creation, under whatever ID the device assigns, and the
      row is listed as owned. */
  lemma FirstCycle(d: Endpoint, owner: string, id: string)
    requires (d.recordType == CNAME ==> |d.targets| <= 1) && id != ""
    ensures var p := NewRecord(d, owner); Cycle(p, map[], [Step(Create(d), id)], p.(current := [Written(d, owner, id)]))
  {
    var p, steps := NewRecord(d, owner), [Step(Create(d), id)];
    NewRecordDesired(d, owner);
    forall op ensures p.Count(op) == if op == Create(d) then 1 else 0 { NewRecordPlan(d, owner, op); }
    assert steps[0].op == Create(d);
    assert After(map[], steps, owner, 1) == map[id := Written(d, owner, id)];
  }

  /** The record with the row its creation wrote. */
  function PublishedRecord(d: Endpoint, owner: string, id: string): Problem {
    NewRecord(d, owner).(current := [Written(d, owner, id)])
  }

  lemma PublishedFree(d: Endpoint, owner: string, id: string)
    requires d.recordType == CNAME ==> |d.targets| <= 1
    ensures var p := PublishedRecord(d, owner, id);
            && p.Wf() && p.DesiredIn(GroupOf(d)) == {d} && p.Clean(d) && forall x :: p.Desires(x) ==> x == d
  {
    var p := PublishedRecord(d, owner, id);
    NewRecordDesired(d, owner);
    assert p.DesiredIn(GroupOf(d)) == NewRecord(d, owner).DesiredIn(GroupOf(d));
    SingleIsFree(p, d);
    NoUnowned(p, LogicalOf(d));
  }

  lemma OnlyRowKept(p: Problem, d: Endpoint, row: Endpoint)
    requires p.Clean(d) && p.current == [row] && OwnedBy(row, p.owner) && KeyOf(row) == KeyOf(d)
    ensures p.Keeps(d, row) && p.StaleCount(row) == 0 && multiset(p.current)[row] == 1
  {
    CopiesMember(p, KeyOf(d));
    assert row in p.Copies(KeyOf(d));
    HeadInRows(p.Copies(KeyOf(d)));
    KeptRow(p, d, row);
  }

  lemma PublishedOperation(p: Problem, d: Endpoint, row: Endpoint, op: Operation)
    requires p.Wf() && p.DesiredIn(GroupOf(d)) == {d} && p.Keeps(d, row) && p.StaleCount(row) == 0
    requires p.current == [row] && multiset(p.current)[row] == 1 && forall x :: p.Desires(x) ==> x == d
    ensures p.Count(op) == if op == Update(d, row) && !EqualRecord(row, d) then 1 else 0
  {
    if p.Count(op) > 0 && op.Mutates() {
      Mutation(p, op);
      Role(p, op);
    }
  }

  /** The plan for the published record. */
  lemma PublishedPlan(d: Endpoint, owner: string, id: string, op: Operation)
    requires d.recordType == CNAME ==> |d.targets| <= 1
    ensures PublishedRecord(d, owner, id).Count(op)
         == if op == Update(d, Written(d, owner, id)) && |d.targets| > 1 then 1 else 0
  {
    var p, row := PublishedRecord(d, owner, id), Written(d, owner, id);
    PublishedFree(d, owner, id);
    OnlyRowKept(p, d, row);
    PublishedOperation(p, d, row, op);
  }

  /** Writing the same row again. */
  lemma SameRowAgain(d: Endpoint, owner: string, id: string)
    requires id != ""
    ensures var row := Written(d, owner, id);
            && Lists([row], map[id := row]) && ValidRows(map[id := row])
            && ApplyAll(map[id := row], [Step(Update(d, row), "")], owner) == map[id := row]
  {
    var row := Written(d, owner, id);
    var steps := [Step(Update(d, row), "")];
    assert After(map[id := row], steps, owner, 1) == Apply(After(map[id := row], steps, owner, 0), steps[0], owner);
  }

  /** A record with several targets is updated in every cycle, and every cycle leaves the same row: the third plan and
      all later ones hold an update. */
  lemma SeveralTargetsNeverSettle(d: Endpoint, owner: string, id: string)
    requires d.recordType != CNAME && |d.targets| > 1 && id != ""
    ensures var p, row := PublishedRecord(d, owner, id), Written(d, owner, id);
            Cycle(p, map[id := row], [Step(Update(d, row), "")], p) && p.Count(Update(d, row)) == 1 && SingleTargets(p)
  {
    var p, row := PublishedRecord(d, owner, id), Written(d, owner, id);
    PublishedFree(d, owner, id);
    forall op ensures p.Count(op) == if op == Update(d, row) then 1 else 0 { PublishedPlan(d, owner, id, op); }
    SameRowAgain(d, owner, id);
    OneStepCycle(p, map[id := row], Step(Update(d, row), ""));
  }

  /** A plan of one mutation, whose execution leaves the rows as they are. */
  lemma OneStepCycle(p: Problem, rows: Rows, step: Step)
    requires p.Wf() && p.cleanup == CleanupDelete && (forall e :: p.allowed(e))
    requires ValidRows(rows) && Lists(p.current, rows)
    requires step.op.Mutates() && (forall op :: p.Count(op) == if op == step.op then 1 else 0)
    requires ApplyAll(rows, [step], p.owner) == rows
    ensures Cycle(p, rows, [step], p)
  {
    var steps := [step];
    assert steps[0].op == step.op && p.Count(steps[0].op) == 1;
    assert Run(p, rows, steps);
    assert Executes(steps, step.op);
  }

  /** Such a record is one that the first plan may reconcile. */
  lemma NewRecordReconcilable(d: Endpoint, owner: string)
    requires d.recordType == CNAME ==> |d.targets| <= 1
    ensures Reconcilable(NewRecord(d, owner), d) && SingleTargets(NewRecord(d, owner))
  {
    NewRecordDesired(d, owner);
    SingleIsFree(NewRecord(d, owner), d);
    NoUnowned(NewRecord(d, owner), LogicalOf(d));
  }
}
