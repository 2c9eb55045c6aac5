/** What every operation of a plan may touch, and two properties of the rows that hold after
    any part of a plan is applied in any order: a CNAME stands alone, and a desired name
    that had a row keeps one. */
module PlanSafety {
  import opened Text
  import opened Dns
  import opened PlanSpec
  import opened PlanNames
  import opened PlanRecords
  import opened PlanRows

  lemma OwnedInMember(p: Problem, g: Group)
    ensures forall e :: e in p.OwnedIn(g) <==> e in p.current && GroupOf(e) == g && OwnedBy(e, p.owner)
    ensures forall e :: e in p.UnownedIn(g) <==> e in p.current && GroupOf(e) == g && !OwnedBy(e, p.owner)
  {
    RowsMember(p.current, p.owner);
    RowsMember(GroupRows(p.current, g), p.owner);
  }

  lemma UnownedOfMember(p: Problem, l: Logical)
    ensures forall e :: e in p.UnownedOf(l) <==> e in p.current && LogicalOf(e) == l && !OwnedBy(e, p.owner)
  {
    RowsMember(p.current, p.owner);
    RowsMember(LogicalRows(p.current, l), p.owner);
  }

  /** The row kept for a desired record is owned, has its key and is never surplus. */
  lemma KeptRow(p: Problem, d: Endpoint, c: Endpoint)
    requires p.Keeps(d, c)
    ensures c in p.current && OwnedBy(c, p.owner) && KeyOf(c) == KeyOf(d)
    ensures multiset(p.current)[c] == 1 ==> p.StaleCount(c) == 0
  {
    CopiesMember(p, KeyOf(d));
    HeadInRows(p.Copies(KeyOf(d)));
  }

  lemma NameConflictIsConflict(p: Problem, g: Group)
    ensures p.NameConflict(g).Some? ==> p.NameConflict(g).value.Conflict?
  {
  }

  lemma ReplaceByTransition(p: Problem, g: Group, o: Operation)
    requires o.Replace? && p.Resolve(g) == Settled(o)
    ensures p.NameConflict(g).None? && p.Transition(g) == Some(o)
  {
    NameConflictIsConflict(p, g);
  }

  lemma TransitionReplaces(p: Problem, g: Group, d: Endpoint, c: Endpoint, reason: Reason)
    requires p.Transition(g) == Some(Replace(d, c, reason))
    ensures |p.DesiredIn(g)| == 1 && d in p.DesiredIn(g)
    ensures p.OwnedIn(g) == [c] && p.allowed(c) && HasId(c)
    ensures p.UnownedOf(LogicalOf(d)) == []
  {
  }

  lemma Single(s: set<Endpoint>, d: Endpoint)
    requires |s| == 1 && d in s
    ensures s == {d}
  {
    assert |s - {d}| == 0;
  }

  lemma NoNameConflict(p: Problem, g: Group)
    requires p.NameConflict(g).None?
    ensures !TypeClash(p.DesiredIn(g)) && !ManyCnameTargets(p.DesiredIn(g)) && p.Clashing(g) == {}
  {
  }

  /** Without a name-level conflict no unowned row clashes with a desired record. */
  lemma NoUnownedClash(p: Problem, g: Group, d: Endpoint, e: Endpoint)
    requires p.NameConflict(g).None? && d in p.DesiredIn(g)
    requires e in p.current && GroupOf(e) == g && !OwnedBy(e, p.owner)
    ensures !Clash(d.recordType, e.recordType)
  {
    NoNameConflict(p, g);
    OwnedInMember(p, g);
    assert d !in p.Clashing(g);
  }

  /** A replacement that settles a whole name: one desired record, one owned row. */
  lemma SettledReplace(p: Problem, g: Group, d: Endpoint, c: Endpoint, reason: Reason)
    requires p.Wf() && p.Resolve(g) == Settled(Replace(d, c, reason))
    ensures p.Desires(d) && GroupOf(d) == g && p.DesiredIn(g) == {d}
    ensures p.OwnedIn(g) == [c] && p.allowed(c) && HasId(c)
    ensures c in p.current && GroupOf(c) == g && OwnedBy(c, p.owner)
    ensures p.UnownedOf(LogicalOf(d)) == [] && p.NameConflict(g).None?
  {
    ReplaceByTransition(p, g, Replace(d, c, reason));
    TransitionReplaces(p, g, d, c, reason);
    Single(p.DesiredIn(g), d);
    DesiredInMember(p);
    OwnedInMember(p, g);
    assert c in p.OwnedIn(g);
  }

  lemma SurplusRow(p: Problem, c: Endpoint)
    requires p.StaleCount(c) > 0
    ensures c in p.current && OwnedBy(c, p.owner) && p.allowed(c) && p.Resolve(GroupOf(c)).Clear?
    ensures p.StaleCount(c) <= multiset(p.current)[c]
  {
  }

  /** A mutation's row is a listed, owned row of the same name; only an update may leave cleanup scope. */
  lemma Mutation(p: Problem, op: Operation)
    requires p.Wf() && op.Mutates() && p.Count(op) > 0
    ensures op.current in p.current && OwnedBy(op.current, p.owner)
    ensures op.Update? || p.allowed(op.current)
    ensures op.Delete? || GroupOf(op.desired) == GroupOf(op.current)
  {
    match op
    case Update(d, c) => KeptRow(p, d, c);
    case Replace(d, c, reason) =>
      if p.Resolve(GroupOf(d)) == Settled(op) { SettledReplace(p, GroupOf(d), d, c, reason); }
      else { SurplusRow(p, c); }
    case Delete(c) => SurplusRow(p, c);
    case Deactivate(_, c) => SurplusRow(p, c);
  }

  /** Why a mutation is in the plan: its name is replaced, its row is kept, or its row is surplus. */
  lemma Role(p: Problem, op: Operation)
    requires p.Wf() && op.Mutates() && p.Count(op) > 0 && multiset(p.current)[op.current] == 1
    ensures op.Update? ==> p.StaleCount(op.current) == 0 && p.Resolve(GroupOf(op.current)).Clear?
    ensures op.Replace? ==> p.Resolve(GroupOf(op.current)) == Settled(op)
                            || (op.reason == TargetChanged && p.Paired(op.desired, op.current))
    ensures op.Delete? || op.Deactivate? ==> p.Cleans(op.current)
    ensures p.Count(op) == 1
  {
    match op
    case Update(d, c) => KeptRow(p, d, c);
    case Replace(d, c, reason) =>
      if p.Resolve(GroupOf(d)) == Settled(op) { SettledReplace(p, GroupOf(d), d, c, reason); }
    case Delete(c) => SurplusRow(p, c);
    case Deactivate(_, c) => SurplusRow(p, c);
  }

  /** A row is the subject of at most one operation. */
  lemma OneMutation(p: Problem, a: Operation, b: Operation)
    requires p.Wf() && a.Mutates() && b.Mutates() && p.Count(a) > 0 && p.Count(b) > 0
    requires a.current == b.current && multiset(p.current)[a.current] == 1
    ensures a == b
  {
    Role(p, a);
    Role(p, b);
    if a.Update? && b.Update? {
      KeptRow(p, a.desired, a.current);
      KeptRow(p, b.desired, b.current);
    }
  }

  /** With every row listed once, no operation occurs twice in a plan. */
  lemma PlanIsASet(p: Problem, rows: Rows, op: Operation)
    requires p.Wf() && Lists(p.current, rows)
    ensures p.Count(op) <= 1
  {
    ListsDistinct(p.current, rows);
    if op.Mutates() && p.Count(op) > 0 {
      Mutation(p, op);
      Role(p, op);
    }
  }

  /** Some operations of the plan succeed, in any order; the device never assigns an ID that is in use. */
  ghost predicate Run(p: Problem, rows: Rows, steps: seq<Step>) {
    && p.Wf() && ValidRows(rows) && Lists(p.current, rows)
    && (forall i :: 0 <= i < |steps| ==> p.Count(steps[i].op) > 0)
    && (forall i, j :: 0 <= i < j < |steps| ==> steps[i].op != steps[j].op)
    && FreshIds(rows, steps, p.owner)
  }

  lemma RunIsDisciplined(p: Problem, rows: Rows, steps: seq<Step>)
    requires Run(p, rows, steps)
    ensures Disciplined(rows, steps, p.owner)
  {
    ListsDistinct(p.current, rows);
    forall i | 0 <= i < |steps| && steps[i].op.Mutates()
      ensures Current(steps[i]) in p.current && Current(steps[i]).providerID in rows
        && rows[Current(steps[i]).providerID] == Current(steps[i])
    {
      Mutation(p, steps[i].op);
    }
    forall i, j | 0 <= i < j < |steps| && steps[i].op.Mutates() && steps[j].op.Mutates()
      ensures steps[i].Row() != steps[j].Row() {
      if steps[i].Row() == steps[j].Row() {
        assert Current(steps[i]) == Current(steps[j]);
        OneMutation(p, steps[i].op, steps[j].op);
      }
    }
  }

  // ---- A CNAME stands alone -------------------------------------------------------------

  /** Section 3.6.2 of RFC 1034 and section 10.1 of RFC 2181: a name with a CNAME row has no other row. */
  ghost predicate CnameAlone(rows: Rows) {
    forall i, j :: i in rows && j in rows && i != j && GroupOf(rows[i]) == GroupOf(rows[j]) ==>
      rows[i].recordType != CNAME
  }

  /** Neither record is a CNAME, so both may hold a row of one name. */
  predicate Coexist(a: RecordType, b: RecordType) { a != CNAME && b != CNAME }

  lemma NoTransition(p: Problem, g: Group)
    requires p.Resolve(g).Clear?
    ensures p.NameConflict(g).None?
    ensures p.DesiredIn(g) != {} ==> !RetargetsCname(p.DesiredIn(g), p.OwnedIn(g))
                                     && !ChangesCnameType(p.DesiredIn(g), p.OwnedIn(g))
  {
  }

  /** At a name under no name-level rule, a CNAME is desired alone. */
  lemma CnameDesiredAlone(p: Problem, g: Group, d: Endpoint)
    requires p.NameConflict(g).None? && d in p.DesiredIn(g) && d.recordType == CNAME
    ensures p.DesiredIn(g) == {d}
  {
    NoNameConflict(p, g);
    var s := p.DesiredIn(g);
    assert forall x :: x in s && x != d ==> x.recordType == CNAME || Clash(d.recordType, x.recordType);
  }

  /** A record is created only where it may coexist with every row of the name. */
  lemma CreateCoexists(p: Problem, d: Endpoint, e: Endpoint)
    requires p.Wf() && p.Missing(d) && e in p.current && GroupOf(e) == GroupOf(d)
    ensures Coexist(d.recordType, e.recordType)
  {
    var g := GroupOf(d);
    NoTransition(p, g);
    DesiredInMember(p);
    OwnedInMember(p, g);
    UnownedOfMember(p, LogicalOf(d));
    CopiesMember(p, KeyOf(d));
    if OwnedBy(e, p.owner) {
      assert e in p.OwnedIn(g);
      if d.recordType == CNAME { CnameDesiredAlone(p, g, d); }
    } else {
      NoUnownedClash(p, g, d, e);
    }
  }

  /** A write lands beside any other row e of the name without breaking the CNAME rule. */
  lemma WriteCoexists(p: Problem, rows: Rows, op: Operation, e: Endpoint)
    requires p.Wf() && Lists(p.current, rows) && CnameAlone(rows)
    requires (op.Create? || op.Update? || op.Replace? || op.Deactivate?) && p.Count(op) > 0
    requires e in p.current && GroupOf(e) == GroupOf(op.desired)
    requires op.Create? || e.providerID != op.current.providerID
    ensures Coexist(op.desired.recordType, e.recordType)
  {
    if op.Create? { CreateCoexists(p, op.desired, e); }
    else {
      ListsDistinct(p.current, rows);
      Mutation(p, op);
      Role(p, op);
      var d, c := op.desired, op.current;
      if op.Update? { KeptRow(p, d, c); }
      if op.Replace? && p.Resolve(GroupOf(c)) == Settled(op) {
        SettledReplace(p, GroupOf(c), d, c, op.reason);
        OwnedInMember(p, GroupOf(c));
        assert !OwnedBy(e, p.owner);
        NoUnownedClash(p, GroupOf(c), d, e);
        UnownedOfMember(p, LogicalOf(d));
      } else {
        assert c.recordType == d.recordType;
        assert rows[c.providerID] == c && rows[e.providerID] == e;
      }
    }
  }

  /** A mutation keeps its row's type, unless it replaces the only owned row of the name. */
  lemma TypeKept(p: Problem, op: Operation)
    requires p.Wf() && op.Mutates() && !op.Delete? && p.Count(op) > 0 && multiset(p.current)[op.current] == 1
    ensures op.desired.recordType == op.current.recordType
         || (p.OwnedIn(GroupOf(op.current)) == [op.current] && p.Resolve(GroupOf(op.current)).Settled?)
  {
    Role(p, op);
    if op.Update? { KeptRow(p, op.desired, op.current); }
    if op.Replace? && p.Resolve(GroupOf(op.current)) == Settled(op) {
      SettledReplace(p, GroupOf(op.current), op.desired, op.current, op.reason);
    }
  }

  lemma CreatesCoexist(p: Problem, a: Endpoint, b: Endpoint)
    requires p.Wf() && p.Missing(a) && p.Missing(b) && a != b && GroupOf(a) == GroupOf(b)
    ensures Coexist(a.recordType, b.recordType)
  {
    NoTransition(p, GroupOf(a));
    DesiredInMember(p);
    if a.recordType == CNAME { CnameDesiredAlone(p, GroupOf(a), a); }
    if b.recordType == CNAME { CnameDesiredAlone(p, GroupOf(a), b); }
  }

  ghost predicate Writing(p: Problem, op: Operation) {
    (op.Create? || op.Update? || op.Replace? || op.Deactivate?) && p.Count(op) > 0
  }

  lemma RowTypeKept(p: Problem, a: Operation, b: Operation)
    requires p.Wf() && Writing(p, a) && Writing(p, b) && !b.Create? && GroupOf(a.desired) == GroupOf(b.desired)
    requires multiset(p.current)[b.current] == 1
    requires a.Create? || a.current != b.current
    ensures b.desired.recordType == b.current.recordType
  {
    Mutation(p, b);
    TypeKept(p, b);
    OwnedInMember(p, GroupOf(b.current));
    if !a.Create? {
      Mutation(p, a);
      assert a.current in p.OwnedIn(GroupOf(b.current));
    }
  }

  lemma WriteThenMutation(p: Problem, rows: Rows, a: Operation, b: Operation)
    requires p.Wf() && Lists(p.current, rows) && CnameAlone(rows)
    requires Writing(p, a) && Writing(p, b) && !b.Create? && GroupOf(a.desired) == GroupOf(b.desired)
    requires a.Create? || a.current.providerID != b.current.providerID
    ensures Coexist(a.desired.recordType, b.desired.recordType)
  {
    Mutation(p, b);
    ListsDistinct(p.current, rows);
    RowTypeKept(p, a, b);
    WriteCoexists(p, rows, a, b.current);
  }

  /** Two writes to different rows of one name coexist. */
  lemma WritesCoexist(p: Problem, rows: Rows, a: Operation, b: Operation)
    requires p.Wf() && Lists(p.current, rows) && CnameAlone(rows)
    requires Writing(p, a) && Writing(p, b) && a != b && GroupOf(a.desired) == GroupOf(b.desired)
    requires a.Create? || b.Create? || a.current.providerID != b.current.providerID
    ensures Coexist(a.desired.recordType, b.desired.recordType)
  {
    if a.Create? && b.Create? {
      CreatesCoexist(p, a.desired, b.desired);
    } else if b.Create? {
      WriteThenMutation(p, rows, b, a);
    } else {
      WriteThenMutation(p, rows, a, b);
    }
  }

  /** Two rows of one name, after any run. */
  lemma RowsCoexist(p: Problem, rows: Rows, steps: seq<Step>, i: string, j: string)
    requires Run(p, rows, steps) && CnameAlone(rows)
    requires var r := ApplyAll(rows, steps, p.owner); i in r && j in r && i != j && GroupOf(r[i]) == GroupOf(r[j])
    ensures ApplyAll(rows, steps, p.owner)[i].recordType != CNAME
  {
    RunIsDisciplined(p, rows, steps);
    var n := |steps|;
    Provenance(rows, steps, p.owner, n, i);
    Provenance(rows, steps, p.owner, n, j);
    var r := ApplyAll(rows, steps, p.owner);
    if Mutated(steps, n, i) || i !in rows || r[i] != rows[i] {
      var k :| k < n && Wrote(steps, k, i) && r[i] == Written(steps[k].op.desired, p.owner, i);
      if Mutated(steps, n, j) || j !in rows || r[j] != rows[j] {
        var m :| m < n && Wrote(steps, m, j) && r[j] == Written(steps[m].op.desired, p.owner, j);
        WritesCoexist(p, rows, steps[k].op, steps[m].op);
      } else {
        WriteCoexists(p, rows, steps[k].op, rows[j]);
      }
    } else if Mutated(steps, n, j) || j !in rows || r[j] != rows[j] {
      var m :| m < n && Wrote(steps, m, j) && r[j] == Written(steps[m].op.desired, p.owner, j);
      WriteCoexists(p, rows, steps[m].op, rows[i]);
    }
  }

  /** If a CNAME stood alone at every name, it still does after any operations of the plan succeeded, in any order. */
  lemma CnameStaysAlone(p: Problem, rows: Rows, steps: seq<Step>)
    requires Run(p, rows, steps) && CnameAlone(rows)
    ensures CnameAlone(ApplyAll(rows, steps, p.owner))
  {
    var r := ApplyAll(rows, steps, p.owner);
    forall i, j | i in r && j in r && i != j && GroupOf(r[i]) == GroupOf(r[j]) ensures r[i].recordType != CNAME {
      RowsCoexist(p, rows, steps, i, j);
    }
  }

  // ---- Foreign rows never change --------------------------------------------------------

  /** Rows of other owners are exactly the same after any run. */
  lemma ForeignRowsKept(p: Problem, rows: Rows, steps: seq<Step>, e: Endpoint)
    requires Run(p, rows, steps) && !OwnedBy(e, p.owner)
    ensures var r := ApplyAll(rows, steps, p.owner);
            (e.providerID in rows && rows[e.providerID] == e) <==> (e.providerID in r && r[e.providerID] == e)
  {
    RunIsDisciplined(p, rows, steps);
    var n, id := |steps|, e.providerID;
    if id in rows && rows[id] == e {
      forall i | 0 <= i < n && steps[i].op.Mutates() ensures steps[i].Row() != id { Mutation(p, steps[i].op); }
      Untouched(rows, steps, p.owner, n, id);
    } else if id in After(rows, steps, p.owner, n) {
      Provenance(rows, steps, p.owner, n, id);
    }
  }

  // ---- A desired name never goes dark ---------------------------------------------------

  lemma KeptNotDeleted(p: Problem, d: Endpoint, s: Endpoint)
    requires p.Wf() && p.Keeps(d, s) && multiset(p.current)[s] <= 1
    ensures s in p.current && GroupOf(s) == GroupOf(d) && p.Count(Delete(s)) == 0
  {
    KeptRow(p, d, s);
    assert p.StaleCount(s) == 0 && !p.Cleans(s);
    NotCleanedNotDeleted(p, s);
  }

  lemma NotCleanedNotDeleted(p: Problem, s: Endpoint)
    requires !p.Cleans(s)
    ensures p.Count(Delete(s)) == 0
  {
  }

  lemma PairedNotCleaned(p: Problem, d: Endpoint, s: Endpoint)
    requires p.Paired(d, s)
    ensures !p.Cleans(s)
  {
  }

  lemma PairedNotDeleted(p: Problem, d: Endpoint, s: Endpoint)
    requires p.Paired(d, s)
    ensures s in p.current && GroupOf(s) == GroupOf(d) && p.Count(Delete(s)) == 0
  {
    SurplusRow(p, s);
    PairedNotCleaned(p, d, s);
    NotCleanedNotDeleted(p, s);
  }

  /** At a name under no rule, a desired record without foreign rows keeps or replaces one of its own. */
  lemma OwnSurvivor(p: Problem, d: Endpoint) returns (s: Endpoint)
    requires p.Wf() && p.Clean(d) && !p.Creates(d)
    requires forall e {:trigger multiset(p.current)[e]} :: multiset(p.current)[e] <= 1
    ensures s in p.current && GroupOf(s) == GroupOf(d) && p.Count(Delete(s)) == 0
  {
    if p.Copies(KeyOf(d)) != [] {
      s := Head(p.Copies(KeyOf(d)));
      KeptNotDeleted(p, d, s);
    } else {
      s :| p.Paired(d, s);
      PairedNotDeleted(p, d, s);
    }
  }

  /** Every desired name that has a row has one that the plan does not delete. */
  lemma Survivor(p: Problem, rows: Rows, d: Endpoint, e: Endpoint) returns (s: Endpoint)
    requires p.Wf() && Lists(p.current, rows) && p.Desires(d) && e in p.current && GroupOf(e) == GroupOf(d)
    ensures s in p.current && GroupOf(s) == GroupOf(d) && p.Count(Delete(s)) == 0
  {
    ListsDistinct(p.current, rows);
    s := e;
    if p.Count(Delete(e)) > 0 {
      SurplusRow(p, e);
      assert !p.Pending(GroupOf(e));
      if p.UnownedOf(LogicalOf(d)) != [] {
        s := p.UnownedOf(LogicalOf(d))[0];
        UnownedOfMember(p, LogicalOf(d));
      } else {
        s := OwnSurvivor(p, d);
      }
    }
  }

  /** A mutation of a row that the plan does not delete keeps the row at its name. */
  lemma KeepsName(p: Problem, rows: Rows, op: Operation, s: Endpoint)
    requires p.Wf() && Lists(p.current, rows) && op.Mutates() && p.Count(op) > 0
    requires s in p.current && p.Count(Delete(s)) == 0 && op.current.providerID == s.providerID
    ensures !op.Delete? && GroupOf(op.desired) == GroupOf(s)
  {
    Mutation(p, op);
    ListsDistinct(p.current, rows);
  }

  lemma RowSurvives(p: Problem, rows: Rows, steps: seq<Step>, s: Endpoint)
    requires Run(p, rows, steps) && s in p.current && p.Count(Delete(s)) == 0
    ensures AtName(ApplyAll(rows, steps, p.owner), s.providerID, GroupOf(s))
  {
    RunIsDisciplined(p, rows, steps);
    forall i | 0 <= i < |steps| && steps[i].op.Mutates() && steps[i].Row() == s.providerID
      ensures steps[i].Writes() && GroupOf(Written(steps[i].op.desired, p.owner, s.providerID)) == GroupOf(s)
    {
      KeepsName(p, rows, steps[i].op, s);
    }
    StaysGood(rows, steps, p.owner, |steps|, s.providerID, (e: Endpoint) => GroupOf(e) == GroupOf(s));
  }

  /** Whatever operations succeed, a desired name that had a row keeps at least one row. */
  lemma NeverDark(p: Problem, rows: Rows, steps: seq<Step>, d: Endpoint, id: string)
    requires Run(p, rows, steps) && p.Desires(d) && AtName(rows, id, GroupOf(d))
    ensures exists j :: AtName(ApplyAll(rows, steps, p.owner), j, GroupOf(d))
  {
    assert rows[id].providerID == id;
    var s := Survivor(p, rows, d, rows[id]);
    RowSurvives(p, rows, steps, s);
  }

  // ---- A name with a single desired record ----------------------------------------------

  /** Without a CNAME among its desired records and its rows, a name is under no name-level rule. */
  lemma AddressesAreFree(p: Problem, g: Group)
    requires forall d :: d in p.DesiredIn(g) ==> d.recordType != CNAME
    requires forall e :: e in p.current && GroupOf(e) == g ==> e.recordType != CNAME
    ensures p.Resolve(g).Clear?
  {
    OwnedInMember(p, g);
    assert p.Clashing(g) == {};
    assert p.NameConflict(g).None?;
    assert p.Transition(g).None?;
  }

  /** A single desired record meets no name-level conflict where every row has its type. */
  lemma SingleIsFree(p: Problem, d: Endpoint)
    requires p.Wf() && (d.recordType == CNAME ==> |d.targets| <= 1) && p.DesiredIn(GroupOf(d)) == {d}
    requires forall e :: e in p.current && GroupOf(e) == GroupOf(d) ==> KeyOf(e) == KeyOf(d)
    ensures p.Resolve(GroupOf(d)).Clear? && p.Desires(d)
  {
    var g := GroupOf(d);
    DesiredInMember(p);
    OwnedInMember(p, g);
    assert d in p.DesiredIn(g);
    assert p.Clashing(g) == {};
    assert p.NameConflict(g).None?;
    assert p.Transition(g).None?;
  }

  lemma NoUnowned(p: Problem, l: Logical)
    requires forall e :: e in p.current && LogicalOf(e) == l ==> OwnedBy(e, p.owner)
    ensures p.UnownedOf(l) == []
  {
    UnownedOfMember(p, l);
    EmptyOrFirst(p.UnownedOf(l));
  }

  lemma NothingListed(p: Problem, d: Endpoint)
    requires p.Wf() && p.Desires(d) && p.Resolve(GroupOf(d)).Clear? && forall e :: e in p.current ==>
      GroupOf(e) != GroupOf(d)
    ensures p.Creates(d)
  {
    NoUnowned(p, LogicalOf(d));
    CopiesMember(p, KeyOf(d));
    EmptyOrFirst(p.Copies(KeyOf(d)));
    assert p.Missing(d);
    forall x ensures !p.Paired(d, x) { if p.Paired(d, x) { SurplusRow(p, x); } }
  }

  lemma DesiredAtName(p: Problem, d: Endpoint, x: Endpoint)
    requires p.Wf() && p.DesiredIn(GroupOf(d)) == {d} && p.Desires(x) && GroupOf(x) == GroupOf(d)
    ensures x == d
  {
    DesiredInMember(p);
    assert x in p.DesiredIn(GroupOf(d));
  }

  /** An operation about the name is about d, or mutates an owned row of the name. */
  lemma OperationAtName(p: Problem, d: Endpoint, o: Operation)
    requires p.Wf() && p.DesiredIn(GroupOf(d)) == {d} && p.Resolve(GroupOf(d)).Clear?
    requires p.Count(o) > 0 && o.Name() == GroupOf(d)
    ensures o.Mutates() ==> o.current in p.current && GroupOf(o.current) == GroupOf(d) && OwnedBy(o.current, p.owner)
    ensures o.Create? ==> o.desired == d && p.Missing(d)
    ensures o.Conflict? ==> p.Foreign(d) && o == Conflict(d, Some(p.UnownedOf(LogicalOf(d))[0]), LogicalUnowned)
  {
    if o.Mutates() { Mutation(p, o); } else { DesiredAtName(p, d, o.desired); }
  }
}
