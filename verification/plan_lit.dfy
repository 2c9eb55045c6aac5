/** When a name keeps an enabled row through every pass of the apply loop, decided on the records and rows alone. */
module PlanLit {
  import opened Text
  import opened Dns
  import opened PlanSpec
  import opened PlanNames
  import opened PlanRecords
  import opened PlanRows
  import opened PlanSafety
  import opened PlanExact
  import opened Planner
  import PlanConvergence
  import Device = DeviceApply

  predicate EnabledAt(g: Group, e: Endpoint) { GroupOf(e) == g && !e.disabled }

  ghost predicate Lit(rows: Rows, g: Group) { exists id :: AtName(rows, id, g) && !rows[id].disabled }

  /** No record source builds a disabled record. */
  ghost predicate DesiredEnabled(p: Problem, g: Group) {
    forall d :: p.Desires(d) && GroupOf(d) == g ==> !d.disabled
  }

  // ---- Runs in which cleanup comes last -------------------------------------------------

  /** The plan holds this create, update or replacement at the name. */
  ghost predicate Prerequisite(p: Problem, g: Group, op: Operation) {
    p.Count(op) > 0 && Device.IsPrerequisite(op) && GroupOf(op.desired) == g
  }

  ghost predicate CleansUp(g: Group, op: Operation) { IsCleanup(op) && GroupOf(op.current) == g }

  /** The operation is among the first n steps. */
  ghost predicate Ran(steps: seq<Step>, n: int, op: Operation) {
    exists i :: 0 <= i < n <= |steps| && steps[i].op == op
  }

  /** A row is cleaned up only after all creates, updates and replacements of its name. */
  ghost predicate CleanupLast(p: Problem, steps: seq<Step>) {
    forall j, g, op :: 0 <= j < |steps| && CleansUp(g, steps[j].op) && Prerequisite(p, g, op) ==> Ran(steps, j, op)
  }

  /** The operation removes or disables the row. */
  ghost predicate Darkens(p: Problem, e: Endpoint, op: Operation) {
    p.Count(op) > 0 && op.Mutates() && op.current == e && (op.Delete? || op.desired.disabled)
  }

  /** Where all desired records of the name are enabled, an enabled row is darkened exactly when it is cleaned up. */
  lemma DarkenedByCleanup(p: Problem, rows: Rows, e: Endpoint)
    requires p.Wf() && Lists(p.current, rows) && e in p.current && !e.disabled && DesiredEnabled(p, GroupOf(e))
    ensures (exists op :: Darkens(p, e, op)) <==> p.cleanup != CleanupKeep && p.Cleans(e)
  {
    if op :| Darkens(p, e, op) { DarkenedIsCleaned(p, rows, e, op); }
    if p.cleanup != CleanupKeep && p.Cleans(e) { var op := CleanedIsDarkened(p, e); }
  }

  lemma CleanedIsDarkened(p: Problem, e: Endpoint) returns (op: Operation)
    requires p.cleanup != CleanupKeep && p.Cleans(e) && !e.disabled
    ensures Darkens(p, e, op)
  {
    op := if p.cleanup == CleanupDelete then Delete(e) else Deactivate(e.(disabled := true), e);
  }

  lemma DarkenedIsCleaned(p: Problem, rows: Rows, e: Endpoint, op: Operation)
    requires p.Wf() && Lists(p.current, rows) && e in p.current && Darkens(p, e, op)
    requires DesiredEnabled(p, GroupOf(e))
    ensures p.cleanup != CleanupKeep && p.Cleans(e) && IsCleanup(op)
  {
    ListsDistinct(p.current, rows);
    Role(p, op);
    Mutation(p, op);
  }

  /** An enabled row that no step darkens keeps the name lit. */
  lemma ShineLasts(p: Problem, rows: Rows, steps: seq<Step>, e: Endpoint)
    requires Run(p, rows, steps) && e in p.current && !e.disabled
    requires forall i :: 0 <= i < |steps| ==> !Darkens(p, e, steps[i].op)
    ensures Lit(ApplyAll(rows, steps, p.owner), GroupOf(e))
  {
    RunIsDisciplined(p, rows, steps);
    var id, g := e.providerID, GroupOf(e);
    forall i | 0 <= i < |steps| && steps[i].op.Mutates() && steps[i].Row() == id
      ensures steps[i].Writes() && EnabledAt(g, Written(steps[i].op.desired, p.owner, id))
    {
      ShineKept(p, rows, e, steps[i].op);
    }
    StaysGood(rows, steps, p.owner, |steps|, id, (x: Endpoint) => EnabledAt(g, x));
    assert AtName(ApplyAll(rows, steps, p.owner), id, g);
  }

  lemma ShineKept(p: Problem, rows: Rows, e: Endpoint, op: Operation)
    requires p.Wf() && Lists(p.current, rows) && e in p.current && !Darkens(p, e, op)
    requires p.Count(op) > 0 && op.Mutates() && op.current.providerID == e.providerID
    ensures !op.Delete? && EnabledAt(GroupOf(e), op.desired)
  {
    Mutation(p, op);
    ListsDistinct(p.current, rows);
  }

  /** An enabled record that a step has written keeps the name lit. */
  lemma WrittenShines(p: Problem, rows: Rows, steps: seq<Step>, k: nat)
    requires Run(p, rows, steps) && k < |steps| && steps[k].Writes() && !steps[k].op.desired.disabled
    ensures Lit(ApplyAll(rows, steps, p.owner), GroupOf(steps[k].op.desired))
  {
    RunIsDisciplined(p, rows, steps);
    WrittenStays(rows, steps, p.owner, k, |steps|);
    assert AtName(ApplyAll(rows, steps, p.owner), steps[k].Row(), GroupOf(steps[k].op.desired));
  }

  // ---- The names that go dark -----------------------------------------------------------

  /** Cleanup is on, foreign rows stop every desired record of the name, and each enabled row is the
      controller's, in cleanup scope and of a type that is not desired. */
  ghost predicate GoesDark(p: Problem, g: Group) {
    && p.cleanup != CleanupKeep && NoCnameRule(p, g)
    && (forall d :: p.Desires(d) && GroupOf(d) == g ==> p.UnownedOf(LogicalOf(d)) != [])
    && (forall e :: e in p.current && EnabledAt(g, e) ==>
          && OwnedBy(e, p.owner) && p.allowed(e)
          && forall d :: p.Desires(d) ==> LogicalOf(d) != LogicalOf(e))
  }

  /** Every enabled row of the name is cleaned up. */
  ghost predicate AllCleaned(p: Problem, g: Group) { forall x :: x in p.current && EnabledAt(g, x) ==> p.Cleans(x) }

  /** At such a name nothing is written and every enabled row is cleaned up. */
  lemma DarkPlan(p: Problem, rows: Rows, g: Group)
    requires p.Wf() && Lists(p.current, rows) && GoesDark(p, g)
    ensures forall op :: !Prerequisite(p, g, op)
    ensures AllCleaned(p, g)
  {
    ClearExactly(p, g);
    ListsDistinct(p.current, rows);
    forall op ensures !Prerequisite(p, g, op) {}
    forall e | e in p.current && EnabledAt(g, e) ensures p.Cleans(e) {
      assert multiset(p.current)[e] == 1;
      assert KeyOf(e) in p.byKey ==> p.Desires(p.byKey[KeyOf(e)]);
      assert p.StaleCount(e) == 1;
    }
  }

  lemma AllStoppedGoesDark(p: Problem, g: Group, e: Endpoint)
    requires p.Wf() && p.cleanup != CleanupKeep && e in p.current && EnabledAt(g, e) && AllCleaned(p, g)
    requires forall d :: p.Desires(d) && GroupOf(d) == g ==> p.UnownedOf(LogicalOf(d)) != []
    ensures GoesDark(p, g)
  {
    SurplusRow(p, e);
    ClearExactly(p, g);
    forall x | x in p.current && EnabledAt(g, x)
      ensures OwnedBy(x, p.owner) && p.allowed(x) && forall d :: p.Desires(d) ==> LogicalOf(d) != LogicalOf(x)
    {
      SurplusRow(p, x);
      forall d | p.Desires(d) ensures LogicalOf(d) != LogicalOf(x) {
        assert LogicalOf(d) == LogicalOf(x) ==> p.Foreign(d) && GroupOf(d) == g;
      }
    }
  }

  /** The disabled row kept for an enabled record is updated. */
  lemma KeptIsUpdated(p: Problem, rows: Rows, g: Group, d: Endpoint)
    requires p.Wf() && Lists(p.current, rows) && AllCleaned(p, g) && DesiredEnabled(p, g)
    requires p.Clean(d) && GroupOf(d) == g && p.Copies(KeyOf(d)) != []
    ensures Prerequisite(p, g, Update(d, Head(p.Copies(KeyOf(d)))))
  {
    var c := Head(p.Copies(KeyOf(d)));
    ListsDistinct(p.current, rows);
    KeptRow(p, d, c);
    assert multiset(p.current)[c] == 1 && !p.Cleans(c);
  }

  /** Some desired record of the name is free of foreign rows. */
  lemma FreeRecord(p: Problem, g: Group, e: Endpoint) returns (d: Endpoint)
    requires p.Wf() && !GoesDark(p, g)
    requires p.cleanup != CleanupKeep && e in p.current && EnabledAt(g, e) && AllCleaned(p, g)
    ensures p.Clean(d) && GroupOf(d) == g
  {
    if forall d :: p.Desires(d) && GroupOf(d) == g ==> p.UnownedOf(LogicalOf(d)) != [] {
      AllStoppedGoesDark(p, g, e);
      assert false;
    }
    d :| p.Desires(d) && GroupOf(d) == g && p.UnownedOf(LogicalOf(d)) == [];
    SurplusRow(p, e);
  }

  lemma MissingIsReplaced(p: Problem, d: Endpoint) returns (c: Endpoint)
    requires p.Missing(d) && !p.Pending(GroupOf(d))
    ensures Prerequisite(p, GroupOf(d), Replace(d, c, TargetChanged))
  {
    assert !p.Creates(d);
    c :| p.Paired(d, c);
  }

  /** If the enabled rows are all cleaned up at a name that does not go dark, the plan writes the name. */
  lemma WrittenBefore(p: Problem, rows: Rows, g: Group, e: Endpoint) returns (op: Operation)
    requires p.Wf() && Lists(p.current, rows) && !GoesDark(p, g) && DesiredEnabled(p, g)
    requires p.cleanup != CleanupKeep && e in p.current && EnabledAt(g, e) && AllCleaned(p, g)
    ensures Prerequisite(p, g, op) && p.Desires(op.desired)
  {
    var d := FreeRecord(p, g, e);
    if p.Copies(KeyOf(d)) != [] {
      KeptIsUpdated(p, rows, g, d);
      op := Update(d, Head(p.Copies(KeyOf(d))));
    } else {
      assert p.Cleans(e);
      var c := MissingIsReplaced(p, d);
      op := Replace(d, c, TargetChanged);
    }
  }

  /** A run that darkens one row of the name leaves another enabled one. */
  lemma AnotherShines(p: Problem, rows: Rows, steps: seq<Step>, g: Group, e: Endpoint, j: nat)
    requires Run(p, rows, steps) && CleanupLast(p, steps) && DesiredEnabled(p, g) && !GoesDark(p, g)
    requires e in p.current && EnabledAt(g, e) && j < |steps| && Darkens(p, e, steps[j].op)
    ensures Lit(ApplyAll(rows, steps, p.owner), g)
  {
    DarkenedIsCleaned(p, rows, e, steps[j].op);
    if x :| x in p.current && EnabledAt(g, x) && !p.Cleans(x) {
      DarkenedByCleanup(p, rows, x);
      ShineLasts(p, rows, steps, x);
    } else {
      var op := WrittenBefore(p, rows, g, e);
      assert CleansUp(g, steps[j].op) && Ran(steps, j, op);
      var i :| 0 <= i < j && steps[i].op == op;
      WrittenShines(p, rows, steps, i);
    }
  }

  /** Elsewhere every run with cleanup last, whatever part of the plan it holds, leaves an enabled row. */
  lemma OrderedRunStaysLit(p: Problem, rows: Rows, steps: seq<Step>, g: Group)
    requires Run(p, rows, steps) && CleanupLast(p, steps) && DesiredEnabled(p, g) && Lit(rows, g) && !GoesDark(p, g)
    ensures Lit(ApplyAll(rows, steps, p.owner), g)
  {
    var id :| AtName(rows, id, g) && !rows[id].disabled;
    var e := rows[id];
    assert e in p.current && EnabledAt(g, e);
    if j :| 0 <= j < |steps| && Darkens(p, e, steps[j].op) { AnotherShines(p, rows, steps, g, e, j); }
    else { ShineLasts(p, rows, steps, e); }
  }

  /** Cleanups of one name that reach every enabled row of it. */
  ghost predicate DarkSteps(p: Problem, g: Group, steps: seq<Step>) {
    && (forall i :: 0 <= i < |steps| ==> CleansUp(g, steps[i].op) && p.Count(steps[i].op) > 0)
    && (forall i, j :: 0 <= i < j < |steps| ==> steps[i].op != steps[j].op)
    && (forall e :: e in p.current && EnabledAt(g, e) ==> Darkened(steps, e))
  }

  ghost predicate Darkened(steps: seq<Step>, e: Endpoint) {
    exists i :: 0 <= i < |steps| && steps[i].op.Mutates() && steps[i].op.current == e
  }

  lemma OriginalDarkened(p: Problem, rows: Rows, g: Group, steps: seq<Step>, id: string)
    requires ValidRows(rows) && Lists(p.current, rows) && DarkSteps(p, g, steps)
    requires AtName(rows, id, g) && !rows[id].disabled
    ensures Mutated(steps, |steps|, id)
  {
    assert rows[id] in p.current && Darkened(steps, rows[id]);
    var i :| 0 <= i < |steps| && steps[i].op.Mutates() && steps[i].op.current == rows[id];
    assert steps[i].Row() == id;
  }

  lemma CleanupWritesDisabled(p: Problem, g: Group, op: Operation)
    requires CleansUp(g, op) && p.Count(op) > 0
    ensures op.Deactivate? ==> op.desired.disabled
  {
  }

  /** After all of them no enabled row of the name is left. */
  lemma DarkStepsDarken(p: Problem, rows: Rows, g: Group, steps: seq<Step>)
    requires Run(p, rows, steps) && DarkSteps(p, g, steps)
    ensures !Lit(ApplyAll(rows, steps, p.owner), g)
  {
    RunIsDisciplined(p, rows, steps);
    var r := ApplyAll(rows, steps, p.owner);
    forall id | AtName(r, id, g) ensures r[id].disabled {
      Provenance(rows, steps, p.owner, |steps|, id);
      if k :| k < |steps| && Wrote(steps, k, id) && r[id] == Written(steps[k].op.desired, p.owner, id) {
        CleanupWritesDisabled(p, g, steps[k].op);
      } else if !rows[id].disabled {
        OriginalDarkened(p, rows, g, steps, id);
      }
    }
  }

  // ---- Passes of the apply loop ---------------------------------------------------------

  /** The plan in apply order. */
  ghost predicate Planned(p: Problem, ops: seq<Operation>) {
    && (forall o: Operation {:trigger multiset(ops)[o]} :: multiset(ops)[o] == p.Count(o))
    && SortedBy(ops, AppliedBefore)
  }

  /** One live pass: the answers, the IDs given to new rows, and the failed requests that took effect all the same. */
  datatype Pass = Pass(world: Device.World, ids: nat -> string, landed: nat -> bool)

  predicate Takes(ops: seq<Operation>, x: Pass, j: nat)
    requires j < |ops|
  {
    var result := Device.Recorded(ops, false, x.world, j).result;
    result == Device.Succeeded || (result == Device.Failed && x.landed(j))
  }

  /** The chosen ones of the first n operations, in order. */
  function Chosen(ops: seq<Operation>, takes: nat -> bool, ids: nat -> string, n: nat): seq<Step>
    requires n <= |ops|
  {
    if n == 0 then []
    else if takes(n - 1) then Chosen(ops, takes, ids, n - 1) + [Step(ops[n - 1], ids(n - 1))]
    else Chosen(ops, takes, ids, n - 1)
  }

  /** The operations that took effect. */
  function Effects(ops: seq<Operation>, x: Pass): seq<Step> {
    Chosen(ops, Taken(ops, x), x.ids, |ops|)
  }

  function Taken(ops: seq<Operation>, x: Pass): nat -> bool { (j: nat) => j < |ops| && Takes(ops, x, j) }

  ghost predicate ChosenAt(ops: seq<Operation>, takes: nat -> bool, n: int, op: Operation) {
    exists k :: 0 <= k < n <= |ops| && takes(k) && ops[k] == op
  }

  lemma {:induction false} ChosenFrom(ops: seq<Operation>, takes: nat -> bool, ids: nat -> string, n: nat, i: nat)
    requires n <= |ops| && i < |Chosen(ops, takes, ids, n)|
    ensures ChosenAt(ops, takes, n, Chosen(ops, takes, ids, n)[i].op)
  {
    assert n > 0;
    if takes(n - 1) && i == |Chosen(ops, takes, ids, n - 1)| {
      assert ops[n - 1] == Chosen(ops, takes, ids, n)[i].op;
    } else {
      ChosenFrom(ops, takes, ids, n - 1, i);
      var k :| 0 <= k < n - 1 && takes(k) && ops[k] == Chosen(ops, takes, ids, n)[i].op;
    }
  }

  lemma {:induction false} ChosenRan(ops: seq<Operation>, takes: nat -> bool, ids: nat -> string, n: nat, op: Operation)
    requires n <= |ops| && ChosenAt(ops, takes, n, op)
    ensures Ran(Chosen(ops, takes, ids, n), |Chosen(ops, takes, ids, n)|, op)
  {
    var e := Chosen(ops, takes, ids, n);
    if takes(n - 1) && ops[n - 1] == op {
      assert e[|e| - 1].op == op;
    } else {
      ChosenRan(ops, takes, ids, n - 1, op);
      var before := Chosen(ops, takes, ids, n - 1);
      var i :| 0 <= i < |before| && before[i].op == op;
      assert e[i] == before[i];
    }
  }

  lemma {:induction false} ChosenOnce(ops: seq<Operation>, takes: nat -> bool, ids: nat -> string, n: nat,
      i: nat, j: nat)
    requires n <= |ops| && Distinct(ops) && i < j < |Chosen(ops, takes, ids, n)|
    ensures Chosen(ops, takes, ids, n)[i].op != Chosen(ops, takes, ids, n)[j].op
  {
    if takes(n - 1) && j == |Chosen(ops, takes, ids, n - 1)| {
      ChosenFrom(ops, takes, ids, n - 1, i);
    } else {
      ChosenOnce(ops, takes, ids, n - 1, i, j);
    }
  }

  /** If op is chosen before every occurrence of the step's operation, it runs before the step. */
  lemma {:induction false} ChosenOrder(ops: seq<Operation>, takes: nat -> bool, ids: nat -> string, n: nat, j: nat,
      op: Operation)
    requires n <= |ops| && j < |Chosen(ops, takes, ids, n)|
    requires forall k: nat :: k < n && takes(k) && ops[k] == Chosen(ops, takes, ids, n)[j].op ==>
      ChosenAt(ops, takes, k, op)
    ensures Ran(Chosen(ops, takes, ids, n), j, op)
    decreases n
  {
    assert n > 0;
    var before, e := Chosen(ops, takes, ids, n - 1), Chosen(ops, takes, ids, n);
    if takes(n - 1) && j == |before| {
      ChosenRan(ops, takes, ids, n - 1, op);
    } else {
      ChosenOrder(ops, takes, ids, n - 1, j, op);
    }
    var i :| 0 <= i < j && before[i].op == op;
    assert e[i] == before[i];
  }

  lemma PlannedDistinct(p: Problem, rows: Rows, ops: seq<Operation>)
    requires p.Wf() && Lists(p.current, rows) && Planned(p, ops)
    ensures Distinct(ops) && forall op :: op in ops <==> p.Count(op) > 0
  {
    forall i, j | 0 <= i < j < |ops| ensures ops[i] != ops[j] {
      PlanIsASet(p, rows, ops[i]);
      assert multiset(ops)[ops[i]] <= 1;
      assert ops == ops[..j] + ops[j..] && ops[i] in ops[..j] && ops[j] in ops[j..];
    }
    forall op ensures op in ops <==> p.Count(op) > 0 { assert op in ops <==> multiset(ops)[op] > 0; }
  }

  /** When a cleanup takes effect, every prerequisite of its name already has. */
  lemma PrerequisiteTaken(p: Problem, ops: seq<Operation>, x: Pass, k: nat, op: Operation) returns (i: nat)
    requires k < |ops| && Planned(p, ops) && Takes(ops, x, k) && op in ops
    requires IsCleanup(ops[k]) && Prerequisite(p, GroupOf(ops[k].current), op)
    ensures i < k && Takes(ops, x, i) && ops[i] == op
  {
    i :| 0 <= i < |ops| && ops[i] == op;
    Device.CleanupNeedsAll(ops, false, x.world, i, k);
  }

  lemma CleanupTakenLast(p: Problem, ops: seq<Operation>, x: Pass, j: nat, g: Group, op: Operation)
    requires Planned(p, ops) && j < |Effects(ops, x)| && CleansUp(g, Effects(ops, x)[j].op)
    requires Prerequisite(p, g, op) && op in ops
    ensures Ran(Effects(ops, x), j, op)
  {
    var takes := Taken(ops, x);
    forall k: nat | k < |ops| && takes(k) && ops[k] == Effects(ops, x)[j].op ensures ChosenAt(ops, takes, k, op) {
      var i := PrerequisiteTaken(p, ops, x, k, op);
      assert takes(i);
    }
    ChosenOrder(ops, takes, x.ids, |ops|, j, op);
  }

  /** What a pass of the loop does is such a run of the plan. */
  lemma PassIsOrderedRun(p: Problem, rows: Rows, ops: seq<Operation>, x: Pass)
    requires p.Wf() && ValidRows(rows) && Lists(p.current, rows) && Planned(p, ops)
    requires FreshIds(rows, Effects(ops, x), p.owner)
    ensures Run(p, rows, Effects(ops, x)) && CleanupLast(p, Effects(ops, x))
  {
    PlannedDistinct(p, rows, ops);
    var takes, e := Taken(ops, x), Effects(ops, x);
    forall j, g, op | 0 <= j < |e| && CleansUp(g, e[j].op) && Prerequisite(p, g, op) ensures Ran(e, j, op) {
      CleanupTakenLast(p, ops, x, j, g, op);
    }
    forall i | 0 <= i < |e| ensures p.Count(e[i].op) > 0 { ChosenFrom(ops, takes, x.ids, |ops|, i); }
    forall i, j | 0 <= i < j < |e| ensures e[i].op != e[j].op { ChosenOnce(ops, takes, x.ids, |ops|, i, j); }
  }

  /** Whatever fails, and wherever a pass ends, an enabled row of the name is left. */
  ghost predicate StaysLit(p: Problem, ops: seq<Operation>, rows: Rows, g: Group) {
    forall x :: FreshIds(rows, Effects(ops, x), p.owner) ==>
      Lit(ApplyAll(rows, Effects(ops, x), p.owner), g)
  }

  /** The pass in which the cleanups of the name succeed and all else fails. */
  function DarkPass(ops: seq<Operation>, g: Group): Pass {
    var fails := (i: nat) => i < |ops| && !(IsCleanup(ops[i]) && GroupOf(ops[i].current) == g);
    Pass(Device.World(i => false, i => false, fails), i => "", i => false)
  }

  lemma DarkPassTakes(ops: seq<Operation>, g: Group, k: nat)
    requires k < |ops| && forall i :: 0 <= i < |ops| && Device.IsPrerequisite(ops[i]) ==> GroupOf(ops[i].desired) != g
    ensures Takes(ops, DarkPass(ops, g), k) <==> CleansUp(g, ops[k])
  {
    assert Device.Reached(ops, false, DarkPass(ops, g).world, k);
  }

  lemma CleanupPlanned(p: Problem, ops: seq<Operation>, g: Group, r: Endpoint) returns (k: nat)
    requires p.cleanup != CleanupKeep && p.Cleans(r) && EnabledAt(g, r) && forall op :: op in ops <==> p.Count(op) > 0
    ensures k < |ops| && CleansUp(g, ops[k]) && ops[k].current == r
  {
    var op := if p.cleanup == CleanupDelete then Delete(r) else Deactivate(r.(disabled := true), r);
    assert p.Count(op) > 0;
    k :| 0 <= k < |ops| && ops[k] == op;
  }

  lemma DarkPassDarkens(p: Problem, rows: Rows, ops: seq<Operation>, g: Group)
    requires p.Wf() && Lists(p.current, rows) && Planned(p, ops) && GoesDark(p, g)
    ensures DarkSteps(p, g, Effects(ops, DarkPass(ops, g)))
  {
    var x := DarkPass(ops, g);
    var takes := Taken(ops, x);
    var e := Chosen(ops, takes, x.ids, |ops|);
    PlannedDistinct(p, rows, ops);
    DarkPlan(p, rows, g);
    forall i | 0 <= i < |ops| && Device.IsPrerequisite(ops[i]) ensures GroupOf(ops[i].desired) != g {
      assert !Prerequisite(p, g, ops[i]);
    }
    forall k: nat | k < |ops| ensures takes(k) <==> CleansUp(g, ops[k]) { DarkPassTakes(ops, g, k); }
    forall i | 0 <= i < |e| ensures CleansUp(g, e[i].op) && p.Count(e[i].op) > 0 {
      ChosenFrom(ops, takes, x.ids, |ops|, i);
    }
    forall i, j | 0 <= i < j < |e| ensures e[i].op != e[j].op { ChosenOnce(ops, takes, x.ids, |ops|, i, j); }
    forall r | r in p.current && EnabledAt(g, r) ensures Darkened(e, r) {
      var k := CleanupPlanned(p, ops, g, r);
      assert takes(k);
      ChosenRan(ops, takes, x.ids, |ops|, ops[k]);
    }
  }

  /** The pass that is cancelled at once. */
  lemma NothingTaken(ops: seq<Operation>) returns (x: Pass)
    ensures Effects(ops, x) == []
  {
    x := Pass(Device.World(i => true, i => false, i => false), i => "", i => false);
    if Effects(ops, x) != [] {
      ChosenFrom(ops, Taken(ops, x), x.ids, |ops|, 0);
      assert Device.Stops(ops, false, x.world, 0);
    }
  }

  /** A name keeps an enabled row through every pass if and only if it has one and does not go dark. */
  lemma LitExactly(p: Problem, ops: seq<Operation>, rows: Rows, g: Group)
    requires p.Wf() && ValidRows(rows) && Lists(p.current, rows) && Planned(p, ops) && DesiredEnabled(p, g)
    ensures StaysLit(p, ops, rows, g) <==> Lit(rows, g) && !GoesDark(p, g)
  {
    if !Lit(rows, g) {
      var x := NothingTaken(ops);
      assert !Lit(ApplyAll(rows, Effects(ops, x), p.owner), g);
    } else if GoesDark(p, g) {
      DarkPassDarkens(p, rows, ops, g);
      PassIsOrderedRun(p, rows, ops, DarkPass(ops, g));
      DarkStepsDarken(p, rows, g, Effects(ops, DarkPass(ops, g)));
    } else {
      forall x | FreshIds(rows, Effects(ops, x), p.owner)
        ensures Lit(ApplyAll(rows, Effects(ops, x), p.owner), g)
      {
        PassIsOrderedRun(p, rows, ops, x);
        OrderedRunStaysLit(p, rows, Effects(ops, x), g);
      }
    }
  }

  // ---- A name that goes dark ------------------------------------------------------------

  /** A disabled foreign A row, the controller's enabled AAAA row, and an A record that is desired. */
  predicate Blocked(d: Endpoint, x: Endpoint, y: Endpoint, owner: string) {
    && d.recordType == A && LogicalOf(x) == LogicalOf(d) && !OwnedBy(x, owner) && x.disabled && !d.disabled
    && GroupOf(y) == GroupOf(d) && y.recordType == AAAA && OwnedBy(y, owner) && !y.disabled
    && HasId(x) && HasId(y) && x.providerID != y.providerID
  }

  function BlockedName(d: Endpoint, x: Endpoint, y: Endpoint, owner: string): Problem {
    PlanConvergence.NewRecord(d, owner).(current := [x, y])
  }

  lemma BlockedFacts(d: Endpoint, x: Endpoint, y: Endpoint, owner: string)
    requires Blocked(d, x, y, owner)
    ensures var p := BlockedName(d, x, y, owner);
            && p.Wf() && p.Resolve(GroupOf(d)).Clear? && p.UnownedOf(LogicalOf(d)) != []
            && (forall z :: p.Desires(z) <==> z == d)
  {
    var p := BlockedName(d, x, y, owner);
    PlanConvergence.NewRecordDesired(d, owner);
    DesiredInMember(p);
    AddressesAreFree(p, GroupOf(d));
    UnownedOfMember(p, LogicalOf(d));
    assert x in p.UnownedOf(LogicalOf(d));
  }

  lemma BlockedGoesDark(d: Endpoint, x: Endpoint, y: Endpoint, owner: string)
    requires Blocked(d, x, y, owner)
    ensures GoesDark(BlockedName(d, x, y, owner), GroupOf(d))
  {
    var p := BlockedName(d, x, y, owner);
    BlockedFacts(d, x, y, owner);
    ClearExactly(p, GroupOf(d));
    assert forall e :: e in p.current && EnabledAt(GroupOf(d), e) ==> e == y;
  }

  function BlockedRows(x: Endpoint, y: Endpoint): Rows { map[x.providerID := x, y.providerID := y] }

  lemma BlockedListed(d: Endpoint, x: Endpoint, y: Endpoint, owner: string)
    requires Blocked(d, x, y, owner)
    ensures Lists(BlockedName(d, x, y, owner).current, BlockedRows(x, y)) && ValidRows(BlockedRows(x, y))
    ensures Lit(BlockedRows(x, y), GroupOf(d))
  {
    assert AtName(BlockedRows(x, y), y.providerID, GroupOf(d));
  }

  function BlockedPlan(d: Endpoint, x: Endpoint, y: Endpoint): seq<Operation> {
    [Conflict(d, Some(x), LogicalUnowned), Delete(y)]
  }

  /** At a name that goes dark, rows are only cleaned up. */
  lemma DarkMutation(p: Problem, rows: Rows, op: Operation)
    requires p.Wf() && Lists(p.current, rows) && op.Mutates() && p.Count(op) > 0 && GoesDark(p, GroupOf(op.current))
    ensures op.current in p.current && OwnedBy(op.current, p.owner) && IsCleanup(op)
  {
    Mutation(p, op);
    DarkPlan(p, rows, GroupOf(op.current));
    assert !Prerequisite(p, GroupOf(op.current), op);
  }

  lemma BlockedDelete(d: Endpoint, x: Endpoint, y: Endpoint, owner: string)
    requires Blocked(d, x, y, owner)
    ensures BlockedName(d, x, y, owner).Count(Delete(y)) > 0
  {
    var p := BlockedName(d, x, y, owner);
    BlockedFacts(d, x, y, owner);
    BlockedListed(d, x, y, owner);
    BlockedGoesDark(d, x, y, owner);
    DarkPlan(p, BlockedRows(x, y), GroupOf(d));
    assert y in p.current && p.Cleans(y);
  }

  lemma BlockedMutation(d: Endpoint, x: Endpoint, y: Endpoint, owner: string, op: Operation)
    requires Blocked(d, x, y, owner) && op.Mutates() && BlockedName(d, x, y, owner).Count(op) > 0
    ensures op == Delete(y)
  {
    var p := BlockedName(d, x, y, owner);
    BlockedFacts(d, x, y, owner);
    BlockedListed(d, x, y, owner);
    BlockedGoesDark(d, x, y, owner);
    Mutation(p, op);
    DarkMutation(p, BlockedRows(x, y), op);
  }

  lemma BlockedOperations(d: Endpoint, x: Endpoint, y: Endpoint, owner: string, op: Operation)
    requires Blocked(d, x, y, owner)
    ensures BlockedName(d, x, y, owner).Count(op) > 0 <==> op in BlockedPlan(d, x, y)
  {
    var p := BlockedName(d, x, y, owner);
    BlockedFacts(d, x, y, owner);
    BlockedDelete(d, x, y, owner);
    if op.Mutates() && p.Count(op) > 0 { BlockedMutation(d, x, y, owner, op); }
    UnownedOfMember(p, LogicalOf(d));
    assert p.UnownedOf(LogicalOf(d))[0] in p.UnownedOf(LogicalOf(d));
  }

  lemma BlockedPlanned(d: Endpoint, x: Endpoint, y: Endpoint, owner: string)
    requires Blocked(d, x, y, owner)
    ensures Planned(BlockedName(d, x, y, owner), BlockedPlan(d, x, y))
  {
    var p, ops := BlockedName(d, x, y, owner), BlockedPlan(d, x, y);
    forall o: Operation ensures multiset(ops)[o] == p.Count(o) {
      BlockedListed(d, x, y, owner);
      BlockedFacts(d, x, y, owner);
      PlanIsASet(p, BlockedRows(x, y), o);
      BlockedOperations(d, x, y, owner, o);
    }
  }

  /** The foreign row stops the A record, the AAAA row is cleaned up, and only the disabled row is left. */
  lemma BlockedNameGoesDark(d: Endpoint, x: Endpoint, y: Endpoint, owner: string)
    requires Blocked(d, x, y, owner)
    ensures var p, ops, rows := BlockedName(d, x, y, owner), BlockedPlan(d, x, y), BlockedRows(x, y);
            && Planned(p, ops) && Lists(p.current, rows)
            && Lit(rows, GroupOf(d)) && !StaysLit(p, ops, rows, GroupOf(d))
  {
    BlockedFacts(d, x, y, owner);
    BlockedListed(d, x, y, owner);
    BlockedPlanned(d, x, y, owner);
    BlockedGoesDark(d, x, y, owner);
    LitExactly(BlockedName(d, x, y, owner), BlockedPlan(d, x, y), BlockedRows(x, y), GroupOf(d));
  }
}
