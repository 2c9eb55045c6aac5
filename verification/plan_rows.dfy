/** Device rows and what applying planned operations does to them. */
module PlanRows {
  import opened Text
  import opened Dns
  import opened PlanSpec

  /** The device's rows by provider ID. */
  type Rows = map<string, Endpoint>

  /** Every row carries its own non-blank provider ID. */
  ghost predicate ValidRows(rows: Rows) { forall id :: id in rows ==> id != "" && rows[id].providerID == id }

  /** `current` lists every row once, in any order. */
  ghost predicate Lists(current: seq<Endpoint>, rows: Rows) {
    && (forall i, j :: 0 <= i < j < |current| ==> current[i].providerID != current[j].providerID)
    && (forall e :: e in current <==> e.providerID in rows && rows[e.providerID] == e)
  }

  lemma ListsDistinct(current: seq<Endpoint>, rows: Rows)
    requires Lists(current, rows)
    ensures Distinct(current)
    ensures forall a, b :: a in current && b in current && a.providerID == b.providerID ==> a == b
    ensures forall e {:trigger multiset(current)[e]} :: multiset(current)[e] == if e in current then 1 else 0
  {
    forall e ensures multiset(current)[e] == if e in current then 1 else 0 { DistinctCount(current, e); }
  }

  /** What the device stores for d: one target value, under the controller's ownership. */
  function Written(d: Endpoint, owner: string, id: string): (r: Endpoint)
    ensures KeyOf(r) == KeyOf(d)
    ensures |d.targets| <= 1 <==> EqualRecord(r, d)
  {
    d.(targets := if |d.targets| > 0 then d.targets[..1] else [], ownerID := owner, providerID := id)
  }

  /** One successful operation; `id` is the provider ID the device assigns to a created row. */
  datatype Step = Step(op: Operation, id: string)
  {
    predicate Writes() { op.Create? || op.Update? || op.Replace? || op.Deactivate? }

    /** The row the step touches. */
    function Row(): string { if op.Mutates() then op.current.providerID else id }
  }

  function Apply(rows: Rows, step: Step, owner: string): Rows {
    match step.op
    case Conflict(_, _, _) => rows
    case Create(d) => rows[step.id := Written(d, owner, step.id)]
    case Update(d, c) =>
      if c.providerID in rows then rows[c.providerID := Written(d, owner, c.providerID)] else rows
    case Replace(d, c, _) =>
      if c.providerID in rows then rows[c.providerID := Written(d, owner, c.providerID)] else rows
    case Deactivate(d, c) =>
      if c.providerID in rows then rows[c.providerID := Written(d, owner, c.providerID)] else rows
    case Delete(c) => rows - {c.providerID}
  }

  /** The rows after the first n steps. */
  function After(rows: Rows, steps: seq<Step>, owner: string, n: nat): Rows
    requires n <= |steps|
  {
    if n == 0 then rows else Apply(After(rows, steps, owner, n - 1), steps[n - 1], owner)
  }

  function ApplyAll(rows: Rows, steps: seq<Step>, owner: string): Rows { After(rows, steps, owner, |steps|) }

  /** Steps that mutate listed rows, each row once at most, and create rows under IDs that are free at that time. */
  ghost predicate Disciplined(rows: Rows, steps: seq<Step>, owner: string) {
    && ValidRows(rows)
    && (forall i ::
      0 <= i < |steps| && steps[i].op.Mutates() ==> Current(steps[i]).providerID in rows
                                                    && rows[Current(steps[i]).providerID] == Current(steps[i]))
    && (forall i, j :: 0 <= i < j < |steps| && steps[i].op.Mutates() && steps[j].op.Mutates() ==>
      steps[i].Row() != steps[j].Row())
    && FreshIds(rows, steps, owner)
  }

  /** A created row gets an ID that no row has at that time. */
  ghost predicate FreshIds(rows: Rows, steps: seq<Step>, owner: string) {
    forall i :: 0 <= i < |steps| && steps[i].op.Create? ==>
      steps[i].id != "" && steps[i].id !in After(rows, steps, owner, i)
  }

  function Current(step: Step): Endpoint
    requires step.op.Mutates()
  {
    step.op.current
  }

  lemma {:induction false} AfterValid(rows: Rows, steps: seq<Step>, owner: string, n: nat)
    requires Disciplined(rows, steps, owner) && n <= |steps|
    ensures ValidRows(After(rows, steps, owner, n))
  {
    if n > 0 { AfterValid(rows, steps, owner, n - 1); }
  }

  /** A row that no step has mutated is still there. */
  lemma {:induction false} Untouched(rows: Rows, steps: seq<Step>, owner: string, n: nat, id: string)
    requires Disciplined(rows, steps, owner) && n <= |steps| && id in rows
    requires forall i :: 0 <= i < n && steps[i].op.Mutates() ==> steps[i].Row() != id
    ensures id in After(rows, steps, owner, n) && After(rows, steps, owner, n)[id] == rows[id]
  {
    if n > 0 { Untouched(rows, steps, owner, n - 1, id); }
  }

  /** A row a step has written keeps what was written. */
  lemma {:induction false} WrittenStays(rows: Rows, steps: seq<Step>, owner: string, k: nat, n: nat)
    requires Disciplined(rows, steps, owner) && k < n <= |steps| && steps[k].Writes()
    ensures steps[k].Row() in After(rows, steps, owner, n)
    ensures After(rows, steps, owner, n)[steps[k].Row()] == Written(steps[k].op.desired, owner, steps[k].Row())
  {
    var id := steps[k].Row();
    if n == k + 1 {
      if steps[k].op.Mutates() { Untouched(rows, steps, owner, k, id); }
    } else {
      WrittenStays(rows, steps, owner, k, n - 1);
      if steps[n - 1].op.Mutates() && steps[n - 1].Row() == id {
        assert steps[k].op.Create? && id in rows;
        Untouched(rows, steps, owner, k, id);
        assert false;
      }
    }
  }

  ghost predicate Wrote(steps: seq<Step>, k: int, id: string) {
    0 <= k < |steps| && steps[k].Writes() && steps[k].Row() == id
  }

  ghost predicate Mutated(steps: seq<Step>, n: nat, id: string)
    requires n <= |steps|
  {
    exists i :: 0 <= i < n && steps[i].op.Mutates() && steps[i].Row() == id
  }

  /** Every row after n steps is an original one that no step mutated, or what some step wrote. */
  lemma {:induction false} Provenance(rows: Rows, steps: seq<Step>, owner: string, n: nat, id: string)
    requires Disciplined(rows, steps, owner) && n <= |steps| && id in After(rows, steps, owner, n)
    ensures (id in rows && After(rows, steps, owner, n)[id] == rows[id] && !Mutated(steps, n, id))
         || (exists k :: k < n && Wrote(steps, k, id)
                         && After(rows, steps, owner, n)[id] == Written(steps[k].op.desired, owner, id))
  {
    if n > 0 {
      var s := steps[n - 1];
      if s.Writes() && s.Row() == id {
        WrittenStays(rows, steps, owner, n - 1, n);
        assert Wrote(steps, n - 1, id);
      } else {
        Provenance(rows, steps, owner, n - 1, id);
      }
    }
  }

  ghost predicate AtName(rows: Rows, id: string, g: Group) { id in rows && GroupOf(rows[id]) == g }

  /** A row that every step on it overwrites with a good record stays there and stays good. */
  lemma {:induction false} StaysGood(rows: Rows, steps: seq<Step>, owner: string, n: nat, id: string,
      good: Endpoint -> bool)
    requires Disciplined(rows, steps, owner) && n <= |steps| && id in rows && good(rows[id])
    requires forall i :: 0 <= i < n && steps[i].op.Mutates() && steps[i].Row() == id ==>
               steps[i].Writes() && good(Written(steps[i].op.desired, owner, id))
    ensures id in After(rows, steps, owner, n) && good(After(rows, steps, owner, n)[id])
  {
    if n > 0 { StaysGood(rows, steps, owner, n - 1, id, good); }
  }
}
