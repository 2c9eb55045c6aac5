/** Exclusive-zone ownership: which rows the controller adopts before planning, and the
    name-level conflicts that keep restricted discovery from touching existing records. */
module Restricted {
  import opened Text
  import opened Dns
  import opened PlanSpec
  import opened PlanIndex
  import opened PlanNames
  import opened PlanRecords
  import opened PlanSafety
  import opened PlanExact
  import opened Planner

  predicate Adoptable(t: RecordType) { t == A || t == AAAA || t == CNAME }

  /** The row is exactly its desired record. */
  predicate Matches(e: Endpoint, byKey: map<Key, Endpoint>) { KeyOf(e) in byKey && EqualRecord(e, byKey[KeyOf(e)]) }

  function AdoptRow(e: Endpoint, byKey: map<Key, Endpoint>, owner: string, restricted: bool): (r: Endpoint)
    ensures KeyOf(r) == KeyOf(e)
  {
    e.(ownerID := if Adoptable(e.recordType) && (restricted ==> Matches(e, byKey)) then owner else "")
  }

  /** The listing as the planner sees it. */
  function Adopted(current: seq<Endpoint>, byKey: map<Key, Endpoint>, owner: string,
      restricted: bool): (r: seq<Endpoint>)
    ensures |r| == |current|
  {
    seq(|current|, i requires 0 <= i < |current| => AdoptRow(current[i], byKey, owner, restricted))
  }

  /** The rows of a name that take part in the comparison. */
  function NameRows(current: seq<Endpoint>, g: Group): seq<Endpoint> {
    Filter(current, (e: Endpoint) => Adoptable(e.recordType) && GroupOf(e) == g)
  }

  /** Rows and desired records of the name are the same: each row is its desired record, no key has two
      rows, and every desired record has a row. */
  ghost predicate SameRecords(rows: seq<Endpoint>, byKey: map<Key, Endpoint>, g: Group) {
    && (forall e :: e in rows ==> Matches(e, byKey))
    && (forall k :: |KeyRows(rows, k)| <= 1)
    && (forall k :: k in byKey && GroupOf(byKey[k]) == g ==> KeyRows(rows, k) != [])
  }

  /** The name is desired and has rows, but not exactly the desired ones. */
  ghost predicate Mismatched(byKey: map<Key, Endpoint>, current: seq<Endpoint>, g: Group) {
    && (exists k :: k in byKey && GroupOf(byKey[k]) == g)
    && NameRows(current, g) != [] && !SameRecords(NameRows(current, g), byKey, g)
  }

  // ---- Safety of the adopted plan -------------------------------------------------------

  ghost predicate Adopts(p: Problem, current: seq<Endpoint>) {
    p.Wf() && p.owner != "" && p.current == Adopted(current, p.byKey, p.owner, true)
  }

  lemma AdoptedRow(p: Problem, current: seq<Endpoint>, c: Endpoint) returns (e: Endpoint)
    requires Adopts(p, current) && c in p.current && OwnedBy(c, p.owner)
    ensures e in current && c == AdoptRow(e, p.byKey, p.owner, true) && Adoptable(e.recordType) && Matches(e, p.byKey)
    ensures e in NameRows(current, GroupOf(c)) && EqualRecord(c, p.byKey[KeyOf(c)]) && KeyOf(c) in p.byKey
  {
    var i :| 0 <= i < |p.current| && p.current[i] == c;
    e := current[i];
    FilterMember(current, (x: Endpoint) => Adoptable(x.recordType) && GroupOf(x) == GroupOf(c));
  }

  /** A row that is its desired record is adopted. */
  lemma MatchIsCopied(p: Problem, current: seq<Endpoint>, e: Endpoint)
    requires Adopts(p, current) && e in current && Adoptable(e.recordType) && Matches(e, p.byKey)
    ensures p.Copies(KeyOf(e)) != []
  {
    var i :| 0 <= i < |current| && current[i] == e;
    CopiesMember(p, KeyOf(e));
    assert p.current[i] in p.Copies(KeyOf(e));
  }

  lemma CopiesAppend(rows: seq<Endpoint>, c: Endpoint, k: Key, owner: string)
    ensures OwnedRows(KeyRows(rows + [c], k), owner)
         == OwnedRows(KeyRows(rows, k), owner) + (if KeyOf(c) == k && OwnedBy(c, owner) then [c] else [])
  {
    FilterAppend(rows, c, (x: Endpoint) => KeyOf(x) == k);
    if KeyOf(c) == k { FilterAppend(KeyRows(rows, k), c, (x: Endpoint) => OwnedBy(x, owner)); }
    else { assert KeyRows(rows + [c], k) == KeyRows(rows, k); }
  }

  lemma NameRowsAppend(rows: seq<Endpoint>, e: Endpoint, k: Key, g: Group)
    ensures var counts := Adoptable(e.recordType) && GroupOf(e) == g && KeyOf(e) == k;
            KeyRows(NameRows(rows + [e], g), k) == KeyRows(NameRows(rows, g), k) + (if counts then [e] else [])
  {
    FilterAppend(rows, e, (x: Endpoint) => Adoptable(x.recordType) && GroupOf(x) == g);
    if Adoptable(e.recordType) && GroupOf(e) == g {
      FilterAppend(NameRows(rows, g), e, (x: Endpoint) => KeyOf(x) == k);
    }
    else { assert NameRows(rows + [e], g) == NameRows(rows, g); }
  }

  lemma {:induction false} CopiesBound(current: seq<Endpoint>, byKey: map<Key, Endpoint>, owner: string, k: Key,
      g: Group)
    requires owner != "" && g == Group(k.zone, k.dnsName)
    ensures |OwnedRows(KeyRows(Adopted(current, byKey, owner, true), k), owner)| <= |KeyRows(NameRows(current, g), k)|
  {
    if |current| > 0 {
      var n := |current| - 1;
      CopiesBound(current[..n], byKey, owner, k, g);
      var e := current[n];
      var c := AdoptRow(e, byKey, owner, true);
      CopiesAppend(Adopted(current[..n], byKey, owner, true), c, k, owner);
      NameRowsAppend(current[..n], e, k, g);
      assert current == current[..n] + [e];
      assert Adopted(current, byKey, owner, true) == Adopted(current[..n], byKey, owner, true) + [c];
    }
  }

  /** Where rows and desired records agree, every desired record keeps its one row. */
  lemma AgreementKeeps(p: Problem, current: seq<Endpoint>, g: Group, k: Key)
    requires Adopts(p, current) && SameRecords(NameRows(current, g), p.byKey, g) && k in p.byKey
      && GroupOf(p.byKey[k]) == g
    ensures p.Copies(k) != [] && |p.Copies(k)| <= 1
  {
    var rows := NameRows(current, g);
    RowsMember(rows, p.owner);
    FilterMember(current, (x: Endpoint) => Adoptable(x.recordType) && GroupOf(x) == g);
    var e := KeyRows(rows, k)[0];
    assert e in KeyRows(rows, k) && e in rows;
    MatchIsCopied(p, current, e);
    CopiesBound(current, p.byKey, p.owner, k, g);
  }

  lemma AgreementNotStale(p: Problem, current: seq<Endpoint>, c: Endpoint)
    requires Adopts(p, current) && SameRecords(NameRows(current, GroupOf(c)), p.byKey, GroupOf(c))
    ensures p.StaleCount(c) == 0
  {
    if c in p.current && OwnedBy(c, p.owner) {
      var e := AdoptedRow(p, current, c);
      AgreementKeeps(p, current, GroupOf(c), KeyOf(c));
      OnlyCopyNotStale(p, c);
    }
  }

  lemma OnlyCopyNotStale(p: Problem, c: Endpoint)
    requires c in p.current && OwnedBy(c, p.owner) && KeyOf(c) in p.byKey && |p.Copies(KeyOf(c))| <= 1
    ensures p.StaleCount(c) == 0
  {
    CopiesMember(p, KeyOf(c));
    CopiesCount(p, c);
    assert c in p.Copies(KeyOf(c));
    assert p.Copies(KeyOf(c)) == [c];
  }

  lemma AgreementHasNoTransition(p: Problem, current: seq<Endpoint>, g: Group)
    requires Adopts(p, current) && SameRecords(NameRows(current, g), p.byKey, g)
    requires p.NameConflict(g).None?
    ensures p.Transition(g).None?
  {
    DesiredInMember(p);
    OwnedInMember(p, g);
    forall d | d in p.DesiredIn(g) ensures exists e :: e in p.OwnedIn(g) && KeyOf(e) == KeyOf(d) {
      AgreementKeeps(p, current, g, KeyOf(d));
      CopiesMember(p, KeyOf(d));
      assert p.Copies(KeyOf(d))[0] in p.OwnedIn(g);
    }
    forall d, e | d in p.DesiredIn(g) && e in p.OwnedIn(g) ensures !Clash(d.recordType, e.recordType) {
      var row := AdoptedRow(p, current, e);
      assert p.byKey[KeyOf(e)] in p.DesiredIn(g);
      NoNameConflict(p, g);
    }
    assert !RetargetsCname(p.DesiredIn(g), p.OwnedIn(g)) && !ChangesCnameType(p.DesiredIn(g), p.OwnedIn(g));
  }

  lemma AgreementIsKept(p: Problem, current: seq<Endpoint>, op: Operation)
    requires Adopts(p, current) && SameRecords(NameRows(current, op.Name()), p.byKey, op.Name()) && p.Count(op) > 0
    ensures op.Conflict?
  {
    var g := op.Name();
    match op
    case Conflict(_, _, _) =>
    case Create(d) => AgreementKeeps(p, current, g, KeyOf(d));
    case Update(d, c) =>
      KeptRow(p, d, c);
      var e := AdoptedRow(p, current, c);
    case Replace(d, c, _) =>
      if p.Resolve(g) == Settled(op) {
        ReplaceByTransition(p, g, op);
        AgreementHasNoTransition(p, current, g);
      } else {
        AgreementKeeps(p, current, g, KeyOf(d));
      }
    case Delete(c) => AgreementNotStale(p, current, c);
    case Deactivate(_, c) => AgreementNotStale(p, current, c);
  }

  /** Where the name has no comparable row, or nothing is desired, no row is owned. */
  lemma NothingAdopted(p: Problem, current: seq<Endpoint>, op: Operation)
    requires Adopts(p, current) && p.Count(op) > 0
    requires NameRows(current, op.Name()) == [] || !exists k :: k in p.byKey && GroupOf(p.byKey[k]) == op.Name()
    ensures op.Conflict? || (op.Create? && NameRows(current, op.Name()) == [])
  {
    if op.Mutates() {
      Mutation(p, op);
      var e := AdoptedRow(p, current, op.current);
    }
  }

  /** Under restricted discovery the planner itself only creates absent names or reports conflicts, outside the
      names that the adoption pass found mismatched. */
  lemma RestrictedPlan(p: Problem, current: seq<Endpoint>, op: Operation)
    requires Adopts(p, current) && p.Count(op) > 0 && !Mismatched(p.byKey, current, op.Name())
    ensures op.Conflict? || (op.Create? && NameRows(current, op.Name()) == [])
  {
    if NameRows(current, op.Name()) == [] || !exists k :: k in p.byKey && GroupOf(p.byKey[k]) == op.Name() {
      NothingAdopted(p, current, op);
    } else {
      AgreementIsKept(p, current, op);
    }
  }

  // ---- Comparing the rows of one name ---------------------------------------------------

  function KeysOf(rows: seq<Endpoint>): set<Key> { set e | e in rows :: KeyOf(e) }

  lemma KeyRowsAppend(rows: seq<Endpoint>, e: Endpoint)
    ensures forall k :: KeyRows(rows + [e], k) == KeyRows(rows, k) + (if KeyOf(e) == k then [e] else [])
    ensures KeysOf(rows + [e]) == KeysOf(rows) + {KeyOf(e)}
  {
    forall k ensures KeyRows(rows + [e], k) == KeyRows(rows, k) + (if KeyOf(e) == k then [e] else []) {
      FilterAppend(rows, e, (x: Endpoint) => KeyOf(x) == k);
    }
  }

  lemma KeyRowsMember(rows: seq<Endpoint>, k: Key)
    ensures KeyRows(rows, k) != [] <==> k in KeysOf(rows)
  {
    FilterMember(rows, (x: Endpoint) => KeyOf(x) == k);
    if KeyRows(rows, k) != [] { assert KeyRows(rows, k)[0] in KeyRows(rows, k); }
  }

  /** There are as many keys as rows exactly when no key has two rows. */
  lemma {:induction false} KeyCount(rows: seq<Endpoint>)
    ensures |KeysOf(rows)| <= |rows|
    ensures |KeysOf(rows)| == |rows| <==> forall k :: |KeyRows(rows, k)| <= 1
  {
    if |rows| > 0 {
      var t, e := rows[..|rows| - 1], rows[|rows| - 1];
      assert rows == t + [e];
      KeyCount(t);
      KeyRowsAppend(t, e);
      KeyRowsMember(t, KeyOf(e));
      forall k ensures |KeyRows(rows, k)| == |KeyRows(t, k)| + (if KeyOf(e) == k then 1 else 0) {}
      if KeyOf(e) in KeysOf(t) {
        assert KeysOf(rows) == KeysOf(t);
        assert |KeyRows(rows, KeyOf(e))| > 1;
      } else {
        assert KeyRows(t, KeyOf(e)) == [];
        assert (forall k :: |KeyRows(rows, k)| <= 1) <==> (forall k :: |KeyRows(t, k)| <= 1);
      }
    }
  }

  /** Equal sizes, agreement and distinct keys are the same as agreement in both directions. */
  lemma EqualSizes(rows: seq<Endpoint>, desired: seq<Endpoint>, byKey: map<Key, Endpoint>, g: Group)
    requires |KeysOf(desired)| == |desired| && (forall k ::
      k in KeysOf(desired) <==> k in byKey
                                && GroupOf(byKey[k]) == g)
    requires forall e :: e in rows ==> Matches(e, byKey) && KeyOf(e) in KeysOf(desired)
    requires forall k :: |KeyRows(rows, k)| <= 1
    ensures |rows| == |desired| <==> forall k :: k in byKey && GroupOf(byKey[k]) == g ==> KeyRows(rows, k) != []
  {
    KeyCount(rows);
    assert KeysOf(rows) <= KeysOf(desired);
    forall k ensures KeyRows(rows, k) != [] <==> k in KeysOf(rows) { KeyRowsMember(rows, k); }
    assert (forall k :: k in byKey && GroupOf(byKey[k]) == g ==> KeyRows(rows, k) != []) <==>
      KeysOf(rows) == KeysOf(desired);
    if |rows| == |desired| { SubsetSize(KeysOf(rows), KeysOf(desired)); }
  }

  lemma SubsetSize(a: set<Key>, b: set<Key>)
    requires a <= b && |a| == |b|
    ensures a == b
  {
    assert |b - a| == |b| - |a|;
  }

  method RestrictedRecordSetsEqual(rows: seq<Endpoint>, desired: seq<Endpoint>, byKey: map<Key, Endpoint>,
      ghost g: Group)
    returns (same: bool)
    requires |KeysOf(desired)| == |desired| && (forall k ::
      k in KeysOf(desired) <==> k in byKey
                                && GroupOf(byKey[k]) == g)
    requires forall k :: k in byKey ==> KeyOf(byKey[k]) == k
    requires forall e :: e in rows ==> GroupOf(e) == g
    ensures same <==> SameRecords(rows, byKey, g)
  {
    if |rows| != |desired| {
      if SameRecords(rows, byKey, g) { EqualSizes(rows, desired, byKey, g); }
      return false;
    }
    var seen: set<Key> := {};
    for i := 0 to |rows|
      invariant forall e :: e in rows[..i] ==> Matches(e, byKey)
      invariant seen == KeysOf(rows[..i]) && |seen| == i
    {
      var e := rows[i];
      assert rows[..i + 1] == rows[..i] + [e];
      KeyRowsAppend(rows[..i], e);
      if !Matches(e, byKey) { return false; }
      if KeyOf(e) in seen {
        DuplicateShrinks(rows, i);
        KeyCount(rows);
        return false;
      }
      seen := seen + {KeyOf(e)};
    }
    assert rows[..|rows|] == rows;
    KeyCount(rows);
    EqualSizes(rows, desired, byKey, g);
    return true;
  }

  /** A repeated key leaves fewer keys than rows. */
  lemma {:induction false} DuplicateShrinks(rows: seq<Endpoint>, i: nat)
    requires i < |rows| && KeyOf(rows[i]) in KeysOf(rows[..i])
    ensures |KeysOf(rows)| < |rows|
  {
    var n := |rows| - 1;
    assert rows == rows[..n] + [rows[n]];
    KeyRowsAppend(rows[..n], rows[n]);
    if i == n {
      assert KeysOf(rows) == KeysOf(rows[..n]);
      KeyCount(rows[..n]);
    } else {
      assert rows[..n][..i] == rows[..i];
      DuplicateShrinks(rows[..n], i);
    }
  }

  // ---- The adoption pass ----------------------------------------------------------------

  datatype NameConflict = NameConflict(desired: Endpoint, current: Endpoint)

  /** Rows of a conflict are ordered by key, then by provider ID. */
  predicate RowBefore(a: Endpoint, b: Endpoint) {
    if Render(KeyOf(a)) != Render(KeyOf(b)) then KeyBefore(a, b) else Less(a.providerID, b.providerID)
  }

  lemma RowBeforeIsWeakOrder()
    ensures WeakOrder(RowBefore)
  {
    forall a, b | RowBefore(a, b) ensures !RowBefore(b, a) {
      LessIrreflexive(a.providerID);
      LessIrreflexive(Render(KeyOf(a)));
      if KeyBefore(a, b) && KeyBefore(b, a) { LessTransitive(Render(KeyOf(a)), Render(KeyOf(b)), Render(KeyOf(a))); }
      if Less(a.providerID, b.providerID) && Less(b.providerID, a.providerID) {
        LessTransitive(a.providerID, b.providerID, a.providerID);
      }
    }
    forall a, b, c | !RowBefore(b, a) && !RowBefore(c, b) ensures !RowBefore(c, a) { RowNotAfter(a, b, c); }
  }

  lemma RowNotAfter(a: Endpoint, b: Endpoint, c: Endpoint)
    requires !RowBefore(b, a) && !RowBefore(c, b)
    ensures !RowBefore(c, a)
  {
    var x, y, z := Render(KeyOf(a)), Render(KeyOf(b)), Render(KeyOf(c));
    LessIrreflexive(x);
    LessIrreflexive(y);
    if x == y == z {
      NotAfterTransitive(a.providerID, b.providerID, c.providerID);
    } else {
      NotAfterTransitive(x, y, z);
      if x == z {
        LessTotal(x, y);
        LessTotal(y, z);
      }
    }
  }

  ghost predicate FirstRow(e: Endpoint, rows: seq<Endpoint>) { e in rows && forall x :: x in rows ==> !RowBefore(x, e) }

  method FirstConflictRow(rows: seq<Endpoint>) returns (first: Endpoint)
    requires rows != []
    ensures FirstRow(first, rows)
  {
    RowBeforeIsWeakOrder();
    var sorted := SortStable(rows, RowBefore);
    first := sorted[0];
    assert first in multiset(sorted);
    forall x | x in rows ensures !RowBefore(x, first) {
      assert x in multiset(sorted);
      var i :| 0 <= i < |sorted| && sorted[i] == x;
      if i == 0 { LessIrreflexive(x.providerID); }
    }
  }

  /** The row as it is compared: without any ownership. */
  function Plain(e: Endpoint): Endpoint { e.(ownerID := "") }

  function PlainRows(current: seq<Endpoint>): (r: seq<Endpoint>)
    ensures |r| == |current|
  {
    seq(|current|, i requires 0 <= i < |current| => Plain(current[i]))
  }

  lemma AdoptedPlain(current: seq<Endpoint>, byKey: map<Key, Endpoint>, owner: string)
    ensures Adopted(PlainRows(current), byKey, owner, true) == Adopted(current, byKey, owner, true)
  {
  }

  lemma NameRowsStep(rows: seq<Endpoint>, e: Endpoint, g: Group)
    ensures NameRows(rows + [e], g) ==
      NameRows(rows, g) + (if Adoptable(e.recordType) && GroupOf(e) == g then [e] else [])
  {
    FilterAppend(rows, e, (x: Endpoint) => Adoptable(x.recordType) && GroupOf(x) == g);
  }

  lemma FiledStep(byName: map<Group, seq<Endpoint>>, byName': map<Group, seq<Endpoint>>, rows: seq<Endpoint>,
      e: Endpoint, g: Group)
    requires At(byName, g) == NameRows(rows, g)
    requires byName' == if Adoptable(e.recordType) then byName[GroupOf(e) := At(byName, GroupOf(e)) + [e]] else byName
    ensures At(byName', g) == NameRows(rows + [e], g)
  {
    NameRowsStep(rows, e, g);
  }

  /** One row: its ownership is cleared, and granted only on an exact match. */
  method AdoptOne(row: Endpoint, byKey: map<Key, Endpoint>, owner: string, byName: map<Group, seq<Endpoint>>,
      ghost rows: seq<Endpoint>)
    returns (adopted: Endpoint, byName': map<Group, seq<Endpoint>>)
    requires forall g {:trigger At(byName, g)} :: At(byName, g) == NameRows(rows, g)
    ensures adopted == AdoptRow(row, byKey, owner, true)
    ensures forall g {:trigger At(byName', g)} :: At(byName', g) == NameRows(rows + [Plain(row)], g)
  {
    var e := Plain(row);
    adopted, byName' := e, byName;
    if Adoptable(e.recordType) {
      byName' := byName[GroupOf(e) := At(byName, GroupOf(e)) + [e]];
      if Matches(e, byKey) { adopted := e.(ownerID := owner); }
    }
    forall g ensures At(byName', g) == NameRows(rows + [e], g) { FiledStep(byName, byName', rows, e, g); }
  }

  /** All rows, in place; the comparable ones are also filed by name. */
  method AdoptRows(current: array<Endpoint>, byKey: map<Key, Endpoint>, owner: string)
    returns (byName: map<Group, seq<Endpoint>>)
    modifies current
    ensures current[..] == Adopted(old(current[..]), byKey, owner, true)
    ensures forall g {:trigger At(byName, g)} :: At(byName, g) == NameRows(PlainRows(old(current[..])), g)
  {
    byName := map[];
    ghost var was := current[..];
    for i := 0 to current.Length
      invariant forall j :: 0 <= j < i ==> current[j] == AdoptRow(was[j], byKey, owner, true)
      invariant forall j :: i <= j < current.Length ==> current[j] == was[j]
      invariant forall g {:trigger At(byName, g)} :: At(byName, g) == NameRows(PlainRows(was[..i]), g)
    {
      var adopted, next := AdoptOne(current[i], byKey, owner, byName, PlainRows(was[..i]));
      assert PlainRows(was[..i + 1]) == PlainRows(was[..i]) + [Plain(was[i])];
      current[i], byName := adopted, next;
    }
    assert was[..current.Length] == was;
  }

  /** One desired name: its conflict, if its rows are not exactly the desired ones. */
  method CompareName(p: Problem, g: Group, desired: seq<Endpoint>,
      rows: seq<Endpoint>) returns (conflict: Option<NameConflict>)
    requires p.Wf() && desired != [] && Distinct(desired) && Elements(desired) == p.DesiredIn(g)
    requires forall e :: e in rows ==> GroupOf(e) == g
    ensures conflict.Some? <==> rows != [] && !SameRecords(rows, p.byKey, g)
    ensures conflict.Some? ==> IsConflictOf(p, g, rows, conflict.value)
  {
    DesiredKeys(p, g, desired);
    if rows == [] { return None; }
    var same := RestrictedRecordSetsEqual(rows, desired, p.byKey, g);
    if same { return None; }
    var sorted := SortGroup(p, g, desired);
    var first := FirstConflictRow(rows);
    conflict := Some(NameConflict(sorted[0], first));
  }

  /** A conflict names the first desired record and a first row of the name. */
  ghost predicate IsConflictOf(p: Problem, g: Group, rows: seq<Endpoint>, c: NameConflict) {
    p.DesiredIn(g) != {} && c.desired == First(p.DesiredIn(g), p.before) && FirstRow(c.current, rows)
  }

  lemma DesiredKeys(p: Problem, g: Group, desired: seq<Endpoint>)
    requires p.Wf() && Distinct(desired) && Elements(desired) == p.DesiredIn(g)
    ensures |KeysOf(desired)| == |desired|
    ensures forall k :: k in KeysOf(desired) <==> k in p.byKey && GroupOf(p.byKey[k]) == g
  {
    DesiredInMember(p);
    forall d ensures d in desired <==> p.Desires(d) && GroupOf(d) == g {
      assert d in Elements(desired) <==> d in p.DesiredIn(g);
    }
    forall k ensures k in KeysOf(desired) <==> k in p.byKey && GroupOf(p.byKey[k]) == g {
      if k in p.byKey && GroupOf(p.byKey[k]) == g { assert p.byKey[k] in desired; }
    }
    DistinctKeys(desired);
  }

  lemma {:induction false} DistinctKeys(s: seq<Endpoint>)
    requires Distinct(s) && forall a, b :: a in s && b in s && KeyOf(a) == KeyOf(b) ==> a == b
    ensures |KeysOf(s)| == |s|
  {
    if |s| > 0 {
      var t := s[..|s| - 1];
      DistinctKeys(t);
      assert KeysOf(s) == KeysOf(t) + {KeyOf(s[|s| - 1])};
    }
  }

  /** The conflicts are exactly the mismatched names. */
  ghost predicate Conflicts(p: Problem, current: seq<Endpoint>, conflicts: map<Group, NameConflict>) {
    && (forall g :: g in conflicts <==> Mismatched(p.byKey, current, g))
    && (forall g :: g in conflicts ==> IsConflictOf(p, g, NameRows(current, g), conflicts[g]))
  }

  lemma NameRowsGroup(current: seq<Endpoint>, g: Group)
    ensures forall e :: e in NameRows(current, g) ==> GroupOf(e) == g
  {
    FilterMember(current, (x: Endpoint) => Adoptable(x.recordType) && GroupOf(x) == g);
  }

  lemma DesiredNames(p: Problem, g: Group)
    requires p.Wf()
    ensures p.DesiredIn(g) != {} <==> exists k :: k in p.byKey && GroupOf(p.byKey[k]) == g
  {
    DesiredInMember(p);
    if k :| k in p.byKey && GroupOf(p.byKey[k]) == g { assert p.byKey[k] in p.DesiredIn(g); }
    if d :| d in p.DesiredIn(g) { assert p.byKey[KeyOf(d)] == d; }
  }

  method CompareNames(p: Problem, byName: map<Group, seq<Endpoint>>, ghost current: seq<Endpoint>)
    returns (conflicts: map<Group, NameConflict>)
    requires p.Wf() && forall g {:trigger At(byName, g)} :: At(byName, g) == NameRows(current, g)
    ensures Conflicts(p, current, conflicts)
  {
    var raw := CollectByName(p);
    conflicts := map[];
    var names := raw.Keys;
    while names != {}
      invariant names <= raw.Keys
      invariant forall g :: g in conflicts <==> g in raw && g !in names && Mismatched(p.byKey, current, g)
      invariant forall g :: g in conflicts ==> IsConflictOf(p, g, NameRows(current, g), conflicts[g])
    {
      var g :| g in names;
      names := names - {g};
      assert Elements(At(raw, g)) == p.DesiredIn(g) && raw[g][0] in Elements(At(raw, g));
      NameRowsGroup(current, g);
      DesiredNames(p, g);
      var conflict := CompareName(p, g, raw[g], At(byName, g));
      if conflict.Some? { conflicts := conflicts[g := conflict.value]; }
    }
    forall g | Mismatched(p.byKey, current, g) ensures g in raw {
      DesiredNames(p, g);
      assert Elements(At(raw, g)) == p.DesiredIn(g);
    }
  }

  /** prepareExclusiveOwnership in restricted mode. */
  method PrepareRestricted(current: array<Endpoint>, desired: seq<Endpoint>, owner: string)
    returns (conflicts: map<Group, NameConflict>)
    requires SeparableAll(desired)
    modifies current
    ensures current[..] == Adopted(old(current[..]), LastByKey(desired), owner, true)
    ensures Conflicts(PlanFor(desired, [], owner, CleanupKeep, e => false), PlainRows(old(current[..])), conflicts)
  {
    var byKey := IndexDesired(desired);
    var byName := AdoptRows(current, byKey, owner);
    PlanForWf(desired, [], owner, CleanupKeep, e => false);
    conflicts := CompareNames(PlanFor(desired, [], owner, CleanupKeep, e => false), byName,
      PlainRows(old(current[..])));
  }

  /** prepareExclusiveOwnership without restriction: every comparable row is adopted. */
  method AdoptZone(current: array<Endpoint>, owner: string)
    modifies current
    ensures current[..] == Adopted(old(current[..]), map[], owner, false)
  {
    ghost var was := current[..];
    for i := 0 to current.Length
      invariant forall j :: 0 <= j < i ==> current[j] == AdoptRow(was[j], map[], owner, false)
      invariant forall j :: i <= j < current.Length ==> current[j] == was[j]
    {
      current[i] := current[i].(ownerID := if Adoptable(current[i].recordType) then owner else "");
    }
  }

  // ---- Enforcing the conflicts on the plan ----------------------------------------------

  function ConflictOp(c: NameConflict): Operation { Conflict(c.desired, Some(c.current), RestrictedMismatch) }

  predicate GroupBefore(a: Group, b: Group) { Less(a.zone + "|" + a.dnsName, b.zone + "|" + b.dnsName) }

  lemma GroupBeforeIsWeakOrder()
    ensures WeakOrder(GroupBefore)
  {
    forall a, b | GroupBefore(a, b) ensures !GroupBefore(b, a) {
      var x, y := a.zone + "|" + a.dnsName, b.zone + "|" + b.dnsName;
      LessIrreflexive(x);
      if Less(y, x) { LessTransitive(x, y, x); }
    }
    forall a, b, c | !GroupBefore(b, a) && !GroupBefore(c, b) ensures !GroupBefore(c, a) {
      NotAfterTransitive(a.zone + "|" + a.dnsName, b.zone + "|" + b.dnsName, c.zone + "|" + c.dnsName);
    }
  }

  method ConflictNames(conflicts: map<Group, NameConflict>) returns (names: seq<Group>)
    ensures Distinct(names) && (forall g :: g in names <==> g in conflicts) && SortedBy(names, GroupBefore)
  {
    var all: seq<Group> := [];
    var todo := conflicts.Keys;
    while todo != {}
      invariant todo <= conflicts.Keys && Distinct(all)
      invariant forall g :: g in all <==> g in conflicts && g !in todo
    {
      var g :| g in todo;
      todo := todo - {g};
      all := all + [g];
    }
    GroupBeforeIsWeakOrder();
    names := SortStable(all, GroupBefore);
    forall g ensures g in names <==> g in all {
      assert g in names <==> g in multiset(names);
      assert g in all <==> g in multiset(all);
    }
    forall i, j | 0 <= i < j < |names| ensures names[i] != names[j] {
      if names[i] == names[j] {
        CountAtLeast(names, i, j);
        DistinctCount(all, names[i]);
      }
    }
  }

  /** r reports one conflict per conflicted name, in the order of names, and keeps every other operation in place. */
  ghost predicate Enforced(ops: seq<Operation>, conflicts: map<Group, NameConflict>, names: seq<Group>,
      r: seq<Operation>) {
    && Distinct(names) && (forall g :: g in names <==> g in conflicts) && SortedBy(names, GroupBefore)
    && |r| >= |names| && (forall i :: 0 <= i < |names| ==> r[i] == ConflictOp(conflicts[names[i]]))
    && r[|names|..] == Filter(ops, (o: Operation) => o.Name() !in conflicts)
  }

  /** Every operation on a conflicted name gives way to one conflict, put in front in the order of names. */
  method EnforceConflicts(ops: seq<Operation>, conflicts: map<Group, NameConflict>) returns (r: seq<Operation>)
    ensures exists names :: Enforced(ops, conflicts, names, r)
  {
    var kept := KeepUnconflicted(ops, conflicts);
    var names := ConflictNames(conflicts);
    var front := ReportConflicts(names, conflicts);
    r := front + kept;
    assert r[|names|..] == kept;
    assert Enforced(ops, conflicts, names, r);
  }

  method KeepUnconflicted(ops: seq<Operation>, conflicts: map<Group, NameConflict>) returns (kept: seq<Operation>)
    ensures kept == Filter(ops, (o: Operation) => o.Name() !in conflicts)
  {
    kept := [];
    for i := 0 to |ops|
      invariant kept == Filter(ops[..i], (o: Operation) => o.Name() !in conflicts)
    {
      assert ops[..i + 1] == ops[..i] + [ops[i]];
      FilterAppend(ops[..i], ops[i], (o: Operation) => o.Name() !in conflicts);
      if ops[i].Name() !in conflicts { kept := kept + [ops[i]]; }
    }
    assert ops[..|ops|] == ops;
  }

  method ReportConflicts(names: seq<Group>, conflicts: map<Group, NameConflict>) returns (front: seq<Operation>)
    requires forall g :: g in names ==> g in conflicts
    ensures |front| == |names| && forall j :: 0 <= j < |names| ==> front[j] == ConflictOp(conflicts[names[j]])
  {
    front := [];
    for i := 0 to |names|
      invariant |front| == i && forall j :: 0 <= j < i ==> front[j] == ConflictOp(conflicts[names[j]])
    {
      front := front + [ConflictOp(conflicts[names[i]])];
    }
  }

  // ---- The whole pass -------------------------------------------------------------------

  /** What restricted discovery may do: report conflicts, and create names that have no A, AAAA or CNAME row. */
  predicate Harmless(op: Operation, current: seq<Endpoint>) {
    op.Conflict? || (op.Create? && forall e :: e in current && GroupOf(e) == GroupOf(op.desired) ==>
      !Adoptable(e.recordType))
  }

  lemma PlainNameRows(current: seq<Endpoint>, g: Group, e: Endpoint)
    requires NameRows(PlainRows(current), g) == [] && e in current && GroupOf(e) == g
    ensures !Adoptable(e.recordType)
  {
    FilterMember(PlainRows(current), (x: Endpoint) => Adoptable(x.recordType) && GroupOf(x) == g);
    var i :| 0 <= i < |current| && current[i] == e;
    assert Plain(e) == PlainRows(current)[i] && Plain(e) !in NameRows(PlainRows(current), g);
  }

  lemma PlannedIsHarmless(p: Problem, current: seq<Endpoint>, op: Operation)
    requires p.Wf() && p.owner != "" && p.current == Adopted(current, p.byKey, p.owner, true)
    requires p.Count(op) > 0 && !Mismatched(p.byKey, PlainRows(current), op.Name())
    ensures Harmless(op, current)
  {
    AdoptedPlain(current, p.byKey, p.owner);
    RestrictedPlan(p, PlainRows(current), op);
    if op.Create? {
      forall e | e in current && GroupOf(e) == GroupOf(op.desired) ensures !Adoptable(e.recordType) {
        PlainNameRows(current, GroupOf(op.desired), e);
      }
    }
  }

  // ---- Nothing is left out --------------------------------------------------------------

  /** The name's desired records are of comparable types, and no CNAME rule stops them: they mix no CNAME with another
      type, hold one CNAME target at most, and clash with no row of the name. */
  ghost predicate Regular(p: Problem, g: Group) {
    var s := p.DesiredIn(g);
    && (forall d :: d in s ==> Adoptable(d.recordType)) && !TypeClash(s) && !ManyCnameTargets(s)
    && (forall d, e :: d in s && e in p.current && GroupOf(e) == g ==> !Clash(d.recordType, e.recordType))
  }

  /** Rows and records of the name agree, or the name has no comparable row. */
  ghost predicate Agreeing(p: Problem, current: seq<Endpoint>, g: Group) {
    NameRows(current, g) == [] || SameRecords(NameRows(current, g), p.byKey, g)
  }

  lemma NotMismatched(p: Problem, current: seq<Endpoint>, g: Group)
    requires p.Wf() && p.DesiredIn(g) != {} && !Mismatched(p.byKey, current, g)
    ensures Agreeing(p, current, g)
  {
    DesiredNames(p, g);
  }

  /** Where nothing is mismatched, every comparable row of a desired name is adopted. */
  lemma NoForeignRow(p: Problem, current: seq<Endpoint>, g: Group, e: Endpoint)
    requires Adopts(p, current) && Agreeing(p, current, g)
    requires e in p.current && GroupOf(e) == g && Adoptable(e.recordType)
    ensures OwnedBy(e, p.owner) && KeyOf(e) in p.byKey && NameRows(current, g) != []
  {
    var i :| 0 <= i < |p.current| && p.current[i] == e;
    FilterMember(current, (x: Endpoint) => Adoptable(x.recordType) && GroupOf(x) == g);
    assert current[i] in NameRows(current, g);
  }

  lemma NoRowAdopted(p: Problem, current: seq<Endpoint>, g: Group, c: Endpoint)
    requires Adopts(p, current) && NameRows(current, g) == [] && c in p.current && GroupOf(c) == g
    ensures !OwnedBy(c, p.owner)
  {
    if OwnedBy(c, p.owner) { var e := AdoptedRow(p, current, c); }
  }

  lemma NothingForeign(p: Problem, current: seq<Endpoint>, g: Group, d: Endpoint)
    requires Adopts(p, current) && Agreeing(p, current, g) && GroupOf(d) == g && Adoptable(d.recordType)
    ensures p.UnownedOf(LogicalOf(d)) == []
  {
    forall e | e in p.current && LogicalOf(e) == LogicalOf(d) ensures OwnedBy(e, p.owner) {
      NoForeignRow(p, current, g, e);
    }
    NoUnowned(p, LogicalOf(d));
  }

  lemma NotRetargeted(p: Problem, current: seq<Endpoint>, g: Group)
    requires Adopts(p, current) && Agreeing(p, current, g)
    ensures !RetargetsCname(p.DesiredIn(g), p.OwnedIn(g))
  {
    forall d | d in p.DesiredIn(g) && p.OwnedIn(g) != [] ensures exists e :: e in p.OwnedIn(g) && KeyOf(e) == KeyOf(d) {
      OwnedInMember(p, g);
      DesiredInMember(p);
      assert p.OwnedIn(g)[0] in p.OwnedIn(g);
      var row := AdoptedRow(p, current, p.OwnedIn(g)[0]);
      AgreementKeeps(p, current, g, KeyOf(d));
      CopiesMember(p, KeyOf(d));
      assert p.Copies(KeyOf(d))[0] in p.Copies(KeyOf(d));
      assert p.Copies(KeyOf(d))[0] in p.OwnedIn(g);
    }
  }

  lemma RegularIsClear(p: Problem, current: seq<Endpoint>, g: Group)
    requires Adopts(p, current) && Agreeing(p, current, g) && Regular(p, g)
    ensures p.Resolve(g).Clear?
    ensures forall d :: d in p.DesiredIn(g) ==> p.UnownedOf(LogicalOf(d)) == []
  {
    NotRetargeted(p, current, g);
    ClearExactly(p, g);
    DesiredInMember(p);
    forall d | d in p.DesiredIn(g) ensures p.UnownedOf(LogicalOf(d)) == [] { NothingForeign(p, current, g, d); }
  }

  /** What restricted mode plans at a name that is not mismatched: a create for each desired record of a name without
      comparable rows, and nothing else. */
  ghost predicate CreatedAt(p: Problem, current: seq<Endpoint>, op: Operation) {
    op.Create? && p.Desires(op.desired) && NameRows(current, op.Name()) == []
  }

  lemma AbsentIsCreated(p: Problem, current: seq<Endpoint>, d: Endpoint)
    requires Adopts(p, current) && p.Desires(d) && NameRows(current, GroupOf(d)) == [] && Regular(p, GroupOf(d))
    ensures p.Count(Create(d)) == 1
  {
    var g := GroupOf(d);
    RegularIsClear(p, current, g);
    DesiredInMember(p);
    CopiesMember(p, KeyOf(d));
    EmptyOrFirst(p.Copies(KeyOf(d)));
    forall c | c in p.current && GroupOf(c) == g ensures !OwnedBy(c, p.owner) { NoRowAdopted(p, current, g, c); }
    assert p.Missing(d);
    forall c ensures !p.Paired(d, c) { if p.Paired(d, c) { SurplusRow(p, c); } }
  }

  /** The plan is exactly that. */
  lemma RestrictedExactly(p: Problem, current: seq<Endpoint>, op: Operation)
    requires Adopts(p, current) && !Mismatched(p.byKey, current, op.Name()) && Regular(p, op.Name())
    ensures p.Count(op) == if CreatedAt(p, current, op) then 1 else 0
  {
    var g := op.Name();
    if CreatedAt(p, current, op) { AbsentIsCreated(p, current, op.desired); }
    else if p.Count(op) > 0 {
      RestrictedPlan(p, current, op);
      if op.Conflict? { NoConflictLeft(p, current, op); }
    }
  }

  lemma NoConflictLeft(p: Problem, current: seq<Endpoint>, op: Operation)
    requires Adopts(p, current) && op.Conflict? && !Mismatched(p.byKey, current, op.Name()) && Regular(p, op.Name())
    ensures p.Count(op) == 0
  {
    if p.Desires(op.desired) {
      DesiredInMember(p);
      assert op.desired in p.DesiredIn(op.Name());
      NotMismatched(p, current, op.Name());
      RegularIsClear(p, current, op.Name());
    }
  }

  // ---- The operations that are returned -------------------------------------------------

  lemma ConflictOpName(p: Problem, current: seq<Endpoint>, conflicts: map<Group, NameConflict>, g: Group)
    requires p.Wf() && Conflicts(p, current, conflicts) && g in conflicts
    ensures ConflictOp(conflicts[g]).Name() == g
  {
    DesiredInMember(p);
    assert conflicts[g].desired in p.DesiredIn(g);
  }

  lemma FrontOnce(conflicts: map<Group, NameConflict>, names: seq<Group>, front: seq<Operation>, op: Operation)
    requires Distinct(names) && (forall g :: g in names <==> g in conflicts) && |front| == |names|
    requires forall i :: 0 <= i < |names| ==> front[i] == ConflictOp(conflicts[names[i]])
    requires forall g :: g in conflicts ==> ConflictOp(conflicts[g]).Name() == g
    ensures multiset(front)[op] == if op.Name() in conflicts && op == ConflictOp(conflicts[op.Name()]) then 1 else 0
  {
    assert forall i :: 0 <= i < |names| ==> names[i] in names && front[i].Name() == names[i];
    DistinctCount(front, op);
    if op.Name() in conflicts && op == ConflictOp(conflicts[op.Name()]) {
      var i :| 0 <= i < |names| && names[i] == op.Name();
      assert front[i] == op;
    }
  }

  /** Operations on other names are returned as often as they were planned. */
  lemma EnforcedCount(ops: seq<Operation>, conflicts: map<Group, NameConflict>, names: seq<Group>, r: seq<Operation>,
      op: Operation)
    requires Enforced(ops, conflicts, names, r) && op.Name() !in conflicts
    requires forall g :: g in conflicts ==> ConflictOp(conflicts[g]).Name() == g
    ensures multiset(r)[op] == multiset(ops)[op]
  {
    var n := |names|;
    assert r == r[..n] + r[n..];
    FilterCount(ops, (o: Operation) => o.Name() !in conflicts, op);
    FrontOnce(conflicts, names, r[..n], op);
  }

  /** A mismatched name has its one conflict and nothing else. */
  lemma EnforcedConflict(ops: seq<Operation>, conflicts: map<Group, NameConflict>, names: seq<Group>,
      r: seq<Operation>, op: Operation)
    requires Enforced(ops, conflicts, names, r) && op.Name() in conflicts
    requires forall g :: g in conflicts ==> ConflictOp(conflicts[g]).Name() == g
    ensures multiset(r)[op] == if op == ConflictOp(conflicts[op.Name()]) then 1 else 0
  {
    var n := |names|;
    assert r == r[..n] + r[n..];
    FilterCount(ops, (o: Operation) => o.Name() !in conflicts, op);
    FrontOnce(conflicts, names, r[..n], op);
  }

  /** The name is regular, and it is not desired, has no comparable row, or has exactly the desired ones. */
  ghost predicate Settles(p: Problem, rows: seq<Endpoint>, g: Group) {
    Regular(p, g) && (p.DesiredIn(g) == {} || Agreeing(p, rows, g))
  }

  lemma SettlesIsNoMismatch(p: Problem, rows: seq<Endpoint>, g: Group)
    requires p.Wf() && Settles(p, rows, g)
    ensures !Mismatched(p.byKey, rows, g)
  {
    DesiredNames(p, g);
  }

  /** The whole answer. A mismatched name has one conflict, on its first desired record and a first row, and nothing
      else. Any other name has what is planned for it. A regular name that is not desired, or whose rows are the desired
      ones, has nothing, and one without comparable rows has a create for each desired record. */
  ghost predicate Answers(p: Problem, rows: seq<Endpoint>, ops: seq<Operation>) {
    && (forall g :: Mismatched(p.byKey, rows, g) ==> exists c :: OnlyConflict(p, rows, ops, g, c))
    && (forall op: Operation :: !Mismatched(p.byKey, rows, op.Name()) ==> multiset(ops)[op] == p.Count(op))
    && (forall op: Operation :: Settles(p, rows, op.Name()) && p.owner != "" ==>
          multiset(ops)[op] == if CreatedAt(p, rows, op) then 1 else 0)
  }

  ghost predicate OnlyConflict(p: Problem, rows: seq<Endpoint>, ops: seq<Operation>, g: Group, c: NameConflict) {
    && IsConflictOf(p, g, NameRows(rows, g), c)
    && forall op: Operation :: op.Name() == g ==> multiset(ops)[op] == if op == ConflictOp(c) then 1 else 0
  }

  lemma AnswersMismatched(p: Problem, rows: seq<Endpoint>, planned: seq<Operation>,
      conflicts: map<Group, NameConflict>, names: seq<Group>, ops: seq<Operation>, g: Group)
    requires Conflicts(p, rows, conflicts) && Enforced(planned, conflicts, names, ops) && g in conflicts
    requires forall x :: x in conflicts ==> ConflictOp(conflicts[x]).Name() == x
    ensures OnlyConflict(p, rows, ops, g, conflicts[g])
  {
    forall op: Operation | op.Name() == g
      ensures multiset(ops)[op] == if op == ConflictOp(conflicts[g]) then 1 else 0
    {
      EnforcedConflict(planned, conflicts, names, ops, op);
    }
  }

  lemma SameConflicts(p: Problem, q: Problem, rows: seq<Endpoint>, conflicts: map<Group, NameConflict>)
    requires q.byKey == p.byKey && q.before == p.before && Conflicts(q, rows, conflicts)
    ensures Conflicts(p, rows, conflicts)
  {
    forall g ensures p.DesiredIn(g) == q.DesiredIn(g) {}
  }

  lemma AnswersAll(p: Problem, rows: seq<Endpoint>, planned: seq<Operation>, conflicts: map<Group, NameConflict>,
      names: seq<Group>, ops: seq<Operation>)
    requires p.Wf() && Conflicts(p, rows, conflicts)
    requires forall o: Operation {:trigger multiset(planned)[o]} :: multiset(planned)[o] == p.Count(o)
    requires p.current == Adopted(rows, p.byKey, p.owner, true) && Enforced(planned, conflicts, names, ops)
    ensures Answers(p, rows, ops)
  {
    forall g | g in conflicts ensures ConflictOp(conflicts[g]).Name() == g { ConflictOpName(p, rows, conflicts, g); }
    forall g | Mismatched(p.byKey, rows, g) ensures exists c :: OnlyConflict(p, rows, ops, g, c) {
      AnswersMismatched(p, rows, planned, conflicts, names, ops, g);
    }
    forall op: Operation | !Mismatched(p.byKey, rows, op.Name()) ensures multiset(ops)[op] == p.Count(op) {
      EnforcedCount(planned, conflicts, names, ops, op);
    }
    forall op: Operation | Settles(p, rows, op.Name()) && p.owner != ""
      ensures multiset(ops)[op] == if CreatedAt(p, rows, op) then 1 else 0
    {
      SettlesIsNoMismatch(p, rows, op.Name());
      RestrictedExactly(p, rows, op);
    }
  }

  lemma AnswersHarmless(p: Problem, current: seq<Endpoint>, ops: seq<Operation>, op: Operation)
    requires Adopts(p, current) && Answers(p, PlainRows(current), ops) && op in ops
    ensures Harmless(op, current)
  {
    assert op in multiset(ops);
    if !Mismatched(p.byKey, PlainRows(current), op.Name()) { PlannedIsHarmless(p, current, op); }
  }

  /** Adopt, plan, enforce. The listing ends as the adopted one and the operations are exactly the answer. With an owner
      ID that is not blank nothing existing is touched, whatever the cleanup policy. */
  method ReconcileRestricted(current: array<Endpoint>, desired: seq<Endpoint>, owner: string, cleanup: Cleanup,
      allowed: Endpoint -> bool)
    returns (ops: seq<Operation>)
    requires SeparableAll(desired)
    modifies current
    ensures current[..] == Adopted(old(current[..]), LastByKey(desired), owner, true)
    ensures Answers(PlanFor(desired, current[..], owner, cleanup, allowed), PlainRows(old(current[..])), ops)
    ensures owner != "" ==> forall op :: op in ops ==> Harmless(op, old(current[..]))
  {
    var conflicts := PrepareRestricted(current, desired, owner);
    var planned := BuildWithCleanupScope(desired, current[..], owner, cleanup, allowed);
    ops := EnforceConflicts(planned, conflicts);
    ghost var names :| Enforced(planned, conflicts, names, ops);
    ghost var p := PlanFor(desired, current[..], owner, cleanup, allowed);
    ghost var q := PlanFor(desired, [], owner, CleanupKeep, e => false);
    PlanForWf(desired, current[..], owner, cleanup, allowed);
    PlanForWf(desired, [], owner, CleanupKeep, e => false);
    AdoptedPlain(old(current[..]), p.byKey, owner);
    SameConflicts(p, q, PlainRows(old(current[..])), conflicts);
    AnswersAll(p, PlainRows(old(current[..])), planned, conflicts, names, ops);
    if owner != "" {
      forall op | op in ops ensures Harmless(op, old(current[..])) {
        AnswersHarmless(p, old(current[..]), ops, op);
      }
    }
  }

  /** Whatever is desired and listed, every planned operation outside the mismatched names is harmless. */
  ghost predicate AlwaysHarmless(owner: string) {
    forall p: Problem, current: seq<Endpoint>, op: Operation ::
      (p.Wf() && p.owner == owner && p.current == Adopted(current, p.byKey, owner, true)
      && p.Count(op) > 0 && !Mismatched(p.byKey, PlainRows(current), op.Name())) ==> Harmless(op, current)
  }

  lemma SurplusIsDeleted(p: Problem, row: Endpoint)
    requires p.byKey == map[] && p.current == [row] && p.cleanup == CleanupDelete && p.allowed(row)
      && OwnedBy(row, p.owner)
    ensures p.Count(Delete(row)) == 1
  {
    assert p.DesiredIn(GroupOf(row)) == {};
    assert forall d :: !p.Desires(d);
    assert multiset(p.current)[row] == 1;
    assert p.StaleCount(row) == 1;
    assert p.Cleans(row);
  }

  /** With a blank owner ID an undesired row is deleted: rows that were not adopted look owned. */
  lemma BlankOwnerDeletes()
    ensures !AlwaysHarmless("")
  {
    var row := Endpoint("example", "www.example", A, ["10.0.0.1"], 60, "", SourceRef("", "", "", "", ""), "7", false);
    var p := Problem(map[], [row], "", CleanupDelete, e => true, KeyBefore);
    KeyBeforeIsWeakOrder();
    SurplusIsDeleted(p, row);
    assert p.Wf() && p.current == Adopted([row], p.byKey, "", true);
    assert p.Count(Delete(row)) > 0 && !Harmless(Delete(row), [row]);
  }

  /** Restricted mode is safe for exactly the owner IDs that are not blank. */
  lemma HarmlessExactly(owner: string)
    ensures AlwaysHarmless(owner) <==> owner != ""
  {
    if owner == "" {
      BlankOwnerDeletes();
    } else {
      forall p: Problem, current: seq<Endpoint>, op: Operation
        | p.Wf() && p.owner == owner && p.current == Adopted(current, p.byKey, owner, true)
          && p.Count(op) > 0 && !Mismatched(p.byKey, PlainRows(current), op.Name())
        ensures Harmless(op, current)
      {
        PlannedIsHarmless(p, current, op);
      }
    }
  }
}
