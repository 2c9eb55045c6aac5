/** The planner's indexes and sorts: slices and maps filled in loops.
    Each is proved against the filters and orders of PlanSpec. */
module PlanIndex {
  import opened Text
  import opened Dns
  import opened PlanSpec

  lemma AppendKey(m: map<Key, seq<Endpoint>>, rows: seq<Endpoint>, e: Endpoint)
    requires forall k :: At(m, k) == KeyRows(rows, k)
    ensures forall k :: At(m[KeyOf(e) := At(m, KeyOf(e)) + [e]], k) == KeyRows(rows + [e], k)
  {
    forall k ensures KeyRows(rows + [e], k) == KeyRows(rows, k) + (if KeyOf(e) == k then [e] else []) {
      FilterAppend(rows, e, (x: Endpoint) => KeyOf(x) == k);
    }
  }

  lemma AppendLogical(m: map<Logical, seq<Endpoint>>, rows: seq<Endpoint>, e: Endpoint)
    requires forall l :: At(m, l) == LogicalRows(rows, l)
    ensures forall l :: At(m[LogicalOf(e) := At(m, LogicalOf(e)) + [e]], l) == LogicalRows(rows + [e], l)
  {
    forall l ensures LogicalRows(rows + [e], l) == LogicalRows(rows, l) + (if LogicalOf(e) == l then [e] else []) {
      FilterAppend(rows, e, (x: Endpoint) => LogicalOf(x) == l);
    }
  }

  lemma AppendGroup(m: map<Group, seq<Endpoint>>, rows: seq<Endpoint>, e: Endpoint)
    requires forall g :: At(m, g) == GroupRows(rows, g)
    ensures forall g :: At(m[GroupOf(e) := At(m, GroupOf(e)) + [e]], g) == GroupRows(rows + [e], g)
  {
    forall g ensures GroupRows(rows + [e], g) == GroupRows(rows, g) + (if GroupOf(e) == g then [e] else []) {
      FilterAppend(rows, e, (x: Endpoint) => GroupOf(x) == g);
    }
  }

  method IndexDesired(desired: seq<Endpoint>) returns (byKey: map<Key, Endpoint>)
    ensures byKey == LastByKey(desired)
  {
    byKey := map[];
    for i := 0 to |desired|
      invariant byKey == LastByKey(desired[..i])
    {
      byKey := byKey[KeyOf(desired[i]) := desired[i]];
      assert desired[..i + 1][..i] == desired[..i];
    }
    assert desired[..|desired|] == desired;
  }

  /** The rows of each key, (zone, name, type) and name, in listing order. */
  method IndexCurrent(current: seq<Endpoint>)
    returns (keys: map<Key, seq<Endpoint>>, logicals: map<Logical, seq<Endpoint>>, groups: map<Group, seq<Endpoint>>)
    ensures forall k :: At(keys, k) == KeyRows(current, k)
    ensures forall k :: k in keys ==> keys[k] != []
    ensures forall l :: At(logicals, l) == LogicalRows(current, l)
    ensures forall g :: At(groups, g) == GroupRows(current, g)
  {
    keys, logicals, groups := map[], map[], map[];
    for i := 0 to |current|
      invariant forall k :: At(keys, k) == KeyRows(current[..i], k)
      invariant forall k :: k in keys ==> keys[k] != []
      invariant forall l :: At(logicals, l) == LogicalRows(current[..i], l)
      invariant forall g :: At(groups, g) == GroupRows(current[..i], g)
    {
      var e := current[i];
      AppendKey(keys, current[..i], e);
      AppendLogical(logicals, current[..i], e);
      AppendGroup(groups, current[..i], e);
      assert current[..i] + [e] == current[..i + 1];
      keys := keys[KeyOf(e) := At(keys, KeyOf(e)) + [e]];
      logicals := logicals[LogicalOf(e) := At(logicals, LogicalOf(e)) + [e]];
      groups := groups[GroupOf(e) := At(groups, GroupOf(e)) + [e]];
    }
    assert current[..|current|] == current;
  }

  method GroupByLogical(rows: seq<Endpoint>) returns (m: map<Logical, seq<Endpoint>>)
    ensures forall l :: At(m, l) == LogicalRows(rows, l)
    ensures forall l :: l in m ==> m[l] != []
  {
    m := map[];
    for i := 0 to |rows|
      invariant forall l :: At(m, l) == LogicalRows(rows[..i], l)
      invariant forall l :: l in m ==> m[l] != []
    {
      AppendLogical(m, rows[..i], rows[i]);
      assert rows[..i] + [rows[i]] == rows[..i + 1];
      m := m[LogicalOf(rows[i]) := At(m, LogicalOf(rows[i])) + [rows[i]]];
    }
    assert rows[..|rows|] == rows;
  }

  lemma PreferredIsWeakOrder()
    ensures WeakOrder(Preferred)
  {
    forall a, b | Preferred(a, b) ensures !Preferred(b, a) {
      LessIrreflexive(a.providerID);
      if Preferred(b, a) { LessTransitive(a.providerID, b.providerID, a.providerID); }
    }
    forall a, b, c | !Preferred(b, a) && !Preferred(c, b) ensures !Preferred(c, a) {
      if HasId(a) == HasId(b) == HasId(c) { NotAfterTransitive(a.providerID, b.providerID, c.providerID); }
    }
  }

  /** Splits rows into owned and foreign ones; the owned ones come in order of preference. */
  method PartitionOwned(rows: seq<Endpoint>, owner: string) returns (owned: seq<Endpoint>, unowned: seq<Endpoint>)
    ensures unowned == UnownedRows(rows, owner)
    ensures multiset(owned) == multiset(OwnedRows(rows, owner)) && |owned| == |OwnedRows(rows, owner)|
    ensures SortedBy(owned, Preferred)
    ensures owned != [] ==> owned[0] == Head(OwnedRows(rows, owner))
  {
    PreferredIsWeakOrder();
    owned, unowned := [], [];
    for i := 0 to |rows|
      invariant unowned == UnownedRows(rows[..i], owner)
      invariant multiset(owned) == multiset(OwnedRows(rows[..i], owner)) && |owned| == |OwnedRows(rows[..i], owner)|
      invariant SortedBy(owned, Preferred)
      invariant owned != [] ==> owned[0] == Head(OwnedRows(rows[..i], owner))
    {
      assert rows[..i] + [rows[i]] == rows[..i + 1];
      FilterAppend(rows[..i], rows[i], (e: Endpoint) => OwnedBy(e, owner));
      FilterAppend(rows[..i], rows[i], (e: Endpoint) => !OwnedBy(e, owner));
      var before := OwnedRows(rows[..i], owner);
      if OwnedBy(rows[i], owner) {
        assert OwnedRows(rows[..i + 1], owner) == before + [rows[i]];
        HeadAppend(before, rows[i]);
        owned := InsertSorted(owned, rows[i], Preferred);
      } else {
        assert OwnedRows(rows[..i + 1], owner) == before;
        unowned := unowned + [rows[i]];
      }
    }
    assert rows[..|rows|] == rows;
  }
}
