/** The planner's name-level phases: desired records grouped per DNS name, CNAME
    conflicts, and CNAME transitions. Every range over a map takes an arbitrary order. */
module PlanNames {
  import opened Text
  import opened Dns
  import opened PlanSpec
  import opened PlanIndex

  function Elements(s: seq<Endpoint>): set<Endpoint> { set e | e in s }

  /** Desired records are told apart by their keys, so the first one is unique. */
  lemma FirstUnique(p: Problem, s: set<Endpoint>, d: Endpoint)
    requires p.Wf() && (forall x :: x in s ==> p.Desires(x))
    requires IsFirst(d, s, p.before)
    ensures d == First(s, p.before)
  {
  }

  lemma FirstPrecedes(p: Problem, s: set<Endpoint>)
    requires p.Wf() && s != {}
    ensures IsFirst(First(s, p.before), s, p.before)
  {
    FirstExists(s, p.before);
  }

  lemma DesiredInMember(p: Problem)
    requires p.Wf()
    ensures forall g, d :: d in p.DesiredIn(g) <==> p.Desires(d) && GroupOf(d) == g
  {
    forall g, d ensures d in p.DesiredIn(g) <==> p.Desires(d) && GroupOf(d) == g {
      if p.Desires(d) && GroupOf(d) == g { assert p.byKey[KeyOf(d)] in p.DesiredIn(g); }
    }
  }

  lemma {:induction false} DistinctSize(s: seq<Endpoint>)
    requires Distinct(s)
    ensures |Elements(s)| == |s|
  {
    if |s| > 0 {
      var t := s[..|s| - 1];
      DistinctSize(t);
      assert Elements(s) == Elements(t) + {s[|s| - 1]};
    }
  }

  /** Equal multisets of distinct elements: the sorted slice is again distinct. */
  lemma DistinctPermutation(s: seq<Endpoint>, r: seq<Endpoint>)
    requires Distinct(s) && multiset(s) == multiset(r)
    ensures Distinct(r) && Elements(r) == Elements(s)
  {
    forall i, j | 0 <= i < j < |r| ensures r[i] != r[j] {
      if r[i] == r[j] {
        CountAtLeast(r, i, j);
        DistinctCount(s, r[i]);
      }
    }
    forall e ensures e in r <==> e in s {
      assert e in r <==> e in multiset(r);
      assert e in s <==> e in multiset(s);
    }
  }

  /** What the grouping of desired records holds for one name. */
  ghost predicate GroupedName(p: Problem, g: Group, s: seq<Endpoint>) {
    && s != [] && Distinct(s) && Elements(s) == p.DesiredIn(g) && |s| == |p.DesiredIn(g)|
    && p.DesiredIn(g) != {} && s[0] == First(p.DesiredIn(g), p.before)
  }

  ghost predicate Grouped(p: Problem, groups: map<Group, seq<Endpoint>>) {
    && (forall g :: g in groups <==> p.DesiredIn(g) != {})
    && (forall g :: g in groups ==> GroupedName(p, g, groups[g]))
  }

  method SortGroup(p: Problem, g: Group, s: seq<Endpoint>) returns (r: seq<Endpoint>)
    requires p.Wf() && s != [] && Distinct(s) && Elements(s) == p.DesiredIn(g)
    ensures GroupedName(p, g, r)
  {
    r := SortStable(s, p.before);
    DistinctPermutation(s, r);
    DistinctSize(r);
    DesiredInMember(p);
    assert r[0] in Elements(r);
    forall x | x in p.DesiredIn(g) ensures !p.before(x, r[0]) {
      assert x in r;
      var i :| 0 <= i < |r| && r[i] == x;
      assert i == 0 || !p.before(r[i], r[0]);
    }
    FirstUnique(p, p.DesiredIn(g), r[0]);
  }

  /** The desired records outside `todo` are filed under their names, once each. */
  ghost predicate Filed(p: Problem, raw: map<Group, seq<Endpoint>>, todo: set<Key>) {
    && (forall g, d {:trigger d in At(raw, g)} ::
      d in At(raw, g) <==> p.Desires(d) && GroupOf(d) == g
                           && KeyOf(d) !in todo)
    && (forall g {:trigger At(raw, g)} :: Distinct(At(raw, g)))
    && (forall g :: g in raw ==> raw[g] != [])
  }

  lemma FileOne(p: Problem, raw: map<Group, seq<Endpoint>>, todo: set<Key>, k: Key)
    requires p.Wf() && Filed(p, raw, todo) && k in todo && k in p.byKey
    ensures var d := p.byKey[k]; Filed(p, raw[GroupOf(d) := At(raw, GroupOf(d)) + [d]], todo - {k})
  {
    var d := p.byKey[k];
    var raw' := raw[GroupOf(d) := At(raw, GroupOf(d)) + [d]];
    assert p.Desires(d) && d !in At(raw, GroupOf(d));
    forall g ensures At(raw', g) == At(raw, g) + (if g == GroupOf(d) then [d] else []) {}
    forall g ensures Distinct(At(raw', g)) { assert Distinct(At(raw, g)); }
    forall g, x ensures x in At(raw', g) <==> p.Desires(x) && GroupOf(x) == g && KeyOf(x) !in todo - {k} {
      FileOneMember(p, raw, todo, k, g, x);
    }
  }

  lemma FileOneMember(p: Problem, raw: map<Group, seq<Endpoint>>, todo: set<Key>, k: Key, g: Group, x: Endpoint)
    requires p.Wf() && Filed(p, raw, todo) && k in todo && k in p.byKey
    ensures var d := p.byKey[k];
            x in At(raw[GroupOf(d) := At(raw, GroupOf(d)) + [d]], g) <==>
              p.Desires(x) && GroupOf(x) == g && KeyOf(x) !in todo - {k}
  {
    var d := p.byKey[k];
    var raw' := raw[GroupOf(d) := At(raw, GroupOf(d)) + [d]];
    assert x in At(raw', g) <==> x in At(raw, g) || (g == GroupOf(d) && x == d);
  }

  /** Files every desired record under its name. */
  method CollectByName(p: Problem) returns (raw: map<Group, seq<Endpoint>>)
    requires p.Wf()
    ensures forall g :: Elements(At(raw, g)) == p.DesiredIn(g) && Distinct(At(raw, g))
    ensures forall g :: g in raw ==> raw[g] != []
  {
    DesiredInMember(p);
    raw := map[];
    var todo := p.byKey.Keys;
    while todo != {}
      invariant todo <= p.byKey.Keys && Filed(p, raw, todo)
    {
      var k :| k in todo;
      FileOne(p, raw, todo, k);
      todo := todo - {k};
      raw := raw[GroupOf(p.byKey[k]) := At(raw, GroupOf(p.byKey[k])) + [p.byKey[k]]];
    }
    forall g ensures Elements(At(raw, g)) == p.DesiredIn(g) {
      forall x ensures x in Elements(At(raw, g)) <==> x in p.DesiredIn(g) {
        assert x in At(raw, g) <==> p.Desires(x) && GroupOf(x) == g;
      }
    }
  }

  /** The desired records of each name, sorted by key. */
  method GroupDesired(p: Problem) returns (groups: map<Group, seq<Endpoint>>)
    requires p.Wf()
    ensures Grouped(p, groups)
  {
    var raw := CollectByName(p);
    groups := map[];
    var names := raw.Keys;
    while names != {}
      invariant names <= raw.Keys
      invariant groups.Keys == raw.Keys - names
      invariant forall g :: g in groups ==> GroupedName(p, g, groups[g])
    {
      var g :| g in names;
      names := names - {g};
      assert Elements(At(raw, g)) == p.DesiredIn(g);
      var sorted := SortGroup(p, g, raw[g]);
      groups := groups[g := sorted];
    }
    forall g ensures g in groups <==> p.DesiredIn(g) != {} {
      assert Elements(At(raw, g)) == p.DesiredIn(g);
      if g !in raw { assert At(raw, g) == []; }
    }
  }

  predicate HasTypeClash(s: seq<Endpoint>) {
    exists i, j :: 0 <= i < j < |s| && Clash(s[i].recordType, s[j].recordType)
  }

  lemma TypeClashAgrees(s: seq<Endpoint>)
    ensures HasTypeClash(s) <==> TypeClash(Elements(s))
  {
    if TypeClash(Elements(s)) {
      var a, b :| a in Elements(s) && b in Elements(s) && Clash(a.recordType, b.recordType);
      var i :| 0 <= i < |s| && s[i] == a;
      var j :| 0 <= j < |s| && s[j] == b;
      if i < j {
        assert Clash(s[i].recordType, s[j].recordType);
      } else {
        assert Clash(s[j].recordType, s[i].recordType);
      }
    }
    if HasTypeClash(s) {
      var i, j :| 0 <= i < j < |s| && Clash(s[i].recordType, s[j].recordType);
      assert s[i] in Elements(s) && s[j] in Elements(s);
    }
  }

  /** Counts CNAME records until a second one, or one with several targets, shows up. */
  method HasManyCnameTargets(s: seq<Endpoint>) returns (many: bool)
    requires Distinct(s)
    ensures many <==> ManyCnameTargets(Elements(s))
  {
    var cnames := 0;
    ghost var seen := -1;
    for i := 0 to |s|
      invariant cnames == 0 <==> (forall j :: 0 <= j < i ==> s[j].recordType != CNAME)
      invariant cnames == 0 || cnames == 1
      invariant cnames == 1 ==> 0 <= seen < i && s[seen].recordType == CNAME && |s[seen].targets| <= 1
      invariant cnames == 1 ==> forall j :: 0 <= j < i && s[j].recordType == CNAME ==> j == seen
    {
      if s[i].recordType == CNAME {
        cnames := cnames + 1;
        if cnames > 1 || |s[i].targets| > 1 {
          assert s[i] in Elements(s);
          if cnames > 1 { assert s[seen] in Elements(s) && s[seen] != s[i]; }
          return true;
        }
        seen := i;
      }
    }
    return false;
  }

  /** The conflicts that the desired records of a name cause by themselves. */
  ghost function SelfConflict(p: Problem, g: Group): Option<Operation> {
    var s := p.DesiredIn(g);
    if s == {} then None
    else if TypeClash(s) then Some(Conflict(First(s, p.before), None, CnameAndOther))
    else if ManyCnameTargets(s) then Some(Conflict(First(s, p.before), None, CnameManyTargets))
    else None
  }

  function Lookup(m: map<Group, Operation>, g: Group): Option<Operation> { if g in m then Some(m[g]) else None }

  method DecideSelfConflict(p: Problem, g: Group, s: seq<Endpoint>) returns (found: Option<Operation>)
    requires GroupedName(p, g, s)
    ensures found == SelfConflict(p, g)
  {
    TypeClashAgrees(s);
    var many := HasManyCnameTargets(s);
    if HasTypeClash(s) { return Some(Conflict(s[0], None, CnameAndOther)); }
    if many { return Some(Conflict(s[0], None, CnameManyTargets)); }
    return None;
  }

  lemma UndesiredHasNone(p: Problem, g: Group)
    requires p.DesiredIn(g) == {}
    ensures SelfConflict(p, g).None?
  {
  }

  method DesiredConflicts(p: Problem, groups: map<Group, seq<Endpoint>>) returns (conflicts: map<Group, Operation>)
    requires forall g {:trigger groups[g]} :: g in groups ==> GroupedName(p, g, groups[g])
    requires forall g :: g !in groups ==> p.DesiredIn(g) == {}
    ensures forall g {:trigger Lookup(conflicts, g)} :: Lookup(conflicts, g) == SelfConflict(p, g)
  {
    conflicts := map[];
    var todo := groups.Keys;
    forall g | g !in todo ensures Lookup(conflicts, g) == SelfConflict(p, g) { UndesiredHasNone(p, g); }
    while todo != {}
      invariant todo <= groups.Keys
      invariant forall g {:trigger Lookup(conflicts, g)} :: g !in todo ==> Lookup(conflicts, g) == SelfConflict(p, g)
      invariant conflicts.Keys !! todo
    {
      var g :| g in todo;
      todo := todo - {g};
      var found := DecideSelfConflict(p, g, groups[g]);
      ghost var before := conflicts;
      if found.Some? { conflicts := conflicts[g := found.value]; }
      forall h | h !in todo ensures Lookup(conflicts, h) == SelfConflict(p, h) {
        assert h != g ==> Lookup(conflicts, h) == Lookup(before, h);
      }
    }
  }

  /** The clashing records of a name whose keys have been visited. */
  ghost function Visited(p: Problem, g: Group, todo: set<Key>): set<Endpoint> {
    set d | d in p.Clashing(g) && KeyOf(d) !in todo
  }

  ghost function ConflictSoFar(p: Problem, g: Group, todo: set<Key>): Option<Operation> {
    if SelfConflict(p, g).Some? then SelfConflict(p, g)
    else if Visited(p, g, todo) == {} then None
    else
      var d := First(Visited(p, g, todo), p.before);
      Some(Conflict(d, FirstClash(d, p.UnownedIn(g)), CnameUnowned))
  }

  lemma VisitedGrows(p: Problem, g: Group, todo: set<Key>, d: Endpoint)
    requires p.Wf() && d in p.Clashing(g)
    ensures Visited(p, g, todo - {KeyOf(d)}) == Visited(p, g, todo) + {d}
    ensures forall x :: x in Visited(p, g, todo) + {d} ==> p.Desires(x)
  {
    DesiredInMember(p);
  }

  /** The first of a set with one more member. */
  lemma FirstOfLarger(p: Problem, s: set<Endpoint>, d: Endpoint)
    requires p.Wf() && s != {} && forall x :: x in s + {d} ==> p.Desires(x)
    ensures First(s + {d}, p.before) == if p.before(d, First(s, p.before)) then d else First(s, p.before)
  {
    FirstPrecedes(p, s);
    var f := First(s, p.before);
    if p.before(d, f) {
      forall x | x in s + {d} ensures !p.before(x, d) { assert Chain(d, f, x) && Chain(f, x, d) && Chain(x, f, d); }
      FirstUnique(p, s + {d}, d);
    } else {
      FirstUnique(p, s + {d}, f);
    }
  }

  /** One more clashing record replaces the recorded conflict exactly when its key is smaller. */
  lemma ConflictStep(p: Problem, g: Group, todo: set<Key>, d: Endpoint)
    requires p.Wf() && d in p.Clashing(g) && KeyOf(d) in todo
    ensures ConflictSoFar(p, g, todo).Some? ==> ConflictSoFar(p, g, todo).value.Conflict?
    ensures ConflictSoFar(p, g, todo - {KeyOf(d)}) ==
      if ConflictSoFar(p, g, todo).Some? && !p.before(d, ConflictSoFar(p, g, todo).value.desired)
      then ConflictSoFar(p, g, todo)
      else Some(Conflict(d, FirstClash(d, p.UnownedIn(g)), CnameUnowned))
  {
    VisitedGrows(p, g, todo, d);
    if SelfConflict(p, g).Some? {
      FirstPrecedes(p, p.DesiredIn(g));
    } else if Visited(p, g, todo) == {} {
      FirstUnique(p, {d}, d);
      assert Visited(p, g, todo) + {d} == {d};
    } else {
      FirstOfLarger(p, Visited(p, g, todo), d);
    }
  }

  lemma ConflictUnaffected(p: Problem, g: Group, todo: set<Key>, k: Key)
    requires p.Wf() && k in p.byKey && p.byKey[k] !in p.Clashing(g)
    ensures ConflictSoFar(p, g, todo - {k}) == ConflictSoFar(p, g, todo)
  {
    DesiredInMember(p);
    assert Visited(p, g, todo - {k}) == Visited(p, g, todo);
  }

  /** The conflict of d's name once d has been looked at too. */
  method VisitRecord(p: Problem, d: Endpoint, nameRows: seq<Endpoint>, known: Option<Operation>, ghost todo: set<Key>)
    returns (found: Option<Operation>)
    requires p.Wf() && p.Desires(d) && KeyOf(d) in todo
    requires nameRows == GroupRows(p.current, GroupOf(d))
    requires known == ConflictSoFar(p, GroupOf(d), todo)
    ensures found == ConflictSoFar(p, GroupOf(d), todo - {KeyOf(d)})
  {
    DesiredInMember(p);
    var _, unowned := PartitionOwned(nameRows, p.owner);
    var clash := FirstClash(d, unowned);
    if clash.None? {
      ConflictUnaffected(p, GroupOf(d), todo, KeyOf(d));
      return known;
    }
    ConflictStep(p, GroupOf(d), todo, d);
    if known.None? || p.before(d, known.value.desired) { return Some(Conflict(d, clash, CnameUnowned)); }
    return known;
  }

  lemma NothingVisited(p: Problem, g: Group)
    requires p.Wf()
    ensures ConflictSoFar(p, g, p.byKey.Keys) == SelfConflict(p, g)
    ensures ConflictSoFar(p, g, {}) == p.NameConflict(g)
  {
    DesiredInMember(p);
    assert Visited(p, g, p.byKey.Keys) == {};
    assert Visited(p, g, {}) == p.Clashing(g);
  }

  lemma OtherName(p: Problem, g: Group, todo: set<Key>, k: Key)
    requires p.Wf() && k in p.byKey && GroupOf(p.byKey[k]) != g
    ensures ConflictSoFar(p, g, todo - {k}) == ConflictSoFar(p, g, todo)
  {
    DesiredInMember(p);
    ConflictUnaffected(p, g, todo, k);
  }

  /** Adds the conflicts with foreign rows; of several for one name the least key is reported. */
  method UnownedConflicts(p: Problem, byGroup: map<Group, seq<Endpoint>>, base: map<Group, Operation>)
    returns (conflicts: map<Group, Operation>)
    requires p.Wf()
    requires forall g {:trigger At(byGroup, g)} :: At(byGroup, g) == GroupRows(p.current, g)
    requires forall g {:trigger Lookup(base, g)} :: Lookup(base, g) == SelfConflict(p, g)
    ensures forall g {:trigger Lookup(conflicts, g)} :: Lookup(conflicts, g) == p.NameConflict(g)
  {
    conflicts := base;
    var todo := p.byKey.Keys;
    forall g ensures Lookup(conflicts, g) == ConflictSoFar(p, g, todo) { NothingVisited(p, g); }
    while todo != {}
      invariant todo <= p.byKey.Keys
      invariant forall g {:trigger Lookup(conflicts, g)} :: Lookup(conflicts, g) == ConflictSoFar(p, g, todo)
    {
      var k :| k in todo;
      var g := GroupOf(p.byKey[k]);
      var found := VisitRecord(p, p.byKey[k], At(byGroup, g), Lookup(conflicts, g), todo);
      ghost var before := conflicts;
      if found.Some? { conflicts := conflicts[g := found.value]; }
      forall h ensures Lookup(conflicts, h) == ConflictSoFar(p, h, todo - {k}) {
        if h != g {
          OtherName(p, h, todo, k);
          assert Lookup(before, h) == ConflictSoFar(p, h, todo);
        } else {
          assert Lookup(before, g) == ConflictSoFar(p, g, todo);
          if Lookup(before, g).Some? { KnownStays(p, g, todo, k); }
        }
      }
      todo := todo - {k};
    }
    forall g ensures Lookup(conflicts, g) == p.NameConflict(g) { NothingVisited(p, g); }
  }

  /** A recorded conflict is replaced, never withdrawn. */
  lemma KnownStays(p: Problem, g: Group, todo: set<Key>, k: Key)
    requires p.Wf() && ConflictSoFar(p, g, todo).Some?
    ensures ConflictSoFar(p, g, todo - {k}).Some?
  {
    if SelfConflict(p, g).None? {
      var d :| d in Visited(p, g, todo);
      assert d in Visited(p, g, todo - {k});
    }
  }

  /** A desired key that is already present needs no second CNAME create. */
  method NeedsRetarget(s: seq<Endpoint>, owned: seq<Endpoint>) returns (needs: bool)
    requires s != [] && Distinct(s)
    ensures needs <==> RetargetsCname(Elements(s), owned)
  {
    DistinctSize(s);
    if |s| != 1 || s[0].recordType != CNAME {
      forall d | Elements(s) == {d} ensures |s| == 1 && d == s[0] {
        assert s[0] in Elements(s);
      }
      return false;
    }
    assert Elements(s) == {s[0]};
    var hasCname := false;
    for i := 0 to |owned|
      invariant forall j :: 0 <= j < i ==> KeyOf(owned[j]) != KeyOf(s[0])
      invariant hasCname <==> exists j :: 0 <= j < i && owned[j].recordType == CNAME
    {
      if KeyOf(owned[i]) == KeyOf(s[0]) {
        assert forall d :: Elements(s) == {d} ==> d == s[0];
        return false;
      }
      hasCname := hasCname || owned[i].recordType == CNAME;
    }
    needs := hasCname;
    assert forall d :: Elements(s) == {d} ==> d == s[0];
  }

  predicate HasTypeTransition(s: seq<Endpoint>, owned: seq<Endpoint>) {
    exists i, j :: 0 <= i < |s| && 0 <= j < |owned| && Clash(s[i].recordType, owned[j].recordType)
  }

  lemma TypeTransitionAgrees(s: seq<Endpoint>, owned: seq<Endpoint>)
    ensures HasTypeTransition(s, owned) <==> ChangesCnameType(Elements(s), owned)
  {
    if HasTypeTransition(s, owned) {
      var i, j :| 0 <= i < |s| && 0 <= j < |owned| && Clash(s[i].recordType, owned[j].recordType);
      assert s[i] in Elements(s) && owned[j] in owned;
    }
    if ChangesCnameType(Elements(s), owned) {
      var d, e :| d in Elements(s) && e in owned && Clash(d.recordType, e.recordType);
      var i :| 0 <= i < |s| && s[i] == d;
      var j :| 0 <= j < |owned| && owned[j] == e;
      assert Clash(s[i].recordType, owned[j].recordType);
    }
  }

  /** Predicates over owned rows do not depend on their order. */
  lemma OwnedOrderIrrelevant(s: set<Endpoint>, a: seq<Endpoint>, b: seq<Endpoint>)
    requires multiset(a) == multiset(b)
    ensures RetargetsCname(s, a) <==> RetargetsCname(s, b)
    ensures ChangesCnameType(s, a) <==> ChangesCnameType(s, b)
    ensures |a| == |b| && (|a| == 1 ==> a[0] == b[0])
  {
    forall e ensures e in a <==> e in b {
      assert e in a <==> e in multiset(a);
      assert e in b <==> e in multiset(b);
    }
    assert |a| == |multiset(a)| && |b| == |multiset(b)|;
    if |a| == 1 { assert a[0] in b; }
  }

  /** The transition decision for one name, given its owned rows and the foreign rows of its first record's type. */
  method DecideTransition(p: Problem, g: Group, s: seq<Endpoint>, owned: seq<Endpoint>, foreign: seq<Endpoint>)
    returns (decision: Option<Operation>)
    requires GroupedName(p, g, s)
    requires multiset(owned) == multiset(p.OwnedIn(g))
      && (owned != [] ==> p.OwnedIn(g) != [] && owned[0] == Head(p.OwnedIn(g)))
    requires foreign == p.UnownedOf(LogicalOf(s[0]))
    ensures decision == p.Transition(g)
  {
    OwnedOrderIrrelevant(Elements(s), owned, p.OwnedIn(g));
    var retargets := NeedsRetarget(s, owned);
    TypeTransitionAgrees(s, owned);
    if !retargets && !HasTypeTransition(s, owned) {
      decision := None;
    } else if |s| == 1 && foreign != [] {
      decision := Some(Conflict(s[0], Some(foreign[0]), LogicalUnowned));
    } else if |s| == 1 && |owned| == 1 && HasId(owned[0]) && p.allowed(owned[0])
      && (!retargets || p.cleanup == CleanupDelete) {
      decision := Some(Replace(s[0], owned[0], if retargets then TargetChanged else TypeChanged));
    } else {
      decision := Some(Conflict(s[0], if owned != [] then Some(owned[0]) else None,
                                if retargets then CnameTargetRetained else CnameTypeAmbiguous));
    }
  }

  /** What the two decision maps hold for one name. */
  predicate Agrees(r: Resolution, conflict: Option<Operation>, replacement: Option<Operation>) {
    match r
    case Clear => conflict.None? && replacement.None?
    case Settled(op) =>
      if op.Conflict? then conflict == Some(op) && replacement.None?
      else op.Replace? && conflict.None? && replacement == Some(op)
  }

  /** Which names are stopped by a conflict and which are served by a keyed replacement. */
  ghost predicate Resolved(p: Problem, conflicts: map<Group, Operation>, replacements: map<Group, Operation>) {
    forall g {:trigger Lookup(conflicts, g)} :: Agrees(p.Resolve(g), Lookup(conflicts, g), Lookup(replacements, g))
  }

  /** Both decisions for one name, from its conflict if it has one, else from its transition. */
  method DecideName(p: Problem, g: Group, s: seq<Endpoint>, nameRows: seq<Endpoint>, typeRows: seq<Endpoint>,
      known: Option<Operation>)
    returns (conflict: Option<Operation>, replacement: Option<Operation>)
    requires GroupedName(p, g, s)
    requires nameRows == GroupRows(p.current, g)
    requires typeRows == LogicalRows(p.current, LogicalOf(s[0]))
    requires known == p.NameConflict(g)
    ensures Agrees(p.Resolve(g), conflict, replacement)
  {
    if known.Some? { return known, None; }
    var owned, _ := PartitionOwned(nameRows, p.owner);
    var _, foreign := PartitionOwned(typeRows, p.owner);
    var decision := DecideTransition(p, g, s, owned, foreign);
    if decision.Some? && decision.value.Replace? { return None, decision; }
    return decision, None;
  }

  lemma UndesiredIsClear(p: Problem, g: Group)
    requires p.DesiredIn(g) == {}
    ensures p.Resolve(g).Clear? && p.NameConflict(g).None?
  {
  }

  method CnameTransitions(
      p: Problem, groups: map<Group, seq<Endpoint>>, byGroup: map<Group, seq<Endpoint>>,
      byLogical: map<Logical, seq<Endpoint>>, base: map<Group, Operation>)
    returns (conflicts: map<Group, Operation>, replacements: map<Group, Operation>)
    requires forall g {:trigger groups[g]} :: g in groups ==> GroupedName(p, g, groups[g])
    requires forall g :: g !in groups ==> p.DesiredIn(g) == {}
    requires forall g {:trigger At(byGroup, g)} :: At(byGroup, g) == GroupRows(p.current, g)
    requires forall l {:trigger At(byLogical, l)} :: At(byLogical, l) == LogicalRows(p.current, l)
    requires forall g {:trigger Lookup(base, g)} :: Lookup(base, g) == p.NameConflict(g)
    ensures Resolved(p, conflicts, replacements)
  {
    conflicts, replacements := map[], map[];
    var todo := groups.Keys;
    forall g | g !in todo ensures Agrees(p.Resolve(g), Lookup(conflicts, g), Lookup(replacements, g)) {
      UndesiredIsClear(p, g);
    }
    while todo != {}
      invariant todo <= groups.Keys
      invariant forall g :: g in todo ==> g !in conflicts && g !in replacements
      invariant forall g {:trigger Lookup(conflicts, g)} :: g !in todo ==>
        Agrees(p.Resolve(g), Lookup(conflicts, g), Lookup(replacements, g))
    {
      var g :| g in todo;
      todo := todo - {g};
      var conflict, replacement := DecideName(p, g, groups[g], At(byGroup, g), At(byLogical, LogicalOf(groups[g][0])),
        Lookup(base, g));
      ghost var c0, r0 := conflicts, replacements;
      if conflict.Some? { conflicts := conflicts[g := conflict.value]; }
      if replacement.Some? { replacements := replacements[g := replacement.value]; }
      forall h | h !in todo ensures Agrees(p.Resolve(h), Lookup(conflicts, h), Lookup(replacements, h)) {
        assert h != g ==> Lookup(conflicts, h) == Lookup(c0, h) && Lookup(replacements, h) == Lookup(r0, h);
      }
    }
  }
}
