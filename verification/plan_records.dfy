/** The planner's desired-record loop: every desired record becomes a conflict, an update,
    a create candidate or nothing, and surplus copies of its row become cleanup candidates. */
module PlanRecords {
  import opened Text
  import opened Dns
  import opened PlanSpec
  import opened PlanIndex
  import opened PlanNames

  lemma CleanIsNoConflict(p: Problem, d: Endpoint)
    requires p.Clean(d)
    ensures !p.LogicalConflict(LogicalOf(d))
  {
  }

  lemma {:induction false} TailCount<T>(s: seq<T>, x: T)
    requires s != []
    ensures multiset(s[1..])[x] == multiset(s)[x] - (if x == s[0] then 1 else 0)
  {
    assert s == [s[0]] + s[1..];
  }

  lemma CopiesMember(p: Problem, k: Key)
    ensures forall c :: c in p.Copies(k) <==> c in p.current && KeyOf(c) == k && OwnedBy(c, p.owner)
  {
    RowsMember(p.current, p.owner);
    RowsMember(KeyRows(p.current, k), p.owner);
  }

  /** Surplus copies of a record: those behind the kept one that cleanup may touch. */
  method Surplus(owned: seq<Endpoint>, allowed: Endpoint -> bool) returns (stale: seq<Endpoint>)
    requires owned != []
    ensures stale == Filter(owned[1..], allowed)
  {
    stale := [];
    for i := 1 to |owned|
      invariant stale == Filter(owned[1..i], allowed)
    {
      assert owned[1..i] + [owned[i]] == owned[1..i + 1];
      FilterAppend(owned[1..i], owned[i], allowed);
      if allowed(owned[i]) { stale := stale + [owned[i]]; }
    }
    assert owned[1..|owned|] == owned[1..];
  }

  lemma OwnedAreCopies(p: Problem, d: Endpoint, owned: seq<Endpoint>, c: Endpoint)
    requires owned != [] && multiset(owned) == multiset(p.Copies(KeyOf(d)))
    ensures c in owned <==> c in p.current && OwnedBy(c, p.owner) && KeyOf(c) == KeyOf(d)
    ensures c in owned ==> multiset(owned)[c] == multiset(p.current)[c]
  {
    CopiesMember(p, KeyOf(d));
    assert c in multiset(owned) <==> c in p.Copies(KeyOf(d));
    if c in owned { CopiesCount(p, c); }
  }

  lemma SurplusCount(p: Problem, d: Endpoint, owned: seq<Endpoint>, c: Endpoint)
    requires p.Clean(d) && owned != []
    requires multiset(owned) == multiset(p.Copies(KeyOf(d))) && p.Copies(KeyOf(d)) != []
      && owned[0] == Head(p.Copies(KeyOf(d)))
    ensures multiset(Filter(owned[1..], p.allowed))[c] == if KeyOf(c) == KeyOf(d) then p.StaleCount(c) else 0
  {
    FilterCount(owned[1..], p.allowed, c);
    TailCount(owned, c);
    OwnedAreCopies(p, d, owned, c);
    if KeyOf(c) == KeyOf(d) { CleanIsNoConflict(p, d); }
  }

  /** What is counted for a desired record of a clear name, case by case. */
  lemma RecordCount(p: Problem, d: Endpoint, o: Operation)
    requires p.Desires(d) && p.Resolve(GroupOf(d)).Clear? && (o.Conflict? || o.Update?) && o.desired == d
    ensures p.Foreign(d) ==> (p.Count(o) == 1 <==> o == Conflict(d, Some(p.UnownedOf(LogicalOf(d))[0]), LogicalUnowned))
    ensures p.Missing(d) ==> p.Count(o) == 0
    ensures p.Clean(d) && !p.Missing(d) ==>
      (p.Count(o) == 1 <==> o == Update(d, Head(p.Copies(KeyOf(d)))) && !EqualRecord(Head(p.Copies(KeyOf(d))), d))
  {
  }

  /** Reconciles one desired record whose name has no conflict and no replacement. */
  method ReconcileRecord(p: Problem, d: Endpoint, typeRows: seq<Endpoint>, keyRows: seq<Endpoint>)
    returns (op: Option<Operation>, missing: bool, foreign: bool, stale: seq<Endpoint>)
    requires p.Desires(d) && p.Resolve(GroupOf(d)).Clear?
    requires typeRows == LogicalRows(p.current, LogicalOf(d)) && keyRows == KeyRows(p.current, KeyOf(d))
    ensures forall o: Operation :: op == Some(o) <==> (o.Conflict? || o.Update?) && o.desired == d && p.Count(o) == 1
    ensures missing <==> p.Missing(d)
    ensures foreign <==> p.Foreign(d)
    ensures forall c :: multiset(stale)[c] == if KeyOf(c) == KeyOf(d) then p.StaleCount(c) else 0
  {
    op, missing, foreign, stale := None, false, false, [];
    var _, unowned := PartitionOwned(typeRows, p.owner);
    var owned, _ := PartitionOwned(keyRows, p.owner);
    if unowned != [] {
      op, foreign := Some(Conflict(d, Some(unowned[0]), LogicalUnowned)), true;
      forall c | KeyOf(c) == KeyOf(d) ensures p.StaleCount(c) == 0 { NothingStale(p, d, c); }
    } else if owned == [] {
      missing := true;
      forall c | KeyOf(c) == KeyOf(d) ensures p.StaleCount(c) == 0 { NothingStale(p, d, c); }
    } else {
      if !EqualRecord(owned[0], d) { op := Some(Update(d, owned[0])); }
      stale := Surplus(owned, p.allowed);
      forall c ensures multiset(stale)[c] == if KeyOf(c) == KeyOf(d) then p.StaleCount(c) else 0 {
        SurplusCount(p, d, owned, c);
      }
    }
    forall o: Operation ensures op == Some(o) <==> (o.Conflict? || o.Update?) && o.desired == d && p.Count(o) == 1 {
      if (o.Conflict? || o.Update?) && o.desired == d { RecordCount(p, d, o); }
    }
  }

  lemma NothingStale(p: Problem, d: Endpoint, c: Endpoint)
    requires (p.Foreign(d) || p.Missing(d)) && KeyOf(c) == KeyOf(d)
    ensures p.StaleCount(c) == 0
  {
    CopiesMember(p, KeyOf(d));
    assert LogicalOf(c) == LogicalOf(d);
  }

  /** The desired-record loop has reached what o reports: any record of a settled name, else o's own record. */
  ghost predicate Reached(p: Problem, todo: set<Key>, o: Operation)
    requires o.Conflict? || o.Update?
  {
    if p.Resolve(GroupOf(o.desired)).Settled?
    then exists k :: k in p.byKey && k !in todo && GroupOf(p.byKey[k]) == GroupOf(o.desired)
    else KeyOf(o.desired) !in todo
  }

  ghost function Emitted(p: Problem, todo: set<Key>, o: Operation): nat {
    if (o.Conflict? || o.Update?) && p.Count(o) == 1 && Reached(p, todo, o) then 1 else 0
  }

  /** One record of the desired-record loop; `reported` tells whether its name's conflict is out already. */
  method VisitDesired(
      p: Problem, k: Key, conflict: Option<Operation>, replacement: Option<Operation>, reported: bool,
      typeRows: seq<Endpoint>, keyRows: seq<Endpoint>, ghost todo: set<Key>)
    returns (added: seq<Operation>, missing: bool, foreign: bool, stale: seq<Endpoint>)
    requires p.Wf() && k in todo && todo <= p.byKey.Keys
    requires Agrees(p.Resolve(GroupOf(p.byKey[k])), conflict, replacement)
    requires conflict.Some? ==> (reported <==>
      exists j :: j in p.byKey && j !in todo
                  && GroupOf(p.byKey[j]) == GroupOf(p.byKey[k]))
    requires typeRows == LogicalRows(p.current, LogicalOf(p.byKey[k])) && keyRows == KeyRows(p.current, k)
    ensures forall o: Operation :: multiset(added)[o] == Emitted(p, todo - {k}, o) - Emitted(p, todo, o)
    ensures missing <==> p.Missing(p.byKey[k])
    ensures foreign <==> p.Foreign(p.byKey[k])
    ensures forall c :: multiset(stale)[c] == if KeyOf(c) == k then p.StaleCount(c) else 0
  {
    var d := p.byKey[k];
    var g := GroupOf(d);
    added, missing, foreign, stale := [], false, false, [];
    if conflict.Some? {
      if !reported { added := [conflict.value]; }
      SettledStep(p, k, todo, conflict.value, reported);
    } else if replacement.Some? {
      ReplacedStep(p, k, todo, replacement.value);
    } else {
      var op, m, f, s := ReconcileRecord(p, d, typeRows, keyRows);
      missing, foreign, stale := m, f, s;
      if op.Some? { added := [op.value]; }
      ClearStep(p, k, todo);
      assert forall o: Operation :: multiset(added)[o] == if op == Some(o) then 1 else 0;
    }
  }

  lemma CountAtMostOne(p: Problem, o: Operation)
    requires o.Conflict? || o.Update?
    ensures p.Count(o) <= 1
  {
  }

  lemma SettledStep(p: Problem, k: Key, todo: set<Key>, op: Operation, reported: bool)
    requires p.Wf() && k in todo && todo <= p.byKey.Keys
    requires op.Conflict? && p.Resolve(GroupOf(p.byKey[k])) == Settled(op)
    requires reported <==> exists j :: j in p.byKey && j !in todo && GroupOf(p.byKey[j]) == GroupOf(p.byKey[k])
    ensures forall o: Operation ::
      Emitted(p, todo - {k}, o) - Emitted(p, todo, o) == if o == op && !reported then 1 else 0
    ensures forall c :: KeyOf(c) == k ==> p.StaleCount(c) == 0
  {
    var g := GroupOf(p.byKey[k]);
    SettledName(p, g);
    forall o: Operation
      ensures Emitted(p, todo - {k}, o) - Emitted(p, todo, o) == if o == op && !reported then 1 else 0
    {
      if o.Conflict? || o.Update? {
        if GroupOf(o.desired) == g {
          assert k !in todo - {k};
          assert Reached(p, todo - {k}, o);
          assert Reached(p, todo, o) <==> reported;
          assert p.Count(o) == 1 <==> o == op;
        } else {
          OtherNameReached(p, k, todo, o);
        }
      }
    }
    forall c | KeyOf(c) == k ensures p.StaleCount(c) == 0 { assert GroupOf(c) == g; }
  }

  lemma OtherNameReached(p: Problem, k: Key, todo: set<Key>, o: Operation)
    requires p.Wf() && k in todo && todo <= p.byKey.Keys && (o.Conflict? || o.Update?)
    requires GroupOf(o.desired) != GroupOf(p.byKey[k])
    ensures Reached(p, todo - {k}, o) <==> Reached(p, todo, o)
  {
    if p.Resolve(GroupOf(o.desired)).Settled? {
      if Reached(p, todo - {k}, o) {
        var j :| j in p.byKey && j !in todo - {k} && GroupOf(p.byKey[j]) == GroupOf(o.desired);
        assert j != k && j !in todo;
      }
    } else {
      assert KeyOf(o.desired) != k;
    }
  }

  /** The settling operation of a name is about one of its desired records, and only it is counted there. */
  lemma SettledName(p: Problem, g: Group)
    requires p.Wf() && p.Resolve(g).Settled?
    ensures p.Resolve(g).operation.Conflict? || p.Resolve(g).operation.Replace?
    ensures p.Desires(p.Resolve(g).operation.desired) && GroupOf(p.Resolve(g).operation.desired) == g
    ensures forall o: Operation :: (o.Conflict? || o.Update?) && GroupOf(o.desired) == g ==>
              (p.Count(o) == 1 <==> p.Resolve(g) == Settled(o)) && p.Count(o) <= 1
  {
    DesiredInMember(p);
  }

  lemma ReplacedStep(p: Problem, k: Key, todo: set<Key>, op: Operation)
    requires p.Wf() && k in todo && todo <= p.byKey.Keys
    requires op.Replace? && p.Resolve(GroupOf(p.byKey[k])) == Settled(op)
    ensures forall o: Operation :: Emitted(p, todo - {k}, o) == Emitted(p, todo, o)
    ensures forall c :: KeyOf(c) == k ==> p.StaleCount(c) == 0
  {
    var g := GroupOf(p.byKey[k]);
    SettledName(p, g);
    forall o: Operation ensures Emitted(p, todo - {k}, o) == Emitted(p, todo, o) {
      if (o.Conflict? || o.Update?) && GroupOf(o.desired) != g { OtherNameReached(p, k, todo, o); }
    }
    forall c | KeyOf(c) == k ensures p.StaleCount(c) == 0 { assert GroupOf(c) == g; }
  }

  lemma ClearStep(p: Problem, k: Key, todo: set<Key>)
    requires p.Wf() && k in todo && todo <= p.byKey.Keys && p.Resolve(GroupOf(p.byKey[k])).Clear?
    ensures forall o: Operation ::
      Emitted(p, todo - {k}, o) - Emitted(p, todo, o) == if Newly(p, k, o) then 1 else 0
  {
    forall o: Operation
      ensures Emitted(p, todo - {k}, o) - Emitted(p, todo, o) == if Newly(p, k, o) then 1 else 0
    {
      if o.Conflict? || o.Update? { ClearStepFor(p, k, todo, o); }
    }
  }

  /** The operation reports the record of this key. */
  ghost predicate Newly(p: Problem, k: Key, o: Operation)
    requires k in p.byKey
  {
    (o.Conflict? || o.Update?) && o.desired == p.byKey[k] && p.Count(o) == 1
  }

  lemma ClearStepFor(p: Problem, k: Key, todo: set<Key>, o: Operation)
    requires p.Wf() && k in todo && todo <= p.byKey.Keys && p.Resolve(GroupOf(p.byKey[k])).Clear?
    requires o.Conflict? || o.Update?
    ensures Emitted(p, todo - {k}, o) - Emitted(p, todo, o) == if Newly(p, k, o) then 1 else 0
  {
    CountAtMostOne(p, o);
    if GroupOf(o.desired) != GroupOf(p.byKey[k]) {
      OtherNameReached(p, k, todo, o);
    } else if KeyOf(o.desired) == k {
      CountedIsDesired(p, o);
    }
  }

  lemma CountedIsDesired(p: Problem, o: Operation)
    requires o.Conflict? || o.Update?
    ensures p.Count(o) > 0 ==> p.Desires(o.desired)
  {
  }

  ghost predicate EmittedAll(p: Problem, todo: set<Key>, ops: seq<Operation>) {
    forall o: Operation :: multiset(ops)[o] == Emitted(p, todo, o)
  }

  ghost predicate CreatesAll(p: Problem, todo: set<Key>, creates: seq<Endpoint>) {
    Distinct(creates) && forall d :: d in creates <==> p.Missing(d) && KeyOf(d) !in todo
  }

  ghost predicate StaleAll(p: Problem, todo: set<Key>, stales: seq<Endpoint>) {
    forall c :: multiset(stales)[c] == if KeyOf(c) in p.byKey && KeyOf(c) !in todo then p.StaleCount(c) else 0
  }

  ghost predicate BlockedAll(p: Problem, todo: set<Key>, blocked: set<Logical>) {
    forall l :: l in blocked <==> exists d :: Found(p, todo, l, d)
  }

  /** What the desired-record loop has collected once only the keys in todo are left. */
  ghost predicate Collected(
      p: Problem, todo: set<Key>, ops: seq<Operation>, creates: seq<Endpoint>, stales: seq<Endpoint>,
        blocked: set<Logical>)
  {
    EmittedAll(p, todo, ops) && CreatesAll(p, todo, creates) && StaleAll(p, todo, stales)
      && BlockedAll(p, todo, blocked)
  }

  lemma CreatesStep(p: Problem, todo: set<Key>, k: Key, creates: seq<Endpoint>, missing: bool)
    requires p.Wf() && k in todo && todo <= p.byKey.Keys && CreatesAll(p, todo, creates)
    requires missing <==> p.Missing(p.byKey[k])
    ensures CreatesAll(p, todo - {k}, creates + (if missing then [p.byKey[k]] else []))
  {
    var d0 := p.byKey[k];
    var creates' := creates + (if missing then [d0] else []);
    forall d ensures d in creates' <==> p.Missing(d) && KeyOf(d) !in todo - {k} {
      assert d in creates' <==> d in creates || (missing && d == d0);
      if p.Missing(d) && KeyOf(d) == k { assert d == d0; }
    }
  }

  /** A foreign record of this type that is not left in todo. */
  ghost predicate Found(p: Problem, todo: set<Key>, l: Logical, d: Endpoint) {
    p.Foreign(d) && LogicalOf(d) == l && KeyOf(d) !in todo
  }

  lemma FoundStep(p: Problem, todo: set<Key>, k: Key, l: Logical, d: Endpoint)
    requires k in todo && todo <= p.byKey.Keys
    ensures Found(p, todo - {k}, l, d) <==>
      Found(p, todo, l, d) || (d == p.byKey[k] && KeyOf(d) == k && p.Foreign(d) && LogicalOf(d) == l)
  {
  }

  lemma BlockedStep(p: Problem, todo: set<Key>, k: Key, blocked: set<Logical>, foreign: bool)
    requires p.Wf() && k in todo && todo <= p.byKey.Keys && BlockedAll(p, todo, blocked)
    requires foreign <==> p.Foreign(p.byKey[k])
    ensures BlockedAll(p, todo - {k}, blocked + (if foreign then {LogicalOf(p.byKey[k])} else {}))
  {
    var d0 := p.byKey[k];
    var blocked' := blocked + (if foreign then {LogicalOf(d0)} else {});
    forall l ensures l in blocked' <==> exists d :: Found(p, todo - {k}, l, d) {
      FoundStep(p, todo, k, l, d0);
      if d :| Found(p, todo, l, d) { FoundStep(p, todo, k, l, d); }
      if d :| Found(p, todo - {k}, l, d) { FoundStep(p, todo, k, l, d); }
    }
  }

  lemma StaleStep(p: Problem, todo: set<Key>, k: Key, stales: seq<Endpoint>, stale: seq<Endpoint>)
    requires k in todo && todo <= p.byKey.Keys && StaleAll(p, todo, stales)
    requires forall c :: multiset(stale)[c] == if KeyOf(c) == k then p.StaleCount(c) else 0
    ensures StaleAll(p, todo - {k}, stales + stale)
  {
    forall c
      ensures multiset(stales + stale)[c] ==
        if KeyOf(c) in p.byKey && KeyOf(c) !in todo - {k} then p.StaleCount(c) else 0
    {
      assert multiset(stales + stale)[c] == multiset(stales)[c] + multiset(stale)[c];
    }
  }

  lemma EmittedStep(p: Problem, todo: set<Key>, k: Key, ops: seq<Operation>, added: seq<Operation>)
    requires EmittedAll(p, todo, ops)
    requires forall o: Operation :: multiset(added)[o] == Emitted(p, todo - {k}, o) - Emitted(p, todo, o)
    ensures EmittedAll(p, todo - {k}, ops + added)
  {
    forall o: Operation ensures multiset(ops + added)[o] == Emitted(p, todo - {k}, o) {
      assert multiset(ops + added)[o] == multiset(ops)[o] + multiset(added)[o];
    }
  }

  /** The names whose conflict has been reported: those of a record that is no longer to be visited. */
  ghost predicate ReportedAll(p: Problem, todo: set<Key>, conflicts: map<Group, Operation>, reported: set<Group>) {
    forall g :: g in reported <==> g in conflicts && exists j :: j in p.byKey && j !in todo && GroupOf(p.byKey[j]) == g
  }

  /** One round of the desired-record loop. */
  method StepDesired(
      p: Problem, k: Key, conflict: Option<Operation>, replacement: Option<Operation>, seen: bool,
      typeRows: seq<Endpoint>, keyRows: seq<Endpoint>, ghost todo: set<Key>,
      ops: seq<Operation>, creates: seq<Endpoint>, stales: seq<Endpoint>, blocked: set<Logical>)
    returns (ops': seq<Operation>, creates': seq<Endpoint>, stales': seq<Endpoint>, blocked': set<Logical>)
    requires p.Wf() && k in todo && todo <= p.byKey.Keys
    requires Agrees(p.Resolve(GroupOf(p.byKey[k])), conflict, replacement)
    requires conflict.Some? ==> (seen <==>
      exists j :: j in p.byKey && j !in todo
                  && GroupOf(p.byKey[j]) == GroupOf(p.byKey[k]))
    requires typeRows == LogicalRows(p.current, LogicalOf(p.byKey[k])) && keyRows == KeyRows(p.current, k)
    requires Collected(p, todo, ops, creates, stales, blocked)
    ensures Collected(p, todo - {k}, ops', creates', stales', blocked')
  {
    var added, missing, foreign, stale := VisitDesired(p, k, conflict, replacement, seen, typeRows, keyRows, todo);
    EmittedStep(p, todo, k, ops, added);
    CreatesStep(p, todo, k, creates, missing);
    StaleStep(p, todo, k, stales, stale);
    BlockedStep(p, todo, k, blocked, foreign);
    ops', stales' := ops + added, stales + stale;
    creates' := creates + (if missing then [p.byKey[k]] else []);
    blocked' := blocked + (if foreign then {LogicalOf(p.byKey[k])} else {});
  }

  method ReconcileDesired(
      p: Problem, conflicts: map<Group, Operation>, replacements: map<Group, Operation>,
      byLogical: map<Logical, seq<Endpoint>>, byKeyRows: map<Key, seq<Endpoint>>)
    returns (ops: seq<Operation>, creates: seq<Endpoint>, stales: seq<Endpoint>, blocked: set<Logical>)
    requires p.Wf() && Resolved(p, conflicts, replacements)
    requires forall l {:trigger At(byLogical, l)} :: At(byLogical, l) == LogicalRows(p.current, l)
    requires forall k {:trigger At(byKeyRows, k)} :: At(byKeyRows, k) == KeyRows(p.current, k)
    ensures Collected(p, {}, ops, creates, stales, blocked)
  {
    ops, creates, stales, blocked := [], [], [], {};
    var reported: set<Group> := {};
    var todo := p.byKey.Keys;
    NothingCollected(p);
    while todo != {}
      invariant todo <= p.byKey.Keys
      invariant Collected(p, todo, ops, creates, stales, blocked)
      invariant ReportedAll(p, todo, conflicts, reported)
    {
      var k :| k in todo;
      var d := p.byKey[k];
      var g := GroupOf(d);
      ops, creates, stales, blocked := StepDesired(
        p, k, Lookup(conflicts, g), Lookup(replacements, g), g in reported, At(byLogical, LogicalOf(d)),
          At(byKeyRows, k),
        todo, ops, creates, stales, blocked);
      ReportedStep(p, todo, k, conflicts, reported);
      if g in conflicts { reported := reported + {g}; }
      todo := todo - {k};
    }
  }

  lemma NothingCollected(p: Problem)
    requires p.Wf()
    ensures Collected(p, p.byKey.Keys, [], [], [], {})
  {
    forall o: Operation ensures Emitted(p, p.byKey.Keys, o) == 0 {
      if (o.Conflict? || o.Update?) && p.Count(o) == 1 { assert p.Desires(o.desired); }
    }
  }

  lemma ReportedStep(p: Problem, todo: set<Key>, k: Key, conflicts: map<Group, Operation>, reported: set<Group>)
    requires k in todo && todo <= p.byKey.Keys && ReportedAll(p, todo, conflicts, reported)
    ensures ReportedAll(p, todo - {k}, conflicts,
              if GroupOf(p.byKey[k]) in conflicts then reported + {GroupOf(p.byKey[k])} else reported)
  {
    var h := GroupOf(p.byKey[k]);
    var after := if h in conflicts then reported + {h} else reported;
    forall g ensures g in after <==>
      g in conflicts && exists j :: j in p.byKey && j !in todo - {k}
                                    && GroupOf(p.byKey[j]) == g {
      if g in reported {
        var j :| j in p.byKey && j !in todo && GroupOf(p.byKey[j]) == g;
        assert j !in todo - {k};
      }
      if g == h { assert k !in todo - {k}; }
      if g in conflicts && exists j :: j in p.byKey && j !in todo - {k} && GroupOf(p.byKey[j]) == g {
        var j :| j in p.byKey && j !in todo - {k} && GroupOf(p.byKey[j]) == g;
        assert j == k || j !in todo;
      }
    }
  }
}
