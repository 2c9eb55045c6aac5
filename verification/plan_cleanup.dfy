/** The planner's later phases: rows nobody desires, one-to-one replacements, and the
    creates and cleanups that remain. */
module PlanCleanup {
  import opened Text
  import opened Dns
  import opened PlanSpec
  import opened PlanIndex
  import opened PlanNames
  import opened PlanRecords

  /** Every cleanup candidate is listed as often as it is surplus. */
  ghost predicate AllStale(p: Problem, stales: seq<Endpoint>) {
    forall c :: multiset(stales)[c] == p.StaleCount(c)
  }

  /** A row under no conflict or replacement that the controller owns and may clean up. */
  ghost predicate Eligible(p: Problem, c: Endpoint) {
    p.Resolve(GroupOf(c)).Clear? && !p.LogicalConflict(LogicalOf(c)) && OwnedBy(c, p.owner) && p.allowed(c)
  }

  /** The test of the cleanup loop. */
  predicate InScope(
      c: Endpoint, conflicts: map<Group, Operation>, replacements: map<Group, Operation>, blocked: set<Logical>,
      owner: string, allowed: Endpoint -> bool)
  {
    GroupOf(c) !in conflicts && GroupOf(c) !in replacements && LogicalOf(c) !in blocked && OwnedBy(c, owner)
      && allowed(c)
  }

  lemma InScopeIsEligible(p: Problem, conflicts: map<Group, Operation>, replacements: map<Group, Operation>,
      blocked: set<Logical>, c: Endpoint)
    requires Resolved(p, conflicts, replacements)
    requires LogicalOf(c) in blocked <==> p.LogicalConflict(LogicalOf(c))
    ensures InScope(c, conflicts, replacements, blocked, p.owner, p.allowed) <==> Eligible(p, c)
  {
    assert Agrees(p.Resolve(GroupOf(c)), Lookup(conflicts, GroupOf(c)), Lookup(replacements, GroupOf(c)));
  }

  /** The cleanup candidates among the rows of one key that nothing desires. */
  method StaleRows(
      rows: seq<Endpoint>, conflicts: map<Group, Operation>, replacements: map<Group, Operation>, blocked: set<Logical>,
      owner: string, allowed: Endpoint -> bool)
    returns (stale: seq<Endpoint>)
    ensures forall c ::
      var counted := InScope(c, conflicts, replacements, blocked, owner, allowed);
      multiset(stale)[c] == if counted then multiset(rows)[c] else 0
  {
    stale := [];
    for i := 0 to |rows|
      invariant forall c ::
        var counted := InScope(c, conflicts, replacements, blocked, owner, allowed);
        multiset(stale)[c] == if counted then multiset(rows[..i])[c] else 0
    {
      assert rows[..i + 1] == rows[..i] + [rows[i]];
      if InScope(rows[i], conflicts, replacements, blocked, owner, allowed) { stale := stale + [rows[i]]; }
    }
    assert rows[..|rows|] == rows;
  }

  /** Surplus rows are found under desired keys first, then under the keys left in todo. */
  ghost predicate StaleSoFar(p: Problem, todo: set<Key>, stales: seq<Endpoint>) {
    forall c :: multiset(stales)[c] == if KeyOf(c) in p.byKey || KeyOf(c) !in todo then p.StaleCount(c) else 0
  }

  lemma UndesiredCount(p: Problem, k: Key, c: Endpoint)
    requires k !in p.byKey
    ensures (if Eligible(p, c) then multiset(KeyRows(p.current, k))[c] else 0)
      == (if KeyOf(c) == k then p.StaleCount(c) else 0)
  {
    FilterCount(p.current, (e: Endpoint) => KeyOf(e) == k, c);
  }

  lemma StaleSoFarStep(p: Problem, todo: set<Key>, k: Key, stales: seq<Endpoint>, stale: seq<Endpoint>)
    requires k in todo && StaleSoFar(p, todo, stales)
    requires k !in p.byKey ==>
      forall c :: multiset(stale)[c] == if Eligible(p, c) then multiset(KeyRows(p.current, k))[c] else 0
    requires k in p.byKey ==> stale == []
    ensures StaleSoFar(p, todo - {k}, stales + stale)
  {
    forall c
      ensures multiset(stales + stale)[c] ==
        if KeyOf(c) in p.byKey || KeyOf(c) !in todo - {k} then p.StaleCount(c) else 0
    {
      assert multiset(stales + stale)[c] == multiset(stales)[c] + multiset(stale)[c];
      if k !in p.byKey { UndesiredCount(p, k, c); }
    }
  }

  method CollectStale(
      p: Problem, keyRows: map<Key, seq<Endpoint>>, conflicts: map<Group, Operation>,
        replacements: map<Group, Operation>,
      blocked: set<Logical>, found: seq<Endpoint>)
    returns (stales: seq<Endpoint>)
    requires Resolved(p, conflicts, replacements)
    requires BlockedAll(p, {}, blocked) && StaleAll(p, {}, found)
    requires forall k {:trigger At(keyRows, k)} :: At(keyRows, k) == KeyRows(p.current, k)
    ensures AllStale(p, stales)
  {
    stales := found;
    BlockedIsConflict(p, blocked);
    var todo := keyRows.Keys;
    forall c ensures multiset(stales)[c] == if KeyOf(c) in p.byKey || KeyOf(c) !in todo then p.StaleCount(c) else 0 {
      if KeyOf(c) !in keyRows { AbsentIsNotStale(p, c, At(keyRows, KeyOf(c))); }
    }
    while todo != {}
      invariant todo <= keyRows.Keys
      invariant StaleSoFar(p, todo, stales)
    {
      var k :| k in todo;
      var stale := [];
      if k !in p.byKey {
        assert At(keyRows, k) == keyRows[k];
        stale := StaleRows(keyRows[k], conflicts, replacements, blocked, p.owner, p.allowed);
        forall c ensures multiset(stale)[c] == if Eligible(p, c) then multiset(KeyRows(p.current, k))[c] else 0 {
          InScopeIsEligible(p, conflicts, replacements, blocked, c);
        }
      }
      StaleSoFarStep(p, todo, k, stales, stale);
      stales := stales + stale;
      todo := todo - {k};
    }
  }

  lemma BlockedIsConflict(p: Problem, blocked: set<Logical>)
    requires BlockedAll(p, {}, blocked)
    ensures forall l :: l in blocked <==> p.LogicalConflict(l)
  {
    forall l ensures l in blocked <==> p.LogicalConflict(l) {
      if p.LogicalConflict(l) {
        var d :| p.Foreign(d) && LogicalOf(d) == l;
        assert Found(p, {}, l, d);
      }
    }
  }

  lemma AbsentIsNotStale(p: Problem, c: Endpoint, rows: seq<Endpoint>)
    requires rows == KeyRows(p.current, KeyOf(c)) && rows == []
    ensures p.StaleCount(c) == 0
  {
    FilterCount(p.current, (e: Endpoint) => KeyOf(e) == KeyOf(c), c);
    assert c in p.current <==> c in multiset(p.current);
  }

  // One-to-one replacements.

  /** What is left of the first i elements when the one at `at` is dropped; a negative index drops nothing. */
  function Without(s: seq<Endpoint>, at: int, i: nat): seq<Endpoint>
    requires i <= |s|
  {
    if 0 <= at < i then s[..at] + s[at + 1..i] else s[..i]
  }

  lemma WithoutStep(s: seq<Endpoint>, at: int, i: nat)
    requires i < |s| && at != i
    ensures Without(s, at, i + 1) == Without(s, at, i) + [s[i]]
  {
  }

  /** The index of the first element with the key, or -1. */
  function FirstWithKey(s: seq<Endpoint>, k: Key): (at: int)
    ensures -1 <= at < |s| && forall j :: 0 <= j < |s| && (j < at || at < 0) ==> KeyOf(s[j]) != k
    ensures at >= 0 ==> KeyOf(s[at]) == k
  {
    if |s| == 0 then -1
    else
      var at := FirstWithKey(s[..|s| - 1], k);
      if at < 0 && KeyOf(s[|s| - 1]) == k then |s| - 1 else at
  }

  lemma FirstStep(s: seq<Endpoint>, k: Key, i: nat)
    requires i < |s|
    ensures var at := FirstWithKey(s[..i], k);
            FirstWithKey(s[..i + 1], k) == if at < 0 && KeyOf(s[i]) == k then i else at
  {
    assert s[..i + 1][..i] == s[..i];
  }

  /** Drops the first element with the target's key. */
  method RemoveEndpoint(s: seq<Endpoint>, target: Endpoint) returns (out: seq<Endpoint>)
    ensures out == Without(s, FirstWithKey(s, KeyOf(target)), |s|)
  {
    out := [];
    var removed := false;
    ghost var at := -1;
    for i := 0 to |s|
      invariant (removed <==> at >= 0) && at < i && at == FirstWithKey(s[..i], KeyOf(target))
        && out == Without(s, at, i)
    {
      FirstStep(s, KeyOf(target), i);
      if !removed && KeyOf(s[i]) == KeyOf(target) {
        removed := true;
        at := i;
      } else {
        WithoutStep(s, at, i);
        out := out + [s[i]];
      }
    }
    assert s[..|s|] == s;
  }

  lemma RemovedCount(s: seq<Endpoint>, i: nat, x: Endpoint)
    requires i < |s|
    ensures multiset(s[..i] + s[i + 1..])[x] == multiset(s)[x] - (if x == s[i] then 1 else 0)
  {
    assert s == s[..i] + [s[i]] + s[i + 1..];
  }

  /** Removing the one element with the target's key leaves the others as often as they were. */
  method RemoveOnly(s: seq<Endpoint>, target: Endpoint) returns (out: seq<Endpoint>)
    requires target in s && forall e :: e in s && KeyOf(e) == KeyOf(target) ==> e == target
    ensures forall x :: multiset(out)[x] == multiset(s)[x] - (if x == target then 1 else 0)
  {
    out := RemoveEndpoint(s, target);
    ghost var at := FirstWithKey(s, KeyOf(target));
    var i :| 0 <= i < |s| && s[i] == target;
    assert at >= 0 && s[at] in s;
    assert out == s[..at] + s[at + 1..];
    forall x ensures multiset(out)[x] == multiset(s)[x] - (if x == target then 1 else 0) { RemovedCount(s, at, x); }
  }

  lemma Singleton(s: seq<Endpoint>, c: Endpoint)
    requires multiset(s)[c] == 1 && forall e :: e in s ==> e == c
    ensures s == [c]
  {
    assert c in multiset(s);
    if |s| > 1 {
      assert s[0] in s && s[1] in s;
      CountAtLeast(s, 0, 1);
    }
  }

  /** d is the only missing record and c the only surplus row of their (zone, name, type). */
  ghost predicate Pairs(missing: Endpoint -> bool, surplus: Endpoint -> nat, d: Endpoint, c: Endpoint) {
    && missing(d) && surplus(c) == 1 && LogicalOf(c) == LogicalOf(d) && HasId(c)
    && (forall e :: missing(e) && LogicalOf(e) == LogicalOf(d) ==> e == d)
    && (forall e :: surplus(e) > 0 && LogicalOf(e) == LogicalOf(d) ==> e == c)
  }

  ghost predicate Lists(missing: Endpoint -> bool, surplus: Endpoint -> nat, creates: seq<Endpoint>,
      stales: seq<Endpoint>) {
    && (forall d {:trigger multiset(creates)[d]} :: multiset(creates)[d] == if missing(d) then 1 else 0)
    && (forall c {:trigger multiset(stales)[c]} :: multiset(stales)[c] == surplus(c))
  }

  lemma LogicalCount(s: seq<Endpoint>, l: Logical)
    ensures forall e :: multiset(LogicalRows(s, l))[e] == if LogicalOf(e) == l then multiset(s)[e] else 0
  {
    FilterMember(s, (e: Endpoint) => LogicalOf(e) == l);
  }

  /** The slices of one (zone, name, type) hold one element each exactly when its record and row are paired. */
  lemma PairFound(missing: Endpoint -> bool, surplus: Endpoint -> nat, creates: seq<Endpoint>, stales: seq<Endpoint>,
      l: Logical)
    requires Lists(missing, surplus, creates, stales)
    ensures var cs, ss := LogicalRows(creates, l), LogicalRows(stales, l);
      |cs| == 1 && |ss| == 1 && HasId(ss[0]) ==> LogicalOf(cs[0]) == l && Pairs(missing, surplus, cs[0], ss[0])
  {
    var cs, ss := LogicalRows(creates, l), LogicalRows(stales, l);
    LogicalCount(creates, l);
    LogicalCount(stales, l);
    if |cs| == 1 && |ss| == 1 && HasId(ss[0]) {
      var d, c := cs[0], ss[0];
      assert cs == [d] && ss == [c];
      assert multiset(cs)[d] == 1 && multiset(ss)[c] == 1;
      forall e | missing(e) && LogicalOf(e) == l ensures e == d { assert multiset(cs)[e] == 1; }
      forall e | surplus(e) > 0 && LogicalOf(e) == l ensures e == c { assert multiset(ss)[e] > 0; }
    }
  }

  lemma PairListed(missing: Endpoint -> bool, surplus: Endpoint -> nat, creates: seq<Endpoint>, stales: seq<Endpoint>,
      d: Endpoint, c: Endpoint)
    requires Lists(missing, surplus, creates, stales) && Pairs(missing, surplus, d, c)
    ensures LogicalRows(creates, LogicalOf(d)) == [d] && LogicalRows(stales, LogicalOf(d)) == [c]
  {
    var l := LogicalOf(d);
    var cs, ss := LogicalRows(creates, l), LogicalRows(stales, l);
    LogicalCount(creates, l);
    LogicalCount(stales, l);
    forall e | e in cs ensures e == d { assert e in multiset(cs); }
    Singleton(cs, d);
    forall e | e in ss ensures e == c { assert e in multiset(ss); }
    Singleton(ss, c);
  }

  /** The state of the pairing loop once the (zone, name, type)s in done are through. */
  ghost predicate PairedSoFar(
      missing: Endpoint -> bool, surplus: Endpoint -> nat, done: set<Logical>,
      ops: seq<Operation>, creates: seq<Endpoint>, stales: seq<Endpoint>)
  {
    && ReplacedSoFar(missing, surplus, done, ops)
    && CreatesSoFar(missing, surplus, done, creates)
    && StalesSoFar(missing, surplus, done, stales)
  }

  ghost predicate ReplacedSoFar(missing: Endpoint -> bool, surplus: Endpoint -> nat, done: set<Logical>,
      ops: seq<Operation>)
  {
    forall o: Operation {:trigger multiset(ops)[o]} ::
      var paired := o.Replace? && o.reason == TargetChanged && LogicalOf(o.desired) in done
                    && Pairs(missing, surplus, o.desired, o.current);
      multiset(ops)[o] == if paired then 1 else 0
  }

  ghost predicate CreatesSoFar(missing: Endpoint -> bool, surplus: Endpoint -> nat, done: set<Logical>,
      creates: seq<Endpoint>)
  {
    forall d {:trigger multiset(creates)[d]} ::
      var paired := LogicalOf(d) in done && exists c :: Pairs(missing, surplus, d, c);
      multiset(creates)[d] == if missing(d) && !paired then 1 else 0
  }

  ghost predicate StalesSoFar(missing: Endpoint -> bool, surplus: Endpoint -> nat, done: set<Logical>,
      stales: seq<Endpoint>)
  {
    forall c {:trigger multiset(stales)[c]} ::
      var paired := LogicalOf(c) in done && exists d :: Pairs(missing, surplus, d, c);
      multiset(stales)[c] == if paired then 0 else surplus(c)
  }

  lemma NotPairedStep(
      missing: Endpoint -> bool, surplus: Endpoint -> nat, done: set<Logical>, l: Logical,
      ops: seq<Operation>, creates: seq<Endpoint>, stales: seq<Endpoint>)
    requires PairedSoFar(missing, surplus, done, ops, creates, stales)
    requires forall d, c :: Pairs(missing, surplus, d, c) ==> LogicalOf(d) != l
    ensures PairedSoFar(missing, surplus, done + {l}, ops, creates, stales)
  {
  }

  lemma ReplacedStep(missing: Endpoint -> bool, surplus: Endpoint -> nat, done: set<Logical>, d: Endpoint, c: Endpoint,
      ops: seq<Operation>)
    requires ReplacedSoFar(missing, surplus, done, ops) && Pairs(missing, surplus, d, c) && LogicalOf(d) !in done
    ensures ReplacedSoFar(missing, surplus, done + {LogicalOf(d)}, ops + [Replace(d, c, TargetChanged)])
  {
    var op := Replace(d, c, TargetChanged);
    forall o: Operation ensures multiset(ops + [op])[o] == multiset(ops)[o] + if o == op then 1 else 0 {}
  }

  lemma CreatesStep(missing: Endpoint -> bool, surplus: Endpoint -> nat, done: set<Logical>, d: Endpoint, c: Endpoint,
      creates: seq<Endpoint>, creates': seq<Endpoint>)
    requires CreatesSoFar(missing, surplus, done, creates) && Pairs(missing, surplus, d, c) && LogicalOf(d) !in done
    requires forall x :: multiset(creates')[x] == multiset(creates)[x] - (if x == d then 1 else 0)
    ensures CreatesSoFar(missing, surplus, done + {LogicalOf(d)}, creates')
  {
    assert forall x :: missing(x) && LogicalOf(x) == LogicalOf(d) ==> x == d;
  }

  lemma StalesStep(missing: Endpoint -> bool, surplus: Endpoint -> nat, done: set<Logical>, d: Endpoint, c: Endpoint,
      stales: seq<Endpoint>, stales': seq<Endpoint>)
    requires StalesSoFar(missing, surplus, done, stales) && Pairs(missing, surplus, d, c) && LogicalOf(d) !in done
    requires forall x :: multiset(stales')[x] == multiset(stales)[x] - (if x == c then 1 else 0)
    ensures StalesSoFar(missing, surplus, done + {LogicalOf(d)}, stales')
  {
    assert forall x :: surplus(x) > 0 && LogicalOf(x) == LogicalOf(d) ==> x == c;
  }

  /** One round of the pairing loop. */
  method PairOne(
      l: Logical, skip: bool, cs: seq<Endpoint>, ss: seq<Endpoint>, ops: seq<Operation>, creates: seq<Endpoint>,
        stales: seq<Endpoint>,
      ghost missing: Endpoint -> bool, ghost surplus: Endpoint -> nat,
      ghost done: set<Logical>, ghost allCreates: seq<Endpoint>, ghost allStales: seq<Endpoint>)
    returns (ops': seq<Operation>, creates': seq<Endpoint>, stales': seq<Endpoint>)
    requires Lists(missing, surplus, allCreates, allStales) && l !in done
    requires cs == LogicalRows(allCreates, l) && ss == LogicalRows(allStales, l)
    requires skip ==> forall d :: missing(d) ==> LogicalOf(d) != l
    requires PairedSoFar(missing, surplus, done, ops, creates, stales)
    ensures PairedSoFar(missing, surplus, done + {l}, ops', creates', stales')
  {
    ops', creates', stales' := ops, creates, stales;
    PairFound(missing, surplus, allCreates, allStales, l);
    if !skip && |cs| == 1 && |ss| == 1 && HasId(ss[0]) {
      var d, c := cs[0], ss[0];
      assert multiset(creates)[d] == 1 && multiset(stales)[c] == 1;
      assert d in multiset(creates) && c in multiset(stales);
      forall e | e in creates && KeyOf(e) == KeyOf(d) ensures e == d {
        assert e in multiset(creates) && LogicalOf(e) == LogicalOf(d);
      }
      creates' := RemoveOnly(creates, d);
      forall e | e in stales && KeyOf(e) == KeyOf(c) ensures e == c {
        assert e in multiset(stales) && LogicalOf(e) == LogicalOf(c);
      }
      stales' := RemoveOnly(stales, c);
      ops' := ops + [Replace(d, c, TargetChanged)];
      ReplacedStep(missing, surplus, done, d, c, ops);
      CreatesStep(missing, surplus, done, d, c, creates, creates');
      StalesStep(missing, surplus, done, d, c, stales, stales');
    } else {
      forall d, c | Pairs(missing, surplus, d, c) ensures LogicalOf(d) != l {
        if LogicalOf(d) == l { PairListed(missing, surplus, allCreates, allStales, d, c); }
      }
      NotPairedStep(missing, surplus, done, l, ops, creates, stales);
    }
  }

  /** What pairing leaves: the replacements, the records still to create, the rows still to clean up. */
  ghost predicate Paired(
      missing: Endpoint -> bool, surplus: Endpoint -> nat, ops: seq<Operation>, creates: seq<Endpoint>,
        stales: seq<Endpoint>)
  {
    && (forall o: Operation {:trigger multiset(ops)[o]} ::
          var paired := o.Replace? && o.reason == TargetChanged && Pairs(missing, surplus, o.desired, o.current);
          multiset(ops)[o] == if paired then 1 else 0)
    && (forall d {:trigger multiset(creates)[d]} ::
          var paired := exists c :: Pairs(missing, surplus, d, c);
          multiset(creates)[d] == if missing(d) && !paired then 1 else 0)
    && (forall c {:trigger multiset(stales)[c]} ::
          var paired := exists d :: Pairs(missing, surplus, d, c);
          multiset(stales)[c] == if paired then 0 else surplus(c))
  }

  lemma PairingDone(
      missing: Endpoint -> bool, surplus: Endpoint -> nat, done: set<Logical>,
      ops: seq<Operation>, creates: seq<Endpoint>, stales: seq<Endpoint>)
    requires PairedSoFar(missing, surplus, done, ops, creates, stales)
    requires forall d, c :: Pairs(missing, surplus, d, c) ==> LogicalOf(d) in done
    ensures Paired(missing, surplus, ops, creates, stales)
  {
    forall d ensures (exists c :: Pairs(missing, surplus, d, c)) ==> LogicalOf(d) in done {}
    forall c ensures (exists d :: Pairs(missing, surplus, d, c)) ==> LogicalOf(c) in done {
      if d :| Pairs(missing, surplus, d, c) { assert LogicalOf(d) in done; }
    }
  }

  lemma NothingPaired(missing: Endpoint -> bool, surplus: Endpoint -> nat, creates: seq<Endpoint>,
      stales: seq<Endpoint>)
    requires Lists(missing, surplus, creates, stales)
    ensures PairedSoFar(missing, surplus, {}, [], creates, stales)
  {
  }

  lemma AllPairsSeen(
      missing: Endpoint -> bool, surplus: Endpoint -> nat, creates: seq<Endpoint>, stales: seq<Endpoint>,
        createBy: map<Logical, seq<Endpoint>>)
    requires Lists(missing, surplus, creates, stales)
    requires forall l :: At(createBy, l) == LogicalRows(creates, l)
    ensures forall d, c :: Pairs(missing, surplus, d, c) ==> LogicalOf(d) in createBy
  {
    forall d, c | Pairs(missing, surplus, d, c) ensures LogicalOf(d) in createBy {
      PairListed(missing, surplus, creates, stales, d, c);
      assert At(createBy, LogicalOf(d)) == [d];
    }
  }

  /** Turns a lone missing record and a lone surplus row of one (zone, name, type) into a keyed replacement. */
  method PairReplacements(
      creates: seq<Endpoint>, stales: seq<Endpoint>, blocked: set<Logical>, ghost missing: Endpoint -> bool,
        ghost surplus: Endpoint -> nat)
    returns (ops: seq<Operation>, creates': seq<Endpoint>, stales': seq<Endpoint>)
    requires Lists(missing, surplus, creates, stales)
    requires forall d :: missing(d) ==> LogicalOf(d) !in blocked
    ensures Paired(missing, surplus, ops, creates', stales')
  {
    ops, creates', stales' := [], creates, stales;
    NothingPaired(missing, surplus, creates, stales);
    var createBy := GroupByLogical(creates);
    var staleBy := GroupByLogical(stales);
    var todo := createBy.Keys;
    ghost var done: set<Logical> := {};
    while todo != {}
      invariant todo <= createBy.Keys && done == createBy.Keys - todo
      invariant PairedSoFar(missing, surplus, done, ops, creates', stales')
    {
      var l :| l in todo;
      assert At(createBy, l) == createBy[l];
      ops, creates', stales' := PairOne(
        l, l in blocked, createBy[l], At(staleBy, l), ops, creates', stales', missing, surplus, done, creates, stales);
      todo, done := todo - {l}, done + {l};
    }
    AllPairsSeen(missing, surplus, creates, stales, createBy);
    PairingDone(missing, surplus, done, ops, creates', stales');
  }
}
