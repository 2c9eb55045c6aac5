/** Plan documents: validation, which canonical form preserves, and dependency-ordered execution. */
module PlanExecutor {
  import opened Text
  import opened PlanGraph
  import opened PlanCanonical
  import Sorting

  const Kinds: set<string> := {"create", "update", "replace", "delete", "deactivate", "conflict"}

  function Ids(ops: seq<Operation>): set<string> { set o | o in ops :: o.id }

  predicate HeaderOk(d: Document) {
    d.apiVersion == ApiVersion && d.kind == Kind && d.targetName != "" && d.targetZone != ""
  }

  /** Every operation has its own ID and a known type. */
  predicate OperationsOk(ops: seq<Operation>) {
    && (forall i :: 0 <= i < |ops| ==> ops[i].id != "" && ops[i].kind in Kinds)
    && (forall i, j :: 0 <= i < j < |ops| ==> ops[i].id != ops[j].id)
  }

  /** Both ends of every edge are operations of the document. */
  predicate EdgesKnown(ids: set<string>, edges: seq<Edge>) {
    forall e :: e in edges ==> e.operation in ids && e.requirement in ids
  }

  predicate DecisionsKnown(ids: set<string>, decisions: seq<Decision>) {
    forall x :: x in decisions ==> forall id :: id in x.operations ==> id in ids
  }

  /** What each operation requires, in the order of the edges. */
  function DepsOf(edges: seq<Edge>): Deps {
    if |edges| == 0 then map[]
    else
      var m, e := DepsOf(edges[..|edges| - 1]), edges[|edges| - 1];
      m[e.operation := At(m, e.operation) + [e.requirement]]
  }

  lemma {:induction false} DepsMember(edges: seq<Edge>, x: string, y: string)
    ensures y in At(DepsOf(edges), x) <==> Edge(x, y) in edges
  {
    if |edges| > 0 {
      DepsMember(edges[..|edges| - 1], x, y);
      assert edges == edges[..|edges| - 1] + [edges[|edges| - 1]];
    }
  }

  ghost predicate Valid(d: Document) {
    && HeaderOk(d) && OperationsOk(d.operations) && EdgesKnown(Ids(d.operations), d.edges)
    && !HasCycle(DepsOf(d.edges)) && DecisionsKnown(Ids(d.operations), d.decisions)
  }

  // ---- Canonical form preserves validity ------------------------------------------------

  lemma OperationsRearranged(s: seq<Operation>, t: seq<Operation>)
    requires OperationsOk(s) && multiset(s) == multiset(t)
    ensures OperationsOk(t)
  {
    forall x ensures x in t <==> x in s { assert x in t <==> x in multiset(t); assert x in s <==> x in multiset(s); }
    forall i | 0 <= i < |t| ensures t[i].id != "" && t[i].kind in Kinds { assert t[i] in s; }
    forall i, j | 0 <= i < j < |t| ensures t[i].id != t[j].id {
      assert t[i] in s && t[j] in s;
      DistinctCount(s, t[i]);
      if t[i] == t[j] { CountAtLeast(t, i, j); }
    }
  }

  /** The same requirements, in whatever order and however often. */
  ghost predicate SameDeps(a: Deps, b: Deps) { forall x, y :: y in At(a, x) <==> y in At(b, x) }

  lemma SameCycles(a: Deps, b: Deps)
    requires SameDeps(a, b)
    ensures HasCycle(a) <==> HasCycle(b)
  {
    forall p ensures Walk(a, p) <==> Walk(b, p) {}
  }

  lemma CanonicalEdges(d: Document)
    ensures forall e :: e in Canonical(d).edges <==> e in d.edges
    ensures SameDeps(DepsOf(Canonical(d).edges), DepsOf(d.edges))
  {
    var sorted := Sorting.Stable(d.edges, By(EdgeFields));
    StableElements(d.edges, EdgeFields);
    forall e ensures e in Canonical(d).edges <==> e in d.edges {
      Sorting.DedupeMember(sorted, e);
      assert e in sorted <==> e in multiset(sorted);
      assert e in d.edges <==> e in multiset(d.edges);
    }
    forall x, y ensures y in At(DepsOf(Canonical(d).edges), x) <==> y in At(DepsOf(d.edges), x) {
      DepsMember(Canonical(d).edges, x, y);
      DepsMember(d.edges, x, y);
    }
  }

  lemma CanonicalOperations(d: Document)
    ensures OperationsOk(Canonical(d).operations) <==> OperationsOk(d.operations)
    ensures Ids(Canonical(d).operations) == Ids(d.operations)
  {
    var r := Canonical(d).operations;
    StableElements(d.operations, OperationFields);
    if OperationsOk(d.operations) { OperationsRearranged(d.operations, r); }
    if OperationsOk(r) { OperationsRearranged(r, d.operations); }
    forall x ensures x in r <==> x in d.operations {
      assert x in r <==> x in multiset(r);
      assert x in d.operations <==> x in multiset(d.operations);
    }
  }

  lemma CanonicalDecisionsKnown(d: Document, ids: set<string>)
    ensures DecisionsKnown(ids, Canonical(d).decisions) <==> DecisionsKnown(ids, d.decisions)
  {
    var cs := CanonicalDecisions(d.decisions);
    var r := Canonical(d).decisions;
    StableElements(cs, DecisionFields);
    forall x ensures x in r <==> x in cs { assert x in r <==> x in multiset(r); assert x in cs <==> x in multiset(cs); }
    forall x ensures (forall id :: id in CanonicalDecision(x).operations <==> id in x.operations) {
      CanonicalMeaning(x);
      forall id ensures id in CanonicalDecision(x).operations <==> id in x.operations {
        assert id in MeaningOf(CanonicalDecision(x)).operations <==> id in MeaningOf(x).operations;
      }
    }
    forall x | x in d.decisions ensures CanonicalDecision(x) in cs {
      var i :| 0 <= i < |d.decisions| && d.decisions[i] == x;
      assert cs[i] == CanonicalDecision(x);
    }
    forall y | y in cs ensures exists x :: x in d.decisions && y == CanonicalDecision(x) {
      var i :| 0 <= i < |cs| && cs[i] == y;
      assert y == CanonicalDecision(d.decisions[i]);
    }
  }

  /** The canonical document is valid exactly when the document is, its blanks filled. */
  lemma CanonicalValid(d: Document)
    ensures Valid(Canonical(d)) <==> Valid(Filled(d))
  {
    CanonicalOperations(d);
    CanonicalEdges(d);
    SameCycles(DepsOf(Canonical(d).edges), DepsOf(d.edges));
    CanonicalDecisionsKnown(d, Ids(d.operations));
  }

  // ---- Validation -----------------------------------------------------------------------

  method CheckOperations(ops: seq<Operation>) returns (ok: bool, ids: set<string>)
    ensures ok <==> OperationsOk(ops)
    ensures ok ==> ids == Ids(ops)
  {
    ids := {};
    for i := 0 to |ops|
      invariant ids == Ids(ops[..i]) && OperationsOk(ops[..i])
    {
      assert ops[..i + 1] == ops[..i] + [ops[i]];
      if ops[i].id == "" || ops[i].id in ids || ops[i].kind !in Kinds { return false, ids; }
      ids := ids + {ops[i].id};
    }
    assert ops[..|ops|] == ops;
    ok := true;
  }

  lemma SelfEdgeIsCycle(edges: seq<Edge>, e: Edge)
    requires e in edges && e.operation == e.requirement
    ensures HasCycle(DepsOf(edges))
  {
    DepsMember(edges, e.operation, e.operation);
    var p := [e.operation, e.operation];
    assert Walk(DepsOf(edges), p) && p[0] == p[|p| - 1];
  }

  /** The dependencies, or nothing when an edge is unknown or requires itself. */
  method CheckEdges(ids: set<string>, edges: seq<Edge>) returns (deps: Option<Deps>)
    ensures deps.Some? ==> deps.value == DepsOf(edges) && EdgesKnown(ids, edges)
    ensures deps.None? ==> !EdgesKnown(ids, edges) || HasCycle(DepsOf(edges))
  {
    var m: Deps := map[];
    for i := 0 to |edges|
      invariant m == DepsOf(edges[..i]) && EdgesKnown(ids, edges[..i])
    {
      var e := edges[i];
      assert edges[..i + 1][..i] == edges[..i];
      if e.operation !in ids || e.requirement !in ids { return None; }
      if e.operation == e.requirement {
        SelfEdgeIsCycle(edges, e);
        return None;
      }
      m := m[e.operation := At(m, e.operation) + [e.requirement]];
    }
    assert edges[..|edges|] == edges;
    deps := Some(m);
  }

  method CheckDecisions(ids: set<string>, decisions: seq<Decision>) returns (ok: bool)
    ensures ok <==> DecisionsKnown(ids, decisions)
  {
    for i := 0 to |decisions|
      invariant forall k :: 0 <= k < i ==> forall id :: id in decisions[k].operations ==> id in ids
    {
      var ops := decisions[i].operations;
      for j := 0 to |ops|
        invariant forall k :: 0 <= k < j ==> ops[k] in ids
      {
        if ops[j] !in ids {
          assert decisions[i] in decisions && ops[j] in decisions[i].operations;
          return false;
        }
      }
    }
    ok := true;
  }

  /** Document.Validate accepts exactly the valid documents; the order of operations it finds is kept for proofs. */
  method Validate(d: Document) returns (ok: bool, ghost order: seq<string>)
    ensures ok <==> Valid(d)
    ensures ok ==> Ordered(DepsOf(d.edges), order) && Covers(DepsOf(d.edges), order)
  {
    order := [];
    if !HeaderOk(d) { return false, []; }
    var opsOk, ids := CheckOperations(d.operations);
    if !opsOk { return false, []; }
    var deps := CheckEdges(ids, d.edges);
    if deps.None? { return false, []; }
    var cycle;
    cycle, order := DependencyCycle(deps.value);
    if cycle.Some? { return false, order; }
    ok := CheckDecisions(ids, d.decisions);
  }

  // ---- Execution ------------------------------------------------------------------------

  datatype Result = Succeeded | Failed | Blocked

  datatype Outcome = Outcome(id: string, result: Result, reason: string)

  datatype Error = InvalidDocument | InitialDrift | Canceled | NoProgress

  /** What the context, the revalidator and the applier answer when n outcomes are recorded. */
  datatype Outside = Outside(drifted: bool, canceled: nat -> bool, drifts: nat -> bool, fails: nat -> bool)

  /** Operation id has this result among the first n outcomes. */
  ghost predicate Ended(log: seq<Outcome>, n: nat, id: string, r: Result) {
    exists j :: 0 <= j < n && j < |log| && log[j].id == id && log[j].result == r
  }

  /** Outcome i follows from the outcomes before it: the operation is attempted only after all its requirements
      succeeded, and blocked only after one of them did not. */
  ghost predicate Justified(deps: Deps, log: seq<Outcome>, i: nat)
    requires i < |log|
  {
    if log[i].result == Blocked then
      exists y :: y in At(deps, log[i].id) && (Ended(log, i, y, Failed) || Ended(log, i, y, Blocked))
    else
      forall y :: y in At(deps, log[i].id) ==> Ended(log, i, y, Succeeded)
  }

  /** The outcome that is recorded n-th is a blocked operation's; or its operation was attempted in a live context, and
      it succeeded exactly when neither the revalidator found drift nor the applier failed, drift coming first. */
  predicate AnsweredAt(w: Outside, o: Outcome, n: nat) {
    if o.result == Blocked then o.reason == "prerequisite-failed"
    else
      && !w.canceled(n) && (o.result == Succeeded <==> !w.drifts(n) && !w.fails(n))
      && o.reason == if w.drifts(n) then "precondition-drift" else if w.fails(n) then "provider-request-failed" else ""
  }

  ghost predicate Answered(w: Outside, log: seq<Outcome>) {
    forall i :: 0 <= i < |log| ==> AnsweredAt(w, log[i], i)
  }

  /** The next thing to do is to attempt id: it has no outcome, and all its requirements succeeded. */
  ghost predicate Ready(deps: Deps, all: set<string>, log: seq<Outcome>, id: string) {
    && id in all && (forall i :: 0 <= i < |log| ==> log[i].id != id)
    && forall y :: y in At(deps, id) ==> Ended(log, |log|, y, Succeeded)
  }

  /** The context ends when an operation is to be attempted. */
  ghost predicate Interrupted(deps: Deps, all: set<string>, w: Outside, log: seq<Outcome>) {
    w.canceled(|log|) && exists id :: Ready(deps, all, log, id)
  }

  /** The recorded results are those of the log, one for each operation in it. */
  ghost predicate Recorded(deps: Deps, results: map<string, Result>, log: seq<Outcome>) {
    && (forall i :: 0 <= i < |log| ==> log[i].id in results && results[log[i].id] == log[i].result)
    && (forall id :: id in results ==> Ended(log, |log|, id, results[id]))
    && (forall i, j :: 0 <= i < j < |log| ==> log[i].id != log[j].id)
    && (forall i :: 0 <= i < |log| ==> Justified(deps, log, i))
  }

  lemma EndedExtends(log: seq<Outcome>, o: Outcome, n: nat, id: string, r: Result)
    requires n <= |log| && Ended(log, n, id, r)
    ensures Ended(log + [o], n, id, r)
  {
    var j :| 0 <= j < n && j < |log| && log[j].id == id && log[j].result == r;
    assert (log + [o])[j] == log[j];
  }

  lemma JustifiedExtends(deps: Deps, log: seq<Outcome>, o: Outcome, i: nat)
    requires i < |log| && Justified(deps, log, i)
    ensures Justified(deps, log + [o], i)
  {
    assert (log + [o])[i] == log[i];
    forall y, r | Ended(log, i, y, r) ensures Ended(log + [o], i, y, r) { EndedExtends(log, o, i, y, r); }
  }

  /** Recording one more justified outcome. */
  lemma RecordedExtends(deps: Deps, results: map<string, Result>, log: seq<Outcome>, o: Outcome)
    requires Recorded(deps, results, log) && o.id !in results && Justified(deps, log + [o], |log|)
    ensures Recorded(deps, results[o.id := o.result], log + [o])
  {
    var log', results' := log + [o], results[o.id := o.result];
    forall i | 0 <= i < |log'| ensures Justified(deps, log', i) {
      if i < |log| { JustifiedExtends(deps, log, o, i); }
    }
    forall id | id in results' ensures Ended(log', |log'|, id, results'[id]) {
      if id == o.id { assert log'[|log|] == o; }
      else {
        var j :| 0 <= j < |log| && log[j].id == id && log[j].result == results[id];
        assert log'[j] == log[j];
      }
    }
  }

  method DependencyState(required: seq<string>, results: map<string, Result>) returns (ready: bool, blocked: bool)
    ensures ready <==> forall y :: y in required ==> y in results && results[y] == Succeeded
    ensures blocked ==> exists y :: y in required && y in results && results[y] != Succeeded
    ensures !ready && !blocked ==> exists y :: y in required && y !in results
    ensures !(ready && blocked)
  {
    for i := 0 to |required|
      invariant forall k :: 0 <= k < i ==> required[k] in results && results[required[k]] == Succeeded
    {
      if required[i] !in results { return false, false; }
      if results[required[i]] != Succeeded { return false, true; }
    }
    return true, false;
  }

  /** What the attempt of a ready operation records. */
  function Attempt(id: string, w: Outside, n: nat): Outcome {
    if w.drifts(n) then Outcome(id, Failed, "precondition-drift")
    else if w.fails(n) then Outcome(id, Failed, "provider-request-failed")
    else Outcome(id, Succeeded, "")
  }

  lemma EndedIn(deps: Deps, results: map<string, Result>, log: seq<Outcome>, o: Outcome, y: string)
    requires Recorded(deps, results, log) && y in results
    ensures Ended(log + [o], |log|, y, results[y])
  {
    EndedExtends(log, o, |log|, y, results[y]);
  }

  ghost predicate Logged(deps: Deps, w: Outside, results: map<string, Result>, log: seq<Outcome>) {
    Recorded(deps, results, log) && Answered(w, log)
  }

  /** One pending operation: it waits, or its outcome is recorded. */
  method Settle(id: string, deps: Deps, results: map<string, Result>, log: seq<Outcome>, w: Outside)
    returns (outcome: Option<Outcome>, canceled: bool)
    requires Logged(deps, w, results, log) && id !in results
    ensures canceled ==> outcome.None? && w.canceled(|log|)
    ensures canceled ==> forall y :: y in At(deps, id) ==> y in results && results[y] == Succeeded
    ensures outcome.Some? ==> Logged(deps, w, results[id := outcome.value.result], log + [outcome.value])
    ensures outcome.None? && !canceled ==> exists y :: y in At(deps, id) && y !in results
  {
    var ready, blocked := DependencyState(At(deps, id), results);
    if blocked {
      var o := Outcome(id, Blocked, "prerequisite-failed");
      ghost var y :| y in At(deps, id) && y in results && results[y] != Succeeded;
      EndedIn(deps, results, log, o, y);
      RecordedExtends(deps, results, log, o);
      return Some(o), false;
    }
    if !ready { return None, false; }
    if w.canceled(|log|) { return None, true; }
    var o := Attempt(id, w, |log|);
    forall y | y in At(deps, id) ensures Ended(log + [o], |log|, y, Succeeded) { EndedIn(deps, results, log, o, y); }
    RecordedExtends(deps, results, log, o);
    return Some(o), false;
  }

  /** The operations are either pending, once each, or have a result. */
  ghost predicate Split(all: set<string>, pending: seq<string>, results: map<string, Result>) {
    Distinct(pending) && forall id :: (id in pending || id in results <==> id in all)
                                      && !(id in pending && id in results)
  }

  /** Operation id waits for one without a result. */
  ghost predicate Waits(deps: Deps, results: map<string, Result>, id: string) {
    exists y :: y in At(deps, id) && y !in results
  }

  /** One pass over the pending operations. Without progress every one of them waits. */
  method Pass(pending: seq<string>, deps: Deps, results: map<string, Result>, log: seq<Outcome>, w: Outside,
      ghost all: set<string>)
    returns (next: seq<string>, results': map<string, Result>, log': seq<Outcome>, progress: bool, canceled: bool)
    requires Logged(deps, w, results, log) && Split(all, pending, results)
    ensures Logged(deps, w, results', log')
    ensures canceled ==> Interrupted(deps, all, w, log')
    ensures !canceled ==> Split(all, next, results') && |next| <= |pending| && (progress ==> |next| < |pending|)
    ensures !canceled && !progress ==> next == pending && results' == results
    ensures !canceled && !progress ==> forall id :: id in pending ==> Waits(deps, results, id)
  {
    next, results', log', progress, canceled := [], results, log, false, false;
    for i := 0 to |pending|
      invariant Logged(deps, w, results', log')
      invariant Split(all, next + pending[i..], results') && |next| <= i && (progress ==> |next| < i)
      invariant !progress ==> next == pending[..i] && results' == results
      invariant !progress ==> forall id :: id in next ==> Waits(deps, results, id)
    {
      var id := pending[i];
      NextPending(all, next, pending, i, results');
      var outcome, stop := Settle(id, deps, results', log', w);
      if stop {
        assert id in next + pending[i..];
        assert Ready(deps, all, log', id);
        return next, results', log', progress, true;
      }
      if outcome.Some? {
        SettleSplit(all, next, id, pending[i + 1..], results', outcome.value.result);
        results', log', progress := results'[id := outcome.value.result], log' + [outcome.value], true;
      } else {
        next := next + [id];
      }
    }
    assert next + pending[|pending|..] == next;
  }

  lemma NextPending(all: set<string>, next: seq<string>, pending: seq<string>, i: nat, results: map<string, Result>)
    requires i < |pending| && Split(all, next + pending[i..], results)
    ensures pending[i] !in results && Split(all, next + ([pending[i]] + pending[i + 1..]), results)
    ensures next + pending[i..] == (next + [pending[i]]) + pending[i + 1..]
  {
    assert pending[i..] == [pending[i]] + pending[i + 1..];
    assert (next + pending[i..])[|next|] == pending[i];
  }

  lemma SettleSplit(all: set<string>, before: seq<string>, id: string, after: seq<string>,
      results: map<string, Result>, r: Result)
    requires Split(all, before + ([id] + after), results)
    ensures Split(all, before + after, results[id := r])
  {
    var s, t := before + ([id] + after), before + after;
    assert forall i :: 0 <= i < |before| ==> t[i] == s[i];
    assert forall i :: |before| <= i < |t| ==> t[i] == s[i + 1];
    assert s[|before|] == id;
    forall x ensures x in s <==> x in t || x == id {}
    assert id !in t;
  }

  /** In an order of the requirements some pending operation does not wait. */
  lemma {:induction false} SomeoneReady(deps: Deps, order: seq<string>, all: set<string>, pending: seq<string>,
      results: map<string, Result>, id: string, i: nat)
    requires Ordered(deps, order) && Split(all, pending, results) && id in pending && i < |order| && order[i] == id
    requires forall x, y :: y in At(deps, x) ==> y in all
    requires Covers(deps, order)
    ensures exists x :: x in pending && !Waits(deps, results, x)
    decreases i
  {
    if Waits(deps, results, id) {
      var y :| y in At(deps, id) && y !in results;
      var j :| 0 <= j < i && order[j] == y;
      SomeoneReady(deps, order, all, pending, results, y, j);
    }
  }

  /** So a pass over a valid document always makes progress. */
  lemma ProgressMade(deps: Deps, order: seq<string>, all: set<string>, pending: seq<string>,
      results: map<string, Result>)
    requires Ordered(deps, order) && Covers(deps, order) && Split(all, pending, results) && pending != []
    requires forall x, y :: y in At(deps, x) ==> y in all
    ensures exists x :: x in pending && !Waits(deps, results, x)
  {
    var id := pending[0];
    if id in deps {
      var i :| 0 <= i < |order| && order[i] == id;
      SomeoneReady(deps, order, all, pending, results, id, i);
    } else {
      assert !Waits(deps, results, id);
    }
  }

  predicate OutcomeBefore(a: Outcome, b: Outcome) { Less(a.id, b.id) }

  lemma OutcomeBeforeIsWeakOrder()
    ensures WeakOrder(OutcomeBefore)
  {
    forall a, b | OutcomeBefore(a, b) ensures !OutcomeBefore(b, a) {
      LessIrreflexive(a.id);
      if OutcomeBefore(b, a) { LessTransitive(a.id, b.id, a.id); }
    }
    forall a, b, c | !OutcomeBefore(b, a) && !OutcomeBefore(c, b) ensures !OutcomeBefore(c, a) {
      NotAfterTransitive(a.id, b.id, c.id);
    }
  }

  /** The main loop: passes until nothing is pending. */
  method RunAll(ids: seq<string>, deps: Deps, w: Outside, ghost order: seq<string>, ghost all: set<string>)
    returns (log: seq<Outcome>, error: Option<Error>, ghost results: map<string, Result>)
    requires Ordered(deps, order) && Covers(deps, order) && Split(all, ids, map[])
      && forall x, y :: y in At(deps, x) ==> y in all
    ensures Recorded(deps, results, log) && Answered(w, log)
    ensures error == None || (error == Some(Canceled) && Interrupted(deps, all, w, log))
    ensures error == None ==> results.Keys == all
  {
    var pending, known: map<string, Result> := ids, map[];
    log, error, results := [], None, map[];
    while pending != []
      invariant Logged(deps, w, known, log) && Split(all, pending, known)
      decreases |pending|
    {
      var next, known', log', progress, canceled := Pass(pending, deps, known, log, w, all);
      if canceled { return log', Some(Canceled), known'; }
      if !progress {
        ProgressMade(deps, order, all, pending, known);
        assert false;
        return log', Some(NoProgress), known';
      }
      pending, known, log := next, known', log';
    }
    results := known;
  }

  lemma OperationIds(ops: seq<Operation>, ids: seq<string>)
    requires OperationsOk(ops) && |ids| == |ops| && forall i :: 0 <= i < |ops| ==> ids[i] == ops[i].id
    ensures Split(Ids(ops), ids, map[])
  {
    forall id ensures id in ids <==> id in Ids(ops) {
      if id in Ids(ops) {
        var o :| o in ops && o.id == id;
        var i :| 0 <= i < |ops| && ops[i] == o;
        assert ids[i] == id;
      }
    }
  }

  predicate IdBefore(a: string, b: string) { Less(a, b) }

  lemma IdBeforeIsWeakOrder()
    ensures WeakOrder(IdBefore)
  {
    forall a, b | IdBefore(a, b) ensures !IdBefore(b, a) {
      LessIrreflexive(a);
      if IdBefore(b, a) { LessTransitive(a, b, a); }
    }
    forall a, b, c | !IdBefore(b, a) && !IdBefore(c, b) ensures !IdBefore(c, a) { NotAfterTransitive(a, b, c); }
  }

  /** Sorting the operations changes neither what is pending nor that it is pending once. */
  lemma SortedSplit(all: set<string>, s: seq<string>, r: seq<string>, results: map<string, Result>)
    requires Split(all, s, results) && multiset(s) == multiset(r)
    ensures Split(all, r, results)
  {
    forall x ensures x in r <==> x in s { assert x in r <==> x in multiset(r); assert x in s <==> x in multiset(s); }
    forall i, j | 0 <= i < j < |r| ensures r[i] != r[j] {
      DistinctCount(s, r[i]);
      if r[i] == r[j] { CountAtLeast(r, i, j); }
    }
  }

  /** The run of a document as it stands. */
  method ExecuteCanonical(d: Document, w: Outside) returns (outcomes: seq<Outcome>, error: Option<Error>,
      ghost log: seq<Outcome>)
    ensures error == Some(InvalidDocument) <==> !Valid(d)
    ensures error == Some(InitialDrift) <==> Valid(d) && w.drifted
    ensures !Valid(d) || w.drifted ==> log == []
    ensures error == Some(Canceled) <==>
      Valid(d) && !w.drifted && Interrupted(DepsOf(d.edges), Ids(d.operations), w, log)
    ensures error != Some(NoProgress)
    ensures multiset(outcomes) == multiset(log) && Answered(w, log)
    ensures forall i :: 0 <= i < |log| ==> Justified(DepsOf(d.edges), log, i)
    ensures error == None ==> SortedBy(outcomes, OutcomeBefore)
    ensures error == None ==> forall id :: id in Ids(d.operations) <==> exists i :: 0 <= i < |log| && log[i].id == id
    ensures forall i, j :: 0 <= i < j < |log| ==> log[i].id != log[j].id
  {
    log, outcomes := [], [];
    ghost var order;
    var ok;
    ok, order := Validate(d);
    if !ok { return [], Some(InvalidDocument), []; }
    if w.drifted { return [], Some(InitialDrift), []; }
    var deps := DepsOf(d.edges);
    var ids := seq(|d.operations|, i requires 0 <= i < |d.operations| => d.operations[i].id);
    OperationIds(d.operations, ids);
    IdBeforeIsWeakOrder();
    var sorted := SortStable(ids, IdBefore);
    SortedSplit(Ids(d.operations), ids, sorted, map[]);
    forall x, y | y in At(deps, x) ensures y in Ids(d.operations) { DepsMember(d.edges, x, y); }
    ghost var results;
    var raw;
    raw, error, results := RunAll(sorted, deps, w, order, Ids(d.operations));
    log, outcomes := raw, raw;
    if error == None {
      OutcomeBeforeIsWeakOrder();
      outcomes := SortStable(raw, OutcomeBefore);
    }
  }

  lemma JustifiedSame(a: Deps, b: Deps, log: seq<Outcome>, i: nat)
    requires SameDeps(a, b) && i < |log| && Justified(a, log, i)
    ensures Justified(b, log, i)
  {
    if log[i].result == Blocked {
      var y :| y in At(a, log[i].id) && (Ended(log, i, y, Failed) || Ended(log, i, y, Blocked));
      assert y in At(b, log[i].id);
    }
  }

  lemma InterruptedSame(a: Deps, b: Deps, all: set<string>, w: Outside, log: seq<Outcome>)
    requires SameDeps(a, b)
    ensures Interrupted(a, all, w, log) <==> Interrupted(b, all, w, log)
  {
    forall id ensures Ready(a, all, log, id) <==> Ready(b, all, log, id) {}
  }

  /** Executor.Execute: a document that is invalid or has drifted is not touched. Otherwise the run ends with exactly
      one outcome for every operation, unless the context ends when an operation is to be attempted. Attempted
      operations have the result that was answered, and each outcome is justified by earlier ones. */
  method Execute(d: Document, w: Outside) returns (outcomes: seq<Outcome>, error: Option<Error>,
      ghost log: seq<Outcome>)
    ensures error == Some(InvalidDocument) <==> !Valid(Filled(d))
    ensures error == Some(InitialDrift) <==> Valid(Filled(d)) && w.drifted
    ensures !Valid(Filled(d)) || w.drifted ==> outcomes == [] && log == []
    ensures error == Some(Canceled) <==>
      Valid(Filled(d)) && !w.drifted && Interrupted(DepsOf(d.edges), Ids(d.operations), w, log)
    ensures error != Some(NoProgress)
    ensures multiset(outcomes) == multiset(log) && Answered(w, log)
    ensures forall i :: 0 <= i < |log| ==> Justified(DepsOf(d.edges), log, i)
    ensures error == None ==> SortedBy(outcomes, OutcomeBefore)
    ensures error == None ==> forall id :: id in Ids(d.operations) <==> exists i :: 0 <= i < |log| && log[i].id == id
    ensures forall i, j :: 0 <= i < j < |log| ==> log[i].id != log[j].id
  {
    var canonical := Canonical(d);
    CanonicalValid(d);
    CanonicalOperations(d);
    CanonicalEdges(d);
    outcomes, error, log := ExecuteCanonical(canonical, w);
    forall i | 0 <= i < |log| ensures Justified(DepsOf(d.edges), log, i) {
      JustifiedSame(DepsOf(canonical.edges), DepsOf(d.edges), log, i);
    }
    InterruptedSame(DepsOf(canonical.edges), DepsOf(d.edges), Ids(d.operations), w, log);
  }
}
