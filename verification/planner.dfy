/** The planner: the phases of one planning run put together. The plan holds exactly the
    operations that PlanSpec counts, in the order in which they are applied. */
module Planner {
  import opened Text
  import opened Dns
  import opened PlanSpec
  import opened PlanIndex
  import opened PlanNames
  import opened PlanRecords
  import opened PlanCleanup
  import opened PlanExact

  /** Conflicts first, then in-place changes, then creates, then removals. */
  function PhaseRank(op: Operation): nat {
    match op
    case Conflict(_, _, _) => 0
    case Update(_, _) => 1
    case Replace(_, _, _) => 1
    case Create(_) => 2
    case Delete(_) => 3
    case Deactivate(_, _) => 3
  }

  /** The alphabetical place of the operation type. */
  function TypeRank(op: Operation): nat {
    match op
    case Conflict(_, _, _) => 0
    case Create(_) => 1
    case Deactivate(_, _) => 2
    case Delete(_) => 3
    case Replace(_, _, _) => 4
    case Update(_, _) => 5
  }

  function Subject(op: Operation): Endpoint { if op.Delete? then op.current else op.desired }

  /** The apply order. */
  predicate AppliedBefore(a: Operation, b: Operation) {
    if PhaseRank(a) != PhaseRank(b) then PhaseRank(a) < PhaseRank(b)
    else if TypeRank(a) != TypeRank(b) then TypeRank(a) < TypeRank(b)
    else KeyBefore(Subject(a), Subject(b))
  }

  lemma AppliedBeforeIsWeakOrder()
    ensures WeakOrder(AppliedBefore)
  {
    KeyBeforeIsWeakOrder();
    forall a, b, c | !AppliedBefore(b, a) && !AppliedBefore(c, b) ensures !AppliedBefore(c, a) {
      assert Chain(Subject(a), Subject(b), Subject(c));
    }
  }

  predicate IsCleanup(op: Operation) { op.Delete? || op.Deactivate? }

  predicate SameKind(a: Operation, b: Operation) {
    || (a.Conflict? && b.Conflict?) || (a.Create? && b.Create?) || (a.Update? && b.Update?)
    || (a.Replace? && b.Replace?) || (a.Delete? && b.Delete?) || (a.Deactivate? && b.Deactivate?)
  }

  /** Nothing precedes a conflict but conflicts, no create or cleanup an in-place change, no cleanup a create; and
      operations of one kind go by the texts of their keys. */
  predicate MayPrecede(a: Operation, b: Operation) {
    && (b.Conflict? ==> a.Conflict?)
    && (b.Update? || b.Replace? ==> !a.Create? && !IsCleanup(a))
    && (b.Create? ==> !IsCleanup(a))
    && (SameKind(a, b) ==> !Less(Render(KeyOf(Subject(b))), Render(KeyOf(Subject(a)))))
  }

  /** The apply order surfaces conflicts, changes rows in place, creates, and then cleans up. */
  lemma AppliedInPhases(ops: seq<Operation>)
    requires SortedBy(ops, AppliedBefore)
    ensures forall i, j :: 0 <= i < j < |ops| ==> MayPrecede(ops[i], ops[j])
  {
    forall i, j | 0 <= i < j < |ops| ensures MayPrecede(ops[i], ops[j]) { assert !AppliedBefore(ops[j], ops[i]); }
  }

  function PlanFor(desired: seq<Endpoint>, current: seq<Endpoint>, owner: string, cleanup: Cleanup,
      allowed: Endpoint -> bool): Problem {
    Problem(LastByKey(desired), current, owner, cleanup, allowed, KeyBefore)
  }

  lemma PlanForWf(desired: seq<Endpoint>, current: seq<Endpoint>, owner: string, cleanup: Cleanup,
      allowed: Endpoint -> bool)
    requires SeparableAll(desired)
    ensures PlanFor(desired, current, owner, cleanup, allowed).Wf()
  {
    LastByKeyWf(desired);
    KeyBeforeIsWeakOrder();
    var m := LastByKey(desired);
    forall j, k | j in m && k in m && j != k ensures KeyBefore(m[j], m[k]) || KeyBefore(m[k], m[j]) {
      KeyOrderTotal(m[j], m[k]);
    }
  }

  method ReplacementOps(replacements: map<Group, Operation>) returns (ops: seq<Operation>)
    requires forall g :: g in replacements ==> replacements[g].Replace? && GroupOf(replacements[g].desired) == g
    ensures forall o: Operation {:trigger multiset(ops)[o]} ::
              multiset(ops)[o] == (if o.Replace? && Lookup(replacements, GroupOf(o.desired)) == Some(o) then 1 else 0)
  {
    ops := [];
    var todo := replacements.Keys;
    while todo != {}
      invariant todo <= replacements.Keys
      invariant forall o: Operation {:trigger multiset(ops)[o]} ::
                  multiset(ops)[o] == (if o.Replace? && GroupOf(o.desired) !in todo
                    && Lookup(replacements, GroupOf(o.desired)) == Some(o) then 1 else 0)
    {
      var g :| g in todo;
      todo := todo - {g};
      ops := ops + [replacements[g]];
    }
  }

  method CreateOps(creates: seq<Endpoint>) returns (ops: seq<Operation>, pending: set<Group>)
    ensures forall o: Operation {:trigger multiset(ops)[o]} ::
      multiset(ops)[o] == (if o.Create? then multiset(creates)[o.desired] else 0)
    ensures forall g :: g in pending <==> exists d :: d in creates && GroupOf(d) == g
  {
    ops, pending := [], {};
    for i := 0 to |creates|
      invariant forall o: Operation {:trigger multiset(ops)[o]} ::
        multiset(ops)[o] == (if o.Create? then multiset(creates[..i])[o.desired] else 0)
      invariant forall g :: g in pending <==> exists d :: d in creates[..i] && GroupOf(d) == g
    {
      assert creates[..i + 1] == creates[..i] + [creates[i]];
      ops := ops + [Create(creates[i])];
      pending := pending + {GroupOf(creates[i])};
    }
    assert creates[..|creates|] == creates;
  }

  function CleanupCount(stales: seq<Endpoint>, pending: set<Group>, cleanup: Cleanup, o: Operation): nat {
    match o
    case Delete(c) => if cleanup == CleanupDelete && GroupOf(c) !in pending then multiset(stales)[c] else 0
    case Deactivate(d, c) =>
      if cleanup == CleanupDeactivate && GroupOf(c) !in pending && !c.disabled && d == c.(disabled := true)
      then multiset(stales)[c]
      else 0
    case _ => 0
  }

  /** The cleanup operation for one surplus row, if the policy and the name's creates allow one. */
  function CleanupOp(c: Endpoint, pending: set<Group>, cleanup: Cleanup): Option<Operation> {
    if GroupOf(c) in pending then None
    else match cleanup
      case CleanupDelete => Some(Delete(c))
      case CleanupDeactivate => if c.disabled then None else Some(Deactivate(c.(disabled := true), c))
      case CleanupKeep => None
  }

  lemma CleanupCountStep(stales: seq<Endpoint>, c: Endpoint, pending: set<Group>, cleanup: Cleanup, o: Operation)
    ensures CleanupCount(stales + [c], pending, cleanup, o) ==
      CleanupCount(stales, pending, cleanup, o) + (if CleanupOp(c, pending, cleanup) == Some(o) then 1 else 0)
  {
    if o.Delete? || o.Deactivate? {
      assert multiset(stales + [c])[o.current] == multiset(stales)[o.current] + (if o.current == c then 1 else 0);
    }
  }

  method CleanupOps(stales: seq<Endpoint>, pending: set<Group>, cleanup: Cleanup) returns (ops: seq<Operation>)
    ensures forall o: Operation {:trigger multiset(ops)[o]} ::
      multiset(ops)[o] == CleanupCount(stales, pending, cleanup, o)
  {
    ops := [];
    for i := 0 to |stales|
      invariant forall o: Operation {:trigger multiset(ops)[o]} ::
        multiset(ops)[o] == CleanupCount(stales[..i], pending, cleanup, o)
    {
      assert stales[..i + 1] == stales[..i] + [stales[i]];
      var op := CleanupOp(stales[i], pending, cleanup);
      ghost var before := ops;
      if op.Some? { ops := ops + [op.value]; }
      forall o: Operation ensures multiset(ops)[o] == CleanupCount(stales[..i + 1], pending, cleanup, o) {
        CleanupCountStep(stales[..i], stales[i], pending, cleanup, o);
        assert multiset(ops)[o] == multiset(before)[o] + (if op == Some(o) then 1 else 0);
      }
    }
    assert stales[..|stales|] == stales;
  }

  ghost function MissingFn(p: Problem): Endpoint -> bool { d => p.Missing(d) }
  ghost function SurplusFn(p: Problem): Endpoint -> nat { c => p.StaleCount(c) }

  lemma PairsIsPaired(p: Problem, d: Endpoint, c: Endpoint)
    requires p.cleanup == CleanupDelete
    ensures Pairs(MissingFn(p), SurplusFn(p), d, c) <==> p.Paired(d, c)
  {
    var m, s := MissingFn(p), SurplusFn(p);
    assert forall e :: m(e) <==> p.Missing(e);
    assert forall e :: s(e) == p.StaleCount(e);
  }

  /** What pairing leaves, in the terms of PlanSpec and for every cleanup policy. */
  ghost predicate Remaining(p: Problem, ops: seq<Operation>, creates: seq<Endpoint>, stales: seq<Endpoint>) {
    && (forall o: Operation {:trigger multiset(ops)[o]} ::
          var paired := o.Replace? && o.reason == TargetChanged && p.Paired(o.desired, o.current);
          multiset(ops)[o] == if paired then 1 else 0)
    && (forall d {:trigger multiset(creates)[d]} :: multiset(creates)[d] == if p.Creates(d) then 1 else 0)
    && (forall c {:trigger multiset(stales)[c]} ::
          multiset(stales)[c] == if exists d :: p.Paired(d, c) then 0 else p.StaleCount(c))
  }

  lemma PairedIsRemaining(p: Problem, ops: seq<Operation>, creates: seq<Endpoint>, stales: seq<Endpoint>)
    requires p.cleanup == CleanupDelete && Paired(MissingFn(p), SurplusFn(p), ops, creates, stales)
    ensures Remaining(p, ops, creates, stales)
  {
    forall d, c ensures Pairs(MissingFn(p), SurplusFn(p), d, c) <==> p.Paired(d, c) { PairsIsPaired(p, d, c); }
    forall d ensures multiset(creates)[d] == if p.Creates(d) then 1 else 0 {
      assert MissingFn(p)(d) <==> p.Missing(d);
    }
    forall c ensures multiset(stales)[c] == if exists d :: p.Paired(d, c) then 0 else p.StaleCount(c) {
      assert SurplusFn(p)(c) == p.StaleCount(c);
    }
  }

  lemma CandidatesListed(p: Problem, creates: seq<Endpoint>, stales: seq<Endpoint>)
    requires CreatesAll(p, {}, creates) && AllStale(p, stales)
    ensures Lists(MissingFn(p), SurplusFn(p), creates, stales)
    ensures forall d {:trigger multiset(creates)[d]} :: multiset(creates)[d] == if p.Missing(d) then 1 else 0
  {
    forall d ensures multiset(creates)[d] == (if p.Missing(d) then 1 else 0) && (MissingFn(p)(d) <==> p.Missing(d)) {
      DistinctCount(creates, d);
    }
    forall c ensures SurplusFn(p)(c) == p.StaleCount(c) {}
  }

  lemma MissingNotBlocked(p: Problem, blocked: set<Logical>)
    requires BlockedAll(p, {}, blocked)
    ensures forall d :: MissingFn(p)(d) ==> LogicalOf(d) !in blocked
  {
    BlockedIsConflict(p, blocked);
    forall d | MissingFn(p)(d) ensures LogicalOf(d) !in blocked { CleanIsNoConflict(p, d); }
  }

  method PairPhase(p: Problem, creates: seq<Endpoint>, stales: seq<Endpoint>, blocked: set<Logical>)
    returns (ops: seq<Operation>, creates': seq<Endpoint>, stales': seq<Endpoint>)
    requires CreatesAll(p, {}, creates) && AllStale(p, stales) && BlockedAll(p, {}, blocked)
    ensures Remaining(p, ops, creates', stales')
  {
    CandidatesListed(p, creates, stales);
    if p.cleanup == CleanupDelete {
      MissingNotBlocked(p, blocked);
      ops, creates', stales' := PairReplacements(creates, stales, blocked, MissingFn(p), SurplusFn(p));
      PairedIsRemaining(p, ops, creates', stales');
    } else {
      ops, creates', stales' := [], creates, stales;
      AllRemain(p, creates, stales);
    }
  }

  /** Without delete nothing is paired. */
  lemma AllRemain(p: Problem, creates: seq<Endpoint>, stales: seq<Endpoint>)
    requires p.cleanup != CleanupDelete && AllStale(p, stales)
    requires forall d {:trigger multiset(creates)[d]} :: multiset(creates)[d] == if p.Missing(d) then 1 else 0
    ensures Remaining(p, [], creates, stales)
  {
    assert forall d, c :: !p.Paired(d, c);
  }

  lemma PendingAgrees(p: Problem, creates: seq<Endpoint>, pending: set<Group>)
    requires forall d {:trigger multiset(creates)[d]} :: multiset(creates)[d] == if p.Creates(d) then 1 else 0
    requires forall g :: g in pending <==> exists d :: d in creates && GroupOf(d) == g
    ensures forall g :: g in pending <==> p.Pending(g)
  {
    forall d ensures d in creates <==> p.Creates(d) { assert d in creates <==> d in multiset(creates); }
    forall g ensures g in pending <==> p.Pending(g) {
      if p.Pending(g) { var d :| p.Creates(d) && GroupOf(d) == g; assert d in creates; }
      if g in pending { var d :| d in creates && GroupOf(d) == g; assert p.Creates(d); }
    }
  }

  /** A replaced name is not also paired. */
  lemma ReplaceCount(p: Problem, conflicts: map<Group, Operation>, replacements: map<Group, Operation>, o: Operation)
    requires p.Wf() && Resolved(p, conflicts, replacements) && o.Replace?
    ensures p.Count(o) == (if Lookup(replacements, GroupOf(o.desired)) == Some(o) then 1 else 0)
                        + (if o.reason == TargetChanged && p.Paired(o.desired, o.current) then 1 else 0)
  {
    var g := GroupOf(o.desired);
    assert Agrees(p.Resolve(g), Lookup(conflicts, g), Lookup(replacements, g));
    if p.Resolve(g).Settled? { SettledName(p, g); }
  }

  lemma CleanupCountAgrees(p: Problem, stales: seq<Endpoint>, pending: set<Group>, o: Operation)
    requires forall c {:trigger multiset(stales)[c]} ::
      multiset(stales)[c] == if exists d :: p.Paired(d, c) then 0 else p.StaleCount(c)
    requires forall g :: g in pending <==> p.Pending(g)
    requires o.Delete? || o.Deactivate?
    ensures p.Count(o) == CleanupCount(stales, pending, p.cleanup, o)
  {
    assert GroupOf(o.current) in pending <==> p.Pending(GroupOf(o.current));
    var n := multiset(stales)[o.current];
  }

  /** The five parts of a plan add up to the specified count. */
  lemma PartsAddUp(
      p: Problem, conflicts: map<Group, Operation>, replacements: map<Group, Operation>,
      a: seq<Operation>, b: seq<Operation>, c: seq<Operation>, d: seq<Operation>, e: seq<Operation>,
      creates: seq<Endpoint>, stales: seq<Endpoint>, pending: set<Group>, o: Operation)
    requires p.Wf() && Resolved(p, conflicts, replacements) && Remaining(p, c, creates, stales)
    requires multiset(a)[o] == Emitted(p, {}, o)
    requires multiset(b)[o] == (if o.Replace? && Lookup(replacements, GroupOf(o.desired)) == Some(o) then 1 else 0)
    requires multiset(d)[o] == (if o.Create? then multiset(creates)[o.desired] else 0)
    requires multiset(e)[o] == CleanupCount(stales, pending, p.cleanup, o)
    requires forall g :: g in pending <==> p.Pending(g)
    ensures multiset(a)[o] + multiset(b)[o] + multiset(c)[o] + multiset(d)[o] + multiset(e)[o] == p.Count(o)
  {
    match o
    case Conflict(_, _, _) => EmittedIsCount(p, o);
    case Update(_, _) => EmittedIsCount(p, o);
    case Create(x) => assert multiset(creates)[x] == if p.Creates(x) then 1 else 0;
    case Replace(_, _, _) => ReplaceCount(p, conflicts, replacements, o);
    case Delete(_) => CleanupCountAgrees(p, stales, pending, o);
    case Deactivate(_, _) => CleanupCountAgrees(p, stales, pending, o);
  }

  lemma EmittedIsCount(p: Problem, o: Operation)
    requires p.Wf() && (o.Conflict? || o.Update?)
    ensures Emitted(p, {}, o) == p.Count(o)
  {
    CountAtMostOne(p, o);
    if p.Count(o) == 1 && p.Resolve(GroupOf(o.desired)).Settled? {
      assert p.Desires(o.desired) && KeyOf(o.desired) !in {};
    }
  }

  /** The name-level decisions for every name. */
  method NamePhase(p: Problem, byLogical: map<Logical, seq<Endpoint>>, byGroup: map<Group, seq<Endpoint>>)
    returns (conflicts: map<Group, Operation>, replacements: map<Group, Operation>)
    requires p.Wf()
    requires forall l {:trigger At(byLogical, l)} :: At(byLogical, l) == LogicalRows(p.current, l)
    requires forall g {:trigger At(byGroup, g)} :: At(byGroup, g) == GroupRows(p.current, g)
    ensures Resolved(p, conflicts, replacements)
    ensures forall g :: g in replacements ==> replacements[g].Replace? && GroupOf(replacements[g].desired) == g
  {
    var groups := GroupDesired(p);
    var own := DesiredConflicts(p, groups);
    var known := UnownedConflicts(p, byGroup, own);
    conflicts, replacements := CnameTransitions(p, groups, byGroup, byLogical, known);
    forall g | g in replacements ensures replacements[g].Replace? && GroupOf(replacements[g].desired) == g {
      assert Agrees(p.Resolve(g), Lookup(conflicts, g), Lookup(replacements, g));
      SettledName(p, g);
    }
  }

  /** Everything a plan holds, before it is sorted. */
  method Assemble(p: Problem) returns (ops: seq<Operation>)
    requires p.Wf()
    ensures forall o: Operation {:trigger multiset(ops)[o]} :: multiset(ops)[o] == p.Count(o)
  {
    var byKeyRows, byLogical, byGroup := IndexCurrent(p.current);
    var conflicts, replacements := NamePhase(p, byLogical, byGroup);
    var records, creates0, found, blocked := ReconcileDesired(p, conflicts, replacements, byLogical, byKeyRows);
    var stales0 := CollectStale(p, byKeyRows, conflicts, replacements, blocked, found);
    var swaps := ReplacementOps(replacements);
    var pairs, creates, stales := PairPhase(p, creates0, stales0, blocked);
    var news, pending := CreateOps(creates);
    var cleanups := CleanupOps(stales, pending, p.cleanup);
    PendingAgrees(p, creates, pending);
    ops := records + swaps + pairs + news + cleanups;
    forall o: Operation ensures multiset(ops)[o] == p.Count(o) {
      PartsAddUp(p, conflicts, replacements, records, swaps, pairs, news, cleanups, creates, stales, pending, o);
    }
  }

  /** plan.BuildWithCleanupScope: the multiset of operations does not depend on any map order. */
  method BuildWithCleanupScope(
      desired: seq<Endpoint>, current: seq<Endpoint>, owner: string, cleanup: Cleanup, allowed: Endpoint -> bool)
    returns (ops: seq<Operation>)
    requires SeparableAll(desired)
    ensures forall o: Operation {:trigger multiset(ops)[o]} ::
      multiset(ops)[o] == PlanFor(desired, current, owner, cleanup, allowed).Count(o)
    ensures SortedBy(ops, AppliedBefore) && forall i, j :: 0 <= i < j < |ops| ==> MayPrecede(ops[i], ops[j])
    ensures cleanup != CleanupDelete ==> forall o :: o in ops ==>
      !o.Delete? && (o.Replace? ==> Clash(o.desired.recordType, o.current.recordType))
    ensures cleanup == CleanupKeep ==> forall o :: o in ops ==> !o.Deactivate?
  {
    var byKey := IndexDesired(desired);
    PlanForWf(desired, current, owner, cleanup, allowed);
    var p := Problem(byKey, current, owner, cleanup, allowed, KeyBefore);
    var raw := Assemble(p);
    AppliedBeforeIsWeakOrder();
    ops := SortStable(raw, AppliedBefore);
    AppliedInPhases(ops);
    forall o | o in ops ensures p.Count(o) > 0 { assert o in multiset(ops); }
    forall o | o in ops && cleanup != CleanupDelete
      ensures !o.Delete? && (o.Replace? ==> Clash(o.desired.recordType, o.current.recordType))
    {
      WithoutDelete(p, o);
    }
  }
}
