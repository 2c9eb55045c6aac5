/** The device client's apply loop: which planned operations are sent, and what is recorded for each. */
module DeviceApply {
  import opened Text
  import opened Dns
  import opened PlanSpec
  import opened Planner

  datatype Result = Succeeded | Failed | Blocked
  datatype Reason =
    | Done | RequestFailed | PlanningConflict | DryRun | PrerequisiteFailed | ContextCanceled | AuthorizationRevoked
  datatype Outcome = Outcome(operation: Operation, result: Result, reason: Reason)
  datatype Error = OperationError(operation: Operation) | CanceledError | RevokedError

  predicate IsPrerequisite(op: Operation) { op.Create? || op.Update? || op.Replace? }

  /** What the outside world answers at each index: the context, the authorization check, the device. */
  datatype World = World(canceled: nat -> bool, revoked: nat -> bool, fails: nat -> bool)

  /** The loop ends before index i. */
  predicate Stops(ops: seq<Operation>, dryRun: bool, w: World, i: nat)
    requires i < |ops|
  {
    w.canceled(i) || (!ops[i].Conflict? && !dryRun && w.revoked(i))
  }

  /** Operation i is reached. */
  predicate Reached(ops: seq<Operation>, dryRun: bool, w: World, i: nat)
    requires i < |ops|
  {
    forall k :: 0 <= k <= i ==> !Stops(ops, dryRun, w, k)
  }

  /** Operation i is a prerequisite that was sent and failed. */
  predicate FailedPrerequisite(ops: seq<Operation>, dryRun: bool, w: World, i: nat)
    requires i < |ops|
  {
    Reached(ops, dryRun, w, i) && !dryRun && IsPrerequisite(ops[i]) && w.fails(i)
  }

  /** An earlier prerequisite of the name failed. */
  predicate HeldBack(ops: seq<Operation>, dryRun: bool, w: World, j: nat)
    requires j < |ops|
  {
    IsCleanup(ops[j]) && exists i :: 0 <= i < j && FailedPrerequisite(ops, dryRun, w, i)
                                     && GroupOf(ops[i].desired) == GroupOf(ops[j].current)
  }

  /** What is recorded for operation j. */
  function Recorded(ops: seq<Operation>, dryRun: bool, w: World, j: nat): Outcome
    requires j < |ops|
  {
    if !Reached(ops, dryRun, w, j) then
      Outcome(ops[j], Blocked, StopReason(ops, dryRun, w, j))
    else if ops[j].Conflict? then Outcome(ops[j], Blocked, PlanningConflict)
    else if dryRun then Outcome(ops[j], Blocked, DryRun)
    else if HeldBack(ops, dryRun, w, j) then Outcome(ops[j], Blocked, PrerequisiteFailed)
    else if w.fails(j) then Outcome(ops[j], Failed, RequestFailed)
    else Outcome(ops[j], Succeeded, Done)
  }

  /** Why the loop ended at or before index j. */
  function StopReason(ops: seq<Operation>, dryRun: bool, w: World, j: nat): Reason
    requires j < |ops|
  {
    if j > 0 && !Reached(ops, dryRun, w, j - 1) then StopReason(ops, dryRun, w, j - 1)
    else if w.canceled(j) then ContextCanceled else AuthorizationRevoked
  }

  /** Everything from the index where the loop stopped is recorded as blocked. */
  method RecordRemaining(ops: seq<Operation>, dryRun: bool, w: World, index: nat, reason: Reason, done: seq<Outcome>)
    returns (outcomes: seq<Outcome>)
    requires index < |ops| && |done| == index && Stops(ops, dryRun, w, index)
    requires reason == if w.canceled(index) then ContextCanceled else AuthorizationRevoked
    requires index > 0 ==> Reached(ops, dryRun, w, index - 1)
    requires forall j :: 0 <= j < index ==> done[j] == Recorded(ops, dryRun, w, j)
    ensures |outcomes| == |ops| && forall j :: 0 <= j < |ops| ==> outcomes[j] == Recorded(ops, dryRun, w, j)
    ensures forall x: Outcome :: x.result == Failed ==> (x in outcomes <==> x in done)
    ensures outcomes[..index] == done
    ensures forall j :: index <= j < |ops| ==> outcomes[j].reason == reason && outcomes[j].result == Blocked
  {
    outcomes := done;
    for k := index to |ops|
      invariant |outcomes| == k
      invariant forall j :: 0 <= j < k ==> outcomes[j] == Recorded(ops, dryRun, w, j)
      invariant k > index ==> StopReason(ops, dryRun, w, k - 1) == reason && !Reached(ops, dryRun, w, k - 1)
      invariant forall x: Outcome :: x.result == Failed ==> (x in outcomes <==> x in done)
      invariant outcomes[..index] == done
      invariant forall j :: index <= j < k ==> outcomes[j].reason == reason && outcomes[j].result == Blocked
    {
      outcomes := outcomes + [Outcome(ops[k], Blocked, reason)];
    }
  }

  /** The names of the failed prerequisites among the first n operations. */
  ghost predicate FailedNames(ops: seq<Operation>, dryRun: bool, w: World, n: nat, failed: set<Group>)
    requires n <= |ops|
  {
    forall g :: g in failed <==>
      exists i :: 0 <= i < n && FailedPrerequisite(ops, dryRun, w, i)
                  && GroupOf(ops[i].desired) == g
  }

  /** One operation that is not a conflict, in a live run. */
  method ApplyOne(ops: seq<Operation>, w: World, i: nat, failed: set<Group>) returns (outcome: Outcome,
      failed': set<Group>)
    requires i < |ops| && !ops[i].Conflict? && FailedNames(ops, false, w, i, failed) && Reached(ops, false, w, i)
    ensures outcome == Recorded(ops, false, w, i)
    ensures FailedNames(ops, false, w, i + 1, failed')
  {
    var op := ops[i];
    failed' := failed;
    if IsCleanup(op) && GroupOf(op.current) in failed {
      outcome := Outcome(op, Blocked, PrerequisiteFailed);
    } else if w.fails(i) {
      if IsPrerequisite(op) { failed' := failed + {GroupOf(op.desired)}; }
      outcome := Outcome(op, Failed, RequestFailed);
    } else {
      outcome := Outcome(op, Succeeded, Done);
    }
  }

  lemma ReachedNext(ops: seq<Operation>, dryRun: bool, w: World, i: nat)
    requires i < |ops| && !Stops(ops, dryRun, w, i) && (i > 0 ==> Reached(ops, dryRun, w, i - 1))
    ensures Reached(ops, dryRun, w, i)
  {
  }

  ghost predicate ErrorsOf(outcomes: seq<Outcome>, errors: seq<Error>) {
    forall o: Operation :: OperationError(o) in errors <==> Outcome(o, Failed, RequestFailed) in outcomes
  }

  lemma ErrorsStep(outcomes: seq<Outcome>, errors: seq<Error>, outcome: Outcome, errors': seq<Error>)
    requires ErrorsOf(outcomes, errors) && (outcome.result == Failed <==> outcome.reason == RequestFailed)
    requires errors' == if outcome.result == Failed then errors + [OperationError(outcome.operation)] else errors
    ensures ErrorsOf(outcomes + [outcome], errors')
  {
  }

  /** The loop ended for this reason, and nothing had failed before. */
  ghost predicate EndedBy(outcomes: seq<Outcome>, reason: Reason) {
    && (exists j :: 0 <= j < |outcomes| && outcomes[j].reason == reason)
    && (forall j :: 0 <= j < |outcomes| ==> outcomes[j].result != Failed)
  }

  /** The outcomes so far, of a loop that goes on. */
  ghost predicate Live(outcomes: seq<Outcome>, errors: seq<Error>) {
    && ErrorsOf(outcomes, errors) && (forall e :: e in errors ==> e.OperationError?)
    && (forall j :: 0 <= j < |outcomes| ==> outcomes[j].reason != ContextCanceled
                                            && outcomes[j].reason != AuthorizationRevoked)
    && (forall j :: 0 <= j < |outcomes| ==> (outcomes[j].result == Failed <==> outcomes[j].reason == RequestFailed))
  }

  /** The errors tell whether and why the loop ended early, if nothing failed before. */
  ghost predicate Reported(outcomes: seq<Outcome>, errors: seq<Error>) {
    && ErrorsOf(outcomes, errors) && (forall e :: e in errors && !e.OperationError? ==> errors == [e])
    && (CanceledError in errors <==> EndedBy(outcomes, ContextCanceled))
    && (RevokedError in errors <==> EndedBy(outcomes, AuthorizationRevoked))
  }

  /** When the loop ends, its reason is recorded and no other. */
  lemma EndedFor(done: seq<Outcome>, errors: seq<Error>, outcomes: seq<Outcome>, reason: Reason)
    requires |done| < |outcomes| && outcomes[..|done|] == done && Live(done, errors)
    requires forall j :: |done| <= j < |outcomes| ==> outcomes[j].reason == reason && outcomes[j].result == Blocked
    requires reason == ContextCanceled || reason == AuthorizationRevoked
    ensures EndedBy(outcomes, reason) <==> errors == []
    ensures forall r :: (r == ContextCanceled || r == AuthorizationRevoked) && r != reason ==> !EndedBy(outcomes, r)
  {
    assert outcomes[|done|].reason == reason;
    assert forall j :: 0 <= j < |done| ==> outcomes[j] == done[j];
    if errors != [] {
      var e := errors[0];
      assert e in errors && OperationError(e.operation) in errors;
      var j :| 0 <= j < |done| && done[j] == Outcome(e.operation, Failed, RequestFailed);
      assert outcomes[j].result == Failed;
    } else {
      forall j | 0 <= j < |done| ensures done[j].result != Failed {
        assert done[j] in done && OperationError(done[j].operation) !in errors;
      }
    }
  }

  lemma LiveStep(outcomes: seq<Outcome>, errors: seq<Error>, outcome: Outcome, errors': seq<Error>)
    requires Live(outcomes, errors) && (outcome.result == Failed <==> outcome.reason == RequestFailed)
    requires outcome.reason != ContextCanceled && outcome.reason != AuthorizationRevoked
    requires errors' == if outcome.result == Failed then errors + [OperationError(outcome.operation)] else errors
    ensures Live(outcomes + [outcome], errors')
  {
    ErrorsStep(outcomes, errors, outcome, errors');
  }

  /** The loop ends here: everything from this index is blocked, and the reason is an error when nothing failed. */
  method StopAt(ops: seq<Operation>, dryRun: bool, w: World, index: nat, reason: Reason, done: seq<Outcome>,
      errors: seq<Error>)
    returns (outcomes: seq<Outcome>, errors': seq<Error>)
    requires index < |ops| && |done| == index && Stops(ops, dryRun, w, index) && Live(done, errors)
    requires reason == if w.canceled(index) then ContextCanceled else AuthorizationRevoked
    requires index > 0 ==> Reached(ops, dryRun, w, index - 1)
    requires forall j :: 0 <= j < index ==> done[j] == Recorded(ops, dryRun, w, j)
    ensures |outcomes| == |ops| && forall j :: 0 <= j < |ops| ==> outcomes[j] == Recorded(ops, dryRun, w, j)
    ensures Reported(outcomes, errors') && errors' != []
  {
    errors' := errors;
    if errors == [] { errors' := [if reason == ContextCanceled then CanceledError else RevokedError]; }
    outcomes := RecordRemaining(ops, dryRun, w, index, reason, done);
    EndedFor(done, errors, outcomes, reason);
  }

  /** The whole run: one outcome per operation, an error for each failed one, and the reason of an early stop
      only when nothing failed before it. */
  method ApplyWithResults(ops: seq<Operation>, dryRun: bool, w: World) returns (outcomes: seq<Outcome>,
      errors: seq<Error>)
    ensures |outcomes| == |ops| && forall j :: 0 <= j < |ops| ==> outcomes[j] == Recorded(ops, dryRun, w, j)
    ensures Reported(outcomes, errors)
    ensures errors == [] ==> forall j :: 0 <= j < |ops| ==> Reached(ops, dryRun, w, j)
  {
    outcomes, errors := [], [];
    var failed: set<Group> := {};
    for i := 0 to |ops|
      invariant |outcomes| == i
      invariant forall j :: 0 <= j < i ==> outcomes[j] == Recorded(ops, dryRun, w, j) && Reached(ops, dryRun, w, j)
      invariant FailedNames(ops, dryRun, w, i, failed)
      invariant Live(outcomes, errors)
    {
      if w.canceled(i) {
        assert Stops(ops, dryRun, w, i) && !Reached(ops, dryRun, w, i);
        outcomes, errors := StopAt(ops, dryRun, w, i, ContextCanceled, outcomes, errors);
        return;
      }
      var outcome: Outcome;
      if ops[i].Conflict? {
        outcome := Outcome(ops[i], Blocked, PlanningConflict);
      } else if dryRun {
        outcome := Outcome(ops[i], Blocked, DryRun);
      } else if w.revoked(i) {
        assert Stops(ops, dryRun, w, i) && !Reached(ops, dryRun, w, i);
        outcomes, errors := StopAt(ops, dryRun, w, i, AuthorizationRevoked, outcomes, errors);
        return;
      } else {
        ReachedNext(ops, dryRun, w, i);
        outcome, failed := ApplyOne(ops, w, i, failed);
      }
      ghost var known := errors;
      if outcome.result == Failed { errors := errors + [OperationError(outcome.operation)]; }
      LiveStep(outcomes, known, outcome, errors);
      outcomes := outcomes + [outcome];
    }
  }

  /** In a planned order, no delete or deactivate is sent for a name when any create, update or replace of that
      name failed, wherever the two stand in the plan. */
  lemma CleanupWaits(ops: seq<Operation>, dryRun: bool, w: World, i: nat, j: nat)
    requires SortedBy(ops, AppliedBefore) && i < |ops| && j < |ops|
    requires IsPrerequisite(ops[i]) && IsCleanup(ops[j]) && GroupOf(ops[i].desired) == GroupOf(ops[j].current)
    requires Recorded(ops, dryRun, w, i).result == Failed
    ensures Recorded(ops, dryRun, w, j).result == Blocked
  {
    assert AppliedBefore(ops[i], ops[j]);
    assert i < j;
    assert Reached(ops, dryRun, w, j) ==> FailedPrerequisite(ops, dryRun, w, i);
  }

  /** So a cleanup that is sent comes after every create, update and replace of its name, all of them successful. */
  lemma CleanupNeedsAll(ops: seq<Operation>, dryRun: bool, w: World, i: nat, j: nat)
    requires SortedBy(ops, AppliedBefore) && i < |ops| && j < |ops|
    requires IsPrerequisite(ops[i]) && IsCleanup(ops[j]) && GroupOf(ops[i].desired) == GroupOf(ops[j].current)
    requires Recorded(ops, dryRun, w, j).result != Blocked
    ensures i < j && Recorded(ops, dryRun, w, i).result == Succeeded
  {
    assert AppliedBefore(ops[i], ops[j]);
    if Recorded(ops, dryRun, w, i).result == Failed { CleanupWaits(ops, dryRun, w, i, j); }
  }

  // ---- The outcomes among themselves ----------------------------------------------------

  /** The loop had ended. */
  predicate Ended(o: Outcome) { o.reason == ContextCanceled || o.reason == AuthorizationRevoked }

  lemma {:induction false} EndedExactly(ops: seq<Operation>, dryRun: bool, w: World, j: nat)
    requires j < |ops|
    ensures Ended(Recorded(ops, dryRun, w, j)) <==> !Reached(ops, dryRun, w, j)
  {
    if j > 0 && !Reached(ops, dryRun, w, j - 1) { EndedExactly(ops, dryRun, w, j - 1); }
  }

  /** Once the loop has ended, everything after it is blocked for the same reason. */
  lemma {:induction false} EndIsFinal(ops: seq<Operation>, dryRun: bool, w: World, i: nat, j: nat)
    requires i <= j < |ops| && Ended(Recorded(ops, dryRun, w, i))
    ensures Recorded(ops, dryRun, w, j) == Outcome(ops[j], Blocked, Recorded(ops, dryRun, w, i).reason)
  {
    if i < j {
      EndIsFinal(ops, dryRun, w, i, j - 1);
      assert !Reached(ops, dryRun, w, j - 1);
    }
  }

  /** While the loop goes on, a cleanup is skipped exactly when the outcome of an earlier create, update or replace of
      its name is a failure. */
  lemma SkippedExactly(ops: seq<Operation>, w: World, j: nat)
    requires j < |ops| && !Ended(Recorded(ops, false, w, j))
    ensures Recorded(ops, false, w, j).reason == PrerequisiteFailed <==>
      IsCleanup(ops[j]) && exists i :: 0 <= i < j && IsPrerequisite(ops[i])
                                       && Recorded(ops, false, w, i).result == Failed
                                       && GroupOf(ops[i].desired) == GroupOf(ops[j].current)
  {
    EndedExactly(ops, false, w, j);
    forall i | 0 <= i < j && IsPrerequisite(ops[i])
      ensures Recorded(ops, false, w, i).result == Failed <==> FailedPrerequisite(ops, false, w, i)
    {
      assert Reached(ops, false, w, i);
    }
  }

  /** In a live run that nothing stops, every operation but conflicts and skipped cleanups is sent, and its outcome is
      the device's answer. A dry run sends nothing. */
  lemma SentExactly(ops: seq<Operation>, dryRun: bool, w: World, j: nat)
    requires j < |ops| && forall k :: 0 <= k <= j ==> !w.canceled(k) && !w.revoked(k)
    ensures var o := Recorded(ops, dryRun, w, j);
            && o.operation == ops[j]
            && (dryRun ==> o.result == Blocked)
            && (ops[j].Conflict? ==> o.result == Blocked && o.reason == PlanningConflict)
            && (!dryRun && !ops[j].Conflict? && o.reason != PrerequisiteFailed ==>
                  o.result == if w.fails(j) then Failed else Succeeded)
  {
    assert Reached(ops, dryRun, w, j);
  }
}
