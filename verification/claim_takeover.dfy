/** A run in which one controller mutates a row under another controller's claim: a single plan deletes two copies of
    a record, and between its two deletes the record changes hands. */
module ClaimTakeover {
  import opened Text
  import opened Dns
  import opened PlanSpec
  import opened PlanRecords
  import opened PlanSafety
  import opened Claims
  import opened ClaimStages
  import opened ClaimRecovery
  import opened Ownership
  import CS = ClaimSafety

  // ---- The plan -------------------------------------------------------------------------

  /** Nothing is desired any more, and the device lists these rows. */
  function NothingDesired(current: seq<Endpoint>, owner: string): Problem {
    Problem(map[], current, owner, CleanupDelete, (e: Endpoint) => true, KeyBefore)
  }

  lemma OwnedIsDeleted(current: seq<Endpoint>, owner: string, e: Endpoint)
    requires e in current && OwnedBy(e, owner)
    ensures NothingDesired(current, owner).Count(Delete(e)) > 0
  {
    var p := NothingDesired(current, owner);
    assert p.DesiredIn(GroupOf(e)) == {};
    assert multiset(current)[e] > 0 && p.StaleCount(e) > 0;
    assert forall d :: !p.Missing(d);
  }

  // ---- Runs -----------------------------------------------------------------------------

  /** The events take w to w'; c crashes nowhere and begins nothing but the operations of the plan. */
  ghost predicate Path(worlds: seq<CS.World>, events: seq<CS.Event>, p: Problem, t: string, c: Controller,
      w: CS.World, w': CS.World) {
    && |worlds| == |events| + 1 && worlds[0] == w && worlds[|events|] == w'
    && (forall i :: 0 <= i < |events| ==> worlds[i + 1] == CS.After(worlds[i], events[i]))
    && (forall i :: 0 <= i < |events| ==> FromPlan(p, t, c, events[i]))
  }

  ghost predicate FromPlan(p: Problem, t: string, c: Controller, e: CS.Event) {
    && !e.Crash?
    && (e.Begin? && e.who == c ==> exists op: Operation :: p.Count(op) > 0 && e.task == WorkOn(t, [], op))
  }

  ghost predicate Leads(p: Problem, t: string, c: Controller, w: CS.World, w': CS.World) {
    exists worlds, events :: Path(worlds, events, p, t, c, w, w')
  }

  lemma LeadsBy(p: Problem, t: string, c: Controller, w: CS.World, e: CS.Event)
    requires FromPlan(p, t, c, e)
    ensures Leads(p, t, c, w, CS.After(w, e))
  {
    assert Path([w, CS.After(w, e)], [e], p, t, c, w, CS.After(w, e));
  }

  lemma LeadsOn(p: Problem, t: string, c: Controller, a: CS.World, b: CS.World, z: CS.World)
    requires Leads(p, t, c, a, b) && Leads(p, t, c, b, z)
    ensures Leads(p, t, c, a, z)
  {
    var u, e :| Path(u, e, p, t, c, a, b);
    var v, f :| Path(v, f, p, t, c, b, z);
    var worlds, events := u + v[1..], e + f;
    forall i | 0 <= i < |events|
      ensures worlds[i + 1] == CS.After(worlds[i], events[i]) && FromPlan(p, t, c, events[i])
    {
      if i >= |e| { assert events[i] == f[i - |e|] && worlds[i + 1] == v[i - |e| + 1] && worlds[i] == v[i - |e|]; }
    }
    assert Path(worlds, events, p, t, c, a, z);
  }

  /** The world after controller who has moved. */
  function Moved(w: CS.World, s: Shared, who: Controller, l: Local): CS.World { CS.World(s, w.locals[who := l]) }

  lemma CallLeads(p: Problem, t: string, c: Controller, w: CS.World, who: Controller, l: Local, newId: Id, s': Shared,
      l': Local)
    requires who in w.locals && w.locals[who] == l && CS.Called(w.shared, who, l, Quiet(newId)) == (s', l')
    ensures Leads(p, t, c, w, Moved(w, s', who, l'))
  {
    LeadsBy(p, t, c, w, CS.Call(who, Quiet(newId)));
  }

  lemma LeadsNowhere(p: Problem, t: string, c: Controller, w: CS.World, who: Controller)
    requires who in w.locals
    ensures Leads(p, t, c, w, Moved(w, w.shared, who, w.locals[who]))
  {
    assert w.locals[who := w.locals[who]] == w.locals;
    assert Path([w], [], p, t, c, w, w);
  }

  lemma MovedOn(p: Problem, t: string, c: Controller, w: CS.World, who: Controller, s: Shared, l: Local, s': Shared,
      l': Local)
    requires Leads(p, t, c, w, Moved(w, s, who, l))
    requires Leads(p, t, c, Moved(w, s, who, l), Moved(Moved(w, s, who, l), s', who, l'))
    ensures Leads(p, t, c, w, Moved(w, s', who, l'))
  {
    assert w.locals[who := l][who := l'] == w.locals[who := l'];
    LeadsOn(p, t, c, w, Moved(w, s, who, l), Moved(w, s', who, l'));
  }

  /** Undisturbed calls are a run. */
  lemma {:induction false} DriveLeads(p: Problem, t: string, c: Controller, w: CS.World, who: Controller, l: Local,
      newId: Id, n: nat, s': Shared, l': Local)
    requires who in w.locals && w.locals[who] == l && Drive(w.shared, who, l, newId, n) == (s', l')
    ensures Leads(p, t, c, w, Moved(w, s', who, l'))
    decreases n
  {
    if n == 0 || l == Idle {
      LeadsNowhere(p, t, c, w, who);
    } else {
      var (s1, l1) := CS.Called(w.shared, who, l, Quiet(newId));
      CallLeads(p, t, c, w, who, l, newId, s1, l1);
      DriveLeads(p, t, c, Moved(w, s1, who, l1), who, l1, newId, n - 1, s', l');
      MovedOn(p, t, c, w, who, s1, l1, s', l');
    }
  }

  // ---- What undisturbed calls leave alone -----------------------------------------------

  /** A call adds no row but the one it posts, and no row of another record. */
  lemma CallKeys(s: Shared, c: Controller, l: Local, newId: Id)
    ensures var s' := CS.Called(s, c, l, Quiet(newId)).0;
            s'.device.others == s.device.others && s'.device.rows.Keys <= s.device.rows.Keys + {newId}
  {
    var w := CS.World(s, map[c := l]);
    assert CS.Of(w, c) == l;
    if CS.After(w, CS.Call(c, Quiet(newId))).shared.device != s.device { CS.OnlyWritersWrite(w, c, Quiet(newId)); }
  }

  lemma {:induction false} DriveKeys(s: Shared, c: Controller, l: Local, newId: Id, n: nat)
    ensures var s' := Drive(s, c, l, newId, n).0;
            s'.device.others == s.device.others && s'.device.rows.Keys <= s.device.rows.Keys + {newId}
    decreases n
  {
    if n > 0 && l != Idle {
      CallKeys(s, c, l, newId);
      var (s', l') := CS.Called(s, c, l, Quiet(newId));
      DriveKeys(s', c, l', newId, n - 1);
    }
  }

  // ---- The record changes hands ---------------------------------------------------------

  /** A confirmed claim without rows is orphaned. */
  lemma OrphanCalls(s: Shared, c: Controller, k: Claim, newId: Id, n: nat)
    requires s.claim == Some(k) && k.phase == Confirmed && s.device.rows == map[]
    ensures var s' := Phased(s, k, Orphaned);
            Drive(s, c, Reconciling(k, s.device, true), newId, n + 2)
            == Drive(s', c, Releasing(s'.claim.value, s.device), newId, n)
  {
    var s' := Phased(s, k, Orphaned);
    DriveOne(s, c, Reconciling(k, s.device, true), newId, n + 1, s, Orphaning(k, s.device, true));
    DriveOne(s, c, Orphaning(k, s.device, true), newId, n, s', Releasing(s'.claim.value, s.device));
  }

  /** An orphaned claim whose row is gone is released and removed. */
  lemma ReleaseCalls(s: Shared, c: Controller, k: Claim, newId: Id) returns (s': Shared)
    requires s.claim == Some(k) && k.bound.Some? && k.bound.value !in s.device.others && s.device.rows == map[]
    ensures Drive(s, c, Releasing(k, s.device), newId, 2) == (s', Idle) && s'.claim.None? && s'.device == s.device
  {
    var k1 := k.(finalizer := false, rv := s.nextRv);
    var s1 := s.(claim := Some(k1), nextRv := s.nextRv + 1);
    s' := s1.(claim := None);
    DriveOne(s, c, Releasing(k, s.device), newId, 1, s1, Removing(k1));
    DriveOne(s1, c, Removing(k1), newId, 0, s', Idle);
  }

  /** Erasing the bound and only row ends without a claim. */
  lemma EraseRemovesClaim(s: Shared, c: Controller, k: Claim, id: Id, newId: Id) returns (s': Shared, n: nat)
    requires s.claim == Some(k) && k.phase == Confirmed && k.bound == Some(id) && id !in s.device.others
    requires OnlyRow(s.device.rows, id, k.stamp)
    ensures Drive(s, c, Fetching(Erase, id), newId, n) == (s', Idle)
    ensures s'.claim.None? && s'.device == s.device.(rows := map[])
  {
    assert id in s.device.rows && s.device.rows[id] == k.stamp;
    var erased := Without(s, id);
    assert erased.device.rows == map[];
    OrphanCalls(erased, c, k, newId, 2);
    var orphaned := Phased(erased, k, Orphaned);
    s' := ReleaseCalls(orphaned, c, orphaned.claim.value, newId);
    n := EraseEnds(s, c, k, id, newId, 4, s');
  }

  /** A create of an unclaimed record without rows gives its row the ID the device assigns. */
  lemma CreateBinds(s: Shared, d: Controller, f: Stamp, newId: Id) returns (s': Shared, n: nat)
    requires s.claim.None? && s.device.rows == map[] && newId !in s.device.others
    ensures Drive(s, d, Listing(f), newId, n) == (s', Idle) && Published(s', d, f)
    ensures s'.claim.value.bound == Some(newId) && newId !in s'.device.others
  {
    CreatePublishes(s, d, f, Listing(f), newId);
    n :| Publishes(s, d, f, Listing(f), newId, n);
    s' := Drive(s, d, Listing(f), newId, n).0;
    DriveKeys(s, d, Listing(f), newId, n);
    assert s'.claim.value.bound.value in s'.device.rows.Keys;
  }

  /** Whoever controls the confirmed claim of a row, an undisturbed erase of the row comes to its mutation. */
  lemma EraseIsAuthorised(s: Shared, c: Controller, k: Claim, id: Id, newId: Id) returns (n: nat)
    requires s.claim == Some(k) && Authorized(k, s.device)
    ensures Drive(s, c, Fetching(Erase, id), newId, n) == (s, Mutating(Erase, id, k, s.device))
  {
    n := 4;
    FetchCalls(s, c, k, Erase, id, newId, 2);
    CheckCalls(s, c, k, Erase, id, newId, 0);
  }

  /** Two copies of the record, the second of them bound by c's confirmed claim. */
  ghost predicate Start(s: Shared, c: Controller, f: Stamp, a: Id, b: Id) {
    && CS.StoreGood(s) && s.claim.Some? && s.claim.value.phase == Confirmed && s.claim.value.controller == c
    && s.claim.value.stamp == f && s.claim.value.bound == Some(b) && a != b
    && s.device.rows == map[a := f, b := f] && a !in s.device.others && b !in s.device.others
  }

  function Both(s: Shared, c: Controller, lc: Local, d: Controller, ld: Local): CS.World {
    CS.World(s, map[c := lc, d := ld])
  }

  /** One controller begins a task and its calls succeed. */
  lemma Works(p: Problem, t: string, c: Controller, w: CS.World, who: Controller, task: Local, newId: Id, n: nat,
      s': Shared, l': Local)
    requires who in w.locals && w.locals[who] == Idle && CS.IsTask(task) && FromPlan(p, t, c, CS.Begin(who, task))
    requires Drive(w.shared, who, task, newId, n) == (s', l')
    ensures Leads(p, t, c, w, Moved(w, s', who, l'))
  {
    var begun := CS.After(w, CS.Begin(who, task));
    LeadsBy(p, t, c, w, CS.Begin(who, task));
    DriveLeads(p, t, c, begun, who, task, newId, n, s', l');
    assert begun.locals[who := l'] == w.locals[who := l'];
    LeadsOn(p, t, c, w, begun, Moved(w, s', who, l'));
  }

  /** The first copy is removed by somebody else, */
  lemma CopyVanishes(p: Problem, t: string, s: Shared, c: Controller, d: Controller, f: Stamp, a: Id, b: Id)
    requires Start(s, c, f, a, b) && c != d
    ensures Leads(p, t, c, Both(s, c, Idle, d, Idle), Both(Without(s, a), c, Idle, d, Idle))
  {
    LeadsBy(p, t, c, Both(s, c, Idle, d, Idle), CS.Outside(Without(s, a).device));
  }

  /** c's delete of the second copy ends its claim, */
  lemma ClaimEnds(p: Problem, t: string, s: Shared, c: Controller, d: Controller, k: Claim, a: Id, b: Id)
    returns (s': Shared)
    requires s.claim == Some(k) && k.phase == Confirmed && k.bound == Some(b) && b !in s.device.others && c != d
    requires OnlyRow(s.device.rows, b, k.stamp) && FromPlan(p, t, c, CS.Begin(c, Fetching(Erase, b)))
    ensures Leads(p, t, c, Both(s, c, Idle, d, Idle), Both(s', c, Idle, d, Idle))
    ensures s'.claim.None? && s'.device.rows == map[] && s'.device.others == s.device.others
  {
    var w := Both(s, c, Idle, d, Idle);
    var n: nat;
    s', n := EraseRemovesClaim(s, c, k, b, a);
    Works(p, t, c, w, c, Fetching(Erase, b), a, n, s', Idle);
    assert w.locals[c := Idle] == w.locals;
  }

  /** d makes the record anew, under the ID of the first copy, */
  lemma ClaimMadeAnew(p: Problem, t: string, s: Shared, c: Controller, d: Controller, f: Stamp, a: Id)
    returns (s': Shared)
    requires s.claim.None? && s.device.rows == map[] && a !in s.device.others && c != d
    ensures Leads(p, t, c, Both(s, c, Idle, d, Idle), Both(s', c, Idle, d, Idle))
    ensures Published(s', d, f) && s'.claim.value.bound == Some(a) && a !in s'.device.others
  {
    var w := Both(s, c, Idle, d, Idle);
    var n: nat;
    s', n := CreateBinds(s, d, f, a);
    Works(p, t, c, w, d, Listing(f), a, n, s', Idle);
    assert w.locals[d := Idle] == w.locals;
  }

  function Sending(s: Shared, c: Controller, d: Controller, k: Claim, a: Id): CS.World {
    Both(s, c, Mutating(Erase, a, k, s.device), d, Idle)
  }

  /** and c's delete of that copy is authorised. */
  lemma DeleteAuthorised(p: Problem, t: string, s: Shared, c: Controller, d: Controller, k: Claim, a: Id)
    requires s.claim == Some(k) && Authorized(k, s.device) && c != d
    requires FromPlan(p, t, c, CS.Begin(c, Fetching(Erase, a)))
    ensures Leads(p, t, c, Both(s, c, Idle, d, Idle), Sending(s, c, d, k, a))
  {
    var w, l := Both(s, c, Idle, d, Idle), Mutating(Erase, a, k, s.device);
    var n := EraseIsAuthorised(s, c, k, a, a);
    Works(p, t, c, w, c, Fetching(Erase, a), a, n, s, l);
    assert w.locals[c := l] == map[c := l, d := Idle];
  }

  lemma ChangesHands(p: Problem, t: string, s: Shared, c: Controller, d: Controller, f: Stamp, a: Id, b: Id)
    returns (s': Shared)
    requires Start(s, c, f, a, b) && c != d
    requires FromPlan(p, t, c, CS.Begin(c, Fetching(Erase, a))) && FromPlan(p, t, c, CS.Begin(c, Fetching(Erase, b)))
    ensures Published(s', d, f) && s'.claim.value.bound == Some(a)
    ensures Leads(p, t, c, Both(s, c, Idle, d, Idle), Sending(s', c, d, s'.claim.value, a))
  {
    CopyVanishes(p, t, s, c, d, f, a, b);
    var s1 := Without(s, a);
    assert s1.device.rows == map[b := f];
    var s2 := ClaimEnds(p, t, s1, c, d, s.claim.value, a, b);
    s' := ClaimMadeAnew(p, t, s2, c, d, f, a);
    assert a in s'.device.rows && s'.device.rows[a] == f;
    DeleteAuthorised(p, t, s', c, d, s'.claim.value, a);
    var start := Both(s, c, Idle, d, Idle);
    LeadsOn(p, t, c, start, Both(s1, c, Idle, d, Idle), Both(s2, c, Idle, d, Idle));
    LeadsOn(p, t, c, start, Both(s2, c, Idle, d, Idle), Both(s', c, Idle, d, Idle));
    LeadsOn(p, t, c, start, Both(s', c, Idle, d, Idle), Sending(s', c, d, s'.claim.value, a));
  }

  /** The plan made while c's claim is the record's and nothing is desired: it deletes both copies. */
  function PlanAt(r: Endpoint, s: Shared, c: Controller, a: Id, b: Id): Problem {
    NothingDesired([BoundRow(r, a, StampOf(r), s, c), BoundRow(r, b, StampOf(r), s, c)], c)
  }

  lemma BothPlanned(t: string, r: Endpoint, s: Shared, c: Controller, a: Id, b: Id)
    requires Start(s, c, StampOf(r), a, b)
    ensures var p := PlanAt(r, s, c, a, b);
            && FromPlan(p, t, c, CS.Begin(c, Fetching(Erase, a))) && FromPlan(p, t, c, CS.Begin(c, Fetching(Erase, b)))
  {
    var x, y := BoundRow(r, a, StampOf(r), s, c), BoundRow(r, b, StampOf(r), s, c);
    OwnedIsDeleted([x, y], c, x);
    OwnedIsDeleted([x, y], c, y);
    assert WorkOn(t, [], Delete(x)) == Fetching(Erase, a) && WorkOn(t, [], Delete(y)) == Fetching(Erase, b);
  }

  /** Any controller's confirmed claim passes the check. When the plan was made c's claim was the record's; c crashes
      nowhere and works on operations of that plan only; and its delete of a comes to be sent under d's claim. */
  lemma OthersClaimAuthorises(t: string, r: Endpoint, s: Shared, c: Controller, d: Controller, a: Id, b: Id)
    returns (worlds: seq<CS.World>, events: seq<CS.Event>)
    requires Start(s, c, StampOf(r), a, b) && c != d
    ensures CS.ValidRun(worlds, events) && worlds[0] == Both(s, c, Idle, d, Idle)
    ensures forall i :: 0 <= i < |events| ==> FromPlan(PlanAt(r, s, c, a, b), t, c, events[i])
    ensures var l := CS.Of(worlds[|events|], c);
            && l.Mutating? && l.mutation == Erase && l.id == a && l.claim.bound == Some(a)
            && worlds[|events|].shared.claim == Some(l.claim) && l.claim.controller == d
  {
    var p, w := PlanAt(r, s, c, a, b), Both(s, c, Idle, d, Idle);
    BothPlanned(t, r, s, c, a, b);
    var s' := ChangesHands(p, t, s, c, d, StampOf(r), a, b);
    worlds, events :| Path(worlds, events, p, t, c, w, Sending(s', c, d, s'.claim.value, a));
    assert CS.Good(w);
  }
}
