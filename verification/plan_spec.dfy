/** What a reconciliation plan must contain, stated per operation and without any
    order of iteration. `Problem.Count(op)` is how often `op` occurs in the plan. */
module PlanSpec {
  import opened Text
  import opened Dns

  datatype Cleanup = CleanupDelete | CleanupDeactivate | CleanupKeep

  datatype Reason =
    | TargetChanged | TypeChanged | LogicalUnowned | CnameUnowned | CnameAndOther
    | CnameManyTargets | CnameTypeAmbiguous | CnameTargetRetained | RestrictedMismatch

  datatype Operation =
    | Conflict(desired: Endpoint, observed: Option<Endpoint>, reason: Reason)
    | Create(desired: Endpoint)
    | Update(desired: Endpoint, current: Endpoint)
    | Replace(desired: Endpoint, current: Endpoint, reason: Reason)
    | Delete(current: Endpoint)
    | Deactivate(desired: Endpoint, current: Endpoint)
  {
    /** The DNS owner name an operation is about. */
    function Name(): Group { if Delete? then GroupOf(current) else GroupOf(desired) }

    predicate Mutates() { Update? || Replace? || Delete? || Deactivate? }
  }

  /** A CNAME may not share its owner name with another record type. */
  predicate Clash(first: RecordType, second: RecordType) {
    first != second && (first == CNAME || second == CNAME)
  }

  predicate OwnedBy(e: Endpoint, owner: string) { e.ownerID == owner }

  predicate HasId(e: Endpoint) { e.providerID != "" }

  /** The order in which owned copies of a record are preferred: with an ID first, then by ID. */
  predicate Preferred(a: Endpoint, b: Endpoint) {
    if HasId(a) != HasId(b) then HasId(a) else Less(a.providerID, b.providerID)
  }

  /** The earliest of the most preferred rows, which is the head of a stable sort. */
  function Head(rows: seq<Endpoint>): Endpoint
    requires rows != []
  {
    if |rows| == 1 then rows[0]
    else
      var h := Head(rows[..|rows| - 1]);
      if Preferred(rows[|rows| - 1], h) then rows[|rows| - 1] else h
  }

  lemma HeadAppend(rows: seq<Endpoint>, e: Endpoint)
    ensures Head(rows + [e]) == if rows == [] || Preferred(e, Head(rows)) then e else Head(rows)
  {
    assert (rows + [e])[..|rows|] == rows;
  }

  lemma {:induction false} HeadInRows(rows: seq<Endpoint>)
    requires rows != []
    ensures Head(rows) in rows
  {
    if |rows| > 1 { HeadInRows(rows[..|rows| - 1]); }
  }

  function GroupRows(rows: seq<Endpoint>, g: Group): seq<Endpoint> { Filter(rows, (e: Endpoint) => GroupOf(e) == g) }
  function LogicalRows(rows: seq<Endpoint>, l: Logical): seq<Endpoint> {
    Filter(rows, (e: Endpoint) => LogicalOf(e) == l)
  }
  function KeyRows(rows: seq<Endpoint>, k: Key): seq<Endpoint> { Filter(rows, (e: Endpoint) => KeyOf(e) == k) }
  function OwnedRows(rows: seq<Endpoint>, owner: string): seq<Endpoint> {
    Filter(rows, (e: Endpoint) => OwnedBy(e, owner))
  }
  function UnownedRows(rows: seq<Endpoint>, owner: string): seq<Endpoint> {
    Filter(rows, (e: Endpoint) => !OwnedBy(e, owner))
  }

  lemma RowsMember(rows: seq<Endpoint>, owner: string)
    ensures forall g, e :: e in GroupRows(rows, g) <==> e in rows && GroupOf(e) == g
    ensures forall l, e :: e in LogicalRows(rows, l) <==> e in rows && LogicalOf(e) == l
    ensures forall k, e :: e in KeyRows(rows, k) <==> e in rows && KeyOf(e) == k
    ensures forall e :: e in OwnedRows(rows, owner) <==> e in rows && OwnedBy(e, owner)
    ensures forall e :: e in UnownedRows(rows, owner) <==> e in rows && !OwnedBy(e, owner)
  {
    forall g ensures forall e :: e in GroupRows(rows, g) <==> e in rows && GroupOf(e) == g {
      FilterMember(rows, (e: Endpoint) => GroupOf(e) == g);
    }
    forall l ensures forall e :: e in LogicalRows(rows, l) <==> e in rows && LogicalOf(e) == l {
      FilterMember(rows, (e: Endpoint) => LogicalOf(e) == l);
    }
    forall k ensures forall e :: e in KeyRows(rows, k) <==> e in rows && KeyOf(e) == k {
      FilterMember(rows, (e: Endpoint) => KeyOf(e) == k);
    }
    FilterMember(rows, (e: Endpoint) => OwnedBy(e, owner));
    FilterMember(rows, (e: Endpoint) => !OwnedBy(e, owner));
  }

  /** The first row whose type cannot share the name with d. */
  function FirstClash(d: Endpoint, rows: seq<Endpoint>): (r: Option<Endpoint>)
    ensures r.Some? <==> exists e :: e in rows && Clash(d.recordType, e.recordType)
    ensures r.Some? ==> r.value in rows && Clash(d.recordType, r.value.recordType)
  {
    if |rows| == 0 then None
    else if Clash(d.recordType, rows[0].recordType) then Some(rows[0])
    else FirstClash(d, rows[1..])
  }

  ghost predicate IsFirst(d: Endpoint, s: set<Endpoint>, before: (Endpoint, Endpoint) -> bool) {
    d in s && forall x :: x in s ==> !before(x, d)
  }

  lemma {:induction false} FirstExists(s: set<Endpoint>, before: (Endpoint, Endpoint) -> bool)
    requires s != {} && WeakOrder(before)
    ensures exists d :: IsFirst(d, s, before)
    decreases |s|
  {
    var x :| x in s;
    var rest := s - {x};
    if rest == {} {
      assert s == {x};
      assert IsFirst(x, s, before);
    } else {
      FirstExists(rest, before);
      var d :| IsFirst(d, rest, before);
      if before(x, d) {
        forall y | y in s ensures !before(y, x) {
          assert Chain(d, x, y) && Chain(x, d, y) && Chain(d, y, x) && Chain(y, d, x);
        }
        assert IsFirst(x, s, before);
      } else {
        assert IsFirst(d, s, before);
      }
    }
  }

  /** The member that no other member precedes. */
  ghost function First(s: set<Endpoint>, before: (Endpoint, Endpoint) -> bool): (d: Endpoint)
    requires s != {}
    ensures d in s
  {
    if exists d :: IsFirst(d, s, before) then
      var d :| IsFirst(d, s, before);
      d
    else
      var d :| d in s;
      d
  }

  /** The desired records of one name mix a CNAME with another type. */
  ghost predicate TypeClash(s: set<Endpoint>) {
    exists a, b :: a in s && b in s && Clash(a.recordType, b.recordType)
  }

  /** The desired records of one name hold more than one CNAME target. */
  ghost predicate ManyCnameTargets(s: set<Endpoint>) {
    exists a :: a in s && a.recordType == CNAME &&
      (|a.targets| > 1 || exists b :: b in s && b.recordType == CNAME && b != a)
  }

  /** A CNAME is desired with a target that no owned row has, while an owned CNAME row exists. */
  ghost predicate RetargetsCname(s: set<Endpoint>, owned: seq<Endpoint>) {
    exists d :: s == {d} && d.recordType == CNAME
      && (forall e :: e in owned ==> KeyOf(e) != KeyOf(d))
      && (exists e :: e in owned && e.recordType == CNAME)
  }

  ghost predicate ChangesCnameType(s: set<Endpoint>, owned: seq<Endpoint>) {
    exists d, e :: d in s && e in owned && Clash(d.recordType, e.recordType)
  }

  /** How the CNAME rules settle a name before single records are looked at. */
  datatype Resolution = Clear | Settled(operation: Operation)

  /** One planning run: the desired record of each key (the last one given wins), the
      device rows in listing order, the controller's owner ID, the cleanup rules, and the
      order of key texts. */
  datatype Problem = Problem(
    byKey: map<Key, Endpoint>, current: seq<Endpoint>, owner: string,
    cleanup: Cleanup, allowed: Endpoint -> bool, before: (Endpoint, Endpoint) -> bool)
  {
    /** Desired records are filed under their own keys and the order of their keys is total. */
    ghost predicate Wf() {
      && (forall k :: k in byKey ==> KeyOf(byKey[k]) == k)
      && WeakOrder(before)
      && (forall j, k ::
        j in byKey && k in byKey && j != k ==> before(byKey[j], byKey[k])
                                               || before(byKey[k], byKey[j]))
    }

    ghost predicate Desires(d: Endpoint) { KeyOf(d) in byKey && byKey[KeyOf(d)] == d }

    ghost function DesiredIn(g: Group): set<Endpoint> {
      set k | k in byKey && GroupOf(byKey[k]) == g :: byKey[k]
    }

    ghost function OwnedIn(g: Group): seq<Endpoint> { OwnedRows(GroupRows(current, g), owner) }

    ghost function UnownedIn(g: Group): seq<Endpoint> { UnownedRows(GroupRows(current, g), owner) }

    ghost function UnownedOf(l: Logical): seq<Endpoint> { UnownedRows(LogicalRows(current, l), owner) }

    /** Desired records of the name that clash with a row the controller does not own. */
    ghost function Clashing(g: Group): set<Endpoint> {
      set d | d in DesiredIn(g) && FirstClash(d, UnownedIn(g)).Some?
    }

    /** The conflict that stops a whole name before transitions are considered. */
    ghost function NameConflict(g: Group): Option<Operation> {
      var s := DesiredIn(g);
      if s == {} then None
      else if TypeClash(s) then Some(Conflict(First(s, before), None, CnameAndOther))
      else if ManyCnameTargets(s) then Some(Conflict(First(s, before), None, CnameManyTargets))
      else if Clashing(g) != {} then
        var d := First(Clashing(g), before);
        Some(Conflict(d, FirstClash(d, UnownedIn(g)), CnameUnowned))
      else None
    }

    /** A CNAME transition at this name: a keyed replacement when it is one to one, else a conflict. */
    ghost function Transition(g: Group): Option<Operation> {
      var s := DesiredIn(g);
      var owned := OwnedIn(g);
      var retargets := RetargetsCname(s, owned);
      if s == {} || (!retargets && !ChangesCnameType(s, owned)) then None
      else if |s| == 1 && UnownedOf(LogicalOf(First(s, before))) != [] then
        Some(Conflict(First(s, before), Some(UnownedOf(LogicalOf(First(s, before)))[0]), LogicalUnowned))
      else if |s| == 1 && |owned| == 1 && HasId(owned[0]) && allowed(owned[0])
        && (!retargets || cleanup == CleanupDelete) then
        Some(Replace(First(s, before), owned[0], if retargets then TargetChanged else TypeChanged))
      else
        Some(Conflict(First(s, before), if owned != [] then Some(Head(owned)) else None,
                      if retargets then CnameTargetRetained else CnameTypeAmbiguous))
    }

    ghost function Resolve(g: Group): Resolution {
      if NameConflict(g).Some? then Settled(NameConflict(g).value)
      else if Transition(g).Some? then Settled(Transition(g).value)
      else Clear
    }

    /** A desired record that is free of name-level rules but whose (zone, name, type) holds foreign rows. */
    ghost predicate Foreign(d: Endpoint) {
      Desires(d) && Resolve(GroupOf(d)).Clear? && UnownedOf(LogicalOf(d)) != []
    }

    /** A desired record that is reconciled against the controller's own rows. */
    ghost predicate Clean(d: Endpoint) {
      Desires(d) && Resolve(GroupOf(d)).Clear? && UnownedOf(LogicalOf(d)) == []
    }

    ghost function Copies(k: Key): seq<Endpoint> { OwnedRows(KeyRows(current, k), owner) }

    ghost predicate Missing(d: Endpoint) { Clean(d) && Copies(KeyOf(d)) == [] }

    /** The row kept for d. */
    ghost predicate Keeps(d: Endpoint, c: Endpoint) {
      Clean(d) && Copies(KeyOf(d)) != [] && c == Head(Copies(KeyOf(d)))
    }

    ghost predicate LogicalConflict(l: Logical) { exists d :: Foreign(d) && LogicalOf(d) == l }

    /** How many copies of row c are surplus: owned, in cleanup scope, under no conflict, and not kept. */
    ghost function StaleCount(c: Endpoint): nat {
      if !OwnedBy(c, owner) || !allowed(c) || !Resolve(GroupOf(c)).Clear? || LogicalConflict(LogicalOf(c))
        || c !in current then 0
      else if KeyOf(c) in byKey && Copies(KeyOf(c)) != [] && c == Head(Copies(KeyOf(c))) then multiset(current)[c] - 1
      else multiset(current)[c]
    }

    /** d is the only missing record and c the only stale row of one (zone, name, type). */
    ghost predicate Paired(d: Endpoint, c: Endpoint) {
      && cleanup == CleanupDelete
      && Missing(d) && StaleCount(c) == 1 && LogicalOf(c) == LogicalOf(d) && HasId(c)
      && (forall e :: Missing(e) && LogicalOf(e) == LogicalOf(d) ==> e == d)
      && (forall e :: StaleCount(e) > 0 && LogicalOf(e) == LogicalOf(d) ==> e == c)
    }

    ghost predicate Creates(d: Endpoint) { Missing(d) && forall c :: !Paired(d, c) }

    /** Some desired record of the name is still to be created, so nothing of the name is cleaned up. */
    ghost predicate Pending(g: Group) { exists d :: Creates(d) && GroupOf(d) == g }

    ghost predicate Cleans(c: Endpoint) {
      StaleCount(c) > 0 && !Pending(GroupOf(c)) && forall d :: !Paired(d, c)
    }

    /** How often op occurs in the plan. */
    ghost function Count(op: Operation): nat {
      match op
      case Conflict(d, _, _) =>
        if Desires(d) && Resolve(GroupOf(d)) == Settled(op) then 1
        else if Foreign(d) && op == Conflict(d, Some(UnownedOf(LogicalOf(d))[0]), LogicalUnowned) then 1
        else 0
      case Create(d) => if Creates(d) then 1 else 0
      case Update(d, c) => if Keeps(d, c) && !EqualRecord(c, d) then 1 else 0
      case Replace(d, c, reason) =>
        if Desires(d) && Resolve(GroupOf(d)) == Settled(op) then 1
        else if Paired(d, c) && reason == TargetChanged then 1
        else 0
      case Delete(c) => if cleanup == CleanupDelete && Cleans(c) then StaleCount(c) else 0
      case Deactivate(d, c) =>
        if cleanup == CleanupDeactivate && Cleans(c) && !c.disabled && d == c.(disabled := true)
        then StaleCount(c)
        else 0
    }
  }

  /** The desired record of each key when later entries overwrite earlier ones. */
  function LastByKey(desired: seq<Endpoint>): map<Key, Endpoint> {
    if |desired| == 0 then map[]
    else LastByKey(desired[..|desired| - 1])[KeyOf(desired[|desired| - 1]) := desired[|desired| - 1]]
  }

  predicate SeparableAll(desired: seq<Endpoint>) {
    forall i :: 0 <= i < |desired| ==> Separable(KeyOf(desired[i]))
  }

  lemma {:induction false} LastByKeyWf(desired: seq<Endpoint>)
    requires SeparableAll(desired)
    ensures forall k ::
      k in LastByKey(desired) ==> KeyOf(LastByKey(desired)[k]) == k && Separable(k)
                                  && LastByKey(desired)[k] in desired
    ensures forall d :: d in desired ==> KeyOf(d) in LastByKey(desired)
  {
    if |desired| > 0 {
      LastByKeyWf(desired[..|desired| - 1]);
      assert desired == desired[..|desired| - 1] + [desired[|desired| - 1]];
    }
  }

  lemma CopiesCount(p: Problem, c: Endpoint)
    requires OwnedBy(c, p.owner)
    ensures multiset(p.Copies(KeyOf(c)))[c] == multiset(p.current)[c]
  {
    FilterMember(p.current, (e: Endpoint) => KeyOf(e) == KeyOf(c));
    FilterMember(KeyRows(p.current, KeyOf(c)), (e: Endpoint) => OwnedBy(e, p.owner));
    assert multiset(KeyRows(p.current, KeyOf(c)))[c] == multiset(p.current)[c];
  }
}
