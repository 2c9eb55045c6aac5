/** What every write to a claim rests on: the listings its process has made itself. */
module ClaimEvidence {
  import opened Text
  import opened Claims
  import opened ClaimSafety

  ghost predicate Listed(worlds: seq<World>, events: seq<Event>, n: nat, c: Controller, seen: Snapshot)
    requires |worlds| == |events| + 1
  {
    exists i :: i < n && Lists(worlds, events, i, c, seen)
  }

  /** A listing showed the record's only row, with this ID and in the claimed state. */
  ghost predicate ListedOnly(worlds: seq<World>, events: seq<Event>, n: nat, c: Controller, k: Claim, id: Id)
    requires |worlds| == |events| + 1
  {
    exists seen :: Listed(worlds, events, n, c, seen) && OnlyRow(seen.rows, id, k.stamp)
  }

  /** A listing showed the row in this state. */
  ghost predicate ListedAs(worlds: seq<World>, events: seq<Event>, n: nat, c: Controller, id: Id, f: Stamp)
    requires |worlds| == |events| + 1
  {
    exists seen :: Listed(worlds, events, n, c, seen) && id in seen.rows && seen.rows[id] == f
  }

  /** A listing showed neither the bound row nor the claimed state. */
  ghost predicate ListedGone(worlds: seq<World>, events: seq<Event>, n: nat, c: Controller, k: Claim)
    requires |worlds| == |events| + 1
  {
    exists seen :: Listed(worlds, events, n, c, seen) && k.stamp !in seen.rows.Values
                   && (k.bound.Some? ==> k.bound.value !in seen.rows && k.bound.value !in seen.others)
  }

  /** The listings that the process of c, standing at l, has seen. */
  ghost predicate Backed(worlds: seq<World>, events: seq<Event>, n: nat, c: Controller, l: Local)
    requires |worlds| == |events| + 1
  {
    match l
    case Refreshing(_, _, seen) => Listed(worlds, events, n, c, seen)
    case Confirming(k, id) => k.phase == InConflict || ListedOnly(worlds, events, n, c, k, id)
    case Binding(k, id) => ListedOnly(worlds, events, n, c, k, id)
    case Sealing(k) => k.bound.Some? && ListedAs(worlds, events, n, c, k.bound.value, k.stamp)
    case Orphaning(_, seen, _) => seen.rows == map[] && Listed(worlds, events, n, c, seen)
    case Releasing(_, seen) => Listed(worlds, events, n, c, seen)
    case Removing(k) => ListedGone(worlds, events, n, c, k)
    case Verifying(_, _, _, seen) => Listed(worlds, events, n, c, seen)
    case Authorizing(_, _, _, seen) => ListedTwice(worlds, events, n, c, seen)
    case Mutating(_, _, _, seen) => ListedTwice(worlds, events, n, c, seen)
    case Reconciling(_, seen, _) => Listed(worlds, events, n, c, seen)
    case Rebinding(_, id, f) => ListedAs(worlds, events, n, c, id, f)
    case _ => true
  }

  /** Two listings showed the same. */
  ghost predicate ListedTwice(worlds: seq<World>, events: seq<Event>, n: nat, c: Controller, seen: Snapshot)
    requires |worlds| == |events| + 1
  {
    exists i, j :: i < j < n && Lists(worlds, events, i, c, seen) && Lists(worlds, events, j, c, seen)
  }

  lemma BackedLater(worlds: seq<World>, events: seq<Event>, n: nat, c: Controller, l: Local)
    requires |worlds| == |events| + 1 && Backed(worlds, events, n, c, l)
    ensures Backed(worlds, events, n + 1, c, l)
  {
    forall seen | Listed(worlds, events, n, c, seen) ensures Listed(worlds, events, n + 1, c, seen) {
      var i :| i < n && Lists(worlds, events, i, c, seen);
    }
  }

  /** A listing that is made now. */
  lemma ShownNow(worlds: seq<World>, events: seq<Event>, n: nat, c: Controller)
    requires |worlds| == |events| + 1 && n < |events| && events[n].Call? && events[n].who == c
    ensures Listed(worlds, events, n + 1, c, worlds[n].shared.device)
  {
    assert Lists(worlds, events, n, c, worlds[n].shared.device);
  }

  lemma BackedCreate(worlds: seq<World>, events: seq<Event>, n: nat, c: Controller, s: Shared, l: Local, ch: Choice)
    requires |worlds| == |events| + 1 && n < |events| && events[n].Call? && events[n].who == c
    requires s == worlds[n].shared && StoreGood(s) && LocalGood(s, c, l) && Backed(worlds, events, n, c, l)
    requires l.Looking? || l.Posting? || l.Relisting? || l.Refreshing?
    ensures Backed(worlds, events, n + 1, c, PostStep(s, l, ch).1)
  {
    ShownNow(worlds, events, n, c);
    BackedLater(worlds, events, n, c, l);
  }

  lemma BackedConfirm(worlds: seq<World>, events: seq<Event>, n: nat, c: Controller, s: Shared, l: Local, ch: Choice)
    requires |worlds| == |events| + 1 && n < |events| && Backed(worlds, events, n, c, l)
    requires l.Confirming? || l.Binding? || l.Sealing? || l.Marking?
    ensures Backed(worlds, events, n + 1, c, ConfirmStep(s, l, ch).1)
  {
    BackedLater(worlds, events, n, c, l);
    if (l.Confirming? && l.claim.phase != InConflict) || l.Binding? {
      OnlyIsAs(worlds, events, n + 1, c, l.claim, l.id);
    }
  }

  lemma OnlyIsAs(worlds: seq<World>, events: seq<Event>, n: nat, c: Controller, k: Claim, id: Id)
    requires |worlds| == |events| + 1 && ListedOnly(worlds, events, n, c, k, id)
    ensures ListedAs(worlds, events, n, c, id, k.stamp)
  {
    var seen :| Listed(worlds, events, n, c, seen) && OnlyRow(seen.rows, id, k.stamp);
    assert id in seen.rows;
  }

  lemma BackedRelease(worlds: seq<World>, events: seq<Event>, n: nat, c: Controller, s: Shared, l: Local, ch: Choice)
    requires |worlds| == |events| + 1 && n < |events| && Backed(worlds, events, n, c, l)
    requires l.Orphaning? || l.Releasing? || l.Removing?
    ensures Backed(worlds, events, n + 1, c, ReleaseStep(s, l, ch).1)
  {
    BackedLater(worlds, events, n, c, l);
  }

  lemma BackedApply(worlds: seq<World>, events: seq<Event>, n: nat, c: Controller, s: Shared, l: Local, ch: Choice)
    requires |worlds| == |events| + 1 && n < |events| && events[n].Call? && events[n].who == c
    requires s == worlds[n].shared && Backed(worlds, events, n, c, l)
    requires l.Fetching? || l.Sampling? || l.Verifying? || l.Authorizing? || l.Mutating? || l.Auditing?
    ensures Backed(worlds, events, n + 1, c, ApplyStep(s, l, ch).1)
  {
    ShownNow(worlds, events, n, c);
    BackedLater(worlds, events, n, c, l);
    if l.Verifying? && l.seen == s.device {
      var i :| i < n && Lists(worlds, events, i, c, l.seen);
      assert Lists(worlds, events, n, c, l.seen);
    }
  }

  lemma BackedRecover(worlds: seq<World>, events: seq<Event>, n: nat, c: Controller, s: Shared, l: Local, ch: Choice)
    requires |worlds| == |events| + 1 && n < |events| && events[n].Call? && events[n].who == c
    requires s == worlds[n].shared && Backed(worlds, events, n, c, l)
    requires l.Reconciling? || l.Rebinding? || l.Recovering? || l.Rechecking?
    ensures Backed(worlds, events, n + 1, c, RecoverStep(s, c, l, ch).1)
  {
    ShownNow(worlds, events, n, c);
    BackedLater(worlds, events, n, c, l);
  }

  predicate OnClaim(l: Local) {
    l.Confirming? || l.Binding? || l.Sealing? || l.Marking? || l.Orphaning? || l.Releasing? || l.Removing?
  }

  predicate OnRow(l: Local) {
    || l.Fetching? || l.Sampling? || l.Verifying? || l.Authorizing? || l.Mutating? || l.Auditing?
    || l.Reconciling? || l.Rebinding? || l.Recovering? || l.Rechecking?
  }

  lemma BackedOnClaim(worlds: seq<World>, events: seq<Event>, n: nat, c: Controller, s: Shared, l: Local, ch: Choice)
    requires |worlds| == |events| + 1 && n < |events| && Backed(worlds, events, n, c, l) && OnClaim(l)
    ensures Backed(worlds, events, n + 1, c, Step(s, c, l, ch).1)
  {
    if l.Orphaning? || l.Releasing? || l.Removing? { BackedRelease(worlds, events, n, c, s, l, ch); }
    else { BackedConfirm(worlds, events, n, c, s, l, ch); }
  }

  lemma BackedOnRow(worlds: seq<World>, events: seq<Event>, n: nat, c: Controller, s: Shared, l: Local, ch: Choice)
    requires |worlds| == |events| + 1 && n < |events| && events[n].Call? && events[n].who == c
    requires s == worlds[n].shared && Backed(worlds, events, n, c, l) && OnRow(l)
    ensures Backed(worlds, events, n + 1, c, Step(s, c, l, ch).1)
  {
    if l.Reconciling? || l.Rebinding? || l.Recovering? || l.Rechecking? {
      BackedRecover(worlds, events, n, c, s, l, ch);
    } else {
      BackedApply(worlds, events, n, c, s, l, ch);
    }
  }

  lemma BackedOnCreate(worlds: seq<World>, events: seq<Event>, n: nat, c: Controller, s: Shared, l: Local, ch: Choice)
    requires |worlds| == |events| + 1 && n < |events| && events[n].Call? && events[n].who == c
    requires s == worlds[n].shared && StoreGood(s) && LocalGood(s, c, l) && Backed(worlds, events, n, c, l)
    requires !OnClaim(l) && !OnRow(l)
    ensures Backed(worlds, events, n + 1, c, Step(s, c, l, ch).1)
  {
    if l.Looking? || l.Posting? || l.Relisting? || l.Refreshing? { BackedCreate(worlds, events, n, c, s, l, ch); }
    else { ReserveNeedsNone(s, c, l, ch); }
  }

  lemma BackedCall(worlds: seq<World>, events: seq<Event>, n: nat, c: Controller, s: Shared, l: Local, ch: Choice)
    requires |worlds| == |events| + 1 && n < |events| && events[n].Call? && events[n].who == c
    requires s == worlds[n].shared && StoreGood(s) && LocalGood(s, c, l) && Backed(worlds, events, n, c, l)
    ensures Backed(worlds, events, n + 1, c, Called(s, c, l, ch).1)
  {
    if OnClaim(l) { BackedOnClaim(worlds, events, n, c, s, l, ch); }
    else if OnRow(l) { BackedOnRow(worlds, events, n, c, s, l, ch); }
    else { BackedOnCreate(worlds, events, n, c, s, l, ch); }
  }

  lemma ReserveNeedsNone(s: Shared, c: Controller, l: Local, ch: Choice)
    requires l == Idle || l.Listing? || l.Creating? || l.Probing? || l.Resetting? || l.Finalizing? || l.Reserving?
    ensures var l' := ReserveStep(s, c, l, ch).1;
            l' == Idle || l'.Listing? || l'.Creating? || l'.Probing? || l'.Resetting? || l'.Finalizing? || l'.Reserving?
              || l'.Marking? || l'.Looking?
  {
  }

  /** In every run, whatever a process is about to write rests on what it has listed itself: a claim is confirmed for
      the row that a listing showed in the claimed state, bound only to the record's only row, orphaned only after a
      listing without rows, removed only after one without the bound row and the claimed state, given another state only
      after the row was listed in it, and a row is mutated only after two equal listings. */
  lemma {:induction false} WritesAreBacked(worlds: seq<World>, events: seq<Event>, n: nat, c: Controller)
    requires ValidRun(worlds, events) && n < |worlds| && Of(worlds[0], c) == Idle
    ensures Backed(worlds, events, n, c, Of(worlds[n], c))
  {
    if n > 0 {
      WritesAreBacked(worlds, events, n - 1, c);
      RunGood(worlds, events, n - 1);
      var w, e, l := worlds[n - 1], events[n - 1], Of(worlds[n - 1], c);
      if e.Call? && e.who == c {
        BackedCall(worlds, events, n - 1, c, w.shared, l, e.choice);
      } else {
        BackedLater(worlds, events, n - 1, c, l);
      }
    }
  }
}
