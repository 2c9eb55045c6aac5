/** Policy evaluation: constraints decide about each candidate alone, quotas about candidates in key order. */
module Policy {
  import opened Text
  import opened Sorting

  datatype Reason = Denied | PolicyInvalid | HostnameNotAllowed | TtlNotAllowed | OptInRequired | TargetNotAllowed
                  | NamespaceQuotaExceeded | TargetQuotaExceeded

  /** A candidate record: the target and namespace it counts for, its sort key, and everything else. */
  datatype Candidate = Candidate(target: string, namespace: string, key: string, content: string)

  /** A compiled constraint: which candidates it applies to, what it holds against one, and its limits (not positive
      means none). */
  datatype Constraint = Constraint(
    matches: Candidate -> bool, deny: bool, objects: Candidate -> Option<Reason>, namespaceMax: int, targetMax: int)

  datatype Evaluator = Evaluator(
    sourceAllowed: Candidate -> bool, outer: Constraint, policies: map<string, seq<Constraint>>, invalid: set<string>)

  /** The least positive value, or zero when there is none. */
  function MinPositive(s: seq<int>): (r: nat)
    ensures r == 0 <==> forall i :: 0 <= i < |s| ==> s[i] <= 0
    ensures r > 0 ==> r in s && forall i :: 0 <= i < |s| && s[i] > 0 ==> r <= s[i]
  {
    if |s| == 0 then 0
    else
      var m, x := MinPositive(s[..|s| - 1]), s[|s| - 1];
      if x > 0 && (m == 0 || x < m) then x else m
  }

  /** The constraints that apply to a candidate: the global bounds first. */
  function Constraints(e: Evaluator, c: Candidate): seq<Constraint> {
    [e.outer] + Filter(At(e.policies, c.namespace), (x: Constraint) => x.matches(c))
  }

  function Objection(x: Constraint, c: Candidate): Option<Reason> { if x.deny then Some(Denied) else x.objects(c) }

  /** What the first objecting constraint says. */
  function FirstObjection(s: seq<Constraint>, c: Candidate): (r: Option<Reason>)
    ensures r.None? <==> forall i :: 0 <= i < |s| ==> Objection(s[i], c).None?
  {
    if |s| == 0 then None
    else if Objection(s[0], c).Some? then Objection(s[0], c)
    else FirstObjection(s[1..], c)
  }

  /** What is held against a candidate whatever the other candidates are. */
  function Judge(e: Evaluator, c: Candidate): Option<Reason> {
    if !e.sourceAllowed(c) then Some(Denied)
    else if c.namespace in e.invalid then Some(PolicyInvalid)
    else FirstObjection(Constraints(e, c), c)
  }

  function NamespaceLimit(e: Evaluator, c: Candidate): nat {
    var s := Constraints(e, c);
    MinPositive(seq(|s|, i requires 0 <= i < |s| => s[i].namespaceMax))
  }

  function TargetLimit(e: Evaluator, c: Candidate): nat {
    var s := Constraints(e, c);
    MinPositive(seq(|s|, i requires 0 <= i < |s| => s[i].targetMax))
  }

  // ---- The meaning of an evaluation -----------------------------------------------------

  datatype Verdict = Verdict(candidate: Candidate, reason: Option<Reason>)

  function AllowedIn(s: seq<Verdict>, namespace: string): nat {
    |Filter(s, (v: Verdict) => v.reason.None? && v.candidate.namespace == namespace)|
  }

  function AllowedFor(s: seq<Verdict>, target: string, namespace: string): nat {
    |Filter(s, (v: Verdict) => v.reason.None? && v.candidate.namespace == namespace && v.candidate.target == target)|
  }

  function ReasonFor(e: Evaluator, before: seq<Verdict>, c: Candidate): Option<Reason> {
    if Judge(e, c).Some? then Judge(e, c)
    else if NamespaceLimit(e, c) > 0 && AllowedIn(before, c.namespace) >= NamespaceLimit(e, c) then
      Some(NamespaceQuotaExceeded)
    else if TargetLimit(e, c) > 0 && AllowedFor(before, c.target, c.namespace) >= TargetLimit(e, c) then
      Some(TargetQuotaExceeded)
    else None
  }

  /** The verdicts on candidates in this order, each with the ones before it in view. */
  function Verdicts(e: Evaluator, s: seq<Candidate>): (r: seq<Verdict>)
    ensures |r| == |s| && forall i :: 0 <= i < |s| ==> r[i].candidate == s[i]
  {
    if |s| == 0 then []
    else
      var before := Verdicts(e, s[..|s| - 1]);
      before + [Verdict(s[|s| - 1], ReasonFor(e, before, s[|s| - 1]))]
  }

  /** Nothing about the candidate alone stands against it: its source is allowed, its namespace has no invalid policy,
      and neither the global bounds nor a policy of its namespace that matches it denies or objects. */
  ghost predicate Unopposed(e: Evaluator, c: Candidate) {
    && e.sourceAllowed(c) && c.namespace !in e.invalid && !e.outer.deny && e.outer.objects(c).None?
    && (forall x :: x in At(e.policies, c.namespace) && x.matches(c) ==> !x.deny && x.objects(c).None?)
  }

  /** The constraint applies to the candidate. */
  ghost predicate Applies(e: Evaluator, c: Candidate, x: Constraint) {
    x == e.outer || (x in At(e.policies, c.namespace) && x.matches(c))
  }

  /** Every limit that applies leaves room after the verdicts so far. */
  ghost predicate HasRoom(e: Evaluator, before: seq<Verdict>, c: Candidate) {
    forall x :: Applies(e, c, x) ==>
      && (x.namespaceMax > 0 ==> AllowedIn(before, c.namespace) < x.namespaceMax)
      && (x.targetMax > 0 ==> AllowedFor(before, c.target, c.namespace) < x.targetMax)
  }

  lemma ConstraintsApply(e: Evaluator, c: Candidate, x: Constraint)
    ensures x in Constraints(e, c) <==> Applies(e, c, x)
  {
    FilterMember(At(e.policies, c.namespace), (x: Constraint) => x.matches(c));
  }

  lemma JudgedExactly(e: Evaluator, c: Candidate)
    ensures Judge(e, c).None? <==> Unopposed(e, c)
  {
    var s := Constraints(e, c);
    forall x ensures x in s <==> Applies(e, c, x) { ConstraintsApply(e, c, x); }
    assert e.outer in s && (forall x :: Applies(e, c, x) ==> x in s);
    if Judge(e, c).None? {
      forall x | Applies(e, c, x) ensures !x.deny && x.objects(c).None? {
        var i :| 0 <= i < |s| && s[i] == x;
        assert Objection(s[i], c).None?;
      }
    } else if Unopposed(e, c) {
      forall i | 0 <= i < |s| ensures Objection(s[i], c).None? { assert s[i] in s && Applies(e, c, s[i]); }
    }
  }

  lemma RoomExactly(e: Evaluator, before: seq<Verdict>, c: Candidate)
    ensures HasRoom(e, before, c) <==>
      && (NamespaceLimit(e, c) > 0 ==> AllowedIn(before, c.namespace) < NamespaceLimit(e, c))
      && (TargetLimit(e, c) > 0 ==> AllowedFor(before, c.target, c.namespace) < TargetLimit(e, c))
  {
    var s := Constraints(e, c);
    var ns := seq(|s|, i requires 0 <= i < |s| => s[i].namespaceMax);
    var ts := seq(|s|, i requires 0 <= i < |s| => s[i].targetMax);
    forall x ensures x in s <==> Applies(e, c, x) { ConstraintsApply(e, c, x); }
    assert NamespaceLimit(e, c) == MinPositive(ns) && TargetLimit(e, c) == MinPositive(ts);
    forall x | Applies(e, c, x) ensures x.namespaceMax in ns && x.targetMax in ts {
      assert x in s;
      var i :| 0 <= i < |s| && s[i] == x;
      assert ns[i] == x.namespaceMax && ts[i] == x.targetMax;
    }
    if HasRoom(e, before, c) {
      if NamespaceLimit(e, c) > 0 {
        var i :| 0 <= i < |ns| && ns[i] == NamespaceLimit(e, c);
        assert s[i] in s && Applies(e, c, s[i]);
      }
      if TargetLimit(e, c) > 0 {
        var i :| 0 <= i < |ts| && ts[i] == TargetLimit(e, c);
        assert s[i] in s && Applies(e, c, s[i]);
      }
    }
  }

  /** A candidate is allowed if and only if nothing stands against it and every limit that applies leaves room after the
      candidates before it. */
  lemma AllowedExactly(e: Evaluator, s: seq<Candidate>, i: nat)
    requires i < |s|
    ensures Verdicts(e, s)[i].reason.None? <==> Unopposed(e, s[i]) && HasRoom(e, Verdicts(e, s)[..i], s[i])
  {
    VerdictsPrefix(e, s, i);
    VerdictsPrefix(e, s, i + 1);
    assert s[..i + 1][..i] == s[..i];
    assert Verdicts(e, s)[i] == Verdicts(e, s)[..i + 1][i];
    JudgedExactly(e, s[i]);
    RoomExactly(e, Verdicts(e, s[..i]), s[i]);
  }

  /** The verdicts on a beginning of the candidates are a beginning of the verdicts. */
  lemma {:induction false} VerdictsPrefix(e: Evaluator, s: seq<Candidate>, n: nat)
    requires n <= |s|
    ensures Verdicts(e, s)[..n] == Verdicts(e, s[..n])
  {
    if n < |s| {
      VerdictsPrefix(e, s[..|s| - 1], n);
      assert s[..|s| - 1][..n] == s[..n];
    } else {
      assert s[..n] == s;
    }
  }

  /** Candidates outside q never use up a quota of candidates inside q. */
  ghost predicate Independent(e: Evaluator, q: Candidate -> bool) {
    forall c, d :: q(c) && !q(d) ==> Judge(e, d).Some? || d.namespace != c.namespace
  }

  function Within(q: Candidate -> bool): Verdict -> bool { (v: Verdict) => q(v.candidate) }

  lemma {:induction false} AllowedIsJudged(e: Evaluator, s: seq<Candidate>, v: Verdict)
    requires v in Verdicts(e, s) && v.reason.None?
    ensures Judge(e, v.candidate).None?
  {
    var n := |s| - 1;
    if v in Verdicts(e, s[..n]) { AllowedIsJudged(e, s[..n], v); }
  }

  /** The quotas of a candidate inside q see only verdicts inside q. */
  lemma SameReason(e: Evaluator, s: seq<Candidate>, q: Candidate -> bool, c: Candidate)
    requires Independent(e, q) && q(c)
    ensures ReasonFor(e, Verdicts(e, s), c) == ReasonFor(e, Filter(Verdicts(e, s), Within(q)), c)
  {
    var vs := Verdicts(e, s);
    forall v | v in vs && v.reason.None? && v.candidate.namespace == c.namespace ensures q(v.candidate) {
      AllowedIsJudged(e, s, v);
    }
    FilterTwice(vs, Within(q), (v: Verdict) => v.reason.None? && v.candidate.namespace == c.namespace);
    FilterTwice(vs, Within(q), (v: Verdict) => v.reason.None? && v.candidate.namespace == c.namespace
      && v.candidate.target == c.target);
  }

  /** Leaving out candidates that use up no quota changes no verdict on the others. */
  lemma {:induction false} VerdictsWithin(e: Evaluator, s: seq<Candidate>, q: Candidate -> bool)
    requires Independent(e, q)
    ensures Filter(Verdicts(e, s), Within(q)) == Verdicts(e, Filter(s, q))
  {
    if |s| > 0 {
      var t, c := s[..|s| - 1], s[|s| - 1];
      VerdictsWithin(e, t, q);
      var before := Verdicts(e, t);
      FilterAppend(before, Verdict(c, ReasonFor(e, before, c)), Within(q));
      if q(c) {
        SameReason(e, t, q, c);
        var u := Filter(t, q);
        assert (u + [c])[..|u|] == u;
      } else {
        assert Filter(s, q) == Filter(t, q);
      }
    }
  }

  predicate InNamespace(namespace: string, c: Candidate) { c.namespace == namespace }

  /** Isolation: the verdicts on a namespace's candidates are the verdicts of evaluating them alone. */
  lemma NamespaceIsolated(e: Evaluator, s: seq<Candidate>, namespace: string)
    ensures Filter(Verdicts(e, s), Within((c: Candidate) => InNamespace(namespace, c)))
         == Verdicts(e, Filter(s, (c: Candidate) => InNamespace(namespace, c)))
  {
    VerdictsWithin(e, s, (c: Candidate) => InNamespace(namespace, c));
  }

  /** Quotas: an allowed candidate with a namespace limit L is among the first L allowed of its namespace. */
  lemma {:induction false} WithinNamespaceQuota(e: Evaluator, s: seq<Candidate>, i: nat)
    requires i < |s| && Verdicts(e, s)[i].reason.None? && NamespaceLimit(e, s[i]) > 0
    ensures AllowedIn(Verdicts(e, s)[..i], s[i].namespace) < NamespaceLimit(e, s[i])
  {
    var n := |s| - 1;
    assert Verdicts(e, s)[..n] == Verdicts(e, s[..n]);
    if i < n {
      WithinNamespaceQuota(e, s[..n], i);
      assert Verdicts(e, s)[..i] == Verdicts(e, s[..n])[..i];
    }
  }

  lemma {:induction false} WithinTargetQuota(e: Evaluator, s: seq<Candidate>, i: nat)
    requires i < |s| && Verdicts(e, s)[i].reason.None? && TargetLimit(e, s[i]) > 0
    ensures AllowedFor(Verdicts(e, s)[..i], s[i].target, s[i].namespace) < TargetLimit(e, s[i])
  {
    var n := |s| - 1;
    assert Verdicts(e, s)[..n] == Verdicts(e, s[..n]);
    if i < n {
      WithinTargetQuota(e, s[..n], i);
      assert Verdicts(e, s)[..i] == Verdicts(e, s[..n])[..i];
    }
  }

  // ---- Evaluation in key order ----------------------------------------------------------

  predicate KeyBefore(a: Candidate, b: Candidate) { Less(a.key, b.key) }

  lemma KeyBeforeIsWeakOrder()
    ensures WeakOrder(KeyBefore)
  {
    forall a, b | KeyBefore(a, b) ensures !KeyBefore(b, a) {
      LessIrreflexive(a.key);
      if KeyBefore(b, a) { LessTransitive(a.key, b.key, a.key); }
    }
    forall a, b, c | !KeyBefore(b, a) && !KeyBefore(c, b) ensures !KeyBefore(c, a) {
      NotAfterTransitive(a.key, b.key, c.key);
    }
  }

  /** What an evaluation decides about each candidate. */
  function Evaluation(e: Evaluator, s: seq<Candidate>): seq<Verdict> { Verdicts(e, Stable(s, KeyBefore)) }

  /** Each namespace's verdicts are those of evaluating its candidates alone. */
  lemma EvaluationIsolated(e: Evaluator, s: seq<Candidate>, namespace: string)
    ensures Filter(Evaluation(e, s), Within((c: Candidate) => InNamespace(namespace, c)))
         == Evaluation(e, Filter(s, (c: Candidate) => InNamespace(namespace, c)))
  {
    KeyBeforeIsWeakOrder();
    NamespaceIsolated(e, Stable(s, KeyBefore), namespace);
    FilterStable(s, KeyBefore, (c: Candidate) => InNamespace(namespace, c));
  }

  /** With distinct keys the order of the candidates does not matter. */
  lemma EvaluationOrderFree(e: Evaluator, s: seq<Candidate>, t: seq<Candidate>)
    requires multiset(s) == multiset(t) && forall a, b :: a in s && b in s && a != b ==> a.key != b.key
    ensures Evaluation(e, s) == Evaluation(e, t)
  {
    KeyBeforeIsWeakOrder();
    forall a, b | a in s && b in s && a != b ensures KeyBefore(a, b) || KeyBefore(b, a) { LessTotal(a.key, b.key); }
    StableIsCanonical(s, t, KeyBefore);
  }

  function CandidatesOf(s: seq<Verdict>): (r: seq<Candidate>)
    ensures |r| == |s|
  {
    seq(|s|, i requires 0 <= i < |s| => s[i].candidate)
  }

  predicate Passes(v: Verdict) { v.reason.None? }
  predicate Rejects(v: Verdict) { v.reason.Some? }
  predicate Unobjectionable(e: Evaluator, c: Candidate) { Judge(e, c).None? }
  function Sound(e: Evaluator): Candidate -> bool { (c: Candidate) => Unobjectionable(e, c) }
  function Objectionable(e: Evaluator): Verdict -> bool { (v: Verdict) => !Unobjectionable(e, v.candidate) }

  lemma VerdictsAppend(e: Evaluator, s: seq<Candidate>, c: Candidate)
    ensures Verdicts(e, s + [c]) == Verdicts(e, s) + [Verdict(c, ReasonFor(e, Verdicts(e, s), c))]
  {
    assert (s + [c])[..|s|] == s;
  }

  /** A candidate that passed the constraints, with its limits. */
  datatype Accepted = Accepted(candidate: Candidate, namespaceLimit: nat, targetLimit: nat)

  method MinimumPositive(values: seq<int>) returns (minimum: nat)
    ensures minimum == MinPositive(values)
  {
    minimum := 0;
    for i := 0 to |values|
      invariant minimum == MinPositive(values[..i])
    {
      assert values[..i + 1][..i] == values[..i];
      if values[i] > 0 && (minimum == 0 || values[i] < minimum) { minimum := values[i]; }
    }
    assert values[..|values|] == values;
  }

  /** The constraints that apply, and the first objection of them. */
  method EvaluateConstraints(e: Evaluator, c: Candidate) returns (reason: Option<Reason>, limits: Accepted)
    requires e.sourceAllowed(c) && c.namespace !in e.invalid
    ensures reason == Judge(e, c) && limits == Accepted(c, NamespaceLimit(e, c), TargetLimit(e, c))
  {
    var s := Constraints(e, c);
    var n := MinimumPositive(seq(|s|, i requires 0 <= i < |s| => s[i].namespaceMax));
    var t := MinimumPositive(seq(|s|, i requires 0 <= i < |s| => s[i].targetMax));
    limits := Accepted(c, n, t);
    for i := 0 to |s|
      invariant FirstObjection(s, c) == FirstObjection(s[i..], c)
    {
      assert s[i..][1..] == s[i + 1..];
      if Objection(s[i], c).Some? { return Objection(s[i], c), limits; }
    }
    reason := None;
  }

  /** Accepted lists the unobjectionable candidates with their limits. */
  ghost predicate Lists(e: Evaluator, accepted: seq<Accepted>, s: seq<Candidate>) {
    |accepted| == |s| && forall i :: 0 <= i < |s| ==>
      accepted[i] == Accepted(s[i], NamespaceLimit(e, s[i]), TargetLimit(e, s[i]))
  }

  lemma ListsAppend(e: Evaluator, accepted: seq<Accepted>, s: seq<Candidate>, a: Accepted)
    requires Lists(e, accepted, s) && a == Accepted(a.candidate, NamespaceLimit(e, a.candidate),
      TargetLimit(e, a.candidate))
    ensures Lists(e, accepted + [a], s + [a.candidate])
  {
  }

  /** What the constraints say about one candidate. */
  method ConstrainOne(e: Evaluator, c: Candidate) returns (reason: Option<Reason>, limits: Accepted)
    ensures reason == Judge(e, c)
    ensures reason.None? ==> limits == Accepted(c, NamespaceLimit(e, c), TargetLimit(e, c))
  {
    if !e.sourceAllowed(c) { return Some(Denied), Accepted(c, 0, 0); }
    if c.namespace in e.invalid { return Some(PolicyInvalid), Accepted(c, 0, 0); }
    reason, limits := EvaluateConstraints(e, c);
  }

  lemma ConstrainStep(e: Evaluator, s: seq<Candidate>, c: Candidate)
    ensures Filter(s + [c], Sound(e)) == Filter(s, Sound(e)) + (if Judge(e, c).None? then [c] else [])
    ensures Filter(Verdicts(e, s + [c]), Objectionable(e))
         == Filter(Verdicts(e, s), Objectionable(e)) + (if Judge(e, c).Some? then [Verdict(c, Judge(e, c))] else [])
  {
    VerdictsAppend(e, s, c);
    FilterAppend(s, c, Sound(e));
    FilterAppend(Verdicts(e, s), Verdict(c, ReasonFor(e, Verdicts(e, s), c)), Objectionable(e));
  }

  /** The first loop after the candidates s. */
  ghost predicate Constrained(e: Evaluator, s: seq<Candidate>, accepted: seq<Accepted>, rejected: seq<Verdict>) {
    Lists(e, accepted, Filter(s, Sound(e))) && rejected == Filter(Verdicts(e, s), Objectionable(e))
  }

  lemma ConstrainedStep(e: Evaluator, s: seq<Candidate>, c: Candidate, accepted: seq<Accepted>, rejected: seq<Verdict>,
      limits: Accepted)
    requires Constrained(e, s, accepted, rejected)
    requires Judge(e, c).None? ==> limits == Accepted(c, NamespaceLimit(e, c), TargetLimit(e, c))
    ensures Judge(e, c).Some? ==> Constrained(e, s + [c], accepted, rejected + [Verdict(c, Judge(e, c))])
    ensures Judge(e, c).None? ==> Constrained(e, s + [c], accepted + [limits], rejected)
  {
    ConstrainStep(e, s, c);
    if Judge(e, c).None? { ListsAppend(e, accepted, Filter(s, Sound(e)), limits); }
  }

  /** The first loop: what the constraints say. */
  method Constrain(e: Evaluator, sorted: seq<Candidate>) returns (accepted: seq<Accepted>, rejected: seq<Verdict>)
    ensures Constrained(e, sorted, accepted, rejected)
  {
    accepted, rejected := [], [];
    for i := 0 to |sorted|
      invariant Constrained(e, sorted[..i], accepted, rejected)
    {
      var c := sorted[i];
      assert sorted[..i + 1] == sorted[..i] + [c];
      var reason, limits := ConstrainOne(e, c);
      ConstrainedStep(e, sorted[..i], c, accepted, rejected, limits);
      if reason.Some? { rejected := rejected + [Verdict(c, reason)]; } else { accepted := accepted + [limits]; }
    }
    assert sorted[..|sorted|] == sorted;
  }

  function Count<K>(m: map<K, nat>, k: K): nat { if k in m then m[k] else 0 }

  function Bump<K>(m: map<K, nat>, k: K): map<K, nat> { m[k := Count(m, k) + 1] }

  lemma BumpCount<K>(m: map<K, nat>, k: K, j: K)
    ensures Count(Bump(m, k), j) == Count(m, j) + (if j == k then 1 else 0)
  {
  }

  ghost predicate Counted(vs: seq<Verdict>, namespaces: map<string, nat>, targets: map<(string, string), nat>) {
    && (forall n {:trigger Count(namespaces, n)} :: Count(namespaces, n) == AllowedIn(vs, n))
    && (forall t, n {:trigger Count(targets, (t, n))} :: Count(targets, (t, n)) == AllowedFor(vs, t, n))
  }

  lemma AllowedAppend(vs: seq<Verdict>, v: Verdict, t: string, n: string)
    ensures AllowedIn(vs + [v], n) == AllowedIn(vs, n) + (if v.reason.None? && v.candidate.namespace == n then 1 else 0)
    ensures var counts := v.reason.None? && v.candidate.namespace == n && v.candidate.target == t;
            AllowedFor(vs + [v], t, n) == AllowedFor(vs, t, n) + (if counts then 1 else 0)
  {
    FilterAppend(vs, v, (v: Verdict) => v.reason.None? && v.candidate.namespace == n);
    FilterAppend(vs, v, (v: Verdict) => v.reason.None? && v.candidate.namespace == n && v.candidate.target == t);
  }

  lemma CountedRejection(vs: seq<Verdict>, v: Verdict, namespaces: map<string, nat>, targets: map<(string, string),
      nat>)
    requires Counted(vs, namespaces, targets) && v.reason.Some?
    ensures Counted(vs + [v], namespaces, targets)
  {
    forall n ensures Count(namespaces, n) == AllowedIn(vs + [v], n) { AllowedAppend(vs, v, "", n); }
    forall t, n ensures Count(targets, (t, n)) == AllowedFor(vs + [v], t, n) { AllowedAppend(vs, v, t, n); }
  }

  lemma CountedAllowance(vs: seq<Verdict>, v: Verdict, namespaces: map<string, nat>, targets: map<(string, string),
      nat>)
    requires Counted(vs, namespaces, targets) && v.reason.None?
    ensures Counted(vs + [v], Bump(namespaces, v.candidate.namespace),
      Bump(targets, (v.candidate.target, v.candidate.namespace)))
  {
    var n0, k0 := v.candidate.namespace, (v.candidate.target, v.candidate.namespace);
    forall n ensures Count(Bump(namespaces, n0), n) == AllowedIn(vs + [v], n) {
      AllowedAppend(vs, v, "", n);
      BumpCount(namespaces, n0, n);
    }
    forall t, n ensures Count(Bump(targets, k0), (t, n)) == AllowedFor(vs + [v], t, n) {
      AllowedAppend(vs, v, t, n);
      BumpCount(targets, k0, (t, n));
    }
  }

  /** One candidate against the quotas. */
  method ApplyQuota(e: Evaluator, a: Accepted, namespaces: map<string, nat>, targets: map<(string, string), nat>,
      ghost before: seq<Verdict>)
    returns (v: Verdict, namespaces': map<string, nat>, targets': map<(string, string), nat>)
    requires Counted(before, namespaces, targets) && Judge(e, a.candidate).None?
    requires a == Accepted(a.candidate, NamespaceLimit(e, a.candidate), TargetLimit(e, a.candidate))
    ensures v == Verdict(a.candidate, ReasonFor(e, before, a.candidate)) && Counted(before + [v], namespaces', targets')
  {
    var c := a.candidate;
    namespaces', targets' := namespaces, targets;
    if a.namespaceLimit > 0 && Count(namespaces, c.namespace) >= a.namespaceLimit {
      v := Verdict(c, Some(NamespaceQuotaExceeded));
      CountedRejection(before, v, namespaces, targets);
    } else if a.targetLimit > 0 && Count(targets, (c.target, c.namespace)) >= a.targetLimit {
      v := Verdict(c, Some(TargetQuotaExceeded));
      CountedRejection(before, v, namespaces, targets);
    } else {
      v := Verdict(c, None);
      CountedAllowance(before, v, namespaces, targets);
      namespaces', targets' := Bump(namespaces, c.namespace), Bump(targets, (c.target, c.namespace));
    }
  }

  lemma QuotaStep(vs: seq<Verdict>, v: Verdict)
    ensures CandidatesOf(Filter(vs + [v], Passes))
      == CandidatesOf(Filter(vs, Passes)) + (if v.reason.None? then [v.candidate] else [])
    ensures Filter(vs + [v], Rejects) == Filter(vs, Rejects) + (if v.reason.Some? then [v] else [])
  {
    FilterAppend(vs, v, Passes);
    FilterAppend(vs, v, Rejects);
    CandidatesAppend(Filter(vs, Passes), v);
  }

  lemma CandidatesAppend(vs: seq<Verdict>, v: Verdict)
    ensures CandidatesOf(vs + [v]) == CandidatesOf(vs) + [v.candidate] && CandidatesOf(vs + []) == CandidatesOf(vs)
  {
    assert vs + [] == vs;
  }

  /** The second loop after the verdicts vs. */
  ghost predicate Quoted(vs: seq<Verdict>, allowed: seq<Candidate>, rejected: seq<Verdict>) {
    allowed == CandidatesOf(Filter(vs, Passes)) && rejected == Filter(vs, Rejects)
  }

  lemma QuotedStep(vs: seq<Verdict>, allowed: seq<Candidate>, rejected: seq<Verdict>, v: Verdict)
    requires Quoted(vs, allowed, rejected)
    ensures Quoted(vs + [v],
                   if v.reason.None? then allowed + [v.candidate] else allowed,
                   if v.reason.Some? then rejected + [v] else rejected)
  {
    QuotaStep(vs, v);
  }

  /** The second loop: quotas. */
  method ApplyQuotas(e: Evaluator, accepted: seq<Accepted>,
      ghost passed: seq<Candidate>) returns (allowed: seq<Candidate>, rejected: seq<Verdict>)
    requires Lists(e, accepted, passed) && forall i :: 0 <= i < |passed| ==> Judge(e, passed[i]).None?
    ensures Quoted(Verdicts(e, passed), allowed, rejected)
  {
    allowed, rejected := [], [];
    var namespaces: map<string, nat>, targets: map<(string, string), nat> := map[], map[];
    ghost var vs: seq<Verdict> := [];
    for i := 0 to |accepted|
      invariant vs == Verdicts(e, passed[..i]) && Counted(vs, namespaces, targets) && Quoted(vs, allowed, rejected)
    {
      assert passed[..i + 1] == passed[..i] + [passed[i]];
      VerdictsAppend(e, passed[..i], passed[i]);
      var v;
      v, namespaces, targets := ApplyQuota(e, accepted[i], namespaces, targets, vs);
      QuotedStep(vs, allowed, rejected, v);
      vs := vs + [v];
      if v.reason.Some? { rejected := rejected + [v]; } else { allowed := allowed + [v.candidate]; }
    }
    assert passed[..|passed|] == passed;
  }

  /** Evaluate allows and rejects exactly what the evaluation says, allowed candidates in key order. */
  method Evaluate(e: Evaluator, candidates: seq<Candidate>) returns (allowed: seq<Candidate>, rejected: seq<Verdict>)
    ensures allowed == CandidatesOf(Filter(Evaluation(e, candidates), Passes))
    ensures multiset(rejected) == multiset(Filter(Evaluation(e, candidates), Rejects))
  {
    var sorted := Stable(candidates, KeyBefore);
    var accepted, first := Constrain(e, sorted);
    PassedIsSound(e, sorted);
    var second;
    allowed, second := ApplyQuotas(e, accepted, Filter(sorted, Sound(e)));
    rejected := first + second;
    SamePasses(e, sorted);
    forall v ensures multiset(rejected)[v] == multiset(Filter(Verdicts(e, sorted), Rejects))[v] {
      SameRejections(e, sorted, v);
    }
  }

  lemma PassedIsSound(e: Evaluator, sorted: seq<Candidate>)
    ensures forall i :: 0 <= i < |Filter(sorted, Sound(e))| ==> Judge(e, Filter(sorted, Sound(e))[i]).None?
  {
    FilterMember(sorted, Sound(e));
    var r := Filter(sorted, Sound(e));
    forall i | 0 <= i < |r| ensures Judge(e, r[i]).None? { assert r[i] in r; }
  }

  lemma SamePasses(e: Evaluator, sorted: seq<Candidate>)
    ensures Filter(Verdicts(e, Filter(sorted, Sound(e))), Passes) == Filter(Verdicts(e, sorted), Passes)
  {
    VerdictsWithin(e, sorted, Sound(e));
    forall v | v in Verdicts(e, sorted) && Passes(v) ensures Within(Sound(e))(v) { AllowedIsJudged(e, sorted, v); }
    FilterTwice(Verdicts(e, sorted), Within(Sound(e)), Passes);
  }

  lemma SameRejections(e: Evaluator, sorted: seq<Candidate>, v: Verdict)
    ensures var vs := Verdicts(e, sorted);
            multiset(Filter(vs, Objectionable(e)) + Filter(Verdicts(e, Filter(sorted, Sound(e))),
              Rejects))[v] == multiset(Filter(vs, Rejects))[v]
  {
    var vs := Verdicts(e, sorted);
    VerdictsWithin(e, sorted, Sound(e));
    FilterCount(vs, Objectionable(e), v);
    FilterCount(vs, Within(Sound(e)), v);
    FilterCount(Filter(vs, Within(Sound(e))), Rejects, v);
    FilterCount(vs, Rejects, v);
    assert v in multiset(vs) <==> v in vs;
    if v in vs && Passes(v) { AllowedIsJudged(e, sorted, v); }
  }

  /** Every candidate gets exactly one verdict. */
  lemma EvaluationIsComplete(e: Evaluator, s: seq<Candidate>)
    ensures multiset(CandidatesOf(Evaluation(e, s))) == multiset(s)
  {
    KeyBeforeIsWeakOrder();
    StableSorts(s, KeyBefore);
    assert CandidatesOf(Evaluation(e, s)) == Stable(s, KeyBefore);
  }
}
