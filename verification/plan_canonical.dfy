/** The canonical form of a plan document, whose texts are normalised: every collection is sorted by its
    joined key, and edges and operation lists lose repetitions. */
module PlanCanonical {
  import opened Text
  import opened Sorting

  datatype Source = Source(kind: string, namespace: string, name: string, resourceVersion: string, complete: bool)

  /** The generation is kept as its decimal text. */
  datatype PolicyResource = PolicyResource(namespace: string, name: string, uid: string, generation: string,
      resourceVersion: string)

  datatype Claim = Claim(
    namespace: string, name: string, uid: string, resourceVersion: string, providerID: string, fingerprint: string,
      phase: string)

  /** An operation; `content` stands for the records it carries. */
  datatype Operation = Operation(id: string, kind: string, reason: string, content: string)

  datatype Edge = Edge(operation: string, requirement: string)

  datatype Decision = Decision(code: string, allowed: bool, operations: seq<string>)

  /** `scalars` stands for the rest of the target and the scalar preconditions. */
  datatype Document = Document(
    apiVersion: string, kind: string, targetName: string, targetZone: string, scalars: string,
    sources: seq<Source>, policies: seq<PolicyResource>, claims: seq<Claim>,
    operations: seq<Operation>, edges: seq<Edge>, decisions: seq<Decision>)

  const ApiVersion := "fortigate-external-dns.kgskr.io/v1alpha1"
  const Kind := "ReconciliationPlan"

  /** A blank version or kind means the current one. */
  function Filled(d: Document): Document {
    d.(apiVersion := if d.apiVersion == "" then ApiVersion else d.apiVersion,
       kind := if d.kind == "" then Kind else d.kind)
  }

  const Field: char := '\0'
  const Item: char := 1 as char

  function BoolText(b: bool): string { if b then "true" else "false" }

  function SourceFields(s: Source): seq<string> {
    [s.kind, s.namespace, s.name, s.resourceVersion, BoolText(s.complete)]
  }
  function PolicyFields(p: PolicyResource): seq<string> {
    [p.namespace, p.name, p.uid, p.generation, p.resourceVersion]
  }
  function ClaimFields(c: Claim): seq<string> {
    [c.namespace, c.name, c.uid, c.resourceVersion, c.providerID, c.fingerprint, c.phase]
  }
  function OperationFields(o: Operation): seq<string> { [o.id, o.kind, o.reason] }
  function EdgeFields(e: Edge): seq<string> { [e.operation, e.requirement] }
  function DecisionFields(d: Decision): seq<string> { [d.code, BoolText(d.allowed), Join(d.operations, Item)] }

  /** The order of joined keys. */
  predicate FieldsBefore(a: seq<string>, b: seq<string>) { Less(Join(a, Field), Join(b, Field)) }

  function By<T>(fields: T -> seq<string>): (T, T) -> bool { (a: T, b: T) => FieldsBefore(fields(a), fields(b)) }

  lemma ByIsWeakOrder<T(!new)>(fields: T -> seq<string>)
    ensures WeakOrder(By(fields))
  {
    var less := By(fields);
    forall a, b | less(a, b) ensures !less(b, a) {
      var x, y := Join(fields(a), Field), Join(fields(b), Field);
      LessIrreflexive(x);
      if Less(y, x) { LessTransitive(x, y, x); }
    }
    forall a, b, c | !less(b, a) && !less(c, b) ensures !less(c, a) {
      NotAfterTransitive(Join(fields(a), Field), Join(fields(b), Field), Join(fields(c), Field));
    }
  }

  /** Elements told apart by separator-free fields are never tied. */
  lemma ByIsUntied<T(!new)>(fields: T -> seq<string>, s: seq<T>, n: nat)
    requires forall a :: a in s ==> |fields(a)| == n && Clean(fields(a), Field)
    requires forall a, b :: a in s && b in s && fields(a) == fields(b) ==> a == b
    ensures Untied(s, By(fields))
  {
    var less := By(fields);
    forall a, b | a in s && b in s && a != b ensures less(a, b) || less(b, a) {
      LessTotal(Join(fields(a), Field), Join(fields(b), Field));
      if Join(fields(a), Field) == Join(fields(b), Field) { JoinInjective(fields(a), fields(b), Field); }
    }
  }

  predicate TextBefore(a: string, b: string) { Less(a, b) }

  lemma TextOrder(s: seq<string>)
    ensures WeakOrder(TextBefore) && Untied(s, TextBefore)
  {
    forall a, b | TextBefore(a, b) ensures !TextBefore(b, a) {
      LessIrreflexive(a);
      if TextBefore(b, a) { LessTransitive(a, b, a); }
    }
    forall a, b, c | !TextBefore(b, a) && !TextBefore(c, b) ensures !TextBefore(c, a) { NotAfterTransitive(a, b, c); }
    forall a, b | a in s && b in s && a != b ensures TextBefore(a, b) || TextBefore(b, a) { LessTotal(a, b); }
  }

  function CanonicalDecision(d: Decision): Decision { d.(operations := UniqueSorted(d.operations, TextBefore)) }

  function CanonicalDecisions(s: seq<Decision>): seq<Decision> { Mapped(CanonicalDecision, s) }

  function Canonical(d: Document): Document {
    Document(
      Filled(d).apiVersion, Filled(d).kind, d.targetName, d.targetZone, d.scalars,
      Stable(d.sources, By(SourceFields)), Stable(d.policies, By(PolicyFields)), Stable(d.claims, By(ClaimFields)),
      Stable(d.operations, By(OperationFields)), UniqueSorted(d.edges, By(EdgeFields)),
      Stable(CanonicalDecisions(d.decisions), By(DecisionFields)))
  }

  /** No text contains a separator, operation IDs are distinct and the operations of a decision are not blank. */
  ghost predicate Normal(d: Document) {
    && (forall x :: x in d.sources ==> Clean(SourceFields(x), Field))
    && (forall x :: x in d.policies ==> Clean(PolicyFields(x), Field))
    && (forall x :: x in d.claims ==> Clean(ClaimFields(x), Field))
    && (forall x :: x in d.operations ==> Clean(OperationFields(x), Field))
    && (forall x, y :: x in d.operations && y in d.operations && x.id == y.id ==> x == y)
    && (forall x :: x in d.edges ==> Clean(EdgeFields(x), Field))
    && (forall x :: x in d.decisions ==> NormalDecision(x))
  }

  ghost predicate NormalDecision(d: Decision) {
    && Field !in d.code && Clean(d.operations, Field) && Clean(d.operations, Item)
    && forall i :: 0 <= i < |d.operations| ==> d.operations[i] != ""
  }

  /** What a decision says: which operations it names, not in which order or how often. */
  datatype Meaning = Meaning(code: string, allowed: bool, operations: set<string>)

  function MeaningOf(d: Decision): Meaning { Meaning(d.code, d.allowed, set x | x in d.operations) }

  /** The documents differ only in the order of their collections, in repeated edges, in the order and repetition of the
      operations of decisions, and in spelling out the current version and kind. */
  ghost predicate SameContent(d: Document, e: Document) {
    && Filled(d).apiVersion == Filled(e).apiVersion && Filled(d).kind == Filled(e).kind
    && d.targetName == e.targetName && d.targetZone == e.targetZone && d.scalars == e.scalars
    && multiset(d.sources) == multiset(e.sources) && multiset(d.policies) == multiset(e.policies)
    && multiset(d.claims) == multiset(e.claims) && multiset(d.operations) == multiset(e.operations)
    && (forall x :: x in d.edges <==> x in e.edges)
    && multiset(Mapped(MeaningOf, d.decisions)) == multiset(Mapped(MeaningOf, e.decisions))
  }

  // ---- Decisions by their meaning -------------------------------------------------------

  lemma CanonicalMeaning(d: Decision)
    ensures MeaningOf(CanonicalDecision(d)) == MeaningOf(d)
  {
    TextOrder(d.operations);
    UniqueSortedIncreases(d.operations, TextBefore);
  }

  lemma SameMeaning(a: Decision, b: Decision)
    requires MeaningOf(a) == MeaningOf(b)
    ensures CanonicalDecision(a) == CanonicalDecision(b)
  {
    TextOrder(a.operations);
    forall x ensures x in a.operations <==> x in b.operations {
      assert x in MeaningOf(a).operations <==> x in MeaningOf(b).operations;
    }
    UniqueSortedIsCanonical(a.operations, b.operations, TextBefore);
  }

  /** The canonical decision with a meaning. */
  ghost function DecisionFor(m: Meaning): Decision {
    if exists d :: MeaningOf(d) == m then var d :| MeaningOf(d) == m; CanonicalDecision(d) else Decision("", false, [])
  }

  lemma DecisionForMeaning(d: Decision)
    ensures DecisionFor(MeaningOf(d)) == CanonicalDecision(d)
  {
    forall x | MeaningOf(x) == MeaningOf(d) ensures CanonicalDecision(x) == CanonicalDecision(d) { SameMeaning(x, d); }
  }

  /** Decisions mean the same exactly when their canonical forms are the same, in whatever order. */
  lemma DecisionsByMeaning(s: seq<Decision>, t: seq<Decision>)
    ensures multiset(Mapped(MeaningOf, s)) == multiset(Mapped(MeaningOf, t))
       <==> multiset(CanonicalDecisions(s)) == multiset(CanonicalDecisions(t))
  {
    forall u: seq<Decision>
      ensures Mapped(DecisionFor, Mapped(MeaningOf, u)) == CanonicalDecisions(u)
      ensures Mapped(MeaningOf, CanonicalDecisions(u)) == Mapped(MeaningOf, u)
    {
      forall d ensures DecisionFor(MeaningOf(d)) == CanonicalDecision(d)
        && MeaningOf(CanonicalDecision(d)) == MeaningOf(d) {
        DecisionForMeaning(d);
        CanonicalMeaning(d);
      }
    }
    if multiset(Mapped(MeaningOf, s)) == multiset(Mapped(MeaningOf, t)) {
      MappedSame(DecisionFor, Mapped(MeaningOf, s), Mapped(MeaningOf, t));
    }
    if multiset(CanonicalDecisions(s)) == multiset(CanonicalDecisions(t)) {
      MappedSame(MeaningOf, CanonicalDecisions(s), CanonicalDecisions(t));
    }
  }

  // ---- Each collection is untied --------------------------------------------------------

  lemma SourcesUntied(s: seq<Source>)
    requires forall x :: x in s ==> Clean(SourceFields(x), Field)
    ensures Untied(s, By(SourceFields))
  {
    assert "true"[0] != "false"[0];
    ByIsUntied(SourceFields, s, 5);
  }

  lemma PoliciesUntied(s: seq<PolicyResource>)
    requires forall x :: x in s ==> Clean(PolicyFields(x), Field)
    ensures Untied(s, By(PolicyFields))
  {
    ByIsUntied(PolicyFields, s, 5);
  }

  lemma ClaimsUntied(s: seq<Claim>)
    requires forall x :: x in s ==> Clean(ClaimFields(x), Field)
    ensures Untied(s, By(ClaimFields))
  {
    ByIsUntied(ClaimFields, s, 7);
  }

  lemma OperationsUntied(s: seq<Operation>)
    requires forall x :: x in s ==> Clean(OperationFields(x), Field)
    requires forall x, y :: x in s && y in s && x.id == y.id ==> x == y
    ensures Untied(s, By(OperationFields))
  {
    ByIsUntied(OperationFields, s, 3);
  }

  lemma EdgesUntied(s: seq<Edge>)
    requires forall x :: x in s ==> Clean(EdgeFields(x), Field)
    ensures Untied(s, By(EdgeFields))
  {
    ByIsUntied(EdgeFields, s, 2);
  }

  lemma DecisionFieldsClean(d: Decision)
    requires NormalDecision(d)
    ensures Clean(DecisionFields(d), Field)
  {
    JoinClean(d.operations, Item, Field);
    assert Field !in "true" && Field !in "false";
  }

  lemma DecisionFieldsInjective(a: Decision, b: Decision)
    requires NormalDecision(a) && NormalDecision(b) && DecisionFields(a) == DecisionFields(b)
    ensures a == b
  {
    assert DecisionFields(a)[0] == DecisionFields(b)[0] && DecisionFields(a)[1] == DecisionFields(b)[1]
      && DecisionFields(a)[2] == DecisionFields(b)[2];
    assert "true"[0] != "false"[0];
    JoinNonblankInjective(a.operations, b.operations, Item);
  }

  lemma DecisionsUntied(s: seq<Decision>)
    requires forall x :: x in s ==> NormalDecision(x)
    ensures Untied(s, By(DecisionFields))
  {
    forall x | x in s ensures |DecisionFields(x)| == 3 && Clean(DecisionFields(x), Field) { DecisionFieldsClean(x); }
    forall x, y | x in s && y in s && DecisionFields(x) == DecisionFields(y) ensures x == y {
      DecisionFieldsInjective(x, y);
    }
    ByIsUntied(DecisionFields, s, 3);
  }

  lemma CanonicalDecisionNormal(d: Decision)
    requires NormalDecision(d)
    ensures NormalDecision(CanonicalDecision(d)) && CanonicalDecision(CanonicalDecision(d)) == CanonicalDecision(d)
  {
    TextOrder(d.operations);
    UniqueSortedIncreases(d.operations, TextBefore);
    var r := UniqueSorted(d.operations, TextBefore);
    forall i | 0 <= i < |r| ensures r[i] in d.operations { assert r[i] in r; }
    TextOrder(r);
    UniqueSortedIsCanonical(r, d.operations, TextBefore);
  }

  lemma CanonicalDecisionsNormal(s: seq<Decision>)
    requires forall x :: x in s ==> NormalDecision(x)
    ensures forall x :: x in CanonicalDecisions(s) ==> NormalDecision(x) && CanonicalDecision(x) == x
  {
    forall x | x in CanonicalDecisions(s) ensures NormalDecision(x) && CanonicalDecision(x) == x {
      var i :| 0 <= i < |s| && CanonicalDecisions(s)[i] == x;
      CanonicalDecisionNormal(s[i]);
    }
  }

  // ---- The theorems ---------------------------------------------------------------------

  lemma SameSorted<T(!new)>(s: seq<T>, t: seq<T>, fields: T -> seq<string>)
    requires multiset(s) == multiset(t) && Untied(s, By(fields))
    ensures Stable(s, By(fields)) == Stable(t, By(fields))
  {
    ByIsWeakOrder(fields);
    StableIsCanonical(s, t, By(fields));
  }

  lemma SameDecisions(d: Document, e: Document)
    requires Normal(d) && multiset(CanonicalDecisions(d.decisions)) == multiset(CanonicalDecisions(e.decisions))
    ensures Stable(CanonicalDecisions(d.decisions), By(DecisionFields))
      == Stable(CanonicalDecisions(e.decisions), By(DecisionFields))
  {
    CanonicalDecisionsNormal(d.decisions);
    DecisionsUntied(CanonicalDecisions(d.decisions));
    SameSorted(CanonicalDecisions(d.decisions), CanonicalDecisions(e.decisions), DecisionFields);
  }

  lemma SameEdges(d: Document, e: Document)
    requires Normal(d) && forall x :: x in d.edges <==> x in e.edges
    ensures UniqueSorted(d.edges, By(EdgeFields)) == UniqueSorted(e.edges, By(EdgeFields))
  {
    EdgesUntied(d.edges);
    ByIsWeakOrder(EdgeFields);
    UniqueSortedIsCanonical(d.edges, e.edges, By(EdgeFields));
  }

  /** Documents with the same content have the same canonical form. */
  lemma CanonicalByContent(d: Document, e: Document)
    requires Normal(d) && SameContent(d, e)
    ensures Canonical(d) == Canonical(e)
  {
    SourcesUntied(d.sources);
    SameSorted(d.sources, e.sources, SourceFields);
    PoliciesUntied(d.policies);
    SameSorted(d.policies, e.policies, PolicyFields);
    ClaimsUntied(d.claims);
    SameSorted(d.claims, e.claims, ClaimFields);
    OperationsUntied(d.operations);
    SameSorted(d.operations, e.operations, OperationFields);
    SameEdges(d, e);
    DecisionsByMeaning(d.decisions, e.decisions);
    SameDecisions(d, e);
  }

  lemma StableElements<T(!new)>(s: seq<T>, fields: T -> seq<string>)
    ensures multiset(Stable(s, By(fields))) == multiset(s)
  {
    ByIsWeakOrder(fields);
    StableSorts(s, By(fields));
  }

  /** Canonical decisions are unchanged by canonicalising them again. */
  lemma DecisionsKept(d: Document)
    requires Normal(d)
    ensures multiset(CanonicalDecisions(Canonical(d).decisions)) == multiset(CanonicalDecisions(d.decisions))
  {
    var cs := CanonicalDecisions(d.decisions);
    var r := Stable(cs, By(DecisionFields));
    StableElements(cs, DecisionFields);
    CanonicalDecisionsNormal(d.decisions);
    forall i | 0 <= i < |r| ensures CanonicalDecision(r[i]) == r[i] {
      assert r[i] in multiset(r);
      assert r[i] in cs;
    }
    assert CanonicalDecisions(r) == r;
  }

  /** The canonical form has the content of the document. */
  lemma CanonicalKeepsContent(d: Document)
    requires Normal(d)
    ensures SameContent(d, Canonical(d))
  {
    StableElements(d.sources, SourceFields);
    StableElements(d.policies, PolicyFields);
    StableElements(d.claims, ClaimFields);
    StableElements(d.operations, OperationFields);
    ByIsWeakOrder(EdgeFields);
    EdgesUntied(d.edges);
    UniqueSortedIncreases(d.edges, By(EdgeFields));
    DecisionsKept(d);
    DecisionsByMeaning(d.decisions, Canonical(d).decisions);
  }

  /** Canonicalising twice is canonicalising once. */
  lemma CanonicalIdempotent(d: Document)
    requires Normal(d)
    ensures Canonical(Canonical(d)) == Canonical(d)
  {
    CanonicalKeepsContent(d);
    CanonicalByContent(d, Canonical(d));
  }

  /** The canonical form tells exactly the documents with different content apart. */
  lemma CanonicalExactly(d: Document, e: Document)
    requires Normal(d) && Normal(e)
    ensures Canonical(d) == Canonical(e) <==> SameContent(d, e)
  {
    if SameContent(d, e) { CanonicalByContent(d, e); }
    if Canonical(d) == Canonical(e) {
      CanonicalKeepsContent(d);
      CanonicalKeepsContent(e);
    }
  }

  /** deduplicatePrerequisites. */
  method DeduplicatePrerequisites(edges: seq<Edge>) returns (out: seq<Edge>)
    requires forall x :: x in edges ==> Clean(EdgeFields(x), Field)
    ensures Increasing(out, By(EdgeFields)) && forall x :: x in out <==> x in edges
  {
    var sorted := Stable(edges, By(EdgeFields));
    out := Deduplicate(sorted);
    ByIsWeakOrder(EdgeFields);
    EdgesUntied(edges);
    UniqueSortedIncreases(edges, By(EdgeFields));
  }

  /** sortedUniqueStrings. */
  method SortedUniqueStrings(values: seq<string>) returns (out: seq<string>)
    ensures Increasing(out, TextBefore) && forall x :: x in out <==> x in values
  {
    var sorted := Stable(values, TextBefore);
    out := Deduplicate(sorted);
    TextOrder(values);
    UniqueSortedIncreases(values, TextBefore);
  }
}
