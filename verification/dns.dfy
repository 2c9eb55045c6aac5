/** DNS records as the planner, the client and the ownership protocol see them.
    Every text is in normal form already (trimmed, lower case, no trailing dot,
    canonical address text), so `Normalize` is the identity here. */
module Dns {
  import opened Text

  /** The three managed record types, or the text of any other type. */
  datatype RecordType = A | AAAA | CNAME | Other(text: string)

  function TypeText(t: RecordType): string {
    match t
    case A => "A"
    case AAAA => "AAAA"
    case CNAME => "CNAME"
    case Other(text) => text
  }

  datatype SourceRef = SourceRef(apiVersion: string, kind: string, namespace: string, name: string, uid: string)

  datatype Endpoint = Endpoint(
    zone: string, dnsName: string, recordType: RecordType, targets: seq<string>, ttl: int,
    ownerID: string, source: SourceRef, providerID: string, disabled: bool)

  /** Identity of one device entry: the first target value takes part. */
  datatype Key = Key(zone: string, dnsName: string, recordType: RecordType, target: Option<string>)

  /** Identity of a record apart from its target value. */
  datatype Logical = Logical(zone: string, dnsName: string, recordType: RecordType)

  /** All record types of one DNS owner name. */
  datatype Group = Group(zone: string, dnsName: string)

  function KeyOf(e: Endpoint): Key {
    Key(e.zone, e.dnsName, e.recordType, if |e.targets| > 0 then Some(e.targets[0]) else None)
  }

  function LogicalOf(e: Endpoint): Logical { Logical(e.zone, e.dnsName, e.recordType) }

  function GroupOf(e: Endpoint): Group { Group(e.zone, e.dnsName) }

  predicate EqualRecord(a: Endpoint, b: Endpoint) {
    && a.dnsName == b.dnsName && a.recordType == b.recordType
    && a.ttl == b.ttl && a.disabled == b.disabled && a.targets == b.targets
  }

  /** The joined text of a key, which is what the source compares when it sorts. */
  function Render(k: Key): string {
    k.zone + "|" + k.dnsName + "|" + TypeText(k.recordType) + (if k.target.Some? then "|" + k.target.value else "")
  }

  predicate KeyLess(a: Key, b: Key) { Less(Render(a), Render(b)) }

  /** No part of the key before the target contains the separator, so the joined text identifies the key. */
  predicate Separable(k: Key) {
    && '|' !in k.zone && '|' !in k.dnsName && '|' !in TypeText(k.recordType)
    && (k.recordType.Other? ==> k.recordType.text != "A" && k.recordType.text != "AAAA" && k.recordType.text != "CNAME")
  }

  lemma {:induction false} PrefixUnique(a: string, x: string, b: string, y: string)
    requires '|' !in a && '|' !in b
    requires a + "|" + x == b + "|" + y
    ensures a == b && x == y
  {
    var s := a + "|" + x;
    assert forall i :: 0 <= i < |a| ==> s[i] == a[i];
    assert forall i :: 0 <= i < |b| ==> s[i] == b[i];
    assert s[|a|] == '|' && s[|b|] == '|';
    assert |a| == |b|;
    assert a == s[..|a|] && b == s[..|b|];
    assert x == s[|a| + 1..] && y == s[|b| + 1..];
  }

  lemma TypeTextInjective(a: Key, b: Key)
    requires Separable(a) && Separable(b) && TypeText(a.recordType) == TypeText(b.recordType)
    ensures a.recordType == b.recordType
  {
    assert "A"[0] == 'A' && |"A"| == 1 && |"AAAA"| == 4 && |"CNAME"| == 5;
  }

  /** The text of a type and an optional target splits at the separator in one way only. */
  lemma SuffixUnique(t: string, x: Option<string>, u: string, y: Option<string>)
    requires '|' !in t && '|' !in u
    requires t + (if x.Some? then "|" + x.value else "") == u + (if y.Some? then "|" + y.value else "")
    ensures t == u && x == y
  {
    var s := t + (if x.Some? then "|" + x.value else "");
    assert x.None? ==> s == t;
    assert y.None? ==> s == u;
    assert x.Some? ==> s[|t|] == '|' && s == t + "|" + x.value;
    assert y.Some? ==> s[|u|] == '|' && s == u + "|" + y.value;
    assert x.Some? == y.Some?;
    if x.Some? { PrefixUnique(t, x.value, u, y.value); }
  }

  lemma RenderSplits(k: Key, tail: string)
    requires tail == TypeText(k.recordType) + (if k.target.Some? then "|" + k.target.value else "")
    ensures Render(k) == k.zone + "|" + (k.dnsName + "|" + tail)
  {
  }

  lemma RenderInjective(a: Key, b: Key)
    requires Separable(a) && Separable(b) && Render(a) == Render(b)
    ensures a == b
  {
    var ta := TypeText(a.recordType) + (if a.target.Some? then "|" + a.target.value else "");
    var tb := TypeText(b.recordType) + (if b.target.Some? then "|" + b.target.value else "");
    RenderSplits(a, ta);
    RenderSplits(b, tb);
    PrefixUnique(a.zone, a.dnsName + "|" + ta, b.zone, b.dnsName + "|" + tb);
    PrefixUnique(a.dnsName, ta, b.dnsName, tb);
    SuffixUnique(TypeText(a.recordType), a.target, TypeText(b.recordType), b.target);
    TypeTextInjective(a, b);
  }

  /** The order of the key texts, by which the planner sorts records. */
  predicate KeyBefore(a: Endpoint, b: Endpoint) { KeyLess(KeyOf(a), KeyOf(b)) }

  /** Separable keys are ordered totally. */
  lemma KeyOrderTotal(a: Endpoint, b: Endpoint)
    requires Separable(KeyOf(a)) && Separable(KeyOf(b)) && KeyOf(a) != KeyOf(b)
    ensures KeyBefore(a, b) || KeyBefore(b, a)
  {
    LessTotal(Render(KeyOf(a)), Render(KeyOf(b)));
    if Render(KeyOf(a)) == Render(KeyOf(b)) { RenderInjective(KeyOf(a), KeyOf(b)); }
  }

  lemma KeyBeforeIsWeakOrder()
    ensures WeakOrder(KeyBefore)
  {
    forall a, b | KeyBefore(a, b) ensures !KeyBefore(b, a) {
      LessIrreflexive(Render(KeyOf(a)));
      if KeyBefore(b, a) { LessTransitive(Render(KeyOf(a)), Render(KeyOf(b)), Render(KeyOf(a))); }
    }
    forall a, b, c | !KeyBefore(b, a) && !KeyBefore(c, b) ensures !KeyBefore(c, a) {
      NotAfterTransitive(Render(KeyOf(a)), Render(KeyOf(b)), Render(KeyOf(c)));
    }
  }
}
