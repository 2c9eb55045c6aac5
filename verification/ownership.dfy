/** Record identities and fingerprints, the loops that compare device rows with a claim, and the check
    that authorises a mutation of an existing row. Hashes are taken as injective: a fingerprint is its input. */
module Ownership {
  import opened Text
  import opened Dns
  import Claims

  datatype Identity = Identity(targetName: string, zone: string, dnsName: string, recordType: RecordType, value: string)

  datatype Fingerprint = Fingerprint(identity: Identity, ttl: int, disabled: bool)

  /** What a claim's spec says of its record. The zone is left to the target. */
  datatype RecordKey = RecordKey(dnsName: string, recordType: RecordType, value: string)

  function IdentityFor(targetName: string, e: Endpoint): Option<Identity> {
    if |e.targets| != 1 || e.targets[0] == "" || targetName == "" || e.zone == "" || e.dnsName == ""
      || e.recordType.Other? then None
    else Some(Identity(targetName, e.zone, e.dnsName, e.recordType, e.targets[0]))
  }

  function FingerprintFor(targetName: string, e: Endpoint): Option<Fingerprint> {
    if IdentityFor(targetName, e).None? then None
    else Some(Fingerprint(IdentityFor(targetName, e).value, e.ttl, e.disabled))
  }

  function KeyFor(i: Identity): RecordKey { RecordKey(i.dnsName, i.recordType, i.value) }

  /** Two records of one target share a fingerprint exactly when they share a zone and are equal records. */
  lemma FingerprintIsEquality(targetName: string, a: Endpoint, b: Endpoint)
    requires FingerprintFor(targetName, a).Some? && FingerprintFor(targetName, b).Some?
    ensures FingerprintFor(targetName, a) == FingerprintFor(targetName, b) <==> a.zone == b.zone && EqualRecord(a, b)
  {
    assert a.targets == [a.targets[0]] && b.targets == [b.targets[0]];
  }

  predicate HasId(id: string, e: Endpoint) { e.providerID == id }

  method ProviderRecordsByID(records: seq<Endpoint>, id: string) returns (rows: seq<Endpoint>)
    ensures rows == Filter(records, (e: Endpoint) => HasId(id, e))
  {
    rows := [];
    for i := 0 to |records|
      invariant rows == Filter(records[..i], (e: Endpoint) => HasId(id, e))
    {
      assert records[..i + 1] == records[..i] + [records[i]];
      FilterAppend(records[..i], records[i], (e: Endpoint) => HasId(id, e));
      if HasId(id, records[i]) { rows := rows + [records[i]]; }
    }
    assert records[..|records|] == records;
  }

  /** The row is the record that `same` recognises, and its fingerprint is the wanted one. */
  predicate Exact(targetName: string, same: Identity -> bool, wanted: Fingerprint, e: Endpoint) {
    IdentityFor(targetName, e).Some? && same(IdentityFor(targetName, e).value)
      && FingerprintFor(targetName, e) == Some(wanted)
  }

  predicate Divergent(targetName: string, same: Identity -> bool, wanted: Fingerprint, e: Endpoint) {
    IdentityFor(targetName, e).Some? && same(IdentityFor(targetName, e).value)
      && FingerprintFor(targetName, e) != Some(wanted)
  }

  /** A row of the record is exact when it is in the wanted state and divergent otherwise; no other row is either. */
  lemma InspectedExactly(targetName: string, i: Identity, wanted: Fingerprint, e: Endpoint)
    requires wanted.identity == i
    ensures var same := (x: Identity) => x == i;
            var row := IdentityFor(targetName, e) == Some(i);
            && (Exact(targetName, same, wanted, e) <==> row && e.ttl == wanted.ttl && e.disabled == wanted.disabled)
            && (Divergent(targetName, same, wanted, e) <==>
                  row && (e.ttl != wanted.ttl || e.disabled != wanted.disabled))
  {
  }

  /** The loop that inspectRecord and inspectClaimRecords share: which rows are the record, exactly or in another state,
      and whether the given ID is on more than one row. */
  method Inspect(records: seq<Endpoint>, targetName: string, same: Identity -> bool, wanted: Fingerprint, id: string)
    returns (exact: seq<Endpoint>, divergent: seq<Endpoint>, reused: bool)
    ensures exact == Filter(records, (e: Endpoint) => Exact(targetName, same, wanted, e))
    ensures divergent == Filter(records, (e: Endpoint) => Divergent(targetName, same, wanted, e))
    ensures reused <==> id != "" && |Filter(records, (e: Endpoint) => HasId(id, e))| > 1
  {
    exact, divergent, reused := [], [], false;
    ghost var isExact := (e: Endpoint) => Exact(targetName, same, wanted, e);
    ghost var isDivergent := (e: Endpoint) => Divergent(targetName, same, wanted, e);
    ghost var isId := (e: Endpoint) => HasId(id, e);
    for i := 0 to |records|
      invariant exact == Filter(records[..i], isExact)
      invariant divergent == Filter(records[..i], isDivergent)
      invariant reused <==> id != "" && Filter(records[..i], isId) != [] && |Filter(records, isId)| != 1
    {
      var record := records[i];
      assert records[..i + 1] == records[..i] + [record];
      FilterAppend(records[..i], record, isExact);
      FilterAppend(records[..i], record, isDivergent);
      FilterAppend(records[..i], record, isId);
      if id != "" && HasId(id, record) {
        var matches := ProviderRecordsByID(records, id);
        reused := |matches| != 1;
      }
      var identity := IdentityFor(targetName, record);
      if identity.Some? && same(identity.value) {
        if FingerprintFor(targetName, record) == Some(wanted) { exact := exact + [record]; }
        else { divergent := divergent + [record]; }
      }
    }
    assert records[..|records|] == records;
  }

  /** The name of a claim: derived from the identity it is for, or any other. */
  datatype ClaimName = Derived(identity: Identity) | Named(text: string)

  datatype ClaimObject = ClaimObject(
    name: ClaimName, namespace: string, uid: string, resourceVersion: string,
    targetName: string, record: RecordKey, fingerprint: Option<Fingerprint>, providerID: string, controllerID: string,
      phase: Claims.Phase)

  datatype StableListing = StableListing(revision: string, stable: bool, records: seq<Endpoint>)

  /** What a plan recorded of the claim and the device; blank namespace or UID means not recorded. */
  datatype Precondition = Precondition(
    targetName: string, controllerID: string, revision: string, name: ClaimName, namespace: string, uid: string,
    resourceVersion: string, providerID: string, fingerprint: Option<Fingerprint>, phase: Claims.Phase)

  datatype Verdict = Granted | Refused(marksConflict: bool)

  predicate ForRecord(targetName: string, record: RecordKey, k: ClaimObject) {
    k.targetName == targetName && k.record == record
  }

  method ClaimsForRecord(claims: seq<ClaimObject>, targetName: string, record: RecordKey) returns (r: seq<ClaimObject>)
    ensures r == Filter(claims, (k: ClaimObject) => ForRecord(targetName, record, k))
  {
    r := [];
    for i := 0 to |claims|
      invariant r == Filter(claims[..i], (k: ClaimObject) => ForRecord(targetName, record, k))
    {
      assert claims[..i + 1] == claims[..i] + [claims[i]];
      FilterAppend(claims[..i], claims[i], (k: ClaimObject) => ForRecord(targetName, record, k));
      if ForRecord(targetName, record, claims[i]) { r := r + [claims[i]]; }
    }
    assert claims[..|claims|] == claims;
  }

  /** What a get of each claim name answers. */
  type Store = map<ClaimName, ClaimObject>

  /** The claim of this name is at the planned version and the only claim for its record. */
  predicate Unique(store: Store, claims: seq<ClaimObject>, name: ClaimName, version: string) {
    && name in store && version != "" && store[name].resourceVersion == version
    && var logical := Filter(claims, (k: ClaimObject) => ForRecord(store[name].targetName, store[name].record, k));
       |logical| == 1 && logical[0].name == store[name].name
  }

  /** The claim is still what the plan recorded. */
  predicate AsPlanned(k: ClaimObject, pre: Precondition) {
    && k.phase == Claims.Confirmed && k.targetName == pre.targetName && k.controllerID == pre.controllerID
    && k.providerID != "" && k.providerID == pre.providerID && k.fingerprint.Some? && k.fingerprint == pre.fingerprint
    && (pre.namespace == "" || k.namespace == pre.namespace) && (pre.uid == "" || k.uid == pre.uid)
  }

  /** One row has the bound ID; it is the claimed record, in the claimed state. */
  predicate LiveRow(records: seq<Endpoint>, k: ClaimObject, pre: Precondition) {
    var rows := Filter(records, (e: Endpoint) => HasId(pre.providerID, e));
    && |rows| == 1 && FingerprintFor(pre.targetName, rows[0]).Some?
      && FingerprintFor(pre.targetName, rows[0]) == pre.fingerprint
    && k.name == Derived(IdentityFor(pre.targetName, rows[0]).value)
      && k.record == KeyFor(IdentityFor(pre.targetName, rows[0]).value)
  }

  /** The get and the list of the check; a second claim for the record is a duplicate. */
  method RevalidateUnique(store: Store, claims: seq<ClaimObject>, name: ClaimName, version: string)
    returns (claim: Option<ClaimObject>, duplicate: bool)
    ensures claim.Some? <==> Unique(store, claims, name, version)
    ensures claim.Some? ==> claim.value == store[name]
    ensures duplicate <==> name in store && version != "" && store[name].resourceVersion == version && claim.None?
  {
    if name !in store || version == "" || store[name].resourceVersion != version { return None, false; }
    var k := store[name];
    var logical := ClaimsForRecord(claims, k.targetName, k.record);
    if |logical| != 1 || logical[0].name != k.name { return None, true; }
    return Some(k), false;
  }

  /** The check of the live row; every way to fail marks the claim as a conflict. */
  method CheckLiveRow(records: seq<Endpoint>, k: ClaimObject, pre: Precondition) returns (live: bool)
    ensures live <==> LiveRow(records, k, pre)
  {
    var rows := ProviderRecordsByID(records, pre.providerID);
    if |rows| != 1 { return false; }
    var fingerprint := FingerprintFor(pre.targetName, rows[0]);
    if fingerprint.None? || fingerprint != pre.fingerprint { return false; }
    var identity := IdentityFor(pre.targetName, rows[0]).value;
    return k.name == Derived(identity) && k.record == KeyFor(identity);
  }

  /** What a granted mutation may rely on: the stored claim is confirmed, bound, at the planned version, of the planned
      target, controller, row and state, and no other claim is for its record. */
  ghost predicate GrantedClaim(store: Store, claims: seq<ClaimObject>, pre: Precondition) {
    && pre.name in store
    && var k := store[pre.name];
       && k.phase == Claims.Confirmed && k.resourceVersion == pre.resourceVersion && k.targetName == pre.targetName
       && k.controllerID == pre.controllerID && k.providerID == pre.providerID && k.providerID != ""
       && k.fingerprint == pre.fingerprint && (pre.namespace != "" ==> k.namespace == pre.namespace)
       && (pre.uid != "" ==> k.uid == pre.uid)
       && (forall x :: x in claims && x.targetName == k.targetName && x.record == k.record ==> x.name == k.name)
  }

  lemma OnlyClaim(store: Store, claims: seq<ClaimObject>, pre: Precondition)
    requires Unique(store, claims, pre.name, pre.resourceVersion) && AsPlanned(store[pre.name], pre)
    ensures GrantedClaim(store, claims, pre)
  {
    var k := store[pre.name];
    var p := (x: ClaimObject) => ForRecord(k.targetName, k.record, x);
    FilterMember(claims, p);
    forall x | x in claims && x.targetName == k.targetName && x.record == k.record ensures x.name == k.name {
      assert x in Filter(claims, p);
    }
  }

  /** AuthorizeMutation in shared mode, for an operation on an existing row. `store` and `claims` are what the store
      answers to the reads of the check. */
  method AuthorizeMutation(pre: Precondition, listing: StableListing, store: Store, claims: seq<ClaimObject>)
    returns (verdict: Verdict)
    ensures verdict.Granted? <==>
      (&& listing.stable && listing.revision != "" && listing.revision == pre.revision && pre.phase == Claims.Confirmed
      && Unique(store, claims, pre.name, pre.resourceVersion) && AsPlanned(store[pre.name], pre)
      && LiveRow(listing.records, store[pre.name], pre))
    ensures verdict.Granted? ==> GrantedClaim(store, claims, pre)
    ensures verdict == Refused(true) <==>
      (&& listing.stable && listing.revision != "" && listing.revision == pre.revision && pre.phase == Claims.Confirmed
      && pre.name in store && pre.resourceVersion != "" && store[pre.name].resourceVersion == pre.resourceVersion
      && (!Unique(store, claims, pre.name, pre.resourceVersion)
        || (AsPlanned(store[pre.name], pre) && !LiveRow(listing.records, store[pre.name], pre))))
  {
    if !listing.stable || listing.revision == "" { return Refused(false); }
    if pre.revision == "" || listing.revision != pre.revision { return Refused(false); }
    if pre.phase != Claims.Confirmed { return Refused(false); }
    var claim, duplicate := RevalidateUnique(store, claims, pre.name, pre.resourceVersion);
    if claim.None? { return Refused(duplicate); }
    if !AsPlanned(claim.value, pre) { return Refused(false); }
    OnlyClaim(store, claims, pre);
    var live := CheckLiveRow(listing.records, claim.value, pre);
    return if live then Granted else Refused(true);
  }

  /** A granted mutation's claim describes the live row completely: its identity is the one the claim is named for, and
      its fingerprint is the claimed one. */
  lemma GrantedRowIsClaimed(records: seq<Endpoint>, k: ClaimObject, pre: Precondition)
    requires AsPlanned(k, pre) && LiveRow(records, k, pre)
    ensures exists e :: e in records && e.providerID == k.providerID && FingerprintFor(k.targetName, e) == k.fingerprint
              && k.name == Derived(k.fingerprint.value.identity)
              && (forall x :: x in records && x.providerID == k.providerID ==> x == e)
  {
    var rows := Filter(records, (e: Endpoint) => HasId(pre.providerID, e));
    FilterMember(records, (e: Endpoint) => HasId(pre.providerID, e));
    var e := rows[0];
    assert e in rows;
    forall x | x in records && x.providerID == k.providerID ensures x == e { assert x in rows; }
  }

  // ---- The protocol's view --------------------------------------------------------------

  /** Records of one target are the same record exactly when they have the same key. */
  lemma IdentityIsKey(targetName: string, a: Endpoint, b: Endpoint)
    requires IdentityFor(targetName, a).Some? && IdentityFor(targetName, b).Some?
    ensures IdentityFor(targetName, a) == IdentityFor(targetName, b) <==> KeyOf(a) == KeyOf(b)
  {
  }

  predicate IsRow(targetName: string, i: Identity, e: Endpoint) { IdentityFor(targetName, e) == Some(i) }

  /** A device lists every provider ID once. */
  ghost predicate DistinctIds(records: seq<Endpoint>) {
    forall i, j :: 0 <= i < j < |records| ==> records[i].providerID != records[j].providerID
  }

  /** The listing as the protocol for one identity sees it: the state of each of its rows, and all other IDs. */
  ghost function View(records: seq<Endpoint>, targetName: string, i: Identity): Claims.Snapshot
    requires DistinctIds(records)
  {
    var rows := map e | e in records && IsRow(targetName, i, e) :: e.providerID := Claims.Stamp(e.ttl, e.disabled);
    Claims.Snapshot(rows, set e | e in records && !IsRow(targetName, i, e) :: e.providerID)
  }

  /** A claim as the protocol sees it. */
  function ClaimView(k: ClaimObject, finalizer: bool, rv: nat): Claims.Claim
    requires k.fingerprint.Some?
  {
    Claims.Claim(k.controllerID, Claims.Stamp(k.fingerprint.value.ttl, k.fingerprint.value.disabled),
                 if k.providerID == "" then None else Some(k.providerID), k.phase, finalizer, rv)
  }

  lemma {:induction false} OneRowById(records: seq<Endpoint>, id: string, e: Endpoint)
    requires DistinctIds(records) && e in records && HasId(id, e)
    ensures Filter(records, (x: Endpoint) => HasId(id, x)) == [e]
  {
    var n := |records| - 1;
    var t := records[..n];
    FilterMember(t, (x: Endpoint) => HasId(id, x));
    if e in t {
      OneRowById(t, id, e);
    } else {
      EmptyOrFirst(Filter(t, (x: Endpoint) => HasId(id, x)));
    }
  }

  lemma NoRowById(records: seq<Endpoint>, id: string)
    requires forall e :: e in records ==> !HasId(id, e)
    ensures Filter(records, (x: Endpoint) => HasId(id, x)) == []
  {
    FilterMember(records, (x: Endpoint) => HasId(id, x));
    EmptyOrFirst(Filter(records, (x: Endpoint) => HasId(id, x)));
  }

  /** The protocol's check is this one: on a listing with distinct IDs and a claim that is named for its own identity,
      the live row passes exactly when the protocol authorises the claim. */
  lemma LiveRowIsAuthorized(records: seq<Endpoint>, k: ClaimObject, pre: Precondition, i: Identity, finalizer: bool,
      rv: nat)
    requires DistinctIds(records) && AsPlanned(k, pre)
    requires k.name == Derived(i) && k.record == KeyFor(i) && k.fingerprint.value.identity == i
    ensures LiveRow(records, k, pre) <==> Claims.Authorized(ClaimView(k, finalizer, rv),
      View(records, pre.targetName, i))
  {
    var seen := View(records, pre.targetName, i);
    if e :| e in records && HasId(pre.providerID, e) {
      OneRowById(records, pre.providerID, e);
      if IsRow(pre.targetName, i, e) {
        assert seen.rows[e.providerID] == Claims.Stamp(e.ttl, e.disabled);
      }
    } else {
      NoRowById(records, pre.providerID);
    }
  }
}
