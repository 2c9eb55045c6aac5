/** The device client's row format and its paginated listing. */
module DeviceRead {
  import opened Text
  import opened Dns

  datatype Status = Enable | Disable

  /** A dns-entry row of the device; host names are relative to the zone. */
  datatype Row = Row(id: string, hostname: string, recordType: RecordType, ip: string, ipv6: string,
      canonicalName: string, ttl: int, status: Status)

  predicate EndsWithDot(s: string) { s != "" && s[|s| - 1] == '.' }

  /** The part of name normalisation that acts on trimmed lower-case names: one trailing dot goes. */
  function StripDot(s: string): string { if EndsWithDot(s) then s[..|s| - 1] else s }

  function QualifiedHostname(hostname: string, zone: string): string {
    if StripDot(hostname) == "" then "" else StripDot(hostname) + "." + zone
  }

  /** Without a trailing dot the device reads a CNAME target relative to the zone. */
  function QualifiedCanonicalName(name: string, zone: string): string {
    if name == "" then "" else if EndsWithDot(name) then StripDot(name) else QualifiedHostname(name, zone)
  }

  function IfPresent(s: string): seq<string> { if s == "" then [] else [s] }

  function ToEndpoint(r: Row, zone: string): Endpoint {
    var targets :=
      match r.recordType
      case A => IfPresent(r.ip)
      case AAAA => IfPresent(r.ipv6)
      case CNAME => IfPresent(QualifiedCanonicalName(r.canonicalName, zone))
      case Other(_) => IfPresent(r.ip) + IfPresent(r.ipv6) + IfPresent(r.canonicalName);
    Endpoint(zone, QualifiedHostname(r.hostname, zone), r.recordType, targets, r.ttl, "",
      SourceRef("", "", "", "", ""), r.id, r.status == Disable)
  }

  /** The relative name, unless the name is the zone itself or outside it. */
  function RelativeHostname(name: string, zone: string): Option<string> {
    var n := |name| - |zone| - 1;
    if n > 0 && name[n..] == "." + zone then Some(name[..n]) else None
  }

  /** What is written for an endpoint; the device chooses the ID of a new row. */
  function EndpointToRecord(e: Endpoint, zone: string, id: string): Option<Row> {
    if e.recordType.Other? then None
    else if RelativeHostname(e.dnsName, zone).None? then None
    else
      var target := if |e.targets| > 0 then e.targets[0] else "";
      Some(Row(id, RelativeHostname(e.dnsName, zone).value, e.recordType,
               if e.recordType == A then target else "",
               if e.recordType == AAAA then target else "",
               if e.recordType == CNAME && |e.targets| > 0 then StripDot(target) + "." else "",
               e.ttl, if e.disabled then Disable else Enable))
  }

  /** What a written row holds: the name relative to the zone, the target in the field of its type and in no other, a
      CNAME target made absolute, and the TTL and state of the endpoint. */
  lemma RowFields(e: Endpoint, zone: string, id: string)
    requires EndpointToRecord(e, zone, id).Some? && |e.targets| == 1 && !EndsWithDot(e.targets[0])
    ensures var r, target := EndpointToRecord(e, zone, id).value, e.targets[0];
            && r.id == id && r.hostname + "." + zone == e.dnsName && r.recordType == e.recordType && r.ttl == e.ttl
            && (r.status == Disable <==> e.disabled)
            && match e.recordType
               case A => r.ip == target && r.ipv6 == "" && r.canonicalName == ""
               case AAAA => r.ip == "" && r.ipv6 == target && r.canonicalName == ""
               case CNAME => r.ip == "" && r.ipv6 == "" && r.canonicalName == target + "."
               case Other(_) => false
  {
    RelativeIsInverse(e.dnsName, zone);
  }

  /** A record is written exactly when it is of a known type and lies below the zone. */
  lemma WrittenExactly(e: Endpoint, zone: string, id: string)
    ensures EndpointToRecord(e, zone, id).Some? <==>
      !e.recordType.Other? && exists r: string :: r != "" && e.dnsName == r + "." + zone
  {
    if RelativeHostname(e.dnsName, zone).Some? { RelativeIsInverse(e.dnsName, zone); }
    if r: string :| r != "" && e.dnsName == r + "." + zone {
      assert e.dnsName == r + ("." + zone);
      assert e.dnsName[|r|..] == "." + zone;
    }
  }

  /** A single-target A, AAAA or CNAME record below the zone, its target normalised. */
  predicate Writable(e: Endpoint, zone: string) {
    && !e.recordType.Other? && RelativeHostname(e.dnsName, zone).Some? && e.zone == zone
    && |e.targets| == 1 && e.targets[0] != "" && !EndsWithDot(e.targets[0])
  }

  lemma RelativeIsInverse(name: string, zone: string)
    requires RelativeHostname(name, zone).Some?
    ensures var r := RelativeHostname(name, zone).value; r != "" && r + "." + zone == name
    ensures var r := RelativeHostname(name, zone).value; QualifiedHostname(r, zone) == name <==> !EndsWithDot(r)
  {
    var r := RelativeHostname(name, zone).value;
    assert name == r + ("." + zone);
    if EndsWithDot(r) { assert |QualifiedHostname(r, zone)| < |name|; }
  }

  /** A CNAME target survives being made absolute and read back. */
  lemma TargetRoundTrip(target: string, zone: string)
    requires target != "" && !EndsWithDot(target)
    ensures QualifiedCanonicalName(target + ".", zone) == target
  {
    assert (target + ".")[..|target|] == target;
  }

  /** A written record reads back equal exactly when its relative name has no trailing dot, that is, no empty label
      in front of the zone. */
  lemma CodecRoundTrip(e: Endpoint, zone: string, id: string)
    requires Writable(e, zone)
    ensures EndpointToRecord(e, zone, id).Some?
    ensures var r := ToEndpoint(EndpointToRecord(e, zone, id).value, zone);
            && r.providerID == id && r.zone == e.zone
            && (EqualRecord(r, e) <==> !EndsWithDot(RelativeHostname(e.dnsName, zone).value))
  {
    RelativeIsInverse(e.dnsName, zone);
    TargetRoundTrip(e.targets[0], zone);
    assert e.targets == [e.targets[0]];
  }

  // ---- Listing --------------------------------------------------------------------------

  /** One answer of the device: an absent size or matched count is None, an absent revision is blank. */
  datatype Response = Response(size: Option<int>, matched: Option<int>, revision: string, results: seq<Row>)

  datatype Failure =
    | RequestFailed | NoMetadata | NegativeSize | SizeChanged | CountMismatch | NoRevision | RevisionChanged
    | BadId | RepeatedId | TooMany | NoProgress

  datatype Listing = Rows(rows: seq<Row>) | Failed(failure: Failure)

  /** A device: how it answers the request for the rows from `start` on, page by page. */
  type Device = (nat, nat) -> Option<Response>

  predicate ValidId(id: string) { id != "" && forall i :: 0 <= i < |id| ==> '0' <= id[i] <= '9' }

  ghost predicate GoodIds(rows: seq<Row>) {
    && (forall i :: 0 <= i < |rows| ==> ValidId(rows[i].id))
    && (forall i, j :: 0 <= i < j < |rows| ==> rows[i].id != rows[j].id)
  }

  function IdsOf(rows: seq<Row>): set<string> { set r | r in rows :: r.id }

  /** Adds the rows of one page, refusing invalid and repeated IDs. */
  method Collect(rows: seq<Row>, seen: set<string>, page: seq<Row>) returns (rows': seq<Row>, seen': set<string>,
      failure: Option<Failure>)
    requires GoodIds(rows) && seen == IdsOf(rows)
    ensures failure.None? <==> GoodIds(rows + page)
    ensures failure.None? ==> rows' == rows + page && seen' == IdsOf(rows')
  {
    rows', seen', failure := rows, seen, None;
    for i := 0 to |page|
      invariant rows' == rows + page[..i] && seen' == IdsOf(rows') && GoodIds(rows')
    {
      var id := page[i].id;
      assert rows + page[..i + 1] == rows + page[..i] + [page[i]];
      if !ValidId(id) {
        assert (rows + page)[|rows| + i] == page[i];
        return rows', seen', Some(BadId);
      }
      if id in seen' {
        RepeatBreaks(rows, page, i);
        return rows', seen', Some(RepeatedId);
      }
      rows', seen' := rows' + [page[i]], seen' + {id};
    }
    assert page[..|page|] == page;
  }

  lemma RepeatBreaks(rows: seq<Row>, page: seq<Row>, i: nat)
    requires i < |page| && page[i].id in IdsOf(rows + page[..i])
    ensures !GoodIds(rows + page)
  {
    var all := rows + page;
    var r :| r in rows + page[..i] && r.id == page[i].id;
    var j :| 0 <= j < |rows + page[..i]| && (rows + page[..i])[j] == r;
    assert all[j] == r && all[|rows| + i] == page[i];
  }

  /** What is wrong with an answer, given the size and revision of the first page. */
  function Inconsistent(r: Response, first: bool, total: int, revision: string): Option<Failure> {
    if r.size.None? then Some(NoMetadata)
    else if r.size.value < 0 then Some(NegativeSize)
    else if !first && r.size.value != total then Some(SizeChanged)
    else if r.matched.Some? && r.matched.value != |r.results| then Some(CountMismatch)
    else if !first && (r.revision == "" || revision == "") then Some(NoRevision)
    else if !first && r.revision != revision then Some(RevisionChanged)
    else None
  }

  /** The device has this fixed table: every request below its size is answered with at least one of the rows from
      `start` on, the size and one revision. */
  ghost predicate Serves(device: Device, table: seq<Row>, revision: string) {
    forall n: nat, start: nat :: start <= |table| ==>
      && device(n, start).Some?
      && var r := device(n, start).value;
         && r.size == Some(|table|) && r.revision == revision && (r.matched.Some? ==> r.matched.value == |r.results|)
         && start + |r.results| <= |table| && r.results == table[start..start + |r.results|]
         && (start < |table| ==> |r.results| > 0)
  }

  ghost predicate Served(device: Device, table: seq<Row>, revision: string) {
    Serves(device, table, revision) && GoodIds(table)
  }

  /** The listing can be completed: pages carry a revision, or the first page holds the whole table. */
  ghost predicate Completes(device: Device, table: seq<Row>, revision: string)
    requires Serves(device, table, revision)
  {
    revision != "" || |device(0, 0).value.results| == |table|
  }

  /** What has been collected from a device with a fixed table. */
  ghost predicate Collected(device: Device, rows: seq<Row>, pages: nat, total: int, revision: string) {
    forall table, rev :: Served(device, table, rev) ==>
      && |rows| <= |table| && rows == table[..|rows|]
      && (pages > 0 ==> total == |table| && revision == rev)
      && (pages == 1 ==> |rows| == |device(0, 0).value.results|)
      && (pages > 1 ==> rev != "")
  }

  // ---- When a listing succeeds ----------------------------------------------------------

  /** The rows of the answers, one after the other. */
  ghost function Joined(a: seq<Response>): seq<Row> {
    if |a| == 0 then [] else Joined(a[..|a| - 1]) + a[|a| - 1].results
  }

  lemma JoinedAppend(a: seq<Response>, r: Response)
    ensures Joined(a + [r]) == Joined(a) + r.results
  {
    assert (a + [r])[..|a|] == a;
  }

  lemma {:induction false} JoinedPrefix(b: seq<Response>, n: nat)
    requires n <= |b|
    ensures Joined(b[..n]) <= Joined(b)
    decreases |b|
  {
    if n < |b| {
      JoinedPrefix(b[..|b| - 1], n);
      assert b[..|b| - 1][..n] == b[..n];
    } else {
      assert b[..n] == b;
    }
  }

  /** Answer k is the device's, for the rows after those it gave so far. It announces this size, counts its rows rightly
      and, beyond the first page, carries this revision; another one follows only while rows are missing and come. */
  ghost predicate Page(device: Device, a: seq<Response>, k: nat, size: int, revision: string)
    requires k < |a|
  {
    && device(k, |Joined(a[..k])|) == Some(a[k]) && a[k].size == Some(size) && a[k].revision == revision
    && (a[k].matched.Some? ==> a[k].matched.value == |a[k].results|) && (k > 0 ==> revision != "")
    && (k + 1 < |a| ==> |Joined(a[..k + 1])| < size && a[k].results != [])
  }

  ghost predicate Answers(device: Device, a: seq<Response>, size: int, revision: string) {
    size >= 0 && forall k :: 0 <= k < |a| ==> Page(device, a, k, size, revision)
  }

  /** Together they give as many rows as announced, under distinct valid IDs. */
  ghost predicate Complete(device: Device, a: seq<Response>, size: int, revision: string) {
    |a| > 0 && Answers(device, a, size, revision) && GoodIds(Joined(a)) && |Joined(a)| == size
  }

  /** What the loop has collected begins every complete listing. */
  ghost predicate Begins(device: Device, a: seq<Response>, size: int, revision: string) {
    forall b, n, rev :: Complete(device, b, n, rev) ==>
      |a| <= |b| && b[..|a|] == a && (|a| > 0 ==> n == size && rev == revision)
  }

  /** Every answer of a complete listing is fit to be taken. */
  lemma PageIsFit(device: Device, b: seq<Response>, m: nat, n: int, rev: string)
    requires Complete(device, b, n, rev) && m < |b|
    ensures Page(device, b, m, n, rev) && Inconsistent(b[m], m == 0, n, rev).None?
    ensures Joined(b[..m + 1]) == Joined(b[..m]) + b[m].results && GoodIds(Joined(b[..m + 1]))
    ensures |Joined(b[..m + 1])| <= n && (|Joined(b[..m + 1])| == n || b[m].results != [])
  {
    assert b[..m + 1] == b[..m] + [b[m]];
    JoinedAppend(b[..m], b[m]);
    JoinedPrefix(b, m + 1);
    GoodPrefix(Joined(b[..m + 1]), Joined(b));
    if |b| == m + 1 { assert b[..m + 1] == b; }
    assert Page(device, b, m, n, rev);
  }

  /** A complete listing goes on after a beginning that is not complete. */
  lemma GoesOn(device: Device, a: seq<Response>, b: seq<Response>, n: int, rev: string)
    requires Complete(device, b, n, rev) && |a| <= |b| && b[..|a|] == a && (|a| > 0 ==> |Joined(a)| < n)
    ensures |a| < |b|
  {
    assert b[..|b|] == b;
  }

  /** The next answer of a complete listing is the device's next one. */
  lemma NextFits(device: Device, a: seq<Response>, size: int, revision: string, r: Response, b: seq<Response>, n: int,
      rev: string)
    requires Begins(device, a, size, revision) && Complete(device, b, n, rev)
    requires |a| > 0 ==> |Joined(a)| < size
    requires device(|a|, |Joined(a)|) == Some(r)
    ensures |b| > |a| && b[|a|] == r && Inconsistent(r, |a| == 0, size, revision).None?
    ensures GoodIds(Joined(a) + r.results) && |Joined(a) + r.results| <= n
    ensures |Joined(a) + r.results| == n || r.results != []
    ensures b[..|a| + 1] == a + [r] && r.size == Some(n) && r.revision == rev
  {
    GoesOn(device, a, b, n, rev);
    FitsAfter(device, a, r, b, n, rev);
  }

  lemma FitsAfter(device: Device, a: seq<Response>, r: Response, b: seq<Response>, n: int, rev: string)
    requires Complete(device, b, n, rev) && |a| < |b| && b[..|a|] == a && device(|a|, |Joined(a)|) == Some(r)
    ensures b[|a|] == r && b[..|a| + 1] == a + [r] && r.size == Some(n) && r.revision == rev
    ensures Inconsistent(r, |a| == 0, n, rev).None? && GoodIds(Joined(a) + r.results)
    ensures |Joined(a) + r.results| <= n && (|Joined(a) + r.results| == n || r.results != [])
  {
    var m := |a|;
    PageIsFit(device, b, m, n, rev);
    assert Joined(b[..m]) == Joined(a);
    assert b[m] == r;
    assert b[..m + 1] == b[..m] + [b[m]];
  }

  lemma GoodPrefix(s: seq<Row>, t: seq<Row>)
    requires s <= t && GoodIds(t)
    ensures GoodIds(s)
  {
    assert forall i :: 0 <= i < |s| ==> s[i] == t[i];
  }

  lemma BeginsNext(device: Device, a: seq<Response>, size: int, revision: string, r: Response)
    requires Begins(device, a, size, revision) && device(|a|, |Joined(a)|) == Some(r) && r.size.Some?
    requires |a| > 0 ==> |Joined(a)| < size && r.size == Some(size) && r.revision == revision
    ensures Begins(device, a + [r], r.size.value, r.revision)
  {
    forall b, n, rev | Complete(device, b, n, rev)
      ensures |a| + 1 <= |b| && b[..|a| + 1] == a + [r] && n == r.size.value && rev == r.revision
    {
      NextFits(device, a, size, revision, r, b, n, rev);
    }
  }

  lemma AnswersNext(device: Device, a: seq<Response>, size: int, revision: string, r: Response)
    requires |a| > 0 ==> Answers(device, a, size, revision) && |Joined(a)| < size && a[|a| - 1].results != []
    requires device(|a|, |Joined(a)|) == Some(r) && Inconsistent(r, |a| == 0, size, revision).None?
    ensures Answers(device, a + [r], r.size.value, r.revision)
  {
    var c := a + [r];
    forall k | 0 <= k < |c| ensures Page(device, c, k, r.size.value, r.revision) {
      if k < |a| { PageKept(device, a, k, size, revision, r); } else { PageAdded(device, a, size, revision, r); }
    }
  }

  lemma PageKept(device: Device, a: seq<Response>, k: nat, size: int, revision: string, r: Response)
    requires k < |a| && Page(device, a, k, size, revision) && |Joined(a)| < size && a[|a| - 1].results != []
    ensures Page(device, a + [r], k, size, revision)
  {
    var c := a + [r];
    assert c[..k] == a[..k] && c[..k + 1] == a[..k + 1] && c[k] == a[k];
    if k + 1 == |a| { assert a[..k + 1] == a; }
  }

  lemma PageAdded(device: Device, a: seq<Response>, size: int, revision: string, r: Response)
    requires device(|a|, |Joined(a)|) == Some(r) && Inconsistent(r, |a| == 0, size, revision).None?
    ensures Page(device, a + [r], |a|, r.size.value, r.revision)
  {
    assert (a + [r])[..|a|] == a;
  }

  /** No listing of the device can be completed. */
  ghost predicate Hopeless(device: Device) { forall b, n, rev :: !Complete(device, b, n, rev) }

  /** Every way in which an answer is not taken leaves no complete listing. */
  lemma RefusedIsHopeless(device: Device, a: seq<Response>, size: int, revision: string, r: Response)
    requires Begins(device, a, size, revision) && device(|a|, |Joined(a)|) == Some(r)
    requires |a| > 0 ==> |Joined(a)| < size
    requires
      || Inconsistent(r, |a| == 0, size, revision).Some?
      || !GoodIds(Joined(a) + r.results)
      || |Joined(a) + r.results| > r.size.value
      || (|Joined(a) + r.results| != r.size.value && r.results == [])
    ensures Hopeless(device)
  {
    forall b, n, rev ensures !Complete(device, b, n, rev) {
      if Complete(device, b, n, rev) { NextFits(device, a, size, revision, r, b, n, rev); }
    }
  }

  lemma SilentIsHopeless(device: Device, a: seq<Response>, size: int, revision: string)
    requires Begins(device, a, size, revision) && device(|a|, |Joined(a)|).None? && (|a| > 0 ==> |Joined(a)| < size)
    ensures Hopeless(device)
  {
    forall b, n, rev ensures !Complete(device, b, n, rev) {
      if Complete(device, b, n, rev) {
        GoesOn(device, a, b, n, rev);
        PageIsFit(device, b, |a|, n, rev);
      }
    }
  }

  /** What the loop knows of the answers so far. */
  ghost predicate Followed(device: Device, a: seq<Response>, total: int, revision: string, rows: seq<Row>, more: bool) {
    && rows == Joined(a) && Begins(device, a, total, revision)
    && (|a| > 0 ==> Answers(device, a, total, revision))
    && (|a| > 0 && more ==> a[|a| - 1].results != [])
  }

  /** ListRecords up to the decoding: it succeeds if and only if the device's answers make a complete listing, whose
      rows it returns. A fixed table of rows with distinct valid IDs is listed completely, whatever the page sizes,
      exactly when the pages carry a revision or the first one holds the whole table. */
  method ListRows(device: Device) returns (result: Listing, ghost answers: seq<Response>)
    ensures result.Rows? ==> result.rows == Joined(answers)
    ensures result.Rows? ==> exists size, revision :: Complete(device, answers, size, revision)
    ensures result.Failed? ==> Hopeless(device)
    ensures forall table, revision :: Served(device, table, revision) ==>
              if Completes(device, table, revision) then result == Rows(table) else result.Failed?
  {
    var rows: seq<Row>, seen: set<string>, start: nat, total, revision, pages: nat := [], {}, 0, -1, "", 0;
    answers := [];
    var more := true;
    while more
      invariant GoodIds(rows) && seen == IdsOf(rows) && start == |rows| && pages == |answers|
      invariant pages == 0 ==> rows == [] && total == -1 && more
      invariant pages > 0 ==> total >= 0 && |rows| <= total && (more ==> |rows| < total)
      invariant !more ==> |rows| == total
      invariant Followed(device, answers, total, revision, rows, more)
      invariant Collected(device, rows, pages, total, revision)
      decreases more, if pages == 0 then 1 else 0, if pages == 0 then 0 else total - |rows|
    {
      var answer := device(pages, start);
      if answer.None? {
        SilentIsHopeless(device, answers, total, revision);
        return Failed(RequestFailed), answers;
      }
      var r := answer.value;
      var wrong := Inconsistent(r, pages == 0, total, revision);
      WrongIsIncomplete(device, rows, pages, total, revision, r);
      if wrong.Some? {
        RefusedIsHopeless(device, answers, total, revision, r);
        return Failed(wrong.value), answers;
      }
      PageFits(device, rows, pages, total, revision, r);
      ghost var before, size, rev := rows, total, revision;
      if pages == 0 { total, revision := r.size.value, r.revision; }
      var failure;
      rows, seen, failure := Collect(rows, seen, r.results);
      if failure.Some? {
        RefusedIsHopeless(device, answers, size, rev, r);
        return Failed(failure.value), answers;
      }
      if |rows| > total {
        RefusedIsHopeless(device, answers, size, rev, r);
        return Failed(TooMany), answers;
      }
      if |rows| < total && |r.results| == 0 {
        RefusedIsHopeless(device, answers, size, rev, r);
        return Failed(NoProgress), answers;
      }
      FollowedNext(device, answers, size, rev, before, r, |rows| < total);
      answers, pages := answers + [r], pages + 1;
      more := |rows| < total;
      start := start + |r.results|;
    }
    result := Rows(rows);
    assert Complete(device, answers, total, revision);
  }

  lemma FollowedNext(device: Device, a: seq<Response>, total: int, revision: string, rows: seq<Row>, r: Response,
      more: bool)
    requires Followed(device, a, total, revision, rows, true) && (|a| > 0 ==> |rows| < total)
    requires device(|a|, |rows|) == Some(r) && Inconsistent(r, |a| == 0, total, revision).None?
    requires more ==> r.results != []
    ensures Followed(device, a + [r], r.size.value, r.revision, rows + r.results, more)
  {
    JoinedAppend(a, r);
    BeginsNext(device, a, total, revision, r);
    AnswersNext(device, a, total, revision, r);
  }

  /** An answer of a fixed table is refused only for want of a revision, after a first page that was not the whole. */
  lemma WrongIsIncomplete(device: Device, rows: seq<Row>, pages: nat, total: int, revision: string, r: Response)
    requires device(pages, |rows|) == Some(r) && Collected(device, rows, pages, total, revision)
    requires pages > 0 ==> |rows| < total
    ensures Inconsistent(r, pages == 0, total, revision).Some? ==>
              forall table, rev :: Served(device, table, rev) ==> !Completes(device, table, rev)
  {
  }

  /** A page of a fixed table continues what was collected. */
  lemma PageFits(device: Device, rows: seq<Row>, pages: nat, total: int, revision: string, r: Response)
    requires device(pages, |rows|) == Some(r) && Collected(device, rows, pages, total, revision)
    requires Inconsistent(r, pages == 0, total, revision).None? && (pages == 0 ==> rows == [])
    ensures Collected(device, rows + r.results, pages + 1, if pages == 0 then r.size.value else total,
                      if pages == 0 then r.revision else revision)
    ensures forall table, rev :: Served(device, table, rev) ==>
              GoodIds(rows + r.results) && (|rows| < |table| ==> |r.results| > 0)
  {
    forall table, rev | Served(device, table, rev)
      ensures GoodIds(rows + r.results) && |rows + r.results| <= |table|
      ensures rows + r.results == table[..|rows + r.results|] && (|rows| < |table| ==> |r.results| > 0)
    {
      assert rows + r.results == table[..|rows + r.results|];
    }
  }

  predicate Readable(e: Endpoint) { e.dnsName != "" && e.recordType != Other("") }

  function Endpoints(rows: seq<Row>, zone: string): (r: seq<Endpoint>)
    ensures |r| == |rows|
  {
    seq(|rows|, i requires 0 <= i < |rows| => ToEndpoint(rows[i], zone))
  }

  /** The endpoints of the rows that have a name and a type. */
  function Decoded(rows: seq<Row>, zone: string): seq<Endpoint> { Filter(Endpoints(rows, zone), Readable) }

  /** ListRecords: the decoded rows of a complete listing, or the failure of the listing. A table written from valid
      endpoints is listed, and then reads back as exactly those endpoints in order, if and only if its listing can be
      completed. */
  method ListRecords(device: Device, zone: string) returns (listing: Listing, endpoints: seq<Endpoint>)
    ensures listing.Rows? ==> GoodIds(listing.rows) && endpoints == Decoded(listing.rows, zone)
    ensures listing.Failed? ==> endpoints == []
    ensures listing.Failed? <==> Hopeless(device)
    ensures forall table, revision :: Served(device, table, revision) ==>
              if Completes(device, table, revision) then listing == Rows(table) else listing.Failed?
    ensures forall table, revision, es :: Served(device, table, revision) && WrittenFrom(table, es, zone) ==>
              (listing.Rows? && AllReadBack(es, endpoints, table) <==> Completes(device, table, revision))
  {
    ghost var answers;
    listing, answers := ListRows(device);
    endpoints := [];
    if listing.Rows? { endpoints := DecodeRows(listing.rows, zone); }
    forall table, revision, es | Served(device, table, revision) && WrittenFrom(table, es, zone)
      ensures listing.Rows? && AllReadBack(es, endpoints, table) <==> Completes(device, table, revision)
    {
      WriteThenList(table, es, zone);
    }
  }

  ghost predicate AllReadBack(es: seq<Endpoint>, r: seq<Endpoint>, rows: seq<Row>) {
    |r| == |es| == |rows| && forall i :: 0 <= i < |es| ==> ReadsBack(es[i], r[i], rows[i].id)
  }

  method DecodeRows(rows: seq<Row>, zone: string) returns (out: seq<Endpoint>)
    ensures out == Decoded(rows, zone)
  {
    out := [];
    for i := 0 to |rows|
      invariant out == Decoded(rows[..i], zone)
    {
      DecodedStep(rows, i, zone);
      var e := ToEndpoint(rows[i], zone);
      if Readable(e) { out := out + [e]; }
    }
    assert rows[..|rows|] == rows;
  }

  lemma DecodedStep(rows: seq<Row>, i: nat, zone: string)
    requires i < |rows|
    ensures var e := ToEndpoint(rows[i], zone);
            Decoded(rows[..i + 1], zone) == Decoded(rows[..i], zone) + (if Readable(e) then [e] else [])
  {
    assert rows[..i + 1] == rows[..i] + [rows[i]];
    DecodedAppend(rows[..i], rows[i], zone);
  }

  lemma DecodedAppend(rows: seq<Row>, row: Row, zone: string)
    ensures var e := ToEndpoint(row, zone);
            Decoded(rows + [row], zone) == Decoded(rows, zone) + (if Readable(e) then [e] else [])
  {
    assert Endpoints(rows + [row], zone) == Endpoints(rows, zone) + [ToEndpoint(row, zone)];
    FilterAppend(Endpoints(rows, zone), ToEndpoint(row, zone), Readable);
  }

  /** Row i was written from endpoint i. */
  ghost predicate WrittenFrom(rows: seq<Row>, es: seq<Endpoint>, zone: string) {
    |rows| == |es| && forall i :: 0 <= i < |es| ==>
      && Writable(es[i], zone) && !EndsWithDot(RelativeHostname(es[i].dnsName, zone).value)
      && EndpointToRecord(es[i], zone, rows[i].id) == Some(rows[i])
  }

  ghost predicate ReadsBack(e: Endpoint, r: Endpoint, id: string) {
    EqualRecord(r, e) && r.zone == e.zone && r.providerID == id && Readable(r)
  }

  lemma RowReadsBack(row: Row, e: Endpoint, zone: string)
    requires Writable(e, zone) && !EndsWithDot(RelativeHostname(e.dnsName, zone).value)
    requires EndpointToRecord(e, zone, row.id) == Some(row)
    ensures ReadsBack(e, ToEndpoint(row, zone), row.id)
  {
    CodecRoundTrip(e, zone, row.id);
    RelativeIsInverse(e.dnsName, zone);
  }

  /** Decoding a table written from valid endpoints gives exactly those endpoints, in order. */
  lemma WriteThenList(rows: seq<Row>, es: seq<Endpoint>, zone: string)
    requires WrittenFrom(rows, es, zone)
    ensures AllReadBack(es, Decoded(rows, zone), rows)
  {
    forall i | 0 <= i < |rows| ensures ReadsBack(es[i], ToEndpoint(rows[i], zone), rows[i].id) {
      RowReadsBack(rows[i], es[i], zone);
    }
    FilterAll(Endpoints(rows, zone), Readable);
  }

  /** The names that a round trip changes: here a name with an empty label reads back without its dot. */
  lemma EmptyLabelIsLost()
    ensures exists e, zone, id :: Writable(e, zone)
                                  && !EqualRecord(ToEndpoint(EndpointToRecord(e, zone, id).value, zone), e)
  {
    var e := Endpoint("zone", "a..zone", A, ["10.0.0.1"], 60, "", SourceRef("", "", "", "", ""), "", false);
    assert e.dnsName[2..] == ".zone" && e.dnsName[..2] == "a.";
    assert RelativeHostname(e.dnsName, "zone") == Some("a.");
    CodecRoundTrip(e, "zone", "1");
  }
}
