/** Gateway hostnames: the intersection of a route's and a listener's hostname, and which routes can be
    skipped because nothing of them can be published. Names are normalised already. */
module Hostname {
  import opened Text

  predicate HasSuffix(s: string, t: string) { |t| <= |s| && s[|s| - |t|..] == t }

  predicate Wild(p: string) { |p| >= 2 && p[0] == '*' && p[1] == '.' }

  /** A wildcard stands for every name below it, any other hostname for itself. */
  predicate Matches(p: string, n: string) { if Wild(p) then HasSuffix(n, p[1..]) else n == p }

  /** A listener without a hostname takes every name. */
  predicate ListenerMatches(p: string, n: string) { p == "" || Matches(p, n) }

  /** Of two suffixes of one string, the shorter is a suffix of the longer. */
  lemma SuffixChain(n: string, a: string, b: string)
    requires HasSuffix(n, a) && HasSuffix(n, b) && |a| <= |b|
    ensures HasSuffix(b, a)
  {
    assert b[|b| - |a|..] == n[|n| - |a|..];
  }

  lemma SuffixTransitive(n: string, a: string, b: string)
    requires HasSuffix(n, b) && HasSuffix(b, a)
    ensures HasSuffix(n, a)
  {
    assert n[|n| - |a|..] == b[|b| - |a|..];
  }

  /** intersectHostname. */
  function Intersect(route: string, listener: string): Option<string> {
    if listener == "" || listener == route then Some(route)
    else if Wild(listener) && !Wild(route) then
      if HasSuffix(route, listener[1..]) then Some(route) else None
    else if !Wild(listener) && Wild(route) then
      if HasSuffix(listener, route[1..]) then Some(listener) else None
    else if Wild(listener) && Wild(route) then
      if HasSuffix(route, listener[1..]) then Some(route)
      else if HasSuffix(listener, route[1..]) then Some(listener)
      else None
    else None
  }

  /** The name matches both hostnames exactly when it matches their intersection. */
  ghost predicate ExactAt(route: string, listener: string, n: string) {
    var x := Intersect(route, listener);
    (x.Some? && Matches(x.value, n)) <==> (Matches(route, n) && ListenerMatches(listener, n))
  }

  lemma OpenListener(route: string, listener: string, n: string)
    requires listener == "" || listener == route
    ensures ExactAt(route, listener, n)
  {
  }

  lemma WildListener(route: string, listener: string, n: string)
    requires listener != "" && Wild(listener) && !Wild(route)
    ensures ExactAt(route, listener, n)
  {
  }

  lemma WildRoute(route: string, listener: string, n: string)
    requires listener != "" && !Wild(listener) && Wild(route)
    ensures ExactAt(route, listener, n)
  {
  }

  lemma PlainPair(route: string, listener: string, n: string)
    requires listener != "" && !Wild(listener) && !Wild(route)
    ensures ExactAt(route, listener, n)
  {
  }

  /** A suffix that starts with a dot does not reach the star of a wildcard. */
  lemma WildBelow(p: string, t: string)
    requires Wild(p) && |t| > 0 && t[0] == '.'
    ensures HasSuffix(p, t) <==> HasSuffix(p[1..], t)
  {
    if |t| < |p| { SuffixTail(p, t); }
    else if |t| == |p| { assert p[|p| - |t|..][0] == p[0]; }
  }

  lemma SuffixTail(p: string, t: string)
    requires |t| < |p|
    ensures HasSuffix(p, t) <==> HasSuffix(p[1..], t)
  {
    assert p[1..][|p| - 1 - |t|..] == p[|p| - |t|..];
  }

  /** Two suffixes of one name: the longer one decides. */
  lemma SuffixesMeet(n: string, a: string, b: string)
    ensures HasSuffix(b, a) ==> ((HasSuffix(n, a) && HasSuffix(n, b)) <==> HasSuffix(n, b))
    ensures HasSuffix(n, a) && HasSuffix(n, b) ==> HasSuffix(b, a) || HasSuffix(a, b)
  {
    if HasSuffix(n, b) && HasSuffix(b, a) { SuffixTransitive(n, a, b); }
    if HasSuffix(n, a) && HasSuffix(n, b) {
      if |a| <= |b| { SuffixChain(n, a, b); } else { SuffixChain(n, b, a); }
    }
  }

  lemma WildsIntersect(route: string, listener: string, n: string)
    requires Wild(route) && Wild(listener) && listener != route
    ensures ExactAt(route, listener, n)
  {
    var r, l := route[1..], listener[1..];
    WildBelow(route, l);
    WildBelow(listener, r);
    SuffixesMeet(n, l, r);
    SuffixesMeet(n, r, l);
  }

  /** The intersection matches precisely the names that both match; there is none only if no name matches both. */
  lemma IntersectionIsExact(route: string, listener: string, n: string)
    ensures var x := Intersect(route, listener);
            (x.Some? && Matches(x.value, n)) <==> (Matches(route, n) && ListenerMatches(listener, n))
  {
    if listener == "" || listener == route { OpenListener(route, listener, n); }
    else if Wild(listener) && !Wild(route) { WildListener(route, listener, n); }
    else if !Wild(listener) && Wild(route) { WildRoute(route, listener, n); }
    else if Wild(listener) { WildsIntersect(route, listener, n); }
    else { PlainPair(route, listener, n); }
    assert ExactAt(route, listener, n);
  }

  /** When there is no intersection, no name matches both; when there is one, some name does. */
  lemma EmptyExactly(route: string, listener: string)
    ensures Intersect(route, listener).None? ==> forall n :: !(Matches(route, n) && ListenerMatches(listener, n))
    ensures Intersect(route, listener).Some? ==> exists n :: Matches(route, n) && ListenerMatches(listener, n)
  {
    forall n ensures Intersect(route, listener).None? ==> !(Matches(route, n) && ListenerMatches(listener, n)) {
      IntersectionIsExact(route, listener, n);
    }
    if Intersect(route, listener).Some? {
      var x := Intersect(route, listener).value;
      var n := if Wild(x) then "a" + x[1..] else x;
      assert Wild(x) ==> n[|n| - |x[1..]|..] == x[1..];
      assert Matches(x, n);
      IntersectionIsExact(route, listener, n);
    }
  }

  // ---- What can be published ------------------------------------------------------------

  /** The zone, the domain filters, and the library's test for valid names. */
  datatype Options = Options(zone: string, filters: seq<string>, valid: string -> bool)

  predicate Under(name: string, domain: string) { name == domain || HasSuffix(name, "." + domain) }

  predicate DomainAllowed(o: Options, host: string) { o.filters == [] || exists f :: f in o.filters && Under(host, f) }

  predicate HostInZone(o: Options, host: string) { o.zone != "" && Under(host, o.zone) }

  predicate Publishable(o: Options, host: string) {
    && host != "" && DomainAllowed(o, host) && o.valid(host) && host != "*" && !Wild(host)
    && HostInZone(o, host) && host != o.zone
  }

  /** What routeHostnamesMayPublish asks of one hostname. */
  predicate MayPublish(o: Options, host: string) {
    if !o.valid(host) || host == "*" then true
    else if Wild(host) then
      var suffix := host[2..];
      suffix == o.zone || HasSuffix(suffix, "." + o.zone) || HasSuffix(o.zone, "." + suffix)
    else DomainAllowed(o, host) && HostInZone(o, host) && host != o.zone
  }

  method DomainAllowedLoop(o: Options, host: string) returns (allowed: bool)
    ensures allowed <==> DomainAllowed(o, host)
  {
    if |o.filters| == 0 { return true; }
    for i := 0 to |o.filters|
      invariant forall k :: 0 <= k < i ==> !Under(host, o.filters[k])
    {
      if Under(host, o.filters[i]) { return true; }
    }
    return false;
  }

  method RouteHostnamesMayPublish(o: Options, hosts: seq<string>) returns (may: bool)
    ensures may <==> exists h :: h in hosts && MayPublish(o, h)
  {
    for i := 0 to |hosts|
      invariant forall k :: 0 <= k < i ==> !MayPublish(o, hosts[k])
    {
      var host := hosts[i];
      assert host in hosts;
      if !o.valid(host) || host == "*" { return true; }
      if Wild(host) {
        if MayPublish(o, host) { return true; }
        continue;
      }
      var allowed := DomainAllowedLoop(o, host);
      if allowed && HostInZone(o, host) && host != o.zone { return true; }
    }
    return false;
  }

  /** A concrete name below a wildcard and in the zone puts the wildcard and the zone on one suffix chain. */
  lemma OnOneChain(x: string, suffix: string, zone: string)
    requires HasSuffix(x, "." + suffix) && HasSuffix(x, "." + zone)
    ensures suffix == zone || HasSuffix(suffix, "." + zone) || HasSuffix(zone, "." + suffix)
  {
    var a, b := "." + suffix, "." + zone;
    if |a| == |b| {
      SuffixChain(x, a, b);
      assert a == b;
      assert suffix == a[1..] && zone == b[1..];
    } else if |b| < |a| {
      SuffixChain(x, b, a);
      assert suffix[|suffix| - |b|..] == a[|a| - |b|..];
    } else {
      SuffixChain(x, a, b);
      assert zone[|zone| - |a|..] == b[|b| - |a|..];
    }
  }

  /** A name in the zone that the pattern matches. */
  predicate Reaches(o: Options, host: string, n: string) { Matches(host, n) && HostInZone(o, n) && n != o.zone }

  lemma Below(first: string, domain: string)
    ensures HasSuffix(first + "." + domain, "." + domain)
  {
    var s, t := first + "." + domain, "." + domain;
    assert s == first + t;
    assert s[|s| - |t|..] == t;
  }

  /** What routeHostnamesMayPublish lets through: of valid wildcards exactly those that match a name below the zone. */
  lemma WildMayPublishExactly(o: Options, host: string)
    requires o.valid(host) && Wild(host) && o.zone != ""
    ensures MayPublish(o, host) <==> exists n :: Reaches(o, host, n)
  {
    var suffix := host[2..];
    assert host[1..] == "." + suffix;
    if n :| Reaches(o, host, n) { OnOneChain(n, suffix, o.zone); }
    if MayPublish(o, host) {
      if suffix == o.zone || HasSuffix(suffix, "." + o.zone) {
        var n := "a" + "." + suffix;
        Below("a", suffix);
        BelowIsSuffix("a", suffix);
        if suffix != o.zone { SuffixTransitive(n, "." + o.zone, suffix); }
        assert Reaches(o, host, n);
      } else {
        var n := "a" + "." + o.zone;
        Below("a", o.zone);
        BelowIsSuffix("a", o.zone);
        SuffixTransitive(n, "." + suffix, o.zone);
        assert Reaches(o, host, n);
      }
    }
  }

  lemma BelowIsSuffix(first: string, domain: string)
    ensures HasSuffix(first + "." + domain, domain)
  {
    var s := first + "." + domain;
    assert s == (first + ".") + domain;
    assert s[|s| - |domain|..] == domain;
  }

  /** And of other valid names exactly those that are published where the listener is open. */
  lemma NameMayPublishExactly(o: Options, host: string)
    requires o.valid(host) && !Wild(host) && host != "*" && host != ""
    ensures MayPublish(o, host) <==> Publishable(o, Intersect(host, "").value)
  {
  }

  /** A hostname that cannot publish has no intersection with any listener that would be published. */
  lemma SkippedRouteLosesNothing(o: Options, host: string, listener: string)
    requires !MayPublish(o, host) && Intersect(host, listener).Some?
    ensures !Publishable(o, Intersect(host, listener).value)
  {
    var x := Intersect(host, listener).value;
    if Publishable(o, x) && Wild(host) {
      assert x == listener && HasSuffix(x, host[1..]);
      assert host[1..] == "." + host[2..];
      OnOneChain(x, host[2..], o.zone);
    }
  }

  /** So a route that is rejected before its listeners are looked at would have published nothing. */
  lemma RejectedRouteLosesNothing(o: Options, hosts: seq<string>, listeners: seq<string>)
    requires !exists h :: h in hosts && MayPublish(o, h)
    ensures forall h, l :: h in hosts && l in listeners && Intersect(h, l).Some? ==>
      !Publishable(o, Intersect(h, l).value)
  {
    forall h, l | h in hosts && l in listeners && Intersect(h, l).Some? ensures !Publishable(o, Intersect(h, l).value) {
      assert !MayPublish(o, h);
      SkippedRouteLosesNothing(o, h, l);
    }
  }
}
