/** The choice of a certificate (agent/internal/edge/acme.go, entryFor) and of a route
    (agent/internal/edge/types.go, lookup) for a host: the exact name, or the longest wildcard.
    Names are ASCII, so a character is a byte. */
module Wildcard {
  import opened Options
  import opened Strings

  predicate IsWildcard(name: string) {
    |name| >= 2 && name[0] == '*' && name[1] == '.'
  }

  predicate HasSuffix(s: string, suffix: string) {
    |suffix| <= |s| && s[|s| - |suffix|..] == suffix
  }

  /** A wildcard "*.example.com" covers every host with something before ".example.com". */
  predicate Covers(name: string, host: string) {
    IsWildcard(name) && |host| > |name| - 1 && HasSuffix(host, name[1..])
  }

  predicate Under(front: string, domain: string, host: string) {
    front != "" && host == front + "." + domain
  }

  /** A wildcard covers exactly what has something, dots included, before its domain. */
  lemma CoversMeans(domain: string, host: string)
    ensures Covers("*." + domain, host) <==> exists front: string :: Under(front, domain, host)
  {
    var name := "*." + domain;
    assert name[1..] == "." + domain;
    if Covers(name, host) {
      var front := host[..|host| - |domain| - 1];
      assert host == front + host[|front|..];
      assert Under(front, domain, host);
    }
    if exists front: string :: Under(front, domain, host) {
      var front: string :| Under(front, domain, host);
      assert host == front + ("." + domain);
      assert host[|front|..] == "." + domain;
    }
  }

  // ----- certificates -----

  /** One visited certificate: it replaces the best so far when its suffix is longer than the
      best one's whole name. */
  function Better(best: Option<string>, name: string, host: string): Option<string> {
    if Covers(name, host) && (best.None? || |name| - 1 > |best.value|) then Some(name) else best
  }

  /** The loop over the certificates in a given order. */
  function Best(order: seq<string>, host: string): Option<string> {
    if order == [] then None else Better(Best(order[..|order| - 1], host), order[|order| - 1], host)
  }

  /** An order in which a map's keys may be visited. */
  predicate Visits(order: seq<string>, names: set<string>) {
    && (forall i, j :: 0 <= i < j < |order| ==> order[i] != order[j])
    && (forall i :: 0 <= i < |order| ==> order[i] in names)
    && |order| == |names|
  }

  predicate IsLongest(name: string, names: set<string>, host: string) {
    name in names && Covers(name, host) && forall m :: m in names && Covers(m, host) ==> |m| <= |name|
  }

  /** What the choice should be. */
  predicate Chosen(r: Option<string>, names: set<string>, host: string) {
    if host in names then r == Some(host)
    else if r.Some? then IsLongest(r.value, names, host)
    else forall m :: m in names ==> !Covers(m, host)
  }

  /** Another covering name is exactly one character shorter than the longest. */
  predicate NearMiss(names: set<string>, host: string) {
    exists a, b :: a in names && b in names && Covers(a, host) && IsLongest(b, names, host) && |a| + 1 == |b|
  }

  class CertManager<Cert> {
    /** The loaded certificates under the first name of each. */
    var certs: map<string, Cert>

    constructor ()
      ensures certs == map[]
    {
      certs := map[];
    }

    method EntryFor(host: string) returns (r: Option<string>, ghost order: seq<string>)
      ensures host in certs ==> r == Some(host)
      ensures host !in certs ==> Visits(order, certs.Keys) && r == Best(order, host)
      ensures !NearMiss(certs.Keys, host) ==> Chosen(r, certs.Keys, host)
    {
      order := [];
      if host in certs { return Some(host), order; }
      r := None;
      var keys := certs.Keys;
      while keys != {}
        invariant keys <= certs.Keys && |order| + |keys| == |certs.Keys|
        invariant forall i :: 0 <= i < |order| ==> order[i] in certs.Keys && order[i] !in keys
        invariant forall i, j :: 0 <= i < j < |order| ==> order[i] != order[j]
        invariant r == Best(order, host)
        decreases |keys|
      {
        var name :| name in keys;
        if IsWildcard(name) {
          var suffix := name[1..];
          if |host| > |suffix| && HasSuffix(host, suffix) {
            if r.None? || |suffix| > |r.value| { r := Some(name); }
          }
        }
        assert (order + [name])[..|order|] == order;
        order, keys := order + [name], keys - {name};
      }
      if !NearMiss(certs.Keys, host) { ChosenUnlessNearMiss(order, certs.Keys, host); }
    }
  }

  // ----- when the order does not matter -----

  lemma {:induction false} BestCovers(order: seq<string>, host: string)
    ensures var r := Best(order, host);
            && (r.Some? ==> r.value in order && Covers(r.value, host))
            && (r.None? ==> forall i :: 0 <= i < |order| ==> !Covers(order[i], host))
  {
    if order != [] {
      BestCovers(order[..|order| - 1], host);
      assert order == order[..|order| - 1] + [order[|order| - 1]];
    }
  }

  lemma CoveringSuffix(a: string, b: string, host: string)
    requires Covers(a, host) && Covers(b, host)
    ensures |a| == |b| ==> a == b
    ensures |a| < |b| ==> a[1..] == b[1..][|b| - |a|..]
  {
    assert a == "*" + a[1..] && b == "*" + b[1..];
    assert a[1..] == host[|host| - (|a| - 1)..] && b[1..] == host[|host| - (|b| - 1)..];
  }

  /** With b the longest of those covering and none one shorter, the loop ends on b once it has
      met it. */
  lemma {:induction false} BestIsLongest(order: seq<string>, names: set<string>, host: string, b: string)
    requires IsLongest(b, names, host) && !NearMiss(names, host)
    requires forall i :: 0 <= i < |order| ==> order[i] in names
    ensures b in order ==> Best(order, host) == Some(b)
  {
    if order != [] {
      var init, last := order[..|order| - 1], order[|order| - 1];
      BestIsLongest(init, names, host, b);
      BestCovers(init, host);
      assert order == init + [last];
      var best := Best(init, host);
      if last == b {
        if best.Some? && best.value != b {
          assert best.value in names;
          CoveringSuffix(best.value, b, host);
          assert |best.value| + 1 != |b|;
        }
      }
    }
  }

  lemma VisitsAll(order: seq<string>, names: set<string>, m: string)
    requires Visits(order, names) && m in names
    ensures m in order
  {
    var seen := set i | 0 <= i < |order| :: order[i];
    SeenCount(order, seen);
    if m !in order {
      assert seen <= names - {m};
      SubsetSize(seen, names - {m});
    }
  }

  lemma {:induction false} SeenCount(order: seq<string>, seen: set<string>)
    requires forall i, j :: 0 <= i < j < |order| ==> order[i] != order[j]
    requires seen == set i | 0 <= i < |order| :: order[i]
    ensures |seen| == |order|
  {
    if order != [] {
      var init, last := order[..|order| - 1], order[|order| - 1];
      var fewer := set i | 0 <= i < |init| :: init[i];
      SeenCount(init, fewer);
      assert seen == fewer + {last} && last !in fewer;
    }
  }

  lemma {:induction false} SubsetSize<T>(a: set<T>, b: set<T>)
    requires a <= b
    ensures |a| <= |b|
  {
    if a != {} {
      var x :| x in a;
      SubsetSize(a - {x}, b - {x});
    }
  }

  /** A longest covering name, if any covers. */
  lemma {:induction false} Longest(names: set<string>, host: string) returns (b: Option<string>)
    ensures b.Some? ==> IsLongest(b.value, names, host)
    ensures b.None? ==> forall m :: m in names ==> !Covers(m, host)
  {
    if names == {} {
      b := None;
    } else {
      var m :| m in names;
      b := Longest(names - {m}, host);
      assert names == (names - {m}) + {m};
      if Covers(m, host) && (b.None? || |m| > |b.value|) { b := Some(m); }
    }
  }

  lemma ChosenUnlessNearMiss(order: seq<string>, names: set<string>, host: string)
    requires Visits(order, names) && host !in names && !NearMiss(names, host)
    ensures Chosen(Best(order, host), names, host)
  {
    var b := Longest(names, host);
    BestCovers(order, host);
    if b.Some? {
      VisitsAll(order, names, b.value);
      BestIsLongest(order, names, host, b.value);
    }
  }

  lemma {:induction false} Enumerate(names: set<string>) returns (order: seq<string>)
    ensures Visits(order, names)
  {
    if names == {} {
      order := [];
    } else {
      var m :| m in names;
      var rest := Enumerate(names - {m});
      order := rest + [m];
    }
  }

  lemma {:induction false} NothingReplaces(start: seq<string>, rest: seq<string>, host: string, a: string)
    requires Best(start, host) == Some(a)
    requires forall i :: 0 <= i < |rest| && Covers(rest[i], host) ==> |rest[i]| <= |a| + 1
    ensures Best(start + rest, host) == Some(a)
    decreases |rest|
  {
    if rest == [] {
      assert start + rest == start;
    } else {
      var k := |rest| - 1;
      NothingReplaces(start, rest[..k], host, a);
      assert (start + rest)[..|start| + k] == start + rest[..k];
    }
  }

  lemma BestOfTwo(a: string, b: string, host: string)
    requires Covers(a, host) && |a| + 1 == |b|
    ensures Best([a, b], host) == Some(a)
  {
    assert [a][..0] == [] && [a, b][..1] == [a];
    assert Best([], host) == None;
    assert Best([a], host) == Better(None, a, host) == Some(a);
    assert Best([a, b], host) == Better(Some(a), b, host);
  }

  lemma {:induction false} TwoThenRest(a: string, b: string, names: set<string>, rest: seq<string>)
    requires a in names && b in names && a != b && Visits(rest, names - {a, b})
    ensures Visits([a, b] + rest, names)
  {
    var order := [a, b] + rest;
    assert names == (names - {a, b}) + {a, b};
    forall i, j | 0 <= i < j < |order| ensures order[i] != order[j] {
      if j >= 2 { assert order[j] == rest[j - 2] && rest[j - 2] in names - {a, b}; }
    }
  }

  lemma NearMissLoses(names: set<string>, host: string) returns (order: seq<string>)
    requires host !in names && NearMiss(names, host)
    ensures Visits(order, names) && !Chosen(Best(order, host), names, host)
  {
    var a, b :| a in names && b in names && Covers(a, host) && IsLongest(b, names, host) && |a| + 1 == |b|;
    var rest := Enumerate(names - {a, b});
    TwoThenRest(a, b, names, rest);
    BestOfTwo(a, b, host);
    NothingReplaces([a, b], rest, host, a);
    order := [a, b] + rest;
  }

  /** The exact or longest certificate is chosen for every order of the map exactly when no
      covering name is one character shorter than the longest. */
  lemma OrderIrrelevantIffNoNearMiss(names: set<string>, host: string)
    requires host !in names
    ensures (forall order :: Visits(order, names) ==> Chosen(Best(order, host), names, host)) <==> !NearMiss(names, host)
  {
    if NearMiss(names, host) {
      var order := NearMissLoses(names, host);
    } else {
      forall order | Visits(order, names) ensures Chosen(Best(order, host), names, host) {
        ChosenUnlessNearMiss(order, names, host);
      }
    }
  }

  predicate HasEmptyLabel(host: string) {
    exists i :: 0 < i < |host| && DotPair(host, i)
  }

  predicate DotPair(host: string, i: nat)
    requires 0 < i < |host|
  {
    host[i - 1] == '.' && host[i] == '.'
  }

  /** Only a host with an empty label can be near-missed. */
  lemma NearMissNeedsEmptyLabel(names: set<string>, host: string)
    requires NearMiss(names, host)
    ensures HasEmptyLabel(host)
  {
    var a, b :| a in names && b in names && Covers(a, host) && IsLongest(b, names, host) && |a| + 1 == |b|;
    var i := |host| - (|a| - 1);
    assert host[i..] == a[1..] && host[i - 1..] == b[1..];
    assert host[i] == a[1..][0] && host[i - 1] == b[1..][0];
    assert DotPair(host, i);
  }

  /** It does happen: for the host "a..", the suffixes "." and "..". */
  lemma NearMissHappens()
    ensures NearMiss({"*.", "*.."}, "a..")
  {
    var names, host := {"*.", "*.."}, "a..";
    assert "*."[1..] == "." && "*.."[1..] == "..";
    assert host[2..] == "." && host[1..] == "..";
    assert Covers("*.", host) && Covers("*..", host);
    assert IsLongest("*..", names, host);
  }

  // ----- routes -----

  predicate EqualFold(s: string, t: string) {
    |s| == |t| && forall i :: 0 <= i < |s| ==> Lower(s[i]) == Lower(t[i])
  }

  predicate CoversFold(name: string, host: string) {
    |name| > 2 && IsWildcard(name) && |host| > |name| - 1 && EqualFold(host[|host| - (|name| - 1)..], name[1..])
  }

  /** The first exact route, or else the first of the longest covering wildcards. */
  predicate Found(routes: seq<string>, host: string, r: Option<nat>) {
    if host in routes then
      r.Some? && r.value < |routes| && routes[r.value] == host && forall i :: 0 <= i < r.value ==> routes[i] != host
    else if r.Some? then
      && r.value < |routes| && CoversFold(routes[r.value], host)
      && (forall i :: 0 <= i < |routes| && CoversFold(routes[i], host) ==> |routes[i]| <= |routes[r.value]|)
      && (forall i :: 0 <= i < r.value && CoversFold(routes[i], host) ==> |routes[i]| < |routes[r.value]|)
    else forall i :: 0 <= i < |routes| ==> !CoversFold(routes[i], host)
  }

  method Lookup(routes: seq<string>, host: string) returns (r: Option<nat>)
    ensures Found(routes, host, r)
  {
    var wild: Option<nat> := None;
    var wildLen := -1;
    var i := 0;
    while i < |routes|
      invariant 0 <= i <= |routes|
      invariant forall j :: 0 <= j < i ==> routes[j] != host
      invariant wild.None? ==> wildLen == -1 && forall j :: 0 <= j < i ==> !CoversFold(routes[j], host)
      invariant wild.Some? ==> wild.value < i && CoversFold(routes[wild.value], host) && wildLen == |routes[wild.value]| - 1
      invariant forall j :: 0 <= j < i && CoversFold(routes[j], host) ==> |routes[j]| - 1 <= wildLen
      invariant wild.Some? ==> forall j :: 0 <= j < wild.value && CoversFold(routes[j], host) ==> |routes[j]| - 1 < wildLen
    {
      var name := routes[i];
      if name == host { return Some(i); }
      if |name| > 2 && name[0] == '*' && name[1] == '.' {
        var suffix := name[1..];
        if |host| > |suffix| && HasSuffixFold(host, suffix) && |suffix| > wildLen {
          wild, wildLen := Some(i), |suffix|;
        }
      }
      i := i + 1;
    }
    r := wild;
  }

  predicate HasSuffixFold(s: string, suffix: string) {
    if |s| < |suffix| then false else EqualFold(s[|s| - |suffix|..], suffix)
  }

  /** On names and hosts without upper-case letters, longer than "*.", the two choices agree: both
      find the exact name or the longest covering wildcard. */
  lemma LookupAgreesWithEntryFor(routes: seq<string>, host: string, r: Option<nat>)
    requires Found(routes, host, r) && LowerCase(host)
    requires forall i :: 0 <= i < |routes| ==> LowerCase(routes[i]) && |routes[i]| > 2
    ensures Chosen(if r.Some? then Some(routes[r.value]) else None, set i | 0 <= i < |routes| :: routes[i], host)
  {
    forall i | 0 <= i < |routes| ensures CoversFold(routes[i], host) <==> Covers(routes[i], host) {
      LowerFold(routes[i], host);
    }
  }

  predicate LowerCase(s: string) {
    forall i :: 0 <= i < |s| ==> Lower(s[i]) == s[i]
  }

  lemma LowerFold(name: string, host: string)
    requires LowerCase(name) && LowerCase(host) && |name| > 2
    ensures CoversFold(name, host) <==> Covers(name, host)
  {
    if IsWildcard(name) && |host| > |name| - 1 {
      var s, t := host[|host| - (|name| - 1)..], name[1..];
      assert EqualFold(s, t) <==> s == t;
    }
  }
}
