/** Hostname patterns on both planes: the control plane decides whether a listener and
    a route intersect, the data plane whether a pattern matches a request authority. */
module Hostnames {
  import opened Strings

  predicate IsWildcard(pattern: string) {
    HasPrefix(pattern, "*.")
  }

  // ---------------------------------------------------------- data plane --

  predicate HostnameMatches(pattern: string, host: string) {
    if pattern == "" then true
    else if IsWildcard(pattern) then |host| > |pattern| - 1 && HasSuffix(host, pattern[1..])
    else EqualFold(pattern, host)
  }

  predicate RouteHostnameMatches(hostnames: seq<string>, host: string) {
    |hostnames| == 0 || exists i | 0 <= i < |hostnames| :: HostnameMatches(hostnames[i], host)
  }

  const ExactBase: int := 0x1_0000

  function HostnameScore(hostname: string): (score: int)
    ensures score >= 0
  {
    if hostname == "" then 0
    else if IsWildcard(hostname) then |hostname|
    else ExactBase + |hostname|
  }

  // ------------------------------------------------------- control plane --

  predicate WildcardMatches(pattern: string, host: string) {
    if IsWildcard(pattern) then |host| > |pattern| - 1 && HasSuffix(host, pattern[1..])
    else EqualFold(pattern, host)
  }

  /** An absent listener hostname is the empty string. */
  predicate HostnamesIntersect(listener: string, routes: seq<string>) {
    || listener == ""
    || |routes| == 0
    || exists i | 0 <= i < |routes| ::
         WildcardMatches(listener, routes[i]) || WildcardMatches(routes[i], listener)
  }

  // ------------------------------------------------ agreement of the two --

  /** Some concrete authority reaches the route through the listener. */
  ghost predicate Reachable(listener: string, routes: seq<string>) {
    exists host :: HostnameMatches(listener, host) && RouteHostnameMatches(routes, host)
  }

  function Instance(pattern: string): (host: string)
    ensures HostnameMatches(pattern, host)
    ensures IsWildcard(pattern) ==> host == "x" + pattern[1..]
    ensures !IsWildcard(pattern) ==> host == pattern
  {
    if IsWildcard(pattern) then "x" + pattern[1..] else pattern
  }

  lemma SuffixesOfOneHostNest(a: string, b: string, host: string)
    requires HasSuffix(host, a) && HasSuffix(host, b) && |a| <= |b|
    ensures HasSuffix(b, a)
  {
    assert b == host[|host| - |b|..];
    assert b[|b| - |a|..] == host[|host| - |a|..];
  }

  /** A literal name that matches in any letter case keeps the suffix of a lower-case wildcard. */
  lemma FoldKeepsSuffix(literal: string, host: string, suffix: string)
    requires LowerCase(literal) && LowerCase(suffix)
    requires EqualFold(literal, host) && HasSuffix(host, suffix)
    ensures HasSuffix(literal, suffix)
  {
    var d := |host| - |suffix|;
    forall i | 0 <= i < |suffix|
      ensures literal[d..][i] == suffix[i]
    {
      assert host[d..][i] == host[d + i];
      assert Lower(literal[d + i]) == Lower(host[d + i]);
    }
    assert literal[d..] == suffix;
  }

  lemma EqualFoldOfLowerCase(a: string, b: string)
    requires LowerCase(a) && LowerCase(b) && EqualFold(a, b)
    ensures a == b
  {
    forall i | 0 <= i < |a|
      ensures a[i] == b[i]
    {
      assert Lower(a[i]) == Lower(b[i]);
    }
  }

  /** Two lower-case patterns matched by one host match each other as patterns. */
  lemma CommonHostIntersects(p: string, q: string, host: string)
    requires p != "" && q != "" && LowerCase(p) && LowerCase(q)
    requires HostnameMatches(p, host) && HostnameMatches(q, host)
    ensures WildcardMatches(p, q) || WildcardMatches(q, p)
  {
    if IsWildcard(p) && IsWildcard(q) {
      if |p| <= |q| {
        SuffixesOfOneHostNest(p[1..], q[1..], host);
        assert q[|q| - |p[1..]|..] == q[1..][|q[1..]| - |p[1..]|..];
      } else {
        SuffixesOfOneHostNest(q[1..], p[1..], host);
        assert p[|p| - |q[1..]|..] == p[1..][|p[1..]| - |q[1..]|..];
      }
    } else if IsWildcard(p) {
      FoldKeepsSuffix(q, host, p[1..]);
    } else if IsWildcard(q) {
      FoldKeepsSuffix(p, host, q[1..]);
    } else {
      forall i | 0 <= i < |p|
        ensures Lower(p[i]) == Lower(q[i])
      {
        assert Lower(p[i]) == Lower(host[i]) && Lower(q[i]) == Lower(host[i]);
      }
    }
  }

  /** Two patterns of which one matches the other have a host in common. */
  lemma IntersectingPatternsShareHost(p: string, q: string) returns (host: string)
    requires p != "" && q != ""
    requires WildcardMatches(p, q)
    ensures HostnameMatches(p, host) && HostnameMatches(q, host)
  {
    host := Instance(q);
    if IsWildcard(p) && IsWildcard(q) {
      var s := p[1..];
      assert q[|q| - |s|..] == s;
      if |s| == |q| - 1 {
        assert host[1..] == q[1..];
      } else {
        assert host[|host| - |s|..] == q[|q| - |s|..];
      }
    }
  }

  /** The control plane's intersection test is sound and complete for the data plane on
      lower-case patterns, with one exception it states exactly: a route hostname that is
      the empty string matches every authority but intersects no named listener. */
  lemma IntersectionIsReachability(listener: string, routes: seq<string>)
    requires LowerCase(listener)
    requires forall i | 0 <= i < |routes| :: LowerCase(routes[i])
    ensures Reachable(listener, routes) <==> HostnamesIntersect(listener, routes) || "" in routes
  {
    if Reachable(listener, routes) {
      var host :| HostnameMatches(listener, host) && RouteHostnameMatches(routes, host);
      if listener != "" && |routes| > 0 && "" !in routes {
        var i :| 0 <= i < |routes| && HostnameMatches(routes[i], host);
        CommonHostIntersects(listener, routes[i], host);
      }
    }
    if HostnamesIntersect(listener, routes) || "" in routes {
      IntersectionIsReached(listener, routes);
    }
  }

  lemma IntersectionIsReached(listener: string, routes: seq<string>)
    requires HostnamesIntersect(listener, routes) || "" in routes
    ensures Reachable(listener, routes)
  {
    var host;
    if |routes| == 0 {
      host := Instance(listener);
    } else if "" in routes {
      host := Instance(listener);
      var i :| 0 <= i < |routes| && routes[i] == "";
      assert HostnameMatches(routes[i], host);
    } else if listener == "" {
      host := Instance(routes[0]);
    } else {
      var i :| 0 <= i < |routes| &&
        (WildcardMatches(listener, routes[i]) || WildcardMatches(routes[i], listener));
      if WildcardMatches(listener, routes[i]) {
        host := IntersectingPatternsShareHost(listener, routes[i]);
      } else {
        host := IntersectingPatternsShareHost(routes[i], listener);
      }
      assert HostnameMatches(routes[i], host);
    }
    assert HostnameMatches(listener, host) && RouteHostnameMatches(routes, host);
  }

  /** The lower-case premise is needed: Go folds case for literals but not for suffixes. */
  lemma MixedCaseBreaksCompleteness()
    ensures Reachable("*.A", ["x.a"]) && !HostnamesIntersect("*.A", ["x.a"])
  {
    var host := "X.A";
    assert "*.A"[1..] == ".A" && host[|host| - 2..] == ".A";
    assert "x.a"[0] != "*."[0] && "x.a"[..2][0] == "x.a"[0];
    assert HostnameMatches(["x.a"][0], host);
    assert HostnameMatches("*.A", host) && RouteHostnameMatches(["x.a"], host);
    assert "x.a"[|"x.a"| - 2..] == ".a";
  }

  // ---------------------------------------------------------- specificity --

  /** The precedence the Gateway API asks for, said without numbers: a named host over a
      wildcard over none, and the longer pattern within one kind. */
  predicate MoreSpecific(a: string, b: string) {
    if b == "" then a != ""
    else if a == "" then false
    else if IsWildcard(a) != IsWildcard(b) then IsWildcard(b)
    else |a| > |b|
  }

  /** The score agrees with that precedence exactly when no wildcard is so long that its
      length reaches past the offset given to literal names. */
  lemma ScoreRanksBySpecificity(a: string, b: string)
    ensures (HostnameScore(a) > HostnameScore(b) <==> MoreSpecific(a, b)) <==>
            !(b != "" && a != "" && IsWildcard(a) != IsWildcard(b) &&
              if IsWildcard(a) then |a| > ExactBase + |b| else |b| >= ExactBase + |a|)
  {
  }

  /** One host, two patterns of one score: on lower-case patterns they are the same pattern. */
  lemma MatchingScoreDeterminesPattern(p: string, q: string, host: string)
    requires LowerCase(p) && LowerCase(q)
    requires |p| < ExactBase && |q| < ExactBase
    requires HostnameMatches(p, host) && HostnameMatches(q, host)
    requires HostnameScore(p) == HostnameScore(q)
    ensures p == q
  {
    if p != "" && q != "" {
      if IsWildcard(p) {
        SuffixesOfOneHostNest(p[1..], q[1..], host);
        assert p == "*" + p[1..] && q == "*" + q[1..];
      } else {
        forall i | 0 <= i < |p|
          ensures p[i] == q[i]
        {
          assert Lower(p[i]) == Lower(host[i]) && Lower(q[i]) == Lower(host[i]);
        }
      }
    }
  }
}
