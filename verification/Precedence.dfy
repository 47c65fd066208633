/** What the rule lookup promises, said without scores: the listener that owns a host, the rules
    that may serve a request, and the one among them that does, in the precedence of the Gateway
    API. */
module Precedence {
  import opened Strings
  import opened Hostnames
  import opened Matching

  // -------------------------------------------------------------- ownership --

  /** Among patterns that one host matches, scores rank exactly by specificity: a matching literal
      name is as long as the host and a matching wildcard no longer. */
  lemma MatchingScoresRank(p: string, p': string, host: string)
    requires HostnameMatches(p, host) && HostnameMatches(p', host)
    ensures HostnameScore(p) > HostnameScore(p') <==> MoreSpecific(p, p')
  {
  }

  /** A listener owns a host exactly when its hostname matches and no matching hostname of the port
      is more specific. */
  lemma OwnerIsMostSpecific(t: PortTable, i: int, host: string)
    ensures Owns(t, i, host) <==>
      && 0 <= i < |t.listeners| && HostnameMatches(t.listeners[i].hostname, host)
      && forall j | 0 <= j < |t.listeners| && HostnameMatches(t.listeners[j].hostname, host) ::
           !MoreSpecific(t.listeners[j].hostname, t.listeners[i].hostname)
  {
    if 0 <= i < |t.listeners| && HostnameMatches(t.listeners[i].hostname, host) {
      forall j | 0 <= j < |t.listeners| && HostnameMatches(t.listeners[j].hostname, host)
        ensures HostnameScore(t.listeners[j].hostname) > HostnameScore(t.listeners[i].hostname) <==>
                MoreSpecific(t.listeners[j].hostname, t.listeners[i].hostname)
      {
        MatchingScoresRank(t.listeners[j].hostname, t.listeners[i].hostname, host);
      }
    }
  }

  // ------------------------------------------------------------ eligibility --

  const AnyRequest := Match("PathPrefix", "", "", [], [])

  /** The matches of a rule; a rule without any stands for the match of every request. */
  function MatchesOf(rule: RuleTable): seq<Match> {
    if rule.matches == [] then [AnyRequest] else rule.matches
  }

  predicate Applying(rule: RuleTable, r: Request, m: Match) {
    m in MatchesOf(rule) && MatchApplies(m, r)
  }

  lemma {:induction false} BestMatchExists(matches: seq<Match>, r: Request)
    ensures BestMatch(matches, r).Some? <==> exists m | m in matches :: MatchApplies(m, r)
  {
    if m :| m in matches && MatchApplies(m, r) {
      BestMatchIsUnbeaten(matches, r, m);
    }
    if BestMatch(matches, r).Some? {
      var m := BestMatchApplies(matches, r);
    }
  }

  lemma RuleAppliesExactly(rule: RuleTable, r: Request)
    ensures RuleSpecificity(rule, r).Some? <==> exists m :: Applying(rule, r, m)
  {
    BestMatchExists(rule.matches, r);
    if rule.matches == [] {
      assert Applying(rule, r, AnyRequest);
    } else if m :| m in rule.matches && MatchApplies(m, r) {
      assert Applying(rule, r, m);
    }
  }

  /** The rules that may serve a request: those of a route on the listener that owns the host, one
      of whose hostnames the host matches, if it has any, of the kind wanted, and one of whose
      matches applies. */
  lemma CandidatesAreEligible(q: Lookup, c: Candidate)
    ensures IsCandidate(q, c) <==>
      && Owns(q.table, c.listener, q.host)
      && c.route in q.table.listeners[c.listener].routes
      && (c.route.hostnames == [] || exists p | p in c.route.hostnames :: HostnameMatches(p, q.host))
      && c.rule < |c.route.rules| && c.route.rules[c.rule].grpc == q.grpc
      && exists m :: Applying(c.route.rules[c.rule], q.request, m)
  {
    if c.rule < |c.route.rules| {
      RuleAppliesExactly(c.route.rules[c.rule], q.request);
    }
    if p :| p in c.route.hostnames && HostnameMatches(p, q.host) {
      var i :| 0 <= i < |c.route.hostnames| && c.route.hostnames[i] == p;
    }
  }

  // ------------------------------------------------------- what a match says --

  /** A path cut at its slashes. */
  function Segments(path: string): (segments: seq<string>)
    ensures segments != []
  {
    if path == "" then [""]
    else
      var rest := Segments(path[1..]);
      if path[0] == '/' then [""] + rest else [[path[0]] + rest[0]] + rest[1..]
  }

  lemma {:induction false} SegmentsOfPrefix(prefix: string, path: string)
    ensures Segments(prefix) <= Segments(path) <==>
            HasPrefix(path, prefix) && (|path| == |prefix| || path[|prefix|] == '/')
  {
    if prefix != "" && path != "" {
      SegmentsOfPrefix(prefix[1..], path[1..]);
      HeadsCompare(prefix[0], Segments(prefix[1..]), path[0], Segments(path[1..]));
      PrefixByHead(prefix, path);
    } else if prefix != "" {
      assert Segments(prefix) == Headed(prefix[0], Segments(prefix[1..]));
      HeadIsMore(prefix[0], Segments(prefix[1..]));
    } else if path != "" {
      var segments := Segments(path);
      assert segments[..1] == [segments[0]];
      assert path[0] != '/' ==> segments[0][0] == path[0];
    }
  }

  lemma HeadIsMore(c: char, rest: seq<string>)
    requires rest != []
    ensures !(Headed(c, rest) <= [""])
  {
    if c != '/' {
      assert Headed(c, rest)[0][0] == c;
    }
  }

  lemma PrefixByHead(prefix: string, path: string)
    requires prefix != "" && path != ""
    ensures HasPrefix(path, prefix) <==> prefix[0] == path[0] && HasPrefix(path[1..], prefix[1..])
  {
    if |prefix| <= |path| {
      assert path[..|prefix|] == [path[0]] + path[1..][..|prefix| - 1];
      assert prefix == [prefix[0]] + prefix[1..];
    }
  }

  function Headed(c: char, rest: seq<string>): seq<string>
    requires rest != []
  {
    if c == '/' then [""] + rest else [[c] + rest[0]] + rest[1..]
  }

  lemma HeadsCompare(c: char, a: seq<string>, d: char, b: seq<string>)
    requires a != [] && b != []
    ensures Headed(c, a) <= Headed(d, b) <==> c == d && a <= b
  {
    var x, y := Headed(c, a), Headed(d, b);
    if |x| <= |y| {
      var z := y[..|x|];
      if c == '/' && d == '/' {
        assert z[1..] == b[..|a|] && x[1..] == a;
      } else if c != '/' && d != '/' {
        assert x[0][0] == c && x[0][1..] == a[0] && z[0][0] == d && z[0][1..] == b[0];
        assert x[1..] == a[1..] && z[1..] == b[1..][..|a| - 1] == b[..|a|][1..];
        assert a == [a[0]] + a[1..] && b[..|a|] == [b[0]] + b[..|a|][1..];
        assert x == [x[0]] + x[1..] && z == [z[0]] + z[1..];
      } else {
        assert |x[0]| != |y[0]| && z[0] == y[0];
      }
    }
  }

  /** A prefix matches segment by segment: its segments are the first ones of the path, a trailing
      slash not being a segment of its own. The empty prefix and the bare slash match any path. */
  lemma PrefixIsSegmentwise(prefix: string, path: string)
    ensures PathPrefixMatches(prefix, path) <==>
            TrimSuffix(prefix, "/") == "" || Segments(TrimSuffix(prefix, "/")) <= Segments(path)
  {
    SegmentsOfPrefix(TrimSuffix(prefix, "/"), path);
  }

  /** A path is demanded exactly, or by prefix, which is also meant when no type is given; a match of
      any other type never applies. */
  lemma PathDemands(m: Match, r: Request)
    ensures PathApplies(m, r) <==>
      || (m.pathType == "Exact" && m.pathValue == r.path)
      || (m.pathType in {"", "PathPrefix"} &&
            (TrimSuffix(m.pathValue, "/") == "" || Segments(TrimSuffix(m.pathValue, "/")) <= Segments(r.path)))
  {
    PrefixIsSegmentwise(m.pathValue, r.path);
  }

  /** The match that demands nothing applies to every request, and each demand added to a match
      narrows it by exactly that demand. */
  lemma DemandsNarrow(m: Match, r: Request, verb: string, header: HeaderMatch, param: QueryParamMatch)
    ensures MatchApplies(AnyRequest, r)
    ensures m.headers == [] && m.queryParams == [] && m.verb == "" ==> (MatchApplies(m, r) <==> PathApplies(m, r))
    ensures m.verb == "" && verb != "" ==> (MatchApplies(m.(verb := verb), r) <==> MatchApplies(m, r) && r.verb == verb)
    ensures MatchApplies(m.(headers := m.headers + [header]), r) <==> MatchApplies(m, r) && r.Header(header.name) == header.value
    ensures MatchApplies(m.(queryParams := m.queryParams + [param]), r) <==>
            MatchApplies(m, r) && param.name in r.query && r.query[param.name] != [] && r.query[param.name][0] == param.value
  {
    var more, longer := m.(headers := m.headers + [header]), m.(queryParams := m.queryParams + [param]);
    assert more.headers[|m.headers|] == header && forall i | 0 <= i < |m.headers| :: more.headers[i] == m.headers[i];
    assert longer.queryParams[|m.queryParams|] == param && forall i | 0 <= i < |m.queryParams| :: longer.queryParams[i] == m.queryParams[i];
  }

  /** A wildcard stands for one or more characters before its suffix, a literal name for itself in
      any letter case, and the empty pattern for every host. */
  lemma PatternStandsFor(pattern: string, host: string)
    ensures HostnameMatches(pattern, host) <==>
      || pattern == ""
      || (IsWildcard(pattern) && exists start | start != "" :: host == start + pattern[1..])
      || (!IsWildcard(pattern) && Lowered(pattern) == Lowered(host))
  {
    if IsWildcard(pattern) && |host| > |pattern| - 1 && HasSuffix(host, pattern[1..]) {
      assert host == host[..|host| - |pattern[1..]|] + pattern[1..];
    }
    FoldIsLowered(pattern, host);
  }

  function Lowered(s: string): string {
    seq(|s|, i requires 0 <= i < |s| => Lower(s[i]))
  }

  lemma FoldIsLowered(a: string, b: string)
    ensures EqualFold(a, b) <==> Lowered(a) == Lowered(b)
  {
    if Lowered(a) == Lowered(b) {
      assert |Lowered(a)| == |Lowered(b)|;
      forall i | 0 <= i < |a|
        ensures Lower(a[i]) == Lower(b[i])
      {
        assert Lowered(a)[i] == Lowered(b)[i];
      }
    }
  }

  // -------------------------------------------------------------- precedence --

  /** The precedence of two matches that both apply: path, then a method over none, then more
      headers, then more query parameters. */
  predicate Outranks(a: Match, b: Match) {
    if PathOutranks(a, b) || PathOutranks(b, a) then PathOutranks(a, b)
    else if (a.verb == "") != (b.verb == "") then b.verb == ""
    else if |a.headers| != |b.headers| then |a.headers| > |b.headers|
    else |a.queryParams| > |b.queryParams|
  }

  /** An applying prefix is no longer than the path and an applying Exact value as long, so here no
      prefix reaches past the offset. */
  lemma ApplyingMatchesRank(a: Match, b: Match, r: Request)
    requires MatchApplies(a, r) && MatchApplies(b, r)
    ensures SpecificityOf(a).Beats(SpecificityOf(b)) <==> Outranks(a, b)
  {
    ApplyingPathsAreShort(a, r);
    ApplyingPathsAreShort(b, r);
    PathScoreRanks(a, b);
  }

  lemma ApplyingPathsAreShort(m: Match, r: Request)
    requires PathApplies(m, r)
    ensures SupportedPath(m) && |TrimSuffix(m.pathValue, "/")| <= |r.path|
    ensures m.pathType == "Exact" ==> |m.pathValue| == |r.path|
  {
  }

  /** The hostname a candidate is ranked by: the most specific one of its route that the host
      matches, or the listener's when the route has none. */
  predicate RankedBy(q: Lookup, c: Candidate, pattern: string)
    requires c.listener < |q.table.listeners|
  {
    if c.route.hostnames == [] then pattern == q.table.listeners[c.listener].hostname
    else
      && pattern in c.route.hostnames && HostnameMatches(pattern, q.host)
      && forall p | p in c.route.hostnames && HostnameMatches(p, q.host) :: !MoreSpecific(p, pattern)
  }

  ghost predicate HostOutranks(q: Lookup, a: Candidate, b: Candidate)
    requires a.listener < |q.table.listeners| && b.listener < |q.table.listeners|
  {
    exists p, p' :: RankedBy(q, a, p) && RankedBy(q, b, p') && MoreSpecific(p, p')
  }

  /** Some applying match of the one rule outranks every applying match of the other. */
  ghost predicate RuleOutranks(q: Lookup, a: Candidate, b: Candidate)
    requires a.rule < |a.route.rules| && b.rule < |b.route.rules|
  {
    exists m | Applying(a.route.rules[a.rule], q.request, m) ::
      forall m' | Applying(b.route.rules[b.rule], q.request, m') :: Outranks(m, m')
  }

  /** The order of the Gateway API among rules that may serve one request: the hostname, the match,
      the older route, the smaller namespaced name, and the earlier rule of one route. */
  ghost predicate Precedes(q: Lookup, a: Candidate, b: Candidate)
    requires a.listener < |q.table.listeners| && b.listener < |q.table.listeners|
    requires a.rule < |a.route.rules| && b.rule < |b.route.rules|
  {
    if HostOutranks(q, a, b) || HostOutranks(q, b, a) then HostOutranks(q, a, b)
    else if RuleOutranks(q, a, b) || RuleOutranks(q, b, a) then RuleOutranks(q, a, b)
    else if a.route.created != b.route.created then a.route.created < b.route.created
    else if a.route.Key() != b.route.Key() then Less(a.route.Key(), b.route.Key())
    else a.listener == b.listener && a.route == b.route ==> a.rule <= b.rule
  }

  // ------------------------------------------------------- scores say the same --

  lemma RankedScore(q: Lookup, c: Candidate, pattern: string)
    requires IsCandidate(q, c) && RankedBy(q, c, pattern)
    ensures HostnameMatches(pattern, q.host)
    ensures HostnameScore(pattern) == RouteScore(q.table.listeners[c.listener], c.route, q.host)
  {
    if c.route.hostnames != [] {
      var best := BestRouteScore(c.route.hostnames, q.host);
      if best != 0 {
        var p :| p in c.route.hostnames && HostnameMatches(p, q.host) && HostnameScore(p) == best;
        MatchingScoresRank(p, pattern, q.host);
      }
    }
  }

  lemma RankExists(q: Lookup, c: Candidate) returns (pattern: string)
    requires IsCandidate(q, c)
    ensures RankedBy(q, c, pattern)
  {
    if c.route.hostnames == [] {
      pattern := q.table.listeners[c.listener].hostname;
    } else {
      var best := BestRouteScore(c.route.hostnames, q.host);
      var i :| 0 <= i < |c.route.hostnames| && HostnameMatches(c.route.hostnames[i], q.host);
      pattern := c.route.hostnames[i];
      if best != 0 {
        pattern :| pattern in c.route.hostnames && HostnameMatches(pattern, q.host) && HostnameScore(pattern) == best;
      }
      forall p | p in c.route.hostnames && HostnameMatches(p, q.host)
        ensures !MoreSpecific(p, pattern)
      {
        MatchingScoresRank(p, pattern, q.host);
      }
    }
  }

  lemma HostRankIsScore(q: Lookup, a: Candidate, b: Candidate)
    requires IsCandidate(q, a) && IsCandidate(q, b)
    ensures HostOutranks(q, a, b) <==>
            RouteScore(q.table.listeners[a.listener], a.route, q.host) > RouteScore(q.table.listeners[b.listener], b.route, q.host)
  {
    var p := RankExists(q, a);
    var p' := RankExists(q, b);
    RankedScore(q, a, p);
    RankedScore(q, b, p');
    MatchingScoresRank(p, p', q.host);
    if s, s' :| RankedBy(q, a, s) && RankedBy(q, b, s') && MoreSpecific(s, s') {
      RankedScore(q, a, s);
      RankedScore(q, b, s');
      MatchingScoresRank(s, s', q.host);
    }
  }

  /** A rule's specificity is that of one of its applying matches, and none outranks that one. */
  lemma BestApplies(rule: RuleTable, r: Request) returns (m: Match)
    requires RuleSpecificity(rule, r).Some?
    ensures Applying(rule, r, m) && SpecificityOf(m) == RuleSpecificity(rule, r).value
    ensures forall m' | Applying(rule, r, m') :: !SpecificityOf(m').Beats(SpecificityOf(m))
  {
    if rule.matches == [] {
      m := AnyRequest;
    } else {
      m := BestMatchApplies(rule.matches, r);
      forall m' | Applying(rule, r, m')
        ensures !SpecificityOf(m').Beats(SpecificityOf(m))
      {
        BestMatchIsUnbeaten(rule.matches, r, m');
      }
    }
  }

  lemma RuleRankIsScore(q: Lookup, a: Candidate, b: Candidate)
    requires IsCandidate(q, a) && IsCandidate(q, b)
    ensures RuleOutranks(q, a, b) <==>
            RuleSpecificity(a.route.rules[a.rule], q.request).value.Beats(RuleSpecificity(b.route.rules[b.rule], q.request).value)
  {
    var x, y, r := a.route.rules[a.rule], b.route.rules[b.rule], q.request;
    var m := BestApplies(x, r);
    var m' := BestApplies(y, r);
    if RuleOutranks(q, a, b) {
      var n :| Applying(x, r, n) && forall n' | Applying(y, r, n') :: Outranks(n, n');
      assert Outranks(n, m');
      ApplyingMatchesRank(n, m', r);
      BeatsChains(SpecificityOf(m), SpecificityOf(n), SpecificityOf(m'));
    }
    if SpecificityOf(m).Beats(SpecificityOf(m')) {
      forall n' | Applying(y, r, n')
        ensures Outranks(m, n')
      {
        BeatsDrops(SpecificityOf(m), SpecificityOf(m'), SpecificityOf(n'));
        ApplyingMatchesRank(m, n', r);
      }
      assert RuleOutranks(q, a, b);
    }
  }

  lemma BeatsChains(a: Specificity, b: Specificity, c: Specificity)
    requires !b.Beats(a) && b.Beats(c)
    ensures a.Beats(c)
  {
  }

  lemma BeatsDrops(a: Specificity, b: Specificity, c: Specificity)
    requires a.Beats(b) && !c.Beats(b)
    ensures a.Beats(c)
  {
  }

  lemma BeatingPrecedes(q: Lookup, a: Candidate, b: Candidate)
    requires IsCandidate(q, a) && IsCandidate(q, b)
    ensures Precedes(q, a, b) <==>
      && !Score(q, b).Beats(Score(q, a))
      && (Score(q, a) == Score(q, b) && a.listener == b.listener && a.route == b.route ==> a.rule <= b.rule)
  {
    HostRankIsScore(q, a, b);
    HostRankIsScore(q, b, a);
    RuleRankIsScore(q, a, b);
    RuleRankIsScore(q, b, a);
    LessIsConnected(a.route.Key(), b.route.Key());
    LessIsIrreflexive(a.route.Key());
    if Less(a.route.Key(), b.route.Key()) {
      LessIsAsymmetric(a.route.Key(), b.route.Key());
    }
  }

  // ---------------------------------------------------------------- theorems --

  /** The winner of a lookup is the rule that precedes every rule that may serve the request. */
  lemma WinnerPrecedesAll(q: Lookup, w: Candidate)
    ensures IsWinner(q, w) <==> IsCandidate(q, w) && forall c | IsCandidate(q, c) :: Precedes(q, w, c)
  {
    if IsCandidate(q, w) {
      forall c | IsCandidate(q, c)
        ensures Precedes(q, w, c) <==>
          && !Score(q, c).Beats(Score(q, w))
          && (Score(q, w) == Score(q, c) && w.listener == c.listener && w.route == c.route ==> w.rule <= c.rule)
      {
        BeatingPrecedes(q, w, c);
      }
      if forall c | IsCandidate(q, c) :: Precedes(q, w, c) {
        forall v | IsCandidate(q, Candidate(w.listener, w.route, v)) && Score(q, Candidate(w.listener, w.route, v)) == Score(q, w)
          ensures w.rule <= v
        {
          assert Precedes(q, w, Candidate(w.listener, w.route, v));
        }
      }
    }
  }

  ghost predicate MayServe(t: PortTable, host: string, r: Request, grpc: bool, c: Candidate) {
    IsCandidate(Lookup(t, host, r, grpc), c)
  }

  /** A request is gRPC by what its content type begins with, so `application/grpc+proto` is. */
  lemma GrpcByContentType(r: Request)
    ensures r.IsGrpc() <==> exists rest :: "Content-Type" in r.headers && r.headers["Content-Type"] == "application/grpc" + rest
  {
    var kind := "application/grpc";
    if r.IsGrpc() {
      var value := r.Header("Content-Type");
      assert value == kind + value[|kind|..];
    }
  }

  /** The answer to a request: a gRPC rule exactly when the request is gRPC and some gRPC rule may
      serve it, the first in precedence of its kind, and none exactly when no plain rule may serve
      the request and no gRPC rule a gRPC request. */
  lemma AnswerIsFirst(t: PortTable, host: string, r: Request, w: Option<Candidate>)
    requires Resolves(t, host, r, w)
    ensures w.None? <==>
      (forall c :: !MayServe(t, host, r, false, c)) && (r.IsGrpc() ==> forall c :: !MayServe(t, host, r, true, c))
    ensures w.Some? ==>
      var grpc := r.IsGrpc() && exists c :: MayServe(t, host, r, true, c);
      && MayServe(t, host, r, grpc, w.value)
      && w.value.route.rules[w.value.rule].grpc == grpc
      && forall c | MayServe(t, host, r, grpc, c) :: Precedes(Lookup(t, host, r, grpc), w.value, c)
  {
    var grpc := r.IsGrpc() && exists c :: MayServe(t, host, r, true, c);
    assert Answers(Lookup(t, host, r, grpc), w) by {
      if c :| IsCandidate(Lookup(t, host, r, true), c) {
        assert MayServe(t, host, r, true, c);
      }
    }
    if w.Some? {
      WinnerPrecedesAll(Lookup(t, host, r, grpc), w.value);
      assert MayServe(t, host, r, grpc, w.value);
    } else {
      assert forall c :: !MayServe(t, host, r, false, c) by {
        assert !grpc;
      }
    }
  }
}
