/** The routing tables of one internal port and the rule lookup over them. */
module Matching {
  import opened Strings
  import opened Hostnames

  // --------------------------------------------------------------- tables --

  datatype HeaderMatch = HeaderMatch(name: string, value: string)
  datatype QueryParamMatch = QueryParamMatch(name: string, value: string)

  datatype Match = Match(
    pathType: string,
    pathValue: string,
    verb: string,
    headers: seq<HeaderMatch>,
    queryParams: seq<QueryParamMatch>)

  datatype Backend = Backend(namespace: string, name: string, port: int, weight: int, valid: bool)

  datatype RuleTable = RuleTable(matches: seq<Match>, grpc: bool, backends: seq<Backend>, total: int, failClosed: bool)

  datatype RouteTable = RouteTable(
    namespace: string,
    name: string,
    hostnames: seq<string>,
    created: int,
    rules: seq<RuleTable>)
  {
    function Key(): string { namespace + "/" + name }
  }

  datatype ListenerTable = ListenerTable(name: string, hostname: string, hasCert: bool, routes: seq<RouteTable>)

  datatype PortTable = PortTable(gatewayUid: string, listeners: seq<ListenerTable>)

  /** Header names are in canonical form; the query maps a parameter to its values in order. */
  datatype Request = Request(
    path: string,
    verb: string,
    headers: map<string, string>,
    query: map<string, seq<string>>)
  {
    function Header(key: string): string {
      if key in headers then headers[key] else ""
    }

    predicate IsGrpc() {
      HasPrefix(Header("Content-Type"), "application/grpc")
    }
  }

  // -------------------------------------------------------- one rule match --

  predicate PathPrefixMatches(prefix: string, path: string) {
    var trimmed := TrimSuffix(prefix, "/");
    trimmed == "" ||
    (HasPrefix(path, trimmed) && (|path| == |trimmed| || path[|trimmed|] == '/'))
  }

  predicate PathApplies(m: Match, r: Request) {
    if m.pathType == "" || m.pathType == "PathPrefix" then
      m.pathValue == "" || PathPrefixMatches(m.pathValue, r.path)
    else if m.pathType == "Exact" then
      r.path == m.pathValue
    else
      false
  }

  predicate MatchApplies(m: Match, r: Request) {
    && PathApplies(m, r)
    && (m.verb == "" || r.verb == m.verb)
    && (forall i | 0 <= i < |m.headers| :: r.Header(m.headers[i].name) == m.headers[i].value)
    && (forall i | 0 <= i < |m.queryParams| ::
          && m.queryParams[i].name in r.query
          && |r.query[m.queryParams[i].name]| > 0
          && r.query[m.queryParams[i].name][0] == m.queryParams[i].value)
  }

  function PathScore(m: Match): int {
    if m.pathType == "Exact" then ExactBase + |m.pathValue|
    else if m.pathType == "" || m.pathType == "PathPrefix" then |TrimSuffix(m.pathValue, "/")|
    else 0
  }

  datatype Specificity = Specificity(path: int, verb: int, headers: int, queryParams: int) {
    predicate Beats(other: Specificity) {
      if path != other.path then path > other.path
      else if verb != other.verb then verb > other.verb
      else if headers != other.headers then headers > other.headers
      else queryParams > other.queryParams
    }
  }

  function SpecificityOf(m: Match): Specificity {
    Specificity(PathScore(m), if m.verb != "" then 1 else 0, |m.headers|, |m.queryParams|)
  }

  /** The most specific applying match of a list; the first one when several tie. */
  function BestMatch(matches: seq<Match>, r: Request): Option<Specificity> {
    if matches == [] then None
    else
      var last := matches[|matches| - 1];
      var before := BestMatch(matches[..|matches| - 1], r);
      if MatchApplies(last, r) && (before.None? || SpecificityOf(last).Beats(before.value))
      then Some(SpecificityOf(last))
      else before
  }

  /** Every applying match is found, and none of them beats the one kept. */
  lemma {:induction false} BestMatchIsUnbeaten(matches: seq<Match>, r: Request, m: Match)
    requires m in matches && MatchApplies(m, r)
    ensures BestMatch(matches, r).Some?
    ensures !SpecificityOf(m).Beats(BestMatch(matches, r).value)
  {
    var last := matches[|matches| - 1];
    if m != last {
      assert m in matches[..|matches| - 1];
      BestMatchIsUnbeaten(matches[..|matches| - 1], r, m);
    }
  }

  /** The one kept is the specificity of a match that applies. */
  lemma {:induction false} BestMatchApplies(matches: seq<Match>, r: Request) returns (m: Match)
    requires BestMatch(matches, r).Some?
    ensures m in matches && MatchApplies(m, r) && SpecificityOf(m) == BestMatch(matches, r).value
  {
    m := matches[|matches| - 1];
    if !(MatchApplies(m, r) && SpecificityOf(m) == BestMatch(matches, r).value) {
      m := BestMatchApplies(matches[..|matches| - 1], r);
    }
  }

  /** A rule without matches applies to every request, with the lowest specificity. */
  function RuleSpecificity(rule: RuleTable, r: Request): Option<Specificity> {
    if |rule.matches| == 0 then Some(Specificity(0, 0, 0, 0)) else BestMatch(rule.matches, r)
  }

  method RuleBestMatch(rule: RuleTable, r: Request) returns (matched: bool, best: Specificity)
    ensures matched == RuleSpecificity(rule, r).Some?
    ensures matched ==> best == RuleSpecificity(rule, r).value
  {
    if |rule.matches| == 0 {
      return true, Specificity(0, 0, 0, 0);
    }

    matched, best := false, Specificity(0, 0, 0, 0);
    for i := 0 to |rule.matches|
      invariant matched == BestMatch(rule.matches[..i], r).Some?
      invariant matched ==> best == BestMatch(rule.matches[..i], r).value
    {
      assert rule.matches[..i + 1][..i] == rule.matches[..i];
      var m := rule.matches[i];
      if MatchApplies(m, r) {
        var specificity := SpecificityOf(m);
        if !matched || specificity.Beats(best) {
          best := specificity;
        }
        matched := true;
      }
    }
    assert rule.matches[..|rule.matches|] == rule.matches;
  }

  // ----------------------------------------------------------- precedence --

  datatype MatchScore = MatchScore(
    listenerHostname: int,
    routeHostname: int,
    specificity: Specificity,
    created: int,
    name: string)
  {
    predicate Beats(other: MatchScore) {
      if listenerHostname != other.listenerHostname then listenerHostname > other.listenerHostname
      else if routeHostname != other.routeHostname then routeHostname > other.routeHostname
      else if specificity != other.specificity then specificity.Beats(other.specificity)
      else if created != other.created then created < other.created
      else Less(name, other.name)
    }
  }

  /** `Beats` is a strict total order on scores, so a maximum is one score. */
  lemma BeatsIsTotal(a: MatchScore, b: MatchScore)
    ensures a == b || a.Beats(b) || b.Beats(a)
    ensures a.Beats(b) ==> a != b && !b.Beats(a)
  {
    LessIsConnected(a.name, b.name);
    LessIsIrreflexive(a.name);
    if Less(a.name, b.name) {
      LessIsAsymmetric(a.name, b.name);
    }
  }

  lemma BeatsIsTransitive(a: MatchScore, b: MatchScore, c: MatchScore)
    requires a.Beats(b) && b.Beats(c)
    ensures a.Beats(c)
  {
    if Less(a.name, b.name) && Less(b.name, c.name) {
      LessIsTransitive(a.name, b.name, c.name);
    }
  }

  function BestRouteScore(hostnames: seq<string>, host: string): (best: int)
    ensures best >= 0
    ensures forall p | p in hostnames && HostnameMatches(p, host) :: HostnameScore(p) <= best
    ensures best == 0 || exists p | p in hostnames :: HostnameMatches(p, host) && HostnameScore(p) == best
  {
    if hostnames == [] then 0
    else
      var last := hostnames[|hostnames| - 1];
      var before := BestRouteScore(hostnames[..|hostnames| - 1], host);
      assert hostnames == hostnames[..|hostnames| - 1] + [last];
      if HostnameMatches(last, host) && HostnameScore(last) > before then HostnameScore(last) else before
  }

  function RouteScore(listener: ListenerTable, route: RouteTable, host: string): int {
    if |route.hostnames| == 0 then HostnameScore(listener.hostname)
    else BestRouteScore(route.hostnames, host)
  }

  method RouteHostnameScore(listener: ListenerTable, route: RouteTable, host: string) returns (best: int)
    ensures best == RouteScore(listener, route, host)
  {
    if |route.hostnames| == 0 {
      return HostnameScore(listener.hostname);
    }

    best := 0;
    for i := 0 to |route.hostnames|
      invariant best == BestRouteScore(route.hostnames[..i], host)
    {
      assert route.hostnames[..i + 1][..i] == route.hostnames[..i];
      var pattern := route.hostnames[i];
      if HostnameMatches(pattern, host) && HostnameScore(pattern) > best {
        best := HostnameScore(pattern);
      }
    }
    assert route.hostnames[..|route.hostnames|] == route.hostnames;
  }

  // ----------------------------------------------------------- candidates --

  /** Listener `i` matches the host and no matching listener of the port outranks it. */
  predicate Owns(t: PortTable, i: int, host: string) {
    && 0 <= i < |t.listeners|
    && HostnameMatches(t.listeners[i].hostname, host)
    && forall j | 0 <= j < |t.listeners| && HostnameMatches(t.listeners[j].hostname, host) ::
         HostnameScore(t.listeners[j].hostname) <= HostnameScore(t.listeners[i].hostname)
  }

  /** A rule that may serve the request: the listener by position, the route by value, and
      the rule by its position in the route. */
  datatype Candidate = Candidate(listener: nat, route: RouteTable, rule: nat)

  /** A lookup: one port, one authority, one request, and the kind of rule wanted. */
  datatype Lookup = Lookup(table: PortTable, host: string, request: Request, grpc: bool)

  predicate IsCandidate(q: Lookup, c: Candidate) {
    && Owns(q.table, c.listener, q.host)
    && c.route in q.table.listeners[c.listener].routes
    && Serves(q, c.route, c.rule)
  }

  predicate Serves(q: Lookup, route: RouteTable, rule: int) {
    && RouteHostnameMatches(route.hostnames, q.host)
    && 0 <= rule < |route.rules|
    && route.rules[rule].grpc == q.grpc
    && RuleSpecificity(route.rules[rule], q.request).Some?
  }

  function Score(q: Lookup, c: Candidate): MatchScore
    requires IsCandidate(q, c)
  {
    var listener := q.table.listeners[c.listener];
    MatchScore(
      HostnameScore(listener.hostname),
      RouteScore(listener, c.route, q.host),
      RuleSpecificity(c.route.rules[c.rule], q.request).value,
      c.route.created,
      c.route.Key())
  }

  /** The precedence of the Gateway API: no candidate beats the winner, and within its own
      route on its own listener the winner is the earliest rule of its score. */
  ghost predicate IsWinner(q: Lookup, w: Candidate) {
    && IsCandidate(q, w)
    && (forall c | IsCandidate(q, c) :: !Score(q, c).Beats(Score(q, w)))
    && (forall v | IsCandidate(q, Candidate(w.listener, w.route, v)) &&
                   Score(q, Candidate(w.listener, w.route, v)) == Score(q, w) :: w.rule <= v)
  }

  /** What a lookup may answer: the winner, or nothing when no rule may serve the request. */
  ghost predicate Answers(q: Lookup, w: Option<Candidate>) {
    if w.Some? then IsWinner(q, w.value) else forall c :: !IsCandidate(q, c)
  }

  /** What `Match` may answer: a gRPC request prefers gRPC rules and falls back to plain ones
      only when no gRPC rule may serve it; a plain request only ever gets a plain rule. */
  ghost predicate Resolves(t: PortTable, host: string, r: Request, w: Option<Candidate>) {
    if r.IsGrpc() && exists c :: IsCandidate(Lookup(t, host, r, true), c)
    then w.Some? && Answers(Lookup(t, host, r, true), w)
    else Answers(Lookup(t, host, r, false), w)
  }

  // --------------------------------------------------------------- lookup --

  /** Position of a candidate in table order. */
  datatype Index = Index(listener: nat, route: nat, rule: nat)

  predicate Before(a: Index, b: Index) {
    || a.listener < b.listener
    || (a.listener == b.listener && a.route < b.route)
    || (a.listener == b.listener && a.route == b.route && a.rule < b.rule)
  }

  predicate At(q: Lookup, x: Index) {
    && Owns(q.table, x.listener, q.host)
    && x.route < |q.table.listeners[x.listener].routes|
    && Serves(q, q.table.listeners[x.listener].routes[x.route], x.rule)
  }

  function CandidateAt(q: Lookup, x: Index): (c: Candidate)
    requires At(q, x)
    ensures IsCandidate(q, c)
  {
    Candidate(x.listener, q.table.listeners[x.listener].routes[x.route], x.rule)
  }

  function ScoreAt(q: Lookup, x: Index): MatchScore
    requires At(q, x)
  {
    Score(q, CandidateAt(q, x))
  }

  /** `best` leads everything found before the frontier: nothing beats it and it came first. */
  ghost predicate Leads(q: Lookup, best: Option<Index>, frontier: Index) {
    && (best.Some? ==> At(q, best.value) && Before(best.value, frontier))
    && forall x | At(q, x) && Before(x, frontier) ::
         && best.Some?
         && !ScoreAt(q, x).Beats(ScoreAt(q, best.value))
         && (ScoreAt(q, x) == ScoreAt(q, best.value) ==> x == best.value || Before(best.value, x))
  }

  lemma FrontierSkips(q: Lookup, best: Option<Index>, from: Index, to: Index)
    requires Leads(q, best, from)
    requires Before(from, to) || from == to
    requires forall x | At(q, x) && Before(x, to) :: Before(x, from)
    ensures Leads(q, best, to)
  {
  }

  /** The inner step of the lookup: one more eligible rule. */
  lemma FrontierTakes(q: Lookup, best: Option<Index>, x: Index, to: Index)
    requires Leads(q, best, x) && At(q, x)
    requires forall y | Before(y, to) :: Before(y, x) || y == x
    requires Before(x, to)
    ensures best.None? || ScoreAt(q, x).Beats(ScoreAt(q, best.value))
            ==> Leads(q, Some(x), to)
    ensures !(best.None? || ScoreAt(q, x).Beats(ScoreAt(q, best.value)))
            ==> Leads(q, best, to)
  {
    if best.None? || ScoreAt(q, x).Beats(ScoreAt(q, best.value)) {
      forall y | At(q, y) && Before(y, to)
        ensures !ScoreAt(q, y).Beats(ScoreAt(q, x))
        ensures ScoreAt(q, y) == ScoreAt(q, x) ==> y == x
      {
        BeatsIsTotal(ScoreAt(q, y), ScoreAt(q, x));
        if y != x {
          BeatsIsTotal(ScoreAt(q, y), ScoreAt(q, best.value));
          BeatsIsTotal(ScoreAt(q, x), ScoreAt(q, best.value));
          if ScoreAt(q, y).Beats(ScoreAt(q, x)) {
            BeatsIsTransitive(ScoreAt(q, y), ScoreAt(q, x), ScoreAt(q, best.value));
          }
        }
      }
    }
  }

  lemma LeaderWins(q: Lookup, best: Index)
    requires Leads(q, Some(best), Index(|q.table.listeners|, 0, 0))
    ensures IsWinner(q, CandidateAt(q, best))
  {
    var w := CandidateAt(q, best);
    forall c | IsCandidate(q, c)
      ensures !Score(q, c).Beats(Score(q, w))
      ensures c.listener == w.listener && c.route == w.route && Score(q, c) == Score(q, w) ==> w.rule <= c.rule
    {
      var routes := q.table.listeners[c.listener].routes;
      var k :| 0 <= k < |routes| && routes[k] == c.route;
      var x := Index(c.listener, if c.listener == w.listener && c.route == w.route then best.route else k, c.rule);
      assert At(q, x) && CandidateAt(q, x) == c;
    }
  }

  lemma NoLeaderNoCandidate(q: Lookup)
    requires Leads(q, None, Index(|q.table.listeners|, 0, 0))
    ensures forall c :: !IsCandidate(q, c)
  {
    forall c | IsCandidate(q, c)
      ensures false
    {
      var routes := q.table.listeners[c.listener].routes;
      var k :| 0 <= k < |routes| && routes[k] == c.route;
      assert At(q, Index(c.listener, k, c.rule));
    }
  }

  /** `match`: one pass for the winning listener score, then one pass over every rule. */
  method FindMatch(q: Lookup) returns (w: Option<Candidate>)
    ensures Answers(q, w)
  {
    var listeners := q.table.listeners;
    var winning := WinningScore(q.table, q.host);

    var best: Option<Index> := None;
    for l := 0 to |listeners|
      invariant Leads(q, best, Index(l, 0, 0))
    {
      var hostname := listeners[l].hostname;
      if HostnameMatches(hostname, q.host) && HostnameScore(hostname) == winning {
        best := ScanListener(q, l, best);
      } else {
        FrontierSkips(q, best, Index(l, 0, 0), Index(l + 1, 0, 0));
      }
    }

    if best.Some? {
      LeaderWins(q, best.value);
      w := Some(CandidateAt(q, best.value));
    } else {
      NoLeaderNoCandidate(q);
      w := None;
    }
  }

  method ScanListener(q: Lookup, l: nat, before: Option<Index>) returns (best: Option<Index>)
    requires Owns(q.table, l, q.host)
    requires Leads(q, before, Index(l, 0, 0))
    ensures Leads(q, best, Index(l + 1, 0, 0))
  {
    var routes := q.table.listeners[l].routes;

    best := before;
    for k := 0 to |routes|
      invariant Leads(q, best, Index(l, k, 0))
    {
      if RouteHostnameMatches(routes[k].hostnames, q.host) {
        best := ScanRoute(q, l, k, best);
      } else {
        FrontierSkips(q, best, Index(l, k, 0), Index(l, k + 1, 0));
      }
    }
    FrontierSkips(q, best, Index(l, |routes|, 0), Index(l + 1, 0, 0));
  }

  method ScanRoute(q: Lookup, l: nat, k: nat, before: Option<Index>) returns (best: Option<Index>)
    requires Owns(q.table, l, q.host)
    requires k < |q.table.listeners[l].routes|
    requires RouteHostnameMatches(q.table.listeners[l].routes[k].hostnames, q.host)
    requires Leads(q, before, Index(l, k, 0))
    ensures Leads(q, best, Index(l, k + 1, 0))
  {
    var rules := q.table.listeners[l].routes[k].rules;

    best := before;
    for v := 0 to |rules|
      invariant Leads(q, best, Index(l, k, v))
    {
      best := ScanRule(q, l, k, v, best);
    }
    FrontierSkips(q, best, Index(l, k, |rules|), Index(l, k + 1, 0));
  }

  method ScanRule(q: Lookup, l: nat, k: nat, v: nat, before: Option<Index>) returns (best: Option<Index>)
    requires Owns(q.table, l, q.host)
    requires k < |q.table.listeners[l].routes| && v < |q.table.listeners[l].routes[k].rules|
    requires RouteHostnameMatches(q.table.listeners[l].routes[k].hostnames, q.host)
    requires Leads(q, before, Index(l, k, v))
    ensures Leads(q, best, Index(l, k, v + 1))
  {
    var listener := q.table.listeners[l];
    var route := listener.routes[k];
    var rule := route.rules[v];

    best := before;
    var matched, specificity := RuleBestMatch(rule, q.request);
    var x, next := Index(l, k, v), Index(l, k, v + 1);
    if rule.grpc != q.grpc || !matched {
      FrontierSkips(q, best, x, next);
      return;
    }
    var routeScore := RouteHostnameScore(listener, route, q.host);
    var score := MatchScore(HostnameScore(listener.hostname), routeScore, specificity, route.created, route.Key());
    assert At(q, x) && score == ScoreAt(q, x);
    FrontierTakes(q, best, x, next);
    if best.None? || score.Beats(ScoreAt(q, best.value)) {
      best := Some(x);
    }
  }

  /** The score of the most specific listener matching the host, -1 when none does. */
  method WinningScore(t: PortTable, host: string) returns (winning: int)
    ensures forall i | 0 <= i < |t.listeners| ::
              HostnameMatches(t.listeners[i].hostname, host) ==>
              (HostnameScore(t.listeners[i].hostname) == winning <==> Owns(t, i, host))
  {
    winning := -1;
    for i := 0 to |t.listeners|
      invariant winning == -1 ||
                exists j | 0 <= j < i :: HostnameMatches(t.listeners[j].hostname, host) &&
                                         HostnameScore(t.listeners[j].hostname) == winning
      invariant forall j | 0 <= j < i && HostnameMatches(t.listeners[j].hostname, host) ::
                  HostnameScore(t.listeners[j].hostname) <= winning
    {
      var hostname := t.listeners[i].hostname;
      if HostnameMatches(hostname, host) && HostnameScore(hostname) > winning {
        winning := HostnameScore(hostname);
      }
    }
  }

  /** `Tables.Match` on the table of one port. */
  method FindRule(t: PortTable, host: string, r: Request) returns (w: Option<Candidate>)
    ensures Resolves(t, host, r, w)
    ensures w.Some? && !r.IsGrpc() ==> !w.value.route.rules[w.value.rule].grpc
  {
    if r.IsGrpc() {
      w := FindMatch(Lookup(t, host, r, true));
      if w.Some? {
        return;
      }
    }
    w := FindMatch(Lookup(t, host, r, false));
  }

  // ------------------------------------------------- order independence --

  /** What Kubernetes and the listener merge guarantee of one port: lower-case hostnames
      below the scoring offset, pairwise different, and routes of one kind with different
      namespaced names. */
  ghost predicate WellFormed(t: PortTable) {
    && (forall i | 0 <= i < |t.listeners| ::
          LowerCase(t.listeners[i].hostname) && |t.listeners[i].hostname| < ExactBase)
    && DistinctHostnames(t.listeners)
    && (forall i | 0 <= i < |t.listeners| :: DistinctKeys(t.listeners[i].routes))
  }

  ghost predicate DistinctHostnames(listeners: seq<ListenerTable>) {
    forall i, j | 0 <= i < j < |listeners| :: listeners[i].hostname != listeners[j].hostname
  }

  /** A route holds rules of one kind, and two routes of one kind differ in namespaced name. */
  ghost predicate DistinctKeys(routes: seq<RouteTable>) {
    forall a, b, u, v {:trigger a.rules[u], b.rules[v]} |
      && a in routes && b in routes && a.Key() == b.Key()
      && 0 <= u < |a.rules| && 0 <= v < |b.rules| && a.rules[u].grpc == b.rules[v].grpc ::
      a == b
  }

  /** At most one listener of a well-formed port owns a host. */
  lemma OwnerIsUnique(t: PortTable, i: int, j: int, host: string)
    requires WellFormed(t) && Owns(t, i, host) && Owns(t, j, host)
    ensures i == j
  {
    MatchingScoreDeterminesPattern(t.listeners[i].hostname, t.listeners[j].hostname, host);
  }

  lemma WinnerIsUnique(q: Lookup, w: Candidate, w': Candidate)
    requires WellFormed(q.table) && IsWinner(q, w) && IsWinner(q, w')
    ensures w == w'
  {
    BeatsIsTotal(Score(q, w), Score(q, w'));
    OwnerIsUnique(q.table, w.listener, w'.listener, q.host);
    assert w.route.rules[w.rule].grpc == w'.route.rules[w'.rule].grpc;
  }

  /** Two tables that differ only in the order of each listener's routes. */
  ghost predicate SameUpToRouteOrder(t: PortTable, t': PortTable) {
    && |t.listeners| == |t'.listeners|
    && forall i | 0 <= i < |t.listeners| ::
         && t.listeners[i].hostname == t'.listeners[i].hostname
         && multiset(t.listeners[i].routes) == multiset(t'.listeners[i].routes)
  }

  lemma SameRoutes(a: seq<RouteTable>, b: seq<RouteTable>, route: RouteTable)
    requires multiset(a) == multiset(b)
    ensures route in a <==> route in b
  {
    assert route in a <==> route in multiset(a);
    assert route in b <==> route in multiset(b);
  }

  lemma CandidatesIgnoreRouteOrder(q: Lookup, q': Lookup, c: Candidate)
    requires SameUpToRouteOrder(q.table, q'.table)
    requires q' == q.(table := q'.table)
    requires IsCandidate(q, c)
    ensures IsCandidate(q', c) && Score(q, c) == Score(q', c)
  {
    SameRoutes(q.table.listeners[c.listener].routes, q'.table.listeners[c.listener].routes, c.route);
    assert HostnameMatches(q'.table.listeners[c.listener].hostname, q.host);
    forall j | 0 <= j < |q'.table.listeners| && HostnameMatches(q'.table.listeners[j].hostname, q.host)
      ensures HostnameScore(q'.table.listeners[j].hostname) <= HostnameScore(q'.table.listeners[c.listener].hostname)
    {
      assert q.table.listeners[j].hostname == q'.table.listeners[j].hostname;
    }
  }

  lemma SameUpToRouteOrderIsSymmetric(t: PortTable, t': PortTable)
    requires SameUpToRouteOrder(t, t')
    ensures SameUpToRouteOrder(t', t)
  {
    forall i | 0 <= i < |t.listeners|
      ensures t'.listeners[i].hostname == t.listeners[i].hostname
      ensures multiset(t'.listeners[i].routes) == multiset(t.listeners[i].routes)
    {
      assert t.listeners[i].hostname == t'.listeners[i].hostname;
    }
  }

  /** The route order a pod happened to build never changes the rule it picks. */
  lemma WinnerIgnoresRouteOrder(q: Lookup, q': Lookup, w: Candidate)
    requires SameUpToRouteOrder(q.table, q'.table)
    requires q' == q.(table := q'.table)
    requires IsWinner(q, w)
    ensures IsWinner(q', w)
  {
    SameUpToRouteOrderIsSymmetric(q.table, q'.table);
    CandidatesIgnoreRouteOrder(q, q', w);
    forall c | IsCandidate(q', c)
      ensures IsCandidate(q, c) && Score(q, c) == Score(q', c)
    {
      CandidatesIgnoreRouteOrder(q', q, c);
    }
  }

  lemma AnswersIgnoreRouteOrder(q: Lookup, q': Lookup, w: Option<Candidate>, w': Option<Candidate>)
    requires WellFormed(q'.table)
    requires SameUpToRouteOrder(q.table, q'.table)
    requires q' == q.(table := q'.table)
    requires Answers(q, w) && Answers(q', w')
    ensures w == w'
  {
    SameUpToRouteOrderIsSymmetric(q.table, q'.table);
    if w.Some? {
      WinnerIgnoresRouteOrder(q, q', w.value);
      WinnerIsUnique(q', w.value, w'.value);
    } else if w'.Some? {
      WinnerIgnoresRouteOrder(q', q, w'.value);
    }
  }

  /** So every pod resolves a request to one and the same listener, route and rule, or none. */
  lemma PodsAgree(t: PortTable, t': PortTable, host: string, r: Request, w: Option<Candidate>, w': Option<Candidate>)
    requires WellFormed(t') && SameUpToRouteOrder(t, t')
    requires Resolves(t, host, r, w) && Resolves(t', host, r, w')
    ensures w == w'
  {
    var q, q' := Lookup(t, host, r, true), Lookup(t', host, r, true);
    SameUpToRouteOrderIsSymmetric(t, t');
    if c :| IsCandidate(q, c) {
      CandidatesIgnoreRouteOrder(q, q', c);
    }
    if c :| IsCandidate(q', c) {
      CandidatesIgnoreRouteOrder(q', q, c);
    }
    if r.IsGrpc() && exists c :: IsCandidate(q, c) {
      AnswersIgnoreRouteOrder(q, q', w, w');
    } else {
      AnswersIgnoreRouteOrder(Lookup(t, host, r, false), Lookup(t', host, r, false), w, w');
    }
  }

  // ------------------------------------------------------------ precedence, unscored --

  /** The path precedence of the Gateway API, said without numbers: Exact over prefix, then
      the longer value, a trailing slash of a prefix not counting. */
  predicate PathOutranks(a: Match, b: Match) {
    if (a.pathType == "Exact") != (b.pathType == "Exact") then a.pathType == "Exact"
    else if a.pathType == "Exact" then |a.pathValue| > |b.pathValue|
    else |TrimSuffix(a.pathValue, "/")| > |TrimSuffix(b.pathValue, "/")|
  }

  predicate SupportedPath(m: Match) {
    m.pathType == "" || m.pathType == "PathPrefix" || m.pathType == "Exact"
  }

  /** A prefix so long that it reaches past the offset given to Exact paths. */
  predicate ReachesPast(prefix: Match, exact: Match) {
    |TrimSuffix(prefix.pathValue, "/")| >= ExactBase + |exact.pathValue|
  }

  /** Path scores follow that precedence exactly when no prefix reaches past the Exact path it is
      compared with. */
  lemma PathScoreRanks(a: Match, b: Match)
    requires SupportedPath(a) && SupportedPath(b)
    ensures (PathScore(a) > PathScore(b) <==> PathOutranks(a, b)) && (PathScore(b) > PathScore(a) <==> PathOutranks(b, a)) <==>
            !(a.pathType == "Exact" && b.pathType != "Exact" && ReachesPast(b, a)) &&
            !(b.pathType == "Exact" && a.pathType != "Exact" && ReachesPast(a, b))
  {
  }
}
