/** Which listener of a port owns a host: the control plane's conflict rejection, the data
    plane's listener isolation, misdirected requests and certificate selection. */
module Ownership {
  import opened Strings
  import opened Hostnames
  import opened Matching

  // -------------------------------------------------- conflict rejection --

  datatype Reason = Accepted | Rejected | ProtocolConflict | HostnameConflict

  /** Who declares a listener: the Gateway itself or one of its ListenerSets. */
  datatype Parent = OfGateway | OfSet(namespace: string, name: string)

  /** A validated listener; an absent hostname is the empty string. `material` holds the
      certificates and the client CA bundle, under the keys of the generated Secret. */
  datatype ListenerState = ListenerState(
    parent: Parent,
    name: string,
    port: int,
    protocol: string,
    hostname: string,
    terminates: bool,
    accepted: bool,
    conflicted: bool,
    reason: Reason,
    refsResolved: bool,
    internalPort: int,
    material: map<string, string>,
    clientCaMode: string)
  {
    predicate Valid() { accepted && refsResolved }
  }

  predicate Clash(earlier: ListenerState, later: ListenerState) {
    && earlier.port == later.port
    && (earlier.protocol != later.protocol || earlier.hostname == later.hostname)
  }

  /** The first surviving listener that rejects `l`. */
  function Conflict(survivors: seq<ListenerState>, l: ListenerState): Option<Reason> {
    if survivors == [] then None
    else if Clash(survivors[0], l) then
      Some(if survivors[0].protocol != l.protocol then ProtocolConflict else HostnameConflict)
    else Conflict(survivors[1..], l)
  }

  /** A listener after the merge with the survivors of higher precedence. */
  function Merged(survivors: seq<ListenerState>, l: ListenerState): ListenerState {
    if !l.accepted then l
    else
      match Conflict(survivors, l)
      case None => l
      case Some(reason) => l.(accepted := false, conflicted := true, reason := reason)
  }

  function Survivors(listeners: seq<ListenerState>): seq<ListenerState> {
    if listeners == [] then []
    else
      var n := |listeners| - 1;
      var before := Survivors(listeners[..n]);
      var l := Merged(before, listeners[n]);
      if l.accepted then before + [l] else before
  }

  lemma {:induction false} ConflictIsClash(survivors: seq<ListenerState>, l: ListenerState)
    ensures Conflict(survivors, l).Some? <==> exists i | 0 <= i < |survivors| :: Clash(survivors[i], l)
  {
    if survivors != [] {
      ConflictIsClash(survivors[1..], l);
      if Conflict(survivors[1..], l).Some? {
        var i :| 0 <= i < |survivors[1..]| && Clash(survivors[1..][i], l);
        assert Clash(survivors[i + 1], l);
      }
      forall i | 0 <= i < |survivors| && Clash(survivors[i], l)
        ensures Conflict(survivors, l).Some?
      {
        if i > 0 {
          assert survivors[1..][i - 1] == survivors[i];
        }
      }
    }
  }

  /** Survivors of one port share a protocol and differ in hostname. */
  ghost predicate ClashFree(listeners: seq<ListenerState>) {
    forall i, j | 0 <= i < j < |listeners| && listeners[i].port == listeners[j].port ::
      listeners[i].protocol == listeners[j].protocol && listeners[i].hostname != listeners[j].hostname
  }

  lemma {:induction false} SurvivorsNeverClash(listeners: seq<ListenerState>)
    ensures ClashFree(Survivors(listeners))
    ensures forall i | 0 <= i < |Survivors(listeners)| :: Survivors(listeners)[i] in listeners && Survivors(listeners)[i].accepted
  {
    if listeners != [] {
      var n := |listeners| - 1;
      SurvivorsNeverClash(listeners[..n]);
      ConflictIsClash(Survivors(listeners[..n]), listeners[n]);
    }
  }

  /** Nothing is lost without cause: an accepted listener is dropped exactly when a listener of
      higher precedence survives on its port with another protocol or with its hostname, for the
      first reason if there is one of that kind. Nothing else about it changes. */
  lemma RejectionHasCause(listeners: seq<ListenerState>, k: int)
    requires 0 <= k < |listeners| && listeners[k].accepted
    ensures
      var survivors, l := Survivors(listeners[..k]), listeners[k];
      var merged := Merged(survivors, l);
      var foreign := exists s | s in survivors :: s.port == l.port && s.protocol != l.protocol;
      var taken := exists s | s in survivors :: s.port == l.port && s.hostname == l.hostname;
      && (merged.accepted <==> !foreign && !taken)
      && merged == if merged.accepted then l
                   else l.(accepted := false, conflicted := true, reason := if foreign then ProtocolConflict else HostnameConflict)
  {
    var survivors, l := Survivors(listeners[..k]), listeners[k];
    SurvivorsNeverClash(listeners[..k]);
    ConflictIsClash(survivors, l);
    if Conflict(survivors, l).Some? {
      ConflictHasReason(survivors, l);
    }
    if s :| s in survivors && s.port == l.port && (s.protocol != l.protocol || s.hostname == l.hostname) {
      var i :| 0 <= i < |survivors| && survivors[i] == s;
      assert Clash(survivors[i], l);
    }
  }

  lemma {:induction false} ConflictHasReason(survivors: seq<ListenerState>, l: ListenerState)
    requires ClashFree(survivors) && Conflict(survivors, l).Some?
    ensures Conflict(survivors, l).value ==
            if exists s | s in survivors :: s.port == l.port && s.protocol != l.protocol then ProtocolConflict else HostnameConflict
  {
    var first, rest := survivors[0], survivors[1..];
    assert survivors == [first] + rest;
    if Clash(first, l) {
      forall i | 0 <= i < |survivors| && survivors[i].port == l.port
        ensures survivors[i].protocol == first.protocol
      {
      }
    } else {
      forall i, j | 0 <= i < j < |rest| && rest[i].port == rest[j].port
        ensures rest[i].protocol == rest[j].protocol && rest[i].hostname != rest[j].hostname
      {
        assert rest[i] == survivors[i + 1] && rest[j] == survivors[j + 1];
      }
      ConflictHasReason(rest, l);
    }
  }

  lemma {:induction false} AcceptedSurvives(listeners: seq<ListenerState>, i: nat)
    requires i < |listeners| && Merged(Survivors(listeners[..i]), listeners[i]).accepted
    ensures listeners[i] in Survivors(listeners)
  {
    var n := |listeners| - 1;
    if i < n {
      assert listeners[..n][..i] == listeners[..i];
      AcceptedSurvives(listeners[..n], i);
    }
  }

  /** Of two listeners that clash, the merge accepts at most the first. */
  lemma AcceptedNeverClash(listeners: seq<ListenerState>, i: nat, j: nat)
    requires i < j < |listeners|
    requires Merged(Survivors(listeners[..i]), listeners[i]).accepted && Merged(Survivors(listeners[..j]), listeners[j]).accepted
    ensures !Clash(listeners[i], listeners[j])
  {
    var earlier := listeners[..j];
    assert earlier[..i] == listeners[..i];
    AcceptedSurvives(earlier, i);
    ConflictIsClash(Survivors(earlier), listeners[j]);
  }

  method FindConflict(survivors: seq<ListenerState>, l: ListenerState) returns (conflict: Option<Reason>)
    ensures conflict == Conflict(survivors, l)
  {
    for i := 0 to |survivors|
      invariant Conflict(survivors, l) == Conflict(survivors[i..], l)
    {
      assert survivors[i..][1..] == survivors[i + 1..];
      if survivors[i].port == l.port {
        if survivors[i].protocol != l.protocol {
          return Some(ProtocolConflict);
        }
        if survivors[i].hostname == l.hostname {
          return Some(HostnameConflict);
        }
      }
    }
    conflict := None;
  }

  /** `rejectConflictingListeners`: one pass in precedence order, the later entry loses. */
  method RejectConflicting(a: array<ListenerState>)
    modifies a
    ensures forall k | 0 <= k < a.Length :: a[k] == Merged(Survivors(old(a[..k])), old(a[k]))
  {
    ghost var was := a[..];
    var survivors: seq<ListenerState> := [];
    for k := 0 to a.Length
      invariant survivors == Survivors(was[..k])
      invariant forall i | 0 <= i < k :: a[i] == Merged(Survivors(was[..i]), was[i])
      invariant forall i | k <= i < a.Length :: a[i] == was[i]
    {
      assert was[..k + 1][..k] == was[..k];
      if a[k].accepted {
        var conflict := FindConflict(survivors, a[k]);
        if conflict.Some? {
          a[k] := a[k].(accepted := false, conflicted := true, reason := conflict.value);
        } else {
          survivors := survivors + [a[k]];
        }
      }
    }
  }

  // --------------------------------------------------- listener ownership --

  /** `bestListenerFor`: the owner of a host on the port, by position. */
  method BestListenerFor(t: PortTable, host: string) returns (best: Option<nat>)
    ensures best == Owner(t, host)
  {
    best := None;
    var bestScore := -1;
    for i := 0 to |t.listeners|
      invariant best == OwnerUpTo(t, host, i)
      invariant bestScore == if best.None? then -1 else HostnameScore(t.listeners[best.value].hostname)
    {
      var hostname := t.listeners[i].hostname;
      if HostnameMatches(hostname, host) && HostnameScore(hostname) > bestScore {
        best, bestScore := Some(i), HostnameScore(hostname);
      }
    }
  }

  function OwnerUpTo(t: PortTable, host: string, n: nat): (best: Option<nat>)
    requires n <= |t.listeners|
    ensures best.Some? ==> best.value < n && HostnameMatches(t.listeners[best.value].hostname, host)
    ensures forall i | 0 <= i < n && HostnameMatches(t.listeners[i].hostname, host) ::
              best.Some? && HostnameScore(t.listeners[i].hostname) <= HostnameScore(t.listeners[best.value].hostname)
  {
    if n == 0 then None
    else
      var before := OwnerUpTo(t, host, n - 1);
      var hostname := t.listeners[n - 1].hostname;
      if HostnameMatches(hostname, host) &&
         (before.None? || HostnameScore(hostname) > HostnameScore(t.listeners[before.value].hostname))
      then Some(n - 1)
      else before
  }

  function Owner(t: PortTable, host: string): (owner: Option<nat>)
    ensures owner.Some? ==> Owns(t, owner.value, host)
    ensures owner.None? ==> forall i | 0 <= i < |t.listeners| :: !HostnameMatches(t.listeners[i].hostname, host)
  {
    OwnerUpTo(t, host, |t.listeners|)
  }

  /** Listener isolation: the rule that serves a request hangs off the owner of its host. */
  lemma MatchStaysWithOwner(t: PortTable, host: string, r: Request, w: Candidate)
    requires WellFormed(t) && Resolves(t, host, r, Some(w))
    ensures Owner(t, host) == Some(w.listener)
    ensures w.route in t.listeners[w.listener].routes
  {
    assert Owns(t, w.listener, host);
    OwnerIsUnique(t, w.listener, Owner(t, host).value, host);
  }

  /** The routes of every other listener are irrelevant, whatever they are. */
  ghost predicate SameForOwner(t: PortTable, t': PortTable, host: string) {
    && |t.listeners| == |t'.listeners|
    && (forall i | 0 <= i < |t.listeners| :: t.listeners[i].hostname == t'.listeners[i].hostname)
    && (Owner(t, host).Some? ==>
          t.listeners[Owner(t, host).value].routes == t'.listeners[Owner(t, host).value].routes)
  }

  lemma OwnsReadsHostnamesOnly(t: PortTable, t': PortTable, i: int, host: string)
    requires |t.listeners| == |t'.listeners|
    requires forall j | 0 <= j < |t.listeners| :: t.listeners[j].hostname == t'.listeners[j].hostname
    requires Owns(t, i, host)
    ensures Owns(t', i, host)
  {
    assert t.listeners[i].hostname == t'.listeners[i].hostname;
    forall j | 0 <= j < |t'.listeners| && HostnameMatches(t'.listeners[j].hostname, host)
      ensures HostnameScore(t'.listeners[j].hostname) <= HostnameScore(t'.listeners[i].hostname)
    {
      assert t.listeners[j].hostname == t'.listeners[j].hostname;
    }
  }

  lemma CandidatesStayWithOwner(t: PortTable, t': PortTable, q: Lookup, c: Candidate)
    requires WellFormed(t) && SameForOwner(t, t', q.host) && q.table == t
    requires IsCandidate(q, c)
    ensures IsCandidate(q.(table := t'), c) && Score(q.(table := t'), c) == Score(q, c)
  {
    OwnerIsUnique(t, c.listener, Owner(t, q.host).value, q.host);
    OwnsReadsHostnamesOnly(t, t', c.listener, q.host);
  }

  lemma SameForOwnerIsSymmetric(t: PortTable, t': PortTable, host: string)
    requires WellFormed(t) && WellFormed(t') && SameForOwner(t, t', host)
    ensures SameForOwner(t', t, host)
  {
    forall i | 0 <= i < |t.listeners|
      ensures t'.listeners[i].hostname == t.listeners[i].hostname
    {
      assert t.listeners[i].hostname == t'.listeners[i].hostname;
    }
    if Owner(t', host).Some? {
      OwnsReadsHostnamesOnly(t', t, Owner(t', host).value, host);
      OwnerIsUnique(t, Owner(t, host).value, Owner(t', host).value, host);
    }
  }

  lemma AnswersStayWithOwner(t: PortTable, t': PortTable, q: Lookup, w: Option<Candidate>)
    requires WellFormed(t) && WellFormed(t') && SameForOwner(t, t', q.host) && q.table == t
    requires Answers(q, w)
    ensures Answers(q.(table := t'), w)
  {
    var q' := q.(table := t');
    SameForOwnerIsSymmetric(t, t', q.host);
    forall c | IsCandidate(q', c)
      ensures IsCandidate(q, c) && Score(q', c) == Score(q, c)
    {
      CandidatesStayWithOwner(t', t, q', c);
    }
    if w.Some? {
      CandidatesStayWithOwner(t, t', q, w.value);
    }
  }

  lemma OtherListenersAreIrrelevant(t: PortTable, t': PortTable, host: string, r: Request, w: Option<Candidate>)
    requires WellFormed(t) && WellFormed(t') && SameForOwner(t, t', host)
    requires Resolves(t, host, r, w)
    ensures Resolves(t', host, r, w)
  {
    var q, q' := Lookup(t, host, r, true), Lookup(t', host, r, true);
    SameForOwnerIsSymmetric(t, t', host);
    if c :| IsCandidate(q, c) {
      CandidatesStayWithOwner(t, t', q, c);
    }
    if c :| IsCandidate(q', c) {
      CandidatesStayWithOwner(t', t, q', c);
    }
    if r.IsGrpc() && exists c :: IsCandidate(q, c) {
      AnswersStayWithOwner(t, t', q, w);
    } else {
      AnswersStayWithOwner(t, t', Lookup(t, host, r, false), w);
    }
  }

  /** The SNI selected a listener and another one (or none) owns the authority. */
  predicate IsMisdirected(t: PortTable, serverName: string, host: string) {
    Owner(t, serverName).Some? && Owner(t, host) != Owner(t, serverName)
  }

  method Misdirected(t: PortTable, serverName: string, host: string) returns (misdirected: bool)
    ensures misdirected <==> IsMisdirected(t, serverName, host)
  {
    var selected := BestListenerFor(t, serverName);
    if selected.None? {
      return false;
    }
    var owner := BestListenerFor(t, host);
    misdirected := owner != selected;
  }

  /** On a well-formed port the check fires exactly when some listener owns the SNI and does not own
      the authority. */
  lemma MisdirectionIsExact(t: PortTable, serverName: string, host: string)
    requires WellFormed(t)
    ensures IsMisdirected(t, serverName, host) <==> exists i :: Owns(t, i, serverName) && !Owns(t, i, host)
  {
    if i :| Owns(t, i, serverName) && !Owns(t, i, host) {
      OwnerIsUnique(t, i, Owner(t, serverName).value, serverName);
    }
    if IsMisdirected(t, serverName, host) {
      var i := Owner(t, serverName).value;
      if Owns(t, i, host) {
        OwnerIsUnique(t, i, Owner(t, host).value, host);
      }
    }
  }

  /** So an authority that the SNI's listener owns is never misdirected, the SNI itself least of
      all. */
  lemma OwnAuthorityIsNotMisdirected(t: PortTable, serverName: string, host: string)
    requires WellFormed(t) && (serverName == host || exists i :: Owns(t, i, serverName) && Owns(t, i, host))
    ensures !IsMisdirected(t, serverName, host)
  {
    MisdirectionIsExact(t, serverName, host);
    if i, j :| Owns(t, i, serverName) && Owns(t, i, host) && Owns(t, j, serverName) && !Owns(t, j, host) {
      OwnerIsUnique(t, i, j, serverName);
    }
  }

  /** Some listener of the port has the name. */
  predicate Known(t: PortTable, name: string) {
    exists i | 0 <= i < |t.listeners| :: HostnameMatches(t.listeners[i].hostname, name)
  }

  /** A request that passes the misdirection check is served by its SNI's own listener exactly
      when some listener of the port has the SNI. */
  lemma UnmisdirectedStaysOnListener(t: PortTable, serverName: string, host: string, r: Request, w: Candidate)
    requires WellFormed(t) && !IsMisdirected(t, serverName, host)
    requires Resolves(t, host, r, Some(w))
    ensures Owner(t, serverName) == Some(w.listener) <==> Known(t, serverName)
    ensures Owns(t, w.listener, serverName) <==> Known(t, serverName)
  {
    MatchStaysWithOwner(t, host, r, w);
  }

  // ------------------------------------------------ certificate selection --

  function Specificity(hostname: string): int {
    if hostname == "" then 0 else if IsWildcard(hostname) then 1 else 2
  }

  /** The order `BuildGatewayTable` leaves: literal names, then wildcards, then none. */
  ghost predicate SortedBySpecificity(listeners: seq<ListenerTable>) {
    forall i, j | 0 <= i < j < |listeners| ::
      Specificity(listeners[i].hostname) >= Specificity(listeners[j].hostname)
  }

  /** The first certificate listener from `i` on that matches. */
  function FirstMatch(t: PortTable, serverName: string, i: nat): (first: Option<nat>)
    requires i <= |t.listeners|
    ensures first.Some? ==>
              && i <= first.value < |t.listeners| && t.listeners[first.value].hasCert
              && HostnameMatches(t.listeners[first.value].hostname, serverName)
              && forall j | i <= j < first.value ::
                   !(t.listeners[j].hasCert && HostnameMatches(t.listeners[j].hostname, serverName))
    ensures first.None? ==>
              forall j | i <= j < |t.listeners| ::
                !(t.listeners[j].hasCert && HostnameMatches(t.listeners[j].hostname, serverName))
    decreases |t.listeners| - i
  {
    if i == |t.listeners| then None
    else if t.listeners[i].hasCert && HostnameMatches(t.listeners[i].hostname, serverName) then Some(i)
    else FirstMatch(t, serverName, i + 1)
  }

  function FirstCert(t: PortTable, i: nat): Option<nat>
    requires i <= |t.listeners|
    decreases |t.listeners| - i
  {
    if i == |t.listeners| then None
    else if t.listeners[i].hasCert then Some(i)
    else FirstCert(t, i + 1)
  }

  function Certificate(t: PortTable, serverName: string): Option<nat> {
    if serverName != "" && FirstMatch(t, serverName, 0).Some? then FirstMatch(t, serverName, 0)
    else FirstCert(t, 0)
  }

  method CertificateFor(t: PortTable, serverName: string) returns (listener: Option<nat>)
    ensures listener == Certificate(t, serverName)
  {
    var fallback: Option<nat> := None;
    for i := 0 to |t.listeners|
      invariant FirstCert(t, 0) == if fallback.Some? then fallback else FirstCert(t, i)
      invariant serverName != "" ==> FirstMatch(t, serverName, 0) == FirstMatch(t, serverName, i)
    {
      if t.listeners[i].hasCert {
        if fallback.None? {
          fallback := Some(i);
        }
        if serverName != "" && HostnameMatches(t.listeners[i].hostname, serverName) {
          return Some(i);
        }
      }
    }
    listener := fallback;
  }

  predicate Certified(t: PortTable, serverName: string, i: int) {
    0 <= i < |t.listeners| && t.listeners[i].hasCert && serverName != "" && HostnameMatches(t.listeners[i].hostname, serverName)
  }

  lemma {:induction false} FirstCertIsFirst(t: PortTable, i: nat)
    requires i <= |t.listeners|
    ensures FirstCert(t, i).Some? ==>
      && i <= FirstCert(t, i).value < |t.listeners| && t.listeners[FirstCert(t, i).value].hasCert
      && forall j | i <= j < FirstCert(t, i).value :: !t.listeners[j].hasCert
    ensures FirstCert(t, i).None? ==> forall j | i <= j < |t.listeners| :: !t.listeners[j].hasCert
    decreases |t.listeners| - i
  {
    if i < |t.listeners| {
      FirstCertIsFirst(t, i + 1);
    }
  }

  /** A listener's certificate is served exactly when the listener has one and is the first with one
      that has the server name, or the first with one when none that has the name. */
  lemma CertificateIsExact(t: PortTable, serverName: string, i: nat)
    ensures Certificate(t, serverName) == Some(i) <==>
      if exists j :: Certified(t, serverName, j) then
        Certified(t, serverName, i) && forall j | 0 <= j < i :: !Certified(t, serverName, j)
      else
        i < |t.listeners| && t.listeners[i].hasCert && forall j | 0 <= j < i :: !t.listeners[j].hasCert
  {
    FirstCertIsFirst(t, 0);
    if serverName != "" && FirstMatch(t, serverName, 0).Some? {
      assert Certified(t, serverName, FirstMatch(t, serverName, 0).value);
    }
  }

  /** A TLS port as the control plane builds it. */
  ghost predicate TlsPort(t: PortTable) {
    && WellFormed(t) && SortedBySpecificity(t.listeners)
    && forall i | 0 <= i < |t.listeners| :: t.listeners[i].hasCert
  }

  /** A wildcard listed before a longer wildcard that lies inside it. */
  ghost predicate Shadowed(t: PortTable, i: int, j: int) {
    && 0 <= i < j < |t.listeners|
    && IsWildcard(t.listeners[i].hostname) && IsWildcard(t.listeners[j].hostname)
    && |t.listeners[i].hostname| < |t.listeners[j].hostname|
    && HasSuffix(t.listeners[j].hostname, t.listeners[i].hostname[1..])
  }

  /** Over the server names of at most `bound` characters. */
  ghost predicate HandshakesAgree(t: PortTable, bound: nat) {
    forall serverName | serverName != "" && |serverName| <= bound && Owner(t, serverName).Some? ::
      Certificate(t, serverName) == Owner(t, serverName)
  }

  /** Only a shadowing wildcard can match before the owner. */
  lemma EarlierMatchShadows(t: PortTable, f: int, o: int, serverName: string)
    requires TlsPort(t) && Owns(t, o, serverName)
    requires 0 <= f < o && HostnameMatches(t.listeners[f].hostname, serverName)
    ensures Shadowed(t, f, o)
  {
    var p, q := t.listeners[f].hostname, t.listeners[o].hostname;
    assert HostnameScore(p) != HostnameScore(q) by {
      if HostnameScore(p) == HostnameScore(q) {
        MatchingScoreDeterminesPattern(p, q, serverName);
      }
    }
    assert Specificity(p) >= Specificity(q) && HostnameScore(p) < HostnameScore(q);
    assert IsWildcard(p) && IsWildcard(q);
    SuffixesOfOneHostNest(p[1..], q[1..], serverName);
    assert q[|q| - |p[1..]|..] == q[1..][|q[1..]| - |p[1..]|..];
  }

  lemma AgreementWithoutShadow(t: PortTable, serverName: string)
    requires TlsPort(t) && forall i, j :: !Shadowed(t, i, j)
    requires serverName != "" && Owner(t, serverName).Some?
    ensures Certificate(t, serverName) == Owner(t, serverName)
  {
    var o := Owner(t, serverName).value;
    assert t.listeners[o].hasCert && HostnameMatches(t.listeners[o].hostname, serverName);
    var f := FirstMatch(t, serverName, 0).value;
    assert f <= o;
    if f < o {
      EarlierMatchShadows(t, f, o, serverName);
    }
  }

  /** A host below a wildcard, with a first label of `n` characters. */
  function FreshHost(pattern: string, n: nat): (host: string)
    requires IsWildcard(pattern)
    ensures |host| == n + |pattern| - 1 && host[n..] == pattern[1..]
    ensures forall i | 0 <= i < n :: host[i] == 'x'
  {
    seq(n, _ => 'x') + pattern[1..]
  }

  lemma {:induction false} FreeLength(used: seq<int>) returns (n: nat)
    ensures 1 <= n <= |used| + 1 && n !in used
    decreases |used|
  {
    n := |used| + 1;
    if n in used {
      var i :| 0 <= i < |used| && used[i] == n;
      var rest := used[..i] + used[i + 1..];
      var last := n;
      n := FreeLength(rest);
      assert forall j | 0 <= j < |used| && j != i :: used[j] in rest;
    }
  }

  /** A host below a wildcard that no literal name of the port has the length of. */
  lemma FreshHostExists(t: PortTable, pattern: string) returns (n: nat)
    requires IsWildcard(pattern)
    ensures 1 <= n <= |t.listeners| + 1
    ensures forall i | 0 <= i < |t.listeners| :: |t.listeners[i].hostname| != |FreshHost(pattern, n)|
  {
    var used := seq(|t.listeners|, i requires 0 <= i < |t.listeners| => |t.listeners[i].hostname| - |pattern| + 1);
    n := FreeLength(used);
    forall i | 0 <= i < |t.listeners|
      ensures |t.listeners[i].hostname| != |FreshHost(pattern, n)|
    {
      assert used[i] in used;
    }
  }

  lemma FreshHostHasNoLongerPattern(pattern: string, other: string, n: nat)
    requires IsWildcard(pattern) && |other| != |FreshHost(pattern, n)|
    requires IsWildcard(other) ==> |other| > |pattern|
    requires other != ""
    ensures !HostnameMatches(other, FreshHost(pattern, n))
  {
    var host := FreshHost(pattern, n);
    if IsWildcard(other) && |host| > |other| - 1 {
      var s := other[1..];
      assert other[..2][1] == '.';
      assert host[|host| - |s|..][0] == 'x';
    }
  }

  lemma ShadowBreaksAgreement(t: PortTable, i: int, j: int, bound: nat)
    requires TlsPort(t) && Shadowed(t, i, j)
    requires |t.listeners[j].hostname| + |t.listeners| <= bound
    ensures !HandshakesAgree(t, bound)
  {
    var p, q := t.listeners[i].hostname, t.listeners[j].hostname;
    var n := FreshHostExists(t, q);
    var serverName := FreshHost(q, n);
    assert HostnameMatches(q, serverName);
    assert HostnameMatches(p, serverName) by {
      var s := p[1..];
      assert q[|q| - |s|..] == s;
      assert serverName[|serverName| - |s|..] == q[1..][|q[1..]| - |s|..];
    }
    var o := Owner(t, serverName).value;
    var best := t.listeners[o].hostname;
    assert HostnameScore(q) <= HostnameScore(best);
    if !IsWildcard(best) || |best| > |q| {
      FreshHostHasNoLongerPattern(q, best, n);
    }
    MatchingScoreDeterminesPattern(t.listeners[o].hostname, q, serverName);
    var f := FirstMatch(t, serverName, 0).value;
    assert f <= i < j == o;
    assert Certificate(t, serverName) != Owner(t, serverName);
  }

  /** The handshake certificate is the owner's for every server name exactly when no wildcard
      is listed before a longer wildcard inside it: `CertificateFor` takes the first match and
      the sort does not rank wildcards by length. A disagreement shows in a server name no longer
      than a hostname of the port and its number of listeners together. */
  lemma CertificateAgreementIsExact(t: PortTable, bound: nat)
    requires TlsPort(t)
    requires forall i | 0 <= i < |t.listeners| :: |t.listeners[i].hostname| + |t.listeners| <= bound
    ensures HandshakesAgree(t, bound) <==> forall i, j :: !Shadowed(t, i, j)
  {
    if forall i, j :: !Shadowed(t, i, j) {
      forall serverName | serverName != "" && |serverName| <= bound && Owner(t, serverName).Some?
        ensures Certificate(t, serverName) == Owner(t, serverName)
      {
        AgreementWithoutShadow(t, serverName);
      }
    } else {
      var i, j :| Shadowed(t, i, j);
      ShadowBreaksAgreement(t, i, j, bound);
    }
  }

  // ------------------------------------------------------- an unknown name --

  /** Two listeners with a certificate each, on one port. */
  function TwoNames(a: string, b: string): PortTable {
    PortTable("uid", [ListenerTable("a", a, true, []), ListenerTable("b", b, true, [])])
  }

  predicate IsLiteral(name: string) {
    0 < |name| < ExactBase && !IsWildcard(name) && LowerCase(name)
  }

  /** A handshake for a name no listener has is completed with the first listener's certificate and
      client policy, and the other listener's authority passes the check on that connection. */
  lemma UnknownNameIsNotMisdirected(a: string, b: string, other: string)
    requires IsLiteral(a) && IsLiteral(b) && a != b && !EqualFold(a, other) && !EqualFold(b, other)
    ensures
      var t := TwoNames(a, b);
      && WellFormed(t) && !Known(t, other) && !IsMisdirected(t, other, b)
      && Certificate(t, other) == Some(0) && Owner(t, b) == Some(1)
  {
    var t := TwoNames(a, b);
    assert !EqualFold(a, b) by {
      if EqualFold(a, b) {
        EqualFoldOfLowerCase(a, b);
      }
    }
    assert Owner(t, b) == Some(1) by {
      assert HostnameMatches(t.listeners[1].hostname, b);
    }
  }
}
