/** What reaches a request: the port tables a pod serves, in terms of the listeners and routes as
    they were specified. */
module Delivering {
  import opened Strings
  import opened Compiled
  import opened Building
  import opened Loading
  import opened Validating
  import opened Attaching
  import opened Compiling
  import opened Indices
  import opened Agreement
  import opened Collisions
  import opened Authenticating
  import opened Matching
  import Balancing
  import Hostnames

  // ------------------------------------------------------ listeners on ports --

  /** All the valid listeners with an internal port, in order. */
  ghost predicate ValidOnPort(listeners: seq<ListenerState>, port: int, members: seq<nat>) {
    && Ascending(members)
    && forall i: nat :: i in members <==> i < |listeners| && listeners[i].Valid() && listeners[i].internalPort == port
  }

  lemma {:induction false} MembersExist(listeners: seq<ListenerState>, port: int) returns (members: seq<nat>)
    ensures ValidOnPort(listeners, port, members)
  {
    members := [];
    if listeners != [] {
      var n := |listeners| - 1;
      var before := MembersExist(listeners[..n], port);
      if listeners[n].Valid() && listeners[n].internalPort == port {
        AscendingGrows(before, n);
        members := before + [n];
      } else {
        members := before;
      }
    }
  }

  function Positions(infra: Infra, listeners: seq<ListenerState>, members: seq<nat>): seq<nat>
    requires forall x | 0 <= x < |members| :: members[x] < |listeners|
  {
    seq(|members|, x requires 0 <= x < |members| => Position(infra, listeners, members[x]))
  }

  lemma MemberIsValid(listeners: seq<ListenerState>, port: int, members: seq<nat>, x: nat)
    requires ValidOnPort(listeners, port, members) && x < |members|
    ensures members[x] < |listeners| && listeners[members[x]].Valid() && listeners[members[x]].internalPort == port
  {
    assert members[x] in members;
  }

  lemma MembersAreValid(listeners: seq<ListenerState>, port: int, members: seq<nat>)
    requires ValidOnPort(listeners, port, members)
    ensures forall x | 0 <= x < |members| ::
      members[x] < |listeners| && listeners[members[x]].Valid() && listeners[members[x]].internalPort == port
  {
    forall x | 0 <= x < |members|
      ensures members[x] < |listeners| && listeners[members[x]].Valid() && listeners[members[x]].internalPort == port
    {
      MemberIsValid(listeners, port, members, x);
    }
  }

  /** The compiled entries of a port are those of its valid listeners. */
  lemma PositionsAreOnPort(infra: Infra, listeners: seq<ListenerState>, port: int, members: seq<nat>)
    requires ValidOnPort(listeners, port, members)
    requires forall x | 0 <= x < |members| :: members[x] < |listeners| && listeners[members[x]].Valid()
    ensures
      var entries := Entries(infra, listeners);
      AreOnPort(entries, |entries|, port, Positions(infra, listeners, members))
  {
    var entries, positions := Entries(infra, listeners), Positions(infra, listeners, members);
    forall x, y | 0 <= x < y < |positions|
      ensures positions[x] < positions[y]
    {
      PositionsAscend(infra, listeners, members[x], members[y]);
    }
    forall e: nat
      ensures e in positions <==> e < |entries| && entries[e].internalPort == port
    {
      PositionIsMember(infra, listeners, port, members, e);
    }
  }

  lemma PositionIsMember(infra: Infra, listeners: seq<ListenerState>, port: int, members: seq<nat>, e: nat)
    requires ValidOnPort(listeners, port, members)
    requires forall x | 0 <= x < |members| :: members[x] < |listeners| && listeners[members[x]].Valid()
    ensures e in Positions(infra, listeners, members) <==> e < |Entries(infra, listeners)| && Entries(infra, listeners)[e].internalPort == port
  {
    var positions := Positions(infra, listeners, members);
    if e in positions {
      var x :| 0 <= x < |positions| && positions[x] == e;
      MemberIsValid(listeners, port, members, x);
      EntryIsAtPosition(infra, listeners, members[x]);
    }
    if e < |Entries(infra, listeners)| && Entries(infra, listeners)[e].internalPort == port {
      var i := PositionIsReached(infra, listeners, e);
      EntryIsAtPosition(infra, listeners, i);
      assert i in members;
      var x :| 0 <= x < |members| && members[x] == i;
      assert positions[x] == e;
    }
  }

  // ------------------------------------------------------- own routes on ports --

  function PortsOf(k: Checks, inputs: Inputs, order: seq<string>): map<int, PortTable>
    requires (forall x | 0 <= x < |order| :: order[x] in ContentOf(inputs).routes) && TableFor(k, ContentOf(inputs), order).Some?
  {
    TableFor(k, ContentOf(inputs), order).value.byPort
  }

  /** The table of a listener: its name, hostname and certificate, and exactly its own routes. */
  ghost predicate IsOwnTable(k: Checks, inputs: Inputs, specs: seq<RouteSpec>, i: nat, x: ListenerTable)
    requires i < |inputs.listeners|
  {
    var l := inputs.listeners[i];
    && x.name == EffectiveName(l) && x.hostname == l.hostname && x.hasCert == HasTls(l)
    && forall r :: r in x.routes <==> OwnRoute(k, inputs, specs, i, r)
  }

  /** One of the tables is the listener's own. */
  ghost predicate HasOwn(k: Checks, inputs: Inputs, specs: seq<RouteSpec>, i: nat, tables: seq<ListenerTable>)
    requires i < |inputs.listeners|
  {
    exists t | t in tables :: IsOwnTable(k, inputs, specs, i, t)
  }

  /** The table is one of the listeners' own. */
  ghost predicate BelongsTo(k: Checks, inputs: Inputs, specs: seq<RouteSpec>, members: seq<nat>, t: ListenerTable)
    requires forall x | 0 <= x < |members| :: members[x] < |inputs.listeners|
  {
    exists x | 0 <= x < |members| :: IsOwnTable(k, inputs, specs, members[x], t)
  }

  /** A port is there exactly when some valid listener has it, and holds one table for each of them,
      its own. */
  ghost predicate ServesOwn(k: Checks, inputs: Inputs, specs: seq<RouteSpec>, byPort: map<int, PortTable>, port: int, members: seq<nat>)
    requires forall x | 0 <= x < |members| :: members[x] < |inputs.listeners|
  {
    && (port in byPort <==> members != [])
    && (port in byPort ==>
          var tables := byPort[port].listeners;
          && |tables| == |members|
          && (forall x | 0 <= x < |members| :: HasOwn(k, inputs, specs, members[x], tables))
          && (forall t | t in tables :: BelongsTo(k, inputs, specs, members, t)))
  }

  /** The compiled table of a listener. */
  function TableAt(k: Checks, inputs: Inputs, order: seq<string>, i: nat): ListenerTable
    requires forall x | 0 <= x < |order| :: order[x] in ContentOf(inputs).routes
    requires i < |inputs.listeners| && inputs.listeners[i].Valid()
  {
    EntryIsAtPosition(inputs.infra, inputs.listeners, i);
    var content := ContentOf(inputs);
    ListenerTables(k, content.gateway.listeners, RoutesIn(content, order), SecretOf(content))[Position(inputs.infra, inputs.listeners, i)]
  }

  lemma TableAtIs(k: Checks, inputs: Inputs, order: seq<string>, i: nat)
    requires forall x | 0 <= x < |order| :: order[x] in ContentOf(inputs).routes
    requires i < |inputs.listeners| && inputs.listeners[i].Valid()
    ensures
      var l, x := inputs.listeners[i], TableAt(k, inputs, order, i);
      x.name == EffectiveName(l) && x.hostname == l.hostname && x.hasCert == HasTls(l) && x.routes == Served(k, inputs, order, i)
  {
    EntryIsAtPosition(inputs.infra, inputs.listeners, i);
  }

  /** A port holds exactly the compiled tables of its valid listeners. */
  lemma PortHolds(k: Checks, inputs: Inputs, order: seq<string>, port: int, members: seq<nat>)
    requires IsOrder(ContentOf(inputs), order) && TableFor(k, ContentOf(inputs), order).Some?
    requires ValidOnPort(inputs.listeners, port, members)
    requires forall x | 0 <= x < |members| :: members[x] < |inputs.listeners| && inputs.listeners[members[x]].Valid()
    ensures
      var byPort := PortsOf(k, inputs, order);
      && (port in byPort <==> members != [])
      && (port in byPort ==>
            && |byPort[port].listeners| == |members|
            && forall t :: t in byPort[port].listeners <==> exists x | 0 <= x < |members| :: t == TableAt(k, inputs, order, members[x]))
  {
    var content := ContentOf(inputs);
    var positions := Positions(inputs.infra, inputs.listeners, members);
    PositionsAreOnPort(inputs.infra, inputs.listeners, port, members);
    PortHoldsItsListeners(k, Of(content), content.gateway, RoutesIn(content, order), SecretOf(content), port, positions);
    if members != [] {
      var tables := Select(ListenerTables(k, content.gateway.listeners, RoutesIn(content, order), SecretOf(content)), positions);
      var held := PortsOf(k, inputs, order)[port].listeners;
      SameMembers(held, tables);
      assert forall x | 0 <= x < |members| :: tables[x] == TableAt(k, inputs, order, members[x]);
    }
  }

  lemma SameMembers<T>(a: seq<T>, b: seq<T>)
    requires multiset(a) == multiset(b)
    ensures |a| == |b| && forall x :: x in a <==> x in b
  {
    assert |multiset(a)| == |a| && |multiset(b)| == |b|;
    forall x
      ensures x in a <==> x in b
    {
      assert x in a <==> x in multiset(a);
      assert x in b <==> x in multiset(b);
    }
  }

  lemma OwnTableExactly(k: Checks, encode: AuthConfig -> string, inputs: Inputs, specs: seq<RouteSpec>, order: seq<string>, i: nat)
    requires IsOrder(ContentOf(inputs), order) && CompiledFrom(k, encode, inputs, specs) && NoneMisplaced(specs, inputs.listeners)
    requires i < |inputs.listeners| && inputs.listeners[i].Valid()
    ensures IsOwnTable(k, inputs, specs, i, TableAt(k, inputs, order, i))
  {
    TableAtIs(k, inputs, order, i);
    forall r
      ensures r in TableAt(k, inputs, order, i).routes <==> OwnRoute(k, inputs, specs, i, r)
    {
      PlacedRoutesAreOwn(k, encode, inputs, specs, order, i, r);
    }
  }

  lemma PlacedPortServesOwn(k: Checks, encode: AuthConfig -> string, inputs: Inputs, specs: seq<RouteSpec>, order: seq<string>,
                            port: int, members: seq<nat>)
    requires IsOrder(ContentOf(inputs), order) && TableFor(k, ContentOf(inputs), order).Some?
    requires CompiledFrom(k, encode, inputs, specs) && NoneMisplaced(specs, inputs.listeners)
    requires ValidOnPort(inputs.listeners, port, members)
    requires forall x | 0 <= x < |members| :: members[x] < |inputs.listeners| && inputs.listeners[members[x]].Valid()
    ensures ServesOwn(k, inputs, specs, PortsOf(k, inputs, order), port, members)
  {
    PortIsThere(k, inputs, order, port, members);
    if members != [] {
      var tables := PortsOf(k, inputs, order)[port].listeners;
      forall x | 0 <= x < |members|
        ensures HasOwn(k, inputs, specs, members[x], tables)
      {
        PortHoldsEach(k, inputs, order, port, members, x);
        OwnTableBelongs(k, encode, inputs, specs, order, members, x, tables);
      }
      forall t | t in tables
        ensures BelongsTo(k, inputs, specs, members, t)
      {
        var x := PortHoldsOnly(k, inputs, order, port, members, t);
        OwnTableBelongs(k, encode, inputs, specs, order, members, x, tables);
      }
    }
  }

  lemma PortIsThere(k: Checks, inputs: Inputs, order: seq<string>, port: int, members: seq<nat>)
    requires IsOrder(ContentOf(inputs), order) && TableFor(k, ContentOf(inputs), order).Some?
    requires ValidOnPort(inputs.listeners, port, members)
    requires forall x | 0 <= x < |members| :: members[x] < |inputs.listeners| && inputs.listeners[members[x]].Valid()
    ensures port in PortsOf(k, inputs, order) <==> members != []
    ensures members != [] ==> |PortsOf(k, inputs, order)[port].listeners| == |members|
  {
    PortHolds(k, inputs, order, port, members);
  }

  lemma PortHoldsEach(k: Checks, inputs: Inputs, order: seq<string>, port: int, members: seq<nat>, x: nat)
    requires IsOrder(ContentOf(inputs), order) && TableFor(k, ContentOf(inputs), order).Some?
    requires ValidOnPort(inputs.listeners, port, members) && x < |members|
    requires forall y | 0 <= y < |members| :: members[y] < |inputs.listeners| && inputs.listeners[members[y]].Valid()
    ensures port in PortsOf(k, inputs, order) && TableAt(k, inputs, order, members[x]) in PortsOf(k, inputs, order)[port].listeners
  {
    PortHolds(k, inputs, order, port, members);
  }

  lemma PortHoldsOnly(k: Checks, inputs: Inputs, order: seq<string>, port: int, members: seq<nat>, t: ListenerTable) returns (x: nat)
    requires IsOrder(ContentOf(inputs), order) && TableFor(k, ContentOf(inputs), order).Some?
    requires ValidOnPort(inputs.listeners, port, members)
    requires forall y | 0 <= y < |members| :: members[y] < |inputs.listeners| && inputs.listeners[members[y]].Valid()
    requires port in PortsOf(k, inputs, order) && t in PortsOf(k, inputs, order)[port].listeners
    ensures x < |members| && t == TableAt(k, inputs, order, members[x])
  {
    PortHolds(k, inputs, order, port, members);
    x :| 0 <= x < |members| && t == TableAt(k, inputs, order, members[x]);
  }

  lemma OwnTableBelongs(k: Checks, encode: AuthConfig -> string, inputs: Inputs, specs: seq<RouteSpec>, order: seq<string>,
                        members: seq<nat>, x: nat, tables: seq<ListenerTable>)
    requires IsOrder(ContentOf(inputs), order) && CompiledFrom(k, encode, inputs, specs) && NoneMisplaced(specs, inputs.listeners)
    requires x < |members| && forall y | 0 <= y < |members| :: members[y] < |inputs.listeners| && inputs.listeners[members[y]].Valid()
    requires TableAt(k, inputs, order, members[x]) in tables
    ensures HasOwn(k, inputs, specs, members[x], tables) && BelongsTo(k, inputs, specs, members, TableAt(k, inputs, order, members[x]))
  {
    var own := TableAt(k, inputs, order, members[x]);
    assert IsOwnTable(k, inputs, specs, members[x], own) by { OwnTableExactly(k, encode, inputs, specs, order, members[x]); }
  }

  /** On a port with different hostnames a table is found by its hostname. */
  lemma HostnameFinds(k: Checks, inputs: Inputs, order: seq<string>, port: int, members: seq<nat>, i: nat, t: ListenerTable)
    requires IsOrder(ContentOf(inputs), order) && TableFor(k, ContentOf(inputs), order).Some? && HostsApart(inputs.listeners)
    requires ValidOnPort(inputs.listeners, port, members) && i in members
    requires port in PortsOf(k, inputs, order) && t in PortsOf(k, inputs, order)[port].listeners
    requires i < |inputs.listeners| && inputs.listeners[i].Valid() && t.hostname == inputs.listeners[i].hostname
    ensures t.routes == Served(k, inputs, order, i)
  {
    MembersAreValid(inputs.listeners, port, members);
    var x := PortHoldsOnly(k, inputs, order, port, members, t);
    var j := members[x];
    TableAtIs(k, inputs, order, j);
    assert inputs.listeners[j].internalPort == inputs.listeners[i].internalPort;
    assert j == i;
  }

  lemma MisplacedPortDoesNot(k: Checks, encode: AuthConfig -> string, inputs: Inputs, specs: seq<RouteSpec>, order: seq<string>,
                             uid: string, i: nat, members: seq<nat>)
    requires IsOrder(ContentOf(inputs), order) && TableFor(k, ContentOf(inputs), order).Some?
    requires CompiledFrom(k, encode, inputs, specs) && HostsApart(inputs.listeners)
    requires AttachedTo(specs, inputs.listeners, uid, i) && Superseded(inputs.listeners, i)
    requires ValidOnPort(inputs.listeners, inputs.listeners[i].internalPort, members)
    requires forall x | 0 <= x < |members| :: members[x] < |inputs.listeners|
    ensures !ServesOwn(k, inputs, specs, PortsOf(k, inputs, order), inputs.listeners[i].internalPort, members)
  {
    var port, byPort := inputs.listeners[i].internalPort, PortsOf(k, inputs, order);
    var lost := MisplacedIsLost(k, encode, inputs, specs, order, uid, i);
    assert i in members;
    var y :| 0 <= y < |members| && members[y] == i;
    if ServesOwn(k, inputs, specs, byPort, port, members) {
      assert HasOwn(k, inputs, specs, members[y], byPort[port].listeners);
      var t :| t in byPort[port].listeners && IsOwnTable(k, inputs, specs, i, t);
      assert lost in t.routes;
      HostnameFinds(k, inputs, order, port, members, i, t);
    }
  }

  /** The port tables of a pod hold exactly one table for each valid listener, with exactly the
      routes attached to it, if and only if no route is attached to a listener whose effective name
      a later valid listener also has. */
  lemma PortsServeOwnExactly(k: Checks, encode: AuthConfig -> string, inputs: Inputs, specs: seq<RouteSpec>, order: seq<string>)
    requires IsOrder(ContentOf(inputs), order) && TableFor(k, ContentOf(inputs), order).Some?
    requires CompiledFrom(k, encode, inputs, specs) && HostsApart(inputs.listeners)
    ensures NoneMisplaced(specs, inputs.listeners) <==> OwnOnAllPorts(k, inputs, specs, PortsOf(k, inputs, order))
  {
    var byPort := PortsOf(k, inputs, order);
    if uid, i: nat :| AttachedTo(specs, inputs.listeners, uid, i) && Superseded(inputs.listeners, i) {
      var members := MembersExist(inputs.listeners, inputs.listeners[i].internalPort);
      MembersAreValid(inputs.listeners, inputs.listeners[i].internalPort, members);
      MisplacedPortDoesNot(k, encode, inputs, specs, order, uid, i, members);
    } else {
      forall port, members | ValidOnPort(inputs.listeners, port, members)
        ensures (forall x | 0 <= x < |members| :: members[x] < |inputs.listeners|) && ServesOwn(k, inputs, specs, byPort, port, members)
      {
        MembersAreValid(inputs.listeners, port, members);
        PlacedPortServesOwn(k, encode, inputs, specs, order, port, members);
      }
    }
  }

  ghost predicate OwnOnAllPorts(k: Checks, inputs: Inputs, specs: seq<RouteSpec>, byPort: map<int, PortTable>) {
    forall port, members | ValidOnPort(inputs.listeners, port, members) ::
      (forall x | 0 <= x < |members| :: members[x] < |inputs.listeners|) && ServesOwn(k, inputs, specs, byPort, port, members)
  }

  // --------------------------------------------------- routes as specified --

  /** A rule table as specified: the matches and kind, the backends of positive weight with their
      sum, and failing closed exactly when it must. */
  ghost predicate IsSpecifiedRule(k: Checks, spec: RouteSpec, v: nat, rule: RuleTable)
    requires v < |spec.rules|
  {
    && rule.matches == spec.rules[v].matches && rule.grpc == spec.grpc
    && rule.backends == Balancing.Kept(spec.rules[v].backends) && rule.total == Balancing.Total(Balancing.Kept(spec.rules[v].backends))
    && (rule.failClosed <==>
          Marked(k, spec.grpc, spec.rules[v]) || (Authenticates(k, spec.grpc, spec.rules[v]) && Unbuildable(k, spec.rules[v].auth.value)))
  }

  ghost predicate IsSpecifiedRoute(k: Checks, spec: RouteSpec, route: RouteTable) {
    && route.namespace == spec.namespace && route.name == spec.name && route.hostnames == spec.hostnames && route.created == spec.created
    && |route.rules| == |spec.rules| && forall v | 0 <= v < |spec.rules| :: IsSpecifiedRule(k, spec, v, route.rules[v])
  }

  /** A published route is served as one of the specifications with its UID says. */
  lemma ServedRouteIsSpecified(k: Checks, encode: AuthConfig -> string, inputs: Inputs, specs: seq<RouteSpec>, uid: string) returns (s: nat)
    requires CompiledFrom(k, encode, inputs, specs) && Decodes(k, encode) && Identified(specs)
    requires uid in ContentOf(inputs).routes
    ensures s < |specs| && specs[s].uid == uid && !specs[s].unsupported
    ensures IsSpecifiedRoute(k, specs[s], RouteTableOf(k, ContentOf(inputs).routes[uid], SecretOf(ContentOf(inputs))))
  {
    var content := ContentOf(inputs);
    s := RouteHasSpec(k, encode, inputs, specs, uid);
    var route := RouteTableOf(k, content.routes[uid], SecretOf(content));
    forall v | 0 <= v < |specs[s].rules|
      ensures IsSpecifiedRule(k, specs[s], v, route.rules[v])
    {
      SpecFailsClosedExactly(k, encode, inputs, specs, uid, s, v);
    }
  }

  /** Whatever rule answers a request on a port, it is one of a route attached to a valid listener of
      that port whose hostname the host matches, and it is as specified. */
  lemma AnswerIsSpecified(k: Checks, encode: AuthConfig -> string, inputs: Inputs, specs: seq<RouteSpec>, order: seq<string>,
                          port: int, host: string, r: Request, w: Candidate)
    returns (i: nat, uid: string, s: nat)
    requires IsOrder(ContentOf(inputs), order) && TableFor(k, ContentOf(inputs), order).Some?
    requires CompiledFrom(k, encode, inputs, specs) && Decodes(k, encode) && Identified(specs) && NoneMisplaced(specs, inputs.listeners)
    requires port in PortsOf(k, inputs, order) && Resolves(PortsOf(k, inputs, order)[port], host, r, Some(w))
    ensures AttachedTo(specs, inputs.listeners, uid, i) && inputs.listeners[i].internalPort == port
    ensures Hostnames.HostnameMatches(inputs.listeners[i].hostname, host)
    ensures s < |specs| && specs[s].uid == uid && IsSpecifiedRoute(k, specs[s], w.route) && w.rule < |specs[s].rules|
  {
    var t := PortsOf(k, inputs, order)[port];
    assert Owns(t, w.listener, host) && w.route in t.listeners[w.listener].routes && w.rule < |w.route.rules|;
    var members := MembersExist(inputs.listeners, port);
    MembersAreValid(inputs.listeners, port, members);
    var table := t.listeners[w.listener];
    assert table in t.listeners;
    var x := PortHoldsOnly(k, inputs, order, port, members, table);
    i := members[x];
    TableAtIs(k, inputs, order, i);
    PlacedRoutesAreOwn(k, encode, inputs, specs, order, i, w.route);
    uid :| uid in ContentOf(inputs).routes && AttachedTo(specs, inputs.listeners, uid, i) &&
      w.route == RouteTableOf(k, ContentOf(inputs).routes[uid], SecretOf(ContentOf(inputs)));
    s := ServedRouteIsSpecified(k, encode, inputs, specs, uid);
  }
}
