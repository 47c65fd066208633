/** The tables of all gateways on one pod: when merging them loses nothing, and when every merged
    port is well formed. */
module Merging {
  import opened Strings
  import opened Compiled
  import opened Building
  import opened Loading
  import opened Validating
  import opened Compiling
  import opened Matching
  import Ports
  import Ownership
  import Agreement
  import Hostnames

  // ----------------------------------------------------------------- merge --

  predicate Offers(gateways: map<string, GatewayTable>, uid: string, port: int) {
    uid in gateways && port in gateways[uid].byPort
  }

  /** Gateways that share an internal port have the same table there. */
  ghost predicate PortsAgree(gateways: map<string, GatewayTable>) {
    forall u, v, port | Offers(gateways, u, port) && Offers(gateways, v, port) :: gateways[u].byPort[port] == gateways[v].byPort[port]
  }

  /** Nothing any gateway offers is overwritten. */
  ghost predicate KeepsAll(gateways: map<string, GatewayTable>, merged: map<int, PortTable>) {
    forall uid, port | Offers(gateways, uid, port) :: port in merged && merged[port] == gateways[uid].byPort[port]
  }

  /** What is merged comes from the gateways seen, and nothing of theirs is missing. */
  ghost predicate MergedFrom(gateways: map<string, GatewayTable>, seen: set<string>, merged: map<int, PortTable>) {
    && (forall port | port in merged :: exists uid | uid in seen :: Offers(gateways, uid, port) && merged[port] == gateways[uid].byPort[port])
    && (forall uid, port | uid in seen && Offers(gateways, uid, port) :: port in merged)
  }

  /** A map walk picks the entries in any order. */
  method Next<T>(rest: set<T>) returns (next: T)
    requires rest != {}
    ensures next in rest
  {
    next :| next in rest;
  }

  method MergePorts(merged: map<int, PortTable>, table: GatewayTable) returns (more: map<int, PortTable>)
    ensures more == merged + table.byPort
  {
    more := merged;
    var rest := table.byPort.Keys;
    while rest != {}
      invariant Added(merged, table.byPort, rest, more)
    {
      var port := Next(rest);
      AddStep(merged, table.byPort, rest, port, more);
      rest := rest - {port};
      more := more[port := table.byPort[port]];
    }
    assert table.byPort - {} == table.byPort;
  }

  ghost predicate Added(merged: map<int, PortTable>, byPort: map<int, PortTable>, rest: set<int>, more: map<int, PortTable>) {
    rest <= byPort.Keys && more == merged + (byPort - rest)
  }

  lemma AddStep(merged: map<int, PortTable>, byPort: map<int, PortTable>, rest: set<int>, port: int, more: map<int, PortTable>)
    requires Added(merged, byPort, rest, more) && port in rest
    ensures Added(merged, byPort, rest - {port}, more[port := byPort[port]])
  {
    assert byPort - (rest - {port}) == (byPort - rest)[port := byPort[port]];
  }

  /** `MergeTables`, whatever order the gateways come in. */
  method MergeTables(gateways: map<string, GatewayTable>) returns (merged: map<int, PortTable>)
    ensures forall port | port in merged :: exists uid :: Offers(gateways, uid, port) && merged[port] == gateways[uid].byPort[port]
    ensures KeepsAll(gateways, merged) <==> PortsAgree(gateways)
  {
    merged := map[];
    var rest := gateways.Keys;
    ghost var seen: set<string> := {};
    while rest != {}
      invariant rest <= gateways.Keys && seen == gateways.Keys - rest
      invariant MergedFrom(gateways, seen, merged)
    {
      var uid :| uid in rest;
      rest := rest - {uid};
      var more := MergePorts(merged, gateways[uid]);
      MergeStep(gateways, seen, merged, uid);
      merged := more;
      seen := seen + {uid};
    }
    MergeIsExact(gateways, merged);
  }

  lemma MergeStep(gateways: map<string, GatewayTable>, seen: set<string>, merged: map<int, PortTable>, uid: string)
    requires MergedFrom(gateways, seen, merged) && uid in gateways
    ensures MergedFrom(gateways, seen + {uid}, merged + gateways[uid].byPort)
  {
    var more := merged + gateways[uid].byPort;
    forall port | port in more
      ensures exists u | u in seen + {uid} :: Offers(gateways, u, port) && more[port] == gateways[u].byPort[port]
    {
      if port in gateways[uid].byPort {
        assert Offers(gateways, uid, port);
      } else {
        var u :| u in seen && Offers(gateways, u, port) && merged[port] == gateways[u].byPort[port];
        assert u in seen + {uid};
      }
    }
  }

  lemma MergeIsExact(gateways: map<string, GatewayTable>, merged: map<int, PortTable>)
    requires MergedFrom(gateways, gateways.Keys, merged)
    ensures KeepsAll(gateways, merged) <==> PortsAgree(gateways)
  {
    if KeepsAll(gateways, merged) {
      forall u, v, port | Offers(gateways, u, port) && Offers(gateways, v, port)
        ensures gateways[u].byPort[port] == gateways[v].byPort[port]
      {
        assert merged[port] == gateways[u].byPort[port];
      }
    }
    if PortsAgree(gateways) {
      forall uid, port | Offers(gateways, uid, port)
        ensures port in merged && merged[port] == gateways[uid].byPort[port]
      {
        var u :| u in gateways && Offers(gateways, u, port) && merged[port] == gateways[u].byPort[port];
      }
    }
  }

  // ------------------------------------------------------ allocated ports --

  /** The gateway's listeners carry the internal ports one allocator gave out. */
  ghost predicate Allocated(held: Ports.PortMap, gateway: GatewayConfig) {
    forall i | 0 <= i < |gateway.listeners| ::
      var l := gateway.listeners[i];
      && l.port >= 0
      && Ports.FullKey(gateway.uid, Ports.GroupKey(l.port, l.protocol)) in held
      && held[Ports.FullKey(gateway.uid, Ports.GroupKey(l.port, l.protocol))] == l.internalPort
  }

  lemma PortHasListener(listeners: seq<Listener>, n: nat, port: int) returns (i: nat)
    requires n <= |listeners| && port in PortIndex(listeners, n)
    ensures i < n && listeners[i].internalPort == port
  {
    PortIndexIsComplete(listeners, n, port);
    i := PortIndex(listeners, n)[port][0];
  }

  /** Listeners of one allocator share an internal port only within one group of one gateway. */
  lemma SharedPortIsOneGroup(ledger: Ports.Ledger, g: GatewayConfig, h: GatewayConfig, i: nat, j: nat)
    requires Ports.Injective(ledger) && Allocated(ledger.held, g) && Allocated(ledger.held, h)
    requires Ports.ProperUid(g.uid) && Ports.ProperUid(h.uid)
    requires i < |g.listeners| && j < |h.listeners| && g.listeners[i].internalPort == h.listeners[j].internalPort
    ensures g.uid == h.uid && g.listeners[i].port == h.listeners[j].port && g.listeners[i].protocol == h.listeners[j].protocol
  {
    var a, b := g.listeners[i], h.listeners[j];
    Ports.FullKeysNameGateways(g.uid, Ports.GroupKey(a.port, a.protocol), h.uid, Ports.GroupKey(b.port, b.protocol));
    Ports.GroupKeysNameGroups(a.port, a.protocol, b.port, b.protocol);
  }

  /** Tables built from gateways with ports of one allocator. */
  ghost predicate OfOneLedger(ledger: Ports.Ledger, gateways: map<string, GatewayTable>) {
    forall uid | uid in gateways ::
      && gateways[uid].generation.Of?
      && var gateway := gateways[uid].generation.content.gateway;
      && gateway.uid == uid && Ports.ProperUid(uid) && Allocated(ledger.held, gateway)
      && gateways[uid].byPort.Keys <= PortIndex(gateway.listeners, |gateway.listeners|).Keys
  }

  /** The merge of such tables overwrites nothing. */
  lemma OneLedgerMerges(ledger: Ports.Ledger, gateways: map<string, GatewayTable>)
    requires Ports.Injective(ledger) && OfOneLedger(ledger, gateways)
    ensures PortsAgree(gateways)
  {
    forall u, v, port | Offers(gateways, u, port) && Offers(gateways, v, port)
      ensures u == v
    {
      var g, h := gateways[u].generation.content.gateway, gateways[v].generation.content.gateway;
      assert port in gateways[u].byPort.Keys && port in gateways[v].byPort.Keys;
      var i := PortHasListener(g.listeners, |g.listeners|, port);
      var j := PortHasListener(h.listeners, |h.listeners|, port);
      SharedPortIsOneGroup(ledger, g, h, i, j);
    }
  }

  // ------------------------------------------------------ well-formed ports --

  predicate Apart(a: Listener, b: Listener) {
    a.port == b.port ==> a.protocol == b.protocol && a.hostname != b.hostname
  }

  /** What the listener merge leaves valid never clashes. */
  lemma {:induction false} EntriesAreApart(infra: Infra, listeners: seq<ListenerState>, e: nat, f: nat)
    requires forall i, j | 0 <= i < j < |listeners| && listeners[i].Valid() && listeners[j].Valid() :: !Ownership.Clash(listeners[i], listeners[j])
    requires e < f < |Entries(infra, listeners)|
    ensures Apart(Entries(infra, listeners)[e], Entries(infra, listeners)[f])
  {
    var n := |listeners| - 1;
    var front := Entries(infra, listeners[..n]);
    if f < |front| {
      EntriesAreApart(infra, listeners[..n], e, f);
    } else {
      var i := Agreement.EntryHasListener(infra, listeners[..n], e);
      assert !Ownership.Clash(listeners[i], listeners[n]);
    }
  }

  lemma {:induction false} ClassStaysDistinct(tables: seq<ListenerTable>, c: int)
    requires DistinctHostnames(tables)
    ensures DistinctHostnames(OfClass(tables, c))
  {
    if tables != [] {
      var n := |tables| - 1;
      var front := OfClass(tables[..n], c);
      ClassStaysDistinct(tables[..n], c);
      OfClassKeeps(tables[..n], c);
      forall i | 0 <= i < |front|
        ensures front[i].hostname != tables[n].hostname
      {
        var j :| 0 <= j < n && tables[j] == front[i];
      }
    }
  }

  lemma SortStaysDistinct(tables: seq<ListenerTable>)
    requires DistinctHostnames(tables)
    ensures DistinctHostnames(BySpecificity(tables))
  {
    ClassStaysDistinct(tables, 2);
    ClassStaysDistinct(tables, 1);
    ClassStaysDistinct(tables, 0);
    OfClassKeeps(tables, 2);
    OfClassKeeps(tables, 1);
    OfClassKeeps(tables, 0);
  }

  /** Routes of one kind on one listener differ in namespaced name, as Kubernetes objects of one
      kind do. */
  ghost predicate NamedApart(content: Content) {
    forall a, b, name |
      && a in content.routes && b in content.routes
      && name in content.routes[a].listeners && name in content.routes[b].listeners
      && content.routes[a].grpc == content.routes[b].grpc
      && content.routes[a].namespace + "/" + content.routes[a].name == content.routes[b].namespace + "/" + content.routes[b].name ::
      a == b
  }

  lemma AttachedKeysDiffer(k: Checks, content: Content, order: seq<string>, name: string)
    requires IsOrder(content, order) && NamedApart(content)
    ensures DistinctKeys(Attached(k, RoutesIn(content, order), SecretOf(content), name))
  {
    var routes := RoutesIn(content, order);
    var attached := Attached(k, routes, SecretOf(content), name);
    forall a, b, u, v {:trigger a.rules[u], b.rules[v]} |
      && a in attached && b in attached && a.Key() == b.Key()
      && 0 <= u < |a.rules| && 0 <= v < |b.rules| && a.rules[u].grpc == b.rules[v].grpc
      ensures a == b
    {
      AttachedHas(k, routes, SecretOf(content), name, a);
      AttachedHas(k, routes, SecretOf(content), name, b);
      var i :| 0 <= i < |routes| && name in routes[i].listeners && a == RouteTableOf(k, routes[i], SecretOf(content));
      var j :| 0 <= j < |routes| && name in routes[j].listeners && b == RouteTableOf(k, routes[j], SecretOf(content));
      assert order[i] in content.routes && order[j] in content.routes;
    }
  }

  /** Listeners of one internal port have different hostnames. */
  lemma PortHostnamesDiffer(ledger: Ports.Ledger, gateway: GatewayConfig, tables: seq<ListenerTable>, port: int)
    requires Ports.Injective(ledger) && Allocated(ledger.held, gateway) && Ports.ProperUid(gateway.uid)
    requires forall e, f | 0 <= e < f < |gateway.listeners| :: Apart(gateway.listeners[e], gateway.listeners[f])
    requires |tables| == |gateway.listeners| && forall i | 0 <= i < |tables| :: tables[i].hostname == gateway.listeners[i].hostname
    requires port in PortIndex(gateway.listeners, |gateway.listeners|)
    ensures DistinctHostnames(Select(tables, PortIndex(gateway.listeners, |gateway.listeners|)[port]))
  {
    var indices := PortIndex(gateway.listeners, |gateway.listeners|)[port];
    PortIndexIsComplete(gateway.listeners, |gateway.listeners|, port);
    forall x, y | 0 <= x < y < |indices|
      ensures tables[indices[x]].hostname != tables[indices[y]].hostname
    {
      SharedPortIsOneGroup(ledger, gateway, gateway, indices[x], indices[y]);
      assert Apart(gateway.listeners[indices[x]], gateway.listeners[indices[y]]);
    }
  }

  lemma SortedFrom(tables: seq<ListenerTable>, i: nat) returns (j: nat)
    requires i < |BySpecificity(tables)|
    ensures j < |tables| && BySpecificity(tables)[i] == tables[j]
  {
    OfClassKeeps(tables, 2);
    OfClassKeeps(tables, 1);
    OfClassKeeps(tables, 0);
    assert BySpecificity(tables)[i] in tables;
    j :| 0 <= j < |tables| && tables[j] == BySpecificity(tables)[i];
  }

  /** Non-clashing listeners with ports of one allocator compile to ports on which rule lookup is
      unambiguous. */
  lemma AllocatedPortsAreWellFormed(k: Checks, ledger: Ports.Ledger, inputs: Inputs, order: seq<string>, port: int)
    requires Ports.Injective(ledger) && Allocated(ledger.held, ContentOf(inputs).gateway) && Ports.ProperUid(inputs.uid)
    requires forall i, j | 0 <= i < j < |inputs.listeners| && inputs.listeners[i].Valid() && inputs.listeners[j].Valid() ::
      !Ownership.Clash(inputs.listeners[i], inputs.listeners[j])
    requires forall i | 0 <= i < |inputs.listeners| ::
      LowerCase(inputs.listeners[i].hostname) && |inputs.listeners[i].hostname| < Hostnames.ExactBase
    requires IsOrder(ContentOf(inputs), order) && NamedApart(ContentOf(inputs))
    requires TableFor(k, ContentOf(inputs), order).Some? && port in TableFor(k, ContentOf(inputs), order).value.byPort
    ensures WellFormed(TableFor(k, ContentOf(inputs), order).value.byPort[port])
  {
    var content := ContentOf(inputs);
    var gateway := content.gateway;
    var tables := ListenerTables(k, gateway.listeners, RoutesIn(content, order), SecretOf(content));
    var selected := Select(tables, PortIndex(gateway.listeners, |gateway.listeners|)[port]);
    forall e, f | 0 <= e < f < |gateway.listeners|
      ensures Apart(gateway.listeners[e], gateway.listeners[f])
    {
      EntriesAreApart(inputs.infra, inputs.listeners, e, f);
    }
    PortHostnamesDiffer(ledger, gateway, tables, port);
    SortStaysDistinct(selected);
    var sorted := BySpecificity(selected);
    forall i | 0 <= i < |sorted|
      ensures LowerCase(sorted[i].hostname) && |sorted[i].hostname| < Hostnames.ExactBase && DistinctKeys(sorted[i].routes)
    {
      var j := SortedFrom(selected, i);
      SelectedIsWellFormed(k, inputs, order, PortIndex(gateway.listeners, |gateway.listeners|)[port][j]);
    }
  }

  lemma SelectedIsWellFormed(k: Checks, inputs: Inputs, order: seq<string>, e: nat)
    requires forall i | 0 <= i < |inputs.listeners| ::
      LowerCase(inputs.listeners[i].hostname) && |inputs.listeners[i].hostname| < Hostnames.ExactBase
    requires IsOrder(ContentOf(inputs), order) && NamedApart(ContentOf(inputs))
    requires e < |ContentOf(inputs).gateway.listeners|
    ensures
      var content := ContentOf(inputs);
      var table := ListenerTables(k, content.gateway.listeners, RoutesIn(content, order), SecretOf(content))[e];
      LowerCase(table.hostname) && |table.hostname| < Hostnames.ExactBase && DistinctKeys(table.routes)
  {
    var content := ContentOf(inputs);
    var i := Agreement.EntryHasListener(inputs.infra, inputs.listeners, e);
    AttachedKeysDiffer(k, content, order, content.gateway.listeners[e].name);
  }
}
