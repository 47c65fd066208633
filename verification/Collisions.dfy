/** Listeners whose effective names collide: what the data plane then serves, and exactly when it
    still serves every listener its own routes. */
module Collisions {
  import opened Strings
  import opened Compiled
  import opened Building
  import opened Loading
  import opened Validating
  import opened Attaching
  import opened Compiling
  import opened Agreement
  import Matching
  import Ownership

  // ------------------------------------------------- routes and names --

  /** A later valid listener takes the effective name over. */
  predicate Superseded(listeners: seq<ListenerState>, i: nat)
    requires i < |listeners|
  {
    exists j | i < j < |listeners| :: listeners[j].Valid() && EffectiveName(listeners[j]) == EffectiveName(listeners[i])
  }

  /** Some accepted attachment of the route is to the listener. */
  ghost predicate AttachedTo(specs: seq<RouteSpec>, listeners: seq<ListenerState>, uid: string, i: nat) {
    Takes(listeners, i) && exists s | 0 <= s < |specs| :: !specs[s].unsupported && specs[s].uid == uid && i in specs[s].admitted
  }

  lemma {:induction false} UnionHas(names: seq<string>, more: seq<string>, name: string)
    ensures name in Union(names, more) <==> name in names || name in more
  {
    if more != [] {
      var n := |more| - 1;
      UnionHas(names, more[..n], name);
      assert more == more[..n] + [more[n]];
    }
  }

  predicate Offers(o: RouteOutcome, uid: string, name: string) {
    o.config.Some? && o.config.value.uid == uid && name in o.config.value.listeners
  }

  /** A compiled route names a listener exactly when one of its attachments does. */
  lemma {:induction false} RouteNames(outcomes: seq<RouteOutcome>, uid: string, name: string)
    ensures (uid in Routes(outcomes) && name in Routes(outcomes)[uid].listeners) <==>
            exists o | 0 <= o < |outcomes| :: Offers(outcomes[o], uid, name)
  {
    if outcomes != [] {
      var n := |outcomes| - 1;
      var front, last := outcomes[..n], outcomes[n];
      RouteNames(front, uid, name);
      OffersSplit(outcomes, uid, name);
      if Attaches(last) && last.config.value.uid == uid && uid in Routes(front) {
        UnionHas(Routes(front)[uid].listeners, last.config.value.listeners, name);
      }
    }
  }

  lemma OffersSplit(outcomes: seq<RouteOutcome>, uid: string, name: string)
    requires outcomes != []
    ensures
      var n := |outcomes| - 1;
      (exists o | 0 <= o < |outcomes| :: Offers(outcomes[o], uid, name)) <==>
      (exists o | 0 <= o < n :: Offers(outcomes[..n][o], uid, name)) || Offers(outcomes[n], uid, name)
  {
    var n := |outcomes| - 1;
    if o :| 0 <= o < |outcomes| && Offers(outcomes[o], uid, name) {
      assert o < n ==> Offers(outcomes[..n][o], uid, name);
    }
    if o :| 0 <= o < n && Offers(outcomes[..n][o], uid, name) {
      assert Offers(outcomes[o], uid, name);
    }
  }

  /** A route names a listener exactly when it is attached to one of that effective name. */
  lemma NamedIsAttached(k: Checks, encode: AuthConfig -> string, inputs: Inputs, specs: seq<RouteSpec>, uid: string, name: string)
    returns (i: nat)
    requires CompiledFrom(k, encode, inputs, specs)
    requires uid in ContentOf(inputs).routes && name in ContentOf(inputs).routes[uid].listeners
    ensures AttachedTo(specs, inputs.listeners, uid, i) && EffectiveName(inputs.listeners[i]) == name
  {
    RouteNames(inputs.outcomes, uid, name);
    var o :| 0 <= o < |inputs.outcomes| && Offers(inputs.outcomes[o], uid, name);
    var x := NamesCome(inputs.listeners, specs[o].admitted, name);
    i := specs[o].admitted[x];
  }

  lemma AttachedIsNamed(k: Checks, encode: AuthConfig -> string, inputs: Inputs, specs: seq<RouteSpec>, uid: string, i: nat)
    requires CompiledFrom(k, encode, inputs, specs) && AttachedTo(specs, inputs.listeners, uid, i)
    ensures uid in ContentOf(inputs).routes
    ensures EffectiveName(inputs.listeners[i]) in ContentOf(inputs).routes[uid].listeners
  {
    var s :| 0 <= s < |specs| && !specs[s].unsupported && specs[s].uid == uid && i in specs[s].admitted;
    var x :| 0 <= x < |specs[s].admitted| && specs[s].admitted[x] == i;
    NamesGo(inputs.listeners, specs[s].admitted, x);
    assert Offers(inputs.outcomes[s], uid, EffectiveName(inputs.listeners[i]));
    RouteNames(inputs.outcomes, uid, EffectiveName(inputs.listeners[i]));
  }

  lemma {:induction false} NameIndexIsLast(entries: seq<Listener>, n: nat, e: nat)
    requires e < n <= |entries|
    ensures entries[e].name in NameIndex(entries, n)
    ensures NameIndex(entries, n)[entries[e].name] == e <==> forall f | e < f < n :: entries[f].name != entries[e].name
  {
    if e < n - 1 {
      NameIndexIsLast(entries, n - 1, e);
      if forall f | e < f < n :: entries[f].name != entries[e].name {
        assert forall f | e < f < n - 1 :: entries[f].name != entries[e].name;
        assert entries[n - 1].name != entries[e].name;
      }
    }
  }

  lemma {:induction false} PositionsAscend(infra: Infra, listeners: seq<ListenerState>, i: nat, j: nat)
    requires i < j < |listeners| && listeners[i].Valid()
    ensures Position(infra, listeners, i) < Position(infra, listeners, j)
  {
    var front := listeners[..j];
    assert front[..i] == listeners[..i];
    EntryIsAtPosition(infra, front, i);
  }

  lemma {:induction false} PositionIsReached(infra: Infra, listeners: seq<ListenerState>, e: nat) returns (i: nat)
    requires e < |Entries(infra, listeners)|
    ensures i < |listeners| && listeners[i].Valid() && Position(infra, listeners, i) == e
  {
    var n := |listeners| - 1;
    if e < |Entries(infra, listeners[..n])| {
      i := PositionIsReached(infra, listeners[..n], e);
      assert listeners[..n][..i] == listeners[..i];
    } else {
      i := n;
    }
  }

  /** The name index of the build keeps a listener exactly when no later one supersedes it. */
  lemma IndexedIsNotSuperseded(infra: Infra, listeners: seq<ListenerState>, i: nat)
    requires i < |listeners| && listeners[i].Valid()
    ensures Position(infra, listeners, i) < |Entries(infra, listeners)|
    ensures
      var entries := Entries(infra, listeners);
      Indexed(NameIndex(entries, |entries|), entries, Position(infra, listeners, i)) <==> !Superseded(listeners, i)
  {
    var entries := Entries(infra, listeners);
    var e := Position(infra, listeners, i);
    EntryIsAtPosition(infra, listeners, i);
    NameIndexIsLast(entries, |entries|, e);
    if Superseded(listeners, i) {
      var j :| i < j < |listeners| && listeners[j].Valid() && EffectiveName(listeners[j]) == EffectiveName(listeners[i]);
      PositionsAscend(infra, listeners, i, j);
      EntryIsAtPosition(infra, listeners, j);
      assert entries[Position(infra, listeners, j)].name == entries[e].name;
    }
    if f :| e < f < |entries| && entries[f].name == entries[e].name {
      var j := PositionIsReached(infra, listeners, f);
      EntryIsAtPosition(infra, listeners, j);
      if j < i {
        PositionsAscend(infra, listeners, j, i);
      }
      assert i < j;
    }
  }

  /** The routes the data plane serves on a listener. */
  function Served(k: Checks, inputs: Inputs, order: seq<string>, i: nat): seq<Matching.RouteTable>
    requires forall x | 0 <= x < |order| :: order[x] in ContentOf(inputs).routes
    requires i < |inputs.listeners| && inputs.listeners[i].Valid()
  {
    EntryIsAtPosition(inputs.infra, inputs.listeners, i);
    var content := ContentOf(inputs);
    ListenerTables(k, content.gateway.listeners, RoutesIn(content, order), SecretOf(content))[Position(inputs.infra, inputs.listeners, i)].routes
  }

  ghost predicate OwnRoute(k: Checks, inputs: Inputs, specs: seq<RouteSpec>, i: nat, x: Matching.RouteTable) {
    exists uid | uid in ContentOf(inputs).routes ::
      AttachedTo(specs, inputs.listeners, uid, i) && x == RouteTableOf(k, ContentOf(inputs).routes[uid], SecretOf(ContentOf(inputs)))
  }

  /** Every valid listener serves exactly the routes attached to it. */
  ghost predicate OwnRoutes(k: Checks, inputs: Inputs, specs: seq<RouteSpec>, order: seq<string>)
    requires forall x | 0 <= x < |order| :: order[x] in ContentOf(inputs).routes
  {
    forall i, x | 0 <= i < |inputs.listeners| && inputs.listeners[i].Valid() ::
      x in Served(k, inputs, order, i) <==> OwnRoute(k, inputs, specs, i, x)
  }

  lemma ServedAre(k: Checks, inputs: Inputs, order: seq<string>, i: nat, x: Matching.RouteTable)
    requires IsOrder(ContentOf(inputs), order)
    requires i < |inputs.listeners| && inputs.listeners[i].Valid()
    ensures
      var content := ContentOf(inputs);
      x in Served(k, inputs, order, i) <==>
      !Superseded(inputs.listeners, i) &&
      exists uid | uid in content.routes ::
        EffectiveName(inputs.listeners[i]) in content.routes[uid].listeners && x == RouteTableOf(k, content.routes[uid], SecretOf(content))
  {
    var content := ContentOf(inputs);
    var name := EffectiveName(inputs.listeners[i]);
    var routes := RoutesIn(content, order);
    EntryIsAtPosition(inputs.infra, inputs.listeners, i);
    IndexedIsNotSuperseded(inputs.infra, inputs.listeners, i);
    AttachedHas(k, routes, SecretOf(content), name, x);
    if uid :| uid in content.routes && name in content.routes[uid].listeners && x == RouteTableOf(k, content.routes[uid], SecretOf(content)) {
      assert uid in order;
      var r :| 0 <= r < |order| && order[r] == uid;
      assert routes[r] == content.routes[uid];
    }
    if r :| 0 <= r < |routes| && name in routes[r].listeners && x == RouteTableOf(k, routes[r], SecretOf(content)) {
      assert order[r] in content.routes && routes[r] == content.routes[order[r]];
    }
  }

  /** No route is attached to a listener whose name a later one takes over. */
  ghost predicate NoneMisplaced(specs: seq<RouteSpec>, listeners: seq<ListenerState>) {
    forall uid, i: nat | AttachedTo(specs, listeners, uid, i) :: !Superseded(listeners, i)
  }

  lemma PlacedRoutesAreOwn(k: Checks, encode: AuthConfig -> string, inputs: Inputs, specs: seq<RouteSpec>, order: seq<string>, i: nat, x: Matching.RouteTable)
    requires IsOrder(ContentOf(inputs), order) && CompiledFrom(k, encode, inputs, specs) && NoneMisplaced(specs, inputs.listeners)
    requires i < |inputs.listeners| && inputs.listeners[i].Valid()
    ensures x in Served(k, inputs, order, i) <==> OwnRoute(k, inputs, specs, i, x)
  {
    var content := ContentOf(inputs);
    ServedAre(k, inputs, order, i, x);
    if x in Served(k, inputs, order, i) {
      var uid :| uid in content.routes && EffectiveName(inputs.listeners[i]) in content.routes[uid].listeners &&
        x == RouteTableOf(k, content.routes[uid], SecretOf(content));
      var j := NamedIsAttached(k, encode, inputs, specs, uid, EffectiveName(inputs.listeners[i]));
      assert !Superseded(inputs.listeners, j) && !Superseded(inputs.listeners, i);
      assert j == i;
    }
    if OwnRoute(k, inputs, specs, i, x) {
      var uid :| uid in content.routes && AttachedTo(specs, inputs.listeners, uid, i) &&
        x == RouteTableOf(k, content.routes[uid], SecretOf(content));
      AttachedIsNamed(k, encode, inputs, specs, uid, i);
    }
  }

  /** The data plane serves every listener exactly the routes attached to it if and only if no
      route is attached to a listener whose effective name a later valid listener also has. */
  lemma OwnRoutesIsExact(k: Checks, encode: AuthConfig -> string, inputs: Inputs, specs: seq<RouteSpec>, order: seq<string>)
    requires IsOrder(ContentOf(inputs), order) && CompiledFrom(k, encode, inputs, specs)
    ensures OwnRoutes(k, inputs, specs, order) <==> NoneMisplaced(specs, inputs.listeners)
  {
    if uid, i: nat :| AttachedTo(specs, inputs.listeners, uid, i) && Superseded(inputs.listeners, i) {
      var x := MisplacedIsLost(k, encode, inputs, specs, order, uid, i);
    } else {
      forall i, x | 0 <= i < |inputs.listeners| && inputs.listeners[i].Valid()
        ensures x in Served(k, inputs, order, i) <==> OwnRoute(k, inputs, specs, i, x)
      {
        PlacedRoutesAreOwn(k, encode, inputs, specs, order, i, x);
      }
    }
  }

  lemma MisplacedIsLost(k: Checks, encode: AuthConfig -> string, inputs: Inputs, specs: seq<RouteSpec>, order: seq<string>, uid: string, i: nat)
    returns (x: Matching.RouteTable)
    requires IsOrder(ContentOf(inputs), order) && CompiledFrom(k, encode, inputs, specs)
    requires AttachedTo(specs, inputs.listeners, uid, i) && Superseded(inputs.listeners, i)
    ensures OwnRoute(k, inputs, specs, i, x) && x !in Served(k, inputs, order, i)
  {
    AttachedIsNamed(k, encode, inputs, specs, uid, i);
    x := RouteTableOf(k, ContentOf(inputs).routes[uid], SecretOf(ContentOf(inputs)));
    ServedAre(k, inputs, order, i, x);
  }

  // ------------------------------------------------- a collision at work --

  /** A plain or TLS listener of a ListenerSet. */
  function SetListener(namespace: string, setName: string, protocol: string, hostname: string, material: SecretData): ListenerState {
    Ownership.ListenerState(Ownership.OfSet(namespace, setName), "web", 443, protocol, hostname, false,
                            true, false, Ownership.Accepted, true, 10000, material, "")
  }

  lemma EffectiveNamesCollide(protocol: string, a: string, b: string, m: SecretData, n: SecretData)
    ensures EffectiveName(SetListener("team--a", "x", protocol, a, m)) == "team--a--x--web"
    ensures EffectiveName(SetListener("team", "a--x", protocol, b, n)) == "team--a--x--web"
  {
    assert "team--a" + "--" + "x" + "--" + "web" == "team--a--x--web";
    assert "team" + "--" + "a--x" + "--" + "web" == "team--a--x--web";
  }

  /** Two listeners of different ListenerSets with one effective name and different hostnames, and
      a route attached to the first. */
  function MixedUp(k: Checks, encode: AuthConfig -> string, route: RouteSpec): Inputs {
    var name := "team--a--x--web";
    var listeners := [
      SetListener("team--a", "x", "HTTPS", "a.example.com", map[CertKey(name) := "cert a"][KeyKey(name) := "key a"]),
      SetListener("team", "a--x", "HTTPS", "b.example.com", map[CertKey(name) := "cert b"][KeyKey(name) := "key b"])];
    Inputs("uid", "ns", "name", Infra([], {}), listeners, AttachAll(k, encode, listeners, [route]), ClientCert(true, None))
  }

  /** The listeners do not clash, yet the first serves nothing, its route answers under the second
      one's hostname, and the certificate under the common name is the second one's. */
  lemma CollisionMisplaces(k: Checks, encode: AuthConfig -> string, route: RouteSpec)
    requires route.admitted == [0] && !route.unsupported
    ensures
      var inputs := MixedUp(k, encode, route);
      var content := ContentOf(inputs);
      && !Ownership.Clash(inputs.listeners[0], inputs.listeners[1])
      && IsOrder(content, [route.uid])
      && Served(k, inputs, [route.uid], 0) == []
      && RouteTableOf(k, content.routes[route.uid], SecretOf(content)) in Served(k, inputs, [route.uid], 1)
      && CertKey("team--a--x--web") in content.secret && content.secret[CertKey("team--a--x--web")] == "cert b"
  {
    var inputs := MixedUp(k, encode, route);
    var content := ContentOf(inputs);
    var ls, name := inputs.listeners, "team--a--x--web";
    EffectiveNamesCollide("HTTPS", "a.example.com", "b.example.com", ls[0].material, ls[1].material);
    assert ls[0].hostname[0] != ls[1].hostname[0];
    assert AttachedTo([route], ls, route.uid, 0);
    AttachedIsNamed(k, encode, inputs, [route], route.uid, 0);
    OneRoute(inputs, route);
    assert Superseded(ls, 0) && !Superseded(ls, 1);
    var x := RouteTableOf(k, content.routes[route.uid], SecretOf(content));
    ServedAre(k, inputs, [route.uid], 1, x);
    SupersededServesNothing(k, inputs, [route.uid], 0);
    KeysAreApart(name, name);
    LastWriterIsLast(ClientMaterial(inputs.clientCert), ls, 1, CertKey(name));
    ListenerKeysStay(Material(ClientMaterial(inputs.clientCert), ls), inputs.outcomes, name);
  }

  lemma OneRoute(inputs: Inputs, route: RouteSpec)
    requires |inputs.outcomes| == 1 && inputs.outcomes[0].config.Some? && inputs.outcomes[0].config.value.uid == route.uid
    requires route.uid in ContentOf(inputs).routes
    ensures IsOrder(ContentOf(inputs), [route.uid])
  {
    assert inputs.outcomes[..0] == [];
    assert Routes([]) == map[];
  }

  lemma SupersededServesNothing(k: Checks, inputs: Inputs, order: seq<string>, i: nat)
    requires IsOrder(ContentOf(inputs), order)
    requires i < |inputs.listeners| && inputs.listeners[i].Valid() && Superseded(inputs.listeners, i)
    ensures Served(k, inputs, order, i) == []
  {
    EntryIsAtPosition(inputs.infra, inputs.listeners, i);
    IndexedIsNotSuperseded(inputs.infra, inputs.listeners, i);
  }
}
