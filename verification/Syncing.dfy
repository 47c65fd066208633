/** One sync of the control plane: the listeners of every gateway are validated with one port
    allocator and merged. What it compiles merges without loss on the data plane, and every port
    of it is well formed. */
module Syncing {
  import opened Strings
  import opened Compiled
  import opened Building
  import opened Loading
  import opened Validating
  import opened Attaching
  import opened Compiling
  import opened Matching
  import opened Merging
  import Ports
  import Ownership
  import Agreement
  import Hostnames

  // ------------------------------------------------------------- a gateway --

  function KeyOf(uid: string, spec: Spec): string {
    Ports.FullKey(uid, Ports.GroupKey(spec.port, spec.protocol))
  }

  /** The allocator once it has answered for all these listeners. */
  function LedgerAfter(r: Ports.Range, ledger: Ports.Ledger, uid: string, specs: seq<Spec>): Ports.Ledger {
    if specs == [] then ledger
    else
      var n := |specs| - 1;
      Ports.Granted(LedgerAfter(r, ledger, uid, specs[..n]), r.min, r.max, KeyOf(uid, specs[n]))
  }

  /** What the allocator answers for a listener, after those before it. */
  function InternalPort(r: Ports.Range, ledger: Ports.Ledger, uid: string, specs: seq<Spec>, i: nat): Option<int>
    requires i < |specs|
  {
    Ports.PortFor(LedgerAfter(r, ledger, uid, specs[..i]), r.min, r.max, KeyOf(uid, specs[i]))
  }

  /** The listeners as validated one by one. */
  function Unmerged(k: Checks, r: Ports.Range, ledger: Ports.Ledger, uid: string, specs: seq<Spec>): (states: seq<ListenerState>)
    ensures |states| == |specs|
  {
    seq(|specs|, i requires 0 <= i < |specs| => Validated(k, specs[i], InternalPort(r, ledger, uid, specs, i)))
  }

  /** The listeners after conflict rejection. */
  function Effective(listeners: seq<ListenerState>): seq<ListenerState> {
    seq(|listeners|, i requires 0 <= i < |listeners| => Ownership.Merged(Ownership.Survivors(listeners[..i]), listeners[i]))
  }

  lemma TakingOneMore(states: seq<ListenerState>, i: nat)
    requires i < |states|
    ensures states[..i + 1] == states[..i] + [states[i]]
  {
  }

  /** One listener of `validateListeners`: its internal port, then its own validation. */
  method ValidateNext(k: Checks, allocator: Ports.PortAllocator, uid: string, specs: seq<Spec>, i: nat, ghost ledger: Ports.Ledger)
    returns (state: ListenerState)
    requires i < |specs|
    requires Ports.Ledger(allocator.used, allocator.held) == LedgerAfter(Ports.Range(allocator.min, allocator.max), ledger, uid, specs[..i])
    modifies allocator
    ensures
      var r := Ports.Range(allocator.min, allocator.max);
      && Ports.Ledger(allocator.used, allocator.held) == LedgerAfter(r, ledger, uid, specs[..i + 1])
      && state == Unmerged(k, r, ledger, uid, specs)[i]
  {
    assert specs[..i + 1][..i] == specs[..i];
    var internal := allocator.Allocate(uid, specs[i].port, specs[i].protocol);
    state := ValidateListener(k, specs[i], internal);
  }

  /** `validateListeners`, over the listeners of the Gateway and of its accepted ListenerSets in
      precedence order. */
  method ValidateListeners(k: Checks, allocator: Ports.PortAllocator, uid: string, specs: seq<Spec>) returns (listeners: seq<ListenerState>)
    modifies allocator
    ensures
      var r := Ports.Range(allocator.min, allocator.max);
      var before := Ports.Ledger(old(allocator.used), old(allocator.held));
      && Ports.Ledger(allocator.used, allocator.held) == LedgerAfter(r, before, uid, specs)
      && listeners == Effective(Unmerged(k, r, before, uid, specs))
  {
    ghost var r := Ports.Range(allocator.min, allocator.max);
    ghost var before := Ports.Ledger(allocator.used, allocator.held);
    var states: seq<ListenerState> := [];
    for i := 0 to |specs|
      invariant Ports.Ledger(allocator.used, allocator.held) == LedgerAfter(r, before, uid, specs[..i])
      invariant states == Unmerged(k, r, before, uid, specs)[..i]
    {
      var state := ValidateNext(k, allocator, uid, specs, i, before);
      TakingOneMore(Unmerged(k, r, before, uid, specs), i);
      states := states + [state];
    }
    assert specs[..|specs|] == specs;
    assert Unmerged(k, r, before, uid, specs)[..|specs|] == Unmerged(k, r, before, uid, specs) == states;
    listeners := Merge(states);
  }

  method Merge(states: seq<ListenerState>) returns (listeners: seq<ListenerState>)
    ensures listeners == Effective(states)
  {
    var a := new ListenerState[|states|](i requires 0 <= i < |states| => states[i]);
    assert forall i | 0 <= i <= |states| :: a[..i] == states[..i];
    Ownership.RejectConflicting(a);
    listeners := a[..];
  }

  // -------------------------------------------------------------- one sync --

  /** What a gateway contributes besides its routes. */
  datatype GatewaySpec = GatewaySpec(
    uid: string,
    namespace: string,
    name: string,
    infra: Infra,
    specs: seq<Spec>,
    clientCert: ClientCert)

  function SyncLedger(r: Ports.Range, ledger: Ports.Ledger, gateways: seq<GatewaySpec>): Ports.Ledger {
    if gateways == [] then ledger
    else
      var n := |gateways| - 1;
      LedgerAfter(r, SyncLedger(r, ledger, gateways[..n]), gateways[n].uid, gateways[n].specs)
  }

  function ListenersOf(k: Checks, r: Ports.Range, ledger: Ports.Ledger, gateways: seq<GatewaySpec>, g: nat): seq<ListenerState>
    requires g < |gateways|
  {
    Effective(Unmerged(k, r, SyncLedger(r, ledger, gateways[..g]), gateways[g].uid, gateways[g].specs))
  }

  /** The gateway's publication, with whatever routes attach. */
  function InputsOf(k: Checks, r: Ports.Range, ledger: Ports.Ledger, gateways: seq<GatewaySpec>, g: nat, outcomes: seq<RouteOutcome>): Inputs
    requires g < |gateways|
  {
    var gw := gateways[g];
    Inputs(gw.uid, gw.namespace, gw.name, gw.infra, ListenersOf(k, r, ledger, gateways, g), outcomes, gw.clientCert)
  }

  /** The allocations of a gateway are steps of the sync's run. */
  lemma {:induction false} ListenersAllocate(r: Ports.Range, run: Ports.Run, uid: string, specs: seq<Spec>) returns (run': Ports.Run)
    requires Ports.IsRun(r, run) && Ports.Last(run).ledger.Some? && Ports.ProperUid(uid)
    ensures Ports.IsRun(r, run')
    ensures Ports.Last(run').ledger == Some(LedgerAfter(r, Ports.Last(run).ledger.value, uid, specs))
    decreases |specs|
  {
    if specs == [] {
      run' := run;
    } else {
      var n := |specs| - 1;
      var before := ListenersAllocate(r, run, uid, specs[..n]);
      var step := Ports.Allocate(uid, specs[n].port, specs[n].protocol);
      run' := Ports.Then(before, step, Ports.Do(r, Ports.Last(before), step));
    }
  }

  lemma {:induction false} SyncAllocates(r: Ports.Range, run: Ports.Run, gateways: seq<GatewaySpec>) returns (run': Ports.Run)
    requires Ports.IsRun(r, run) && Ports.Last(run).ledger.Some?
    requires forall g | 0 <= g < |gateways| :: Ports.ProperUid(gateways[g].uid)
    ensures Ports.IsRun(r, run')
    ensures Ports.Last(run').ledger == Some(SyncLedger(r, Ports.Last(run).ledger.value, gateways))
    decreases |gateways|
  {
    if gateways == [] {
      run' := run;
    } else {
      var n := |gateways| - 1;
      var before := SyncAllocates(r, run, gateways[..n]);
      run' := ListenersAllocate(r, before, gateways[n].uid, gateways[n].specs);
    }
  }

  // ------------------------------------------------ ports once given stay --

  predicate Has(ledger: Ports.Ledger, key: string, port: int) {
    key in ledger.held && ledger.held[key] == port
  }

  lemma {:induction false} ListenersKeep(r: Ports.Range, ledger: Ports.Ledger, uid: string, specs: seq<Spec>, key: string, port: int)
    requires Has(ledger, key, port)
    ensures Has(LedgerAfter(r, ledger, uid, specs), key, port)
  {
    if specs != [] {
      ListenersKeep(r, ledger, uid, specs[..|specs| - 1], key, port);
    }
  }

  lemma {:induction false} SyncKeeps(r: Ports.Range, ledger: Ports.Ledger, gateways: seq<GatewaySpec>, g: nat, key: string, port: int)
    requires g <= |gateways| && Has(SyncLedger(r, ledger, gateways[..g]), key, port)
    ensures Has(SyncLedger(r, ledger, gateways), key, port)
  {
    var n := |gateways| - 1;
    if g == |gateways| {
      assert gateways[..g] == gateways;
    } else {
      assert gateways[..n][..g] == gateways[..g];
      SyncKeeps(r, ledger, gateways[..n], g, key, port);
      ListenersKeep(r, SyncLedger(r, ledger, gateways[..n]), gateways[n].uid, gateways[n].specs, key, port);
    }
  }

  /** The listener is the one declared, and if it is valid, the allocator holds its port for its
      group. */
  predicate Holds(ledger: Ports.Ledger, uid: string, spec: Spec, l: ListenerState) {
    && l.port == spec.port && l.protocol == spec.protocol && l.hostname == spec.hostname
    && (l.Valid() ==> Has(ledger, KeyOf(uid, spec), l.internalPort))
  }

  lemma GrantedHolds(k: Checks, r: Ports.Range, ledger: Ports.Ledger, uid: string, spec: Spec)
    ensures Holds(Ports.Granted(ledger, r.min, r.max, KeyOf(uid, spec)), uid, spec,
                  Validated(k, spec, Ports.PortFor(ledger, r.min, r.max, KeyOf(uid, spec))))
  {
    ValidatedHasPort(k, spec, Ports.PortFor(ledger, r.min, r.max, KeyOf(uid, spec)));
  }

  lemma {:induction false} LaterKeep(r: Ports.Range, ledger: Ports.Ledger, uid: string, specs: seq<Spec>, n: nat, key: string, port: int)
    requires n <= |specs| && Has(LedgerAfter(r, ledger, uid, specs[..n]), key, port)
    ensures Has(LedgerAfter(r, ledger, uid, specs), key, port)
  {
    if n == |specs| {
      assert specs[..n] == specs;
    } else {
      var last := |specs| - 1;
      assert specs[..last][..n] == specs[..n];
      LaterKeep(r, ledger, uid, specs[..last], n, key, port);
    }
  }

  lemma ValidListenersHold(k: Checks, r: Ports.Range, ledger: Ports.Ledger, uid: string, specs: seq<Spec>, i: nat)
    requires i < |specs|
    ensures Holds(LedgerAfter(r, ledger, uid, specs), uid, specs[i], Unmerged(k, r, ledger, uid, specs)[i])
  {
    var l := Validated(k, specs[i], InternalPort(r, ledger, uid, specs, i));
    GrantedHolds(k, r, LedgerAfter(r, ledger, uid, specs[..i]), uid, specs[i]);
    assert specs[..i + 1][..i] == specs[..i];
    if l.Valid() {
      LaterKeep(r, ledger, uid, specs, i + 1, KeyOf(uid, specs[i]), l.internalPort);
    }
  }

  // -------------------------------------------------------------- theorems --

  /** A valid listener of the sync was valid before the merge, unchanged by it. */
  lemma EffectiveIsUnmerged(listeners: seq<ListenerState>, i: nat)
    requires i < |listeners| && Effective(listeners)[i].Valid()
    ensures Effective(listeners)[i] == listeners[i]
  {
  }

  lemma ListenerIsAllocated(k: Checks, r: Ports.Range, ledger: Ports.Ledger, gateways: seq<GatewaySpec>, g: nat, i: nat)
    requires g < |gateways| && i < |ListenersOf(k, r, ledger, gateways, g)| && ListenersOf(k, r, ledger, gateways, g)[i].Valid()
    ensures
      var l := ListenersOf(k, r, ledger, gateways, g)[i];
      && l.port >= 0
      && Has(SyncLedger(r, ledger, gateways), Ports.FullKey(gateways[g].uid, Ports.GroupKey(l.port, l.protocol)), l.internalPort)
  {
    var gw, before := gateways[g], SyncLedger(r, ledger, gateways[..g]);
    var unmerged := Unmerged(k, r, before, gw.uid, gw.specs);
    EffectiveIsUnmerged(unmerged, i);
    ValidListenersHold(k, r, before, gw.uid, gw.specs, i);
    assert gateways[..g + 1][..g] == gateways[..g];
    SyncKeeps(r, ledger, gateways, g + 1, KeyOf(gw.uid, gw.specs[i]), unmerged[i].internalPort);
  }

  /** What a gateway of the sync compiles has the ports the sync's allocator ends with. */
  lemma SyncIsAllocated(k: Checks, r: Ports.Range, ledger: Ports.Ledger, gateways: seq<GatewaySpec>, g: nat, outcomes: seq<RouteOutcome>)
    requires g < |gateways|
    ensures Allocated(SyncLedger(r, ledger, gateways).held, ContentOf(InputsOf(k, r, ledger, gateways, g, outcomes)).gateway)
  {
    var infra, listeners := gateways[g].infra, ListenersOf(k, r, ledger, gateways, g);
    var entries := Entries(infra, listeners);
    forall e | 0 <= e < |entries|
      ensures entries[e].port >= 0
      ensures Has(SyncLedger(r, ledger, gateways), Ports.FullKey(gateways[g].uid, Ports.GroupKey(entries[e].port, entries[e].protocol)),
                  entries[e].internalPort)
    {
      var i := Agreement.EntryHasListener(infra, listeners, e);
      ListenerIsAllocated(k, r, ledger, gateways, g, i);
    }
  }

  lemma EffectiveNeverClash(listeners: seq<ListenerState>, i: nat, j: nat)
    requires i < j < |listeners| && Effective(listeners)[i].Valid() && Effective(listeners)[j].Valid()
    ensures !Ownership.Clash(Effective(listeners)[i], Effective(listeners)[j])
  {
    Ownership.AcceptedNeverClash(listeners, i, j);
  }

  /** The table is that of a generation a gateway of the sync compiles. */
  ghost predicate Compiles(k: Checks, r: Ports.Range, ledger: Ports.Ledger, gateways: seq<GatewaySpec>, g: nat,
                           outcomes: seq<RouteOutcome>, order: seq<string>, table: GatewayTable)
    requires g < |gateways|
  {
    var content := ContentOf(InputsOf(k, r, ledger, gateways, g, outcomes));
    IsOrder(content, order) && TableFor(k, content, order) == Some(table)
  }

  /** Tables of generations compiled in one sync, any number of them. */
  ghost predicate OfOneSync(k: Checks, r: Ports.Range, ledger: Ports.Ledger, gateways: seq<GatewaySpec>, tables: map<string, GatewayTable>) {
    forall uid | uid in tables ::
      exists g: nat, outcomes, order | g < |gateways| && gateways[g].uid == uid ::
        Compiles(k, r, ledger, gateways, g, outcomes, order, tables[uid])
  }

  lemma CompiledIsAllocated(k: Checks, r: Ports.Range, ledger: Ports.Ledger, gateways: seq<GatewaySpec>, g: nat,
                            outcomes: seq<RouteOutcome>, order: seq<string>, table: GatewayTable)
    requires g < |gateways| && Compiles(k, r, ledger, gateways, g, outcomes, order, table)
    ensures table.generation.Of?
    ensures
      var gateway := table.generation.content.gateway;
      && gateway.uid == gateways[g].uid && Allocated(SyncLedger(r, ledger, gateways).held, gateway)
      && table.byPort.Keys == PortIndex(gateway.listeners, |gateway.listeners|).Keys
  {
    SyncIsAllocated(k, r, ledger, gateways, g, outcomes);
  }

  /** In whatever state a sync begins, the tables of the generations it compiles merge without
      overwriting one another. */
  lemma SyncTablesMerge(k: Checks, r: Ports.Range, run: Ports.Run, gateways: seq<GatewaySpec>, tables: map<string, GatewayTable>)
    requires Ports.IsRun(r, run) && Ports.Last(run).ledger.Some?
    requires forall g | 0 <= g < |gateways| :: Ports.ProperUid(gateways[g].uid)
    requires OfOneSync(k, r, Ports.Last(run).ledger.value, gateways, tables)
    ensures PortsAgree(tables)
  {
    var ledger := Ports.Last(run).ledger.value;
    SyncIsInjective(r, run, gateways);
    forall uid | uid in tables
      ensures tables[uid].generation.Of? && tables[uid].generation.content.gateway.uid == uid && Ports.ProperUid(uid)
      ensures Allocated(SyncLedger(r, ledger, gateways).held, tables[uid].generation.content.gateway)
      ensures
        var listeners := tables[uid].generation.content.gateway.listeners;
        tables[uid].byPort.Keys <= PortIndex(listeners, |listeners|).Keys
    {
      var g: nat, outcomes, order :| g < |gateways| && gateways[g].uid == uid && Compiles(k, r, ledger, gateways, g, outcomes, order, tables[uid]);
      CompiledIsAllocated(k, r, ledger, gateways, g, outcomes, order, tables[uid]);
    }
    OneLedgerMerges(SyncLedger(r, ledger, gateways), tables);
  }

  lemma SyncIsInjective(r: Ports.Range, run: Ports.Run, gateways: seq<GatewaySpec>)
    requires Ports.IsRun(r, run) && Ports.Last(run).ledger.Some?
    requires forall g | 0 <= g < |gateways| :: Ports.ProperUid(gateways[g].uid)
    ensures Ports.Injective(SyncLedger(r, Ports.Last(run).ledger.value, gateways))
  {
    var run' := SyncAllocates(r, run, gateways);
    Ports.RunKeepsInvariant(r, run');
  }

  lemma ListenersAreLowerCase(k: Checks, r: Ports.Range, ledger: Ports.Ledger, gateways: seq<GatewaySpec>, g: nat, i: nat)
    requires g < |gateways| && i < |ListenersOf(k, r, ledger, gateways, g)|
    requires forall x | 0 <= x < |gateways[g].specs| ::
      LowerCase(gateways[g].specs[x].hostname) && |gateways[g].specs[x].hostname| < Hostnames.ExactBase
    ensures
      var hostname := ListenersOf(k, r, ledger, gateways, g)[i].hostname;
      LowerCase(hostname) && |hostname| < Hostnames.ExactBase
  {
    var gw, before := gateways[g], SyncLedger(r, ledger, gateways[..g]);
    ValidListenersHold(k, r, before, gw.uid, gw.specs, i);
  }

  /** And every port of such a table is one on which rule lookup is unambiguous. */
  lemma SyncPortsAreWellFormed(k: Checks, r: Ports.Range, run: Ports.Run, gateways: seq<GatewaySpec>, g: nat,
                               outcomes: seq<RouteOutcome>, order: seq<string>, port: int)
    requires Ports.IsRun(r, run) && Ports.Last(run).ledger.Some?
    requires forall x | 0 <= x < |gateways| :: Ports.ProperUid(gateways[x].uid)
    requires g < |gateways|
    requires forall i | 0 <= i < |gateways[g].specs| ::
      LowerCase(gateways[g].specs[i].hostname) && |gateways[g].specs[i].hostname| < Hostnames.ExactBase
    requires
      var content := ContentOf(InputsOf(k, r, Ports.Last(run).ledger.value, gateways, g, outcomes));
      && IsOrder(content, order) && NamedApart(content)
      && TableFor(k, content, order).Some? && port in TableFor(k, content, order).value.byPort
    ensures
      WellFormed(TableFor(k, ContentOf(InputsOf(k, r, Ports.Last(run).ledger.value, gateways, g, outcomes)), order).value.byPort[port])
  {
    var ledger := Ports.Last(run).ledger.value;
    var inputs := InputsOf(k, r, ledger, gateways, g, outcomes);
    SyncIsInjective(r, run, gateways);
    SyncIsAllocated(k, r, ledger, gateways, g, outcomes);
    forall i, j | 0 <= i < j < |inputs.listeners| && inputs.listeners[i].Valid() && inputs.listeners[j].Valid()
      ensures !Ownership.Clash(inputs.listeners[i], inputs.listeners[j])
    {
      EffectiveNeverClash(Unmerged(k, r, SyncLedger(r, ledger, gateways[..g]), gateways[g].uid, gateways[g].specs), i, j);
    }
    forall i | 0 <= i < |inputs.listeners|
      ensures LowerCase(inputs.listeners[i].hostname) && |inputs.listeners[i].hostname| < Hostnames.ExactBase
    {
      ListenersAreLowerCase(k, r, ledger, gateways, g, i);
    }
    AllocatedPortsAreWellFormed(k, SyncLedger(r, ledger, gateways), inputs, order, port);
  }

  lemma SharedPortIsShared(ledger: Ports.Ledger, uid: string, p: nat, a: string, q: nat, b: string, port: int)
    requires Ports.Injective(ledger) && Ports.ProperUid(uid)
    requires Has(ledger, Ports.FullKey(uid, Ports.GroupKey(p, a)), port) && Has(ledger, Ports.FullKey(uid, Ports.GroupKey(q, b)), port)
    ensures p == q && a == b
  {
    Ports.FullKeysNameGateways(uid, Ports.GroupKey(p, a), uid, Ports.GroupKey(q, b));
    Ports.GroupKeysNameGroups(p, a, q, b);
  }

  /** Valid listeners of one gateway that share an internal port differ in hostname. */
  lemma SyncHostsApart(k: Checks, r: Ports.Range, run: Ports.Run, gateways: seq<GatewaySpec>, g: nat)
    requires Ports.IsRun(r, run) && Ports.Last(run).ledger.Some? && g < |gateways|
    requires forall x | 0 <= x < |gateways| :: Ports.ProperUid(gateways[x].uid)
    ensures HostsApart(ListenersOf(k, r, Ports.Last(run).ledger.value, gateways, g))
  {
    var ledger := Ports.Last(run).ledger.value;
    var listeners := ListenersOf(k, r, ledger, gateways, g);
    SyncIsInjective(r, run, gateways);
    forall i, j | 0 <= i < j < |listeners| && listeners[i].Valid() && listeners[j].Valid() && listeners[i].internalPort == listeners[j].internalPort
      ensures listeners[i].hostname != listeners[j].hostname
    {
      var a, b := listeners[i], listeners[j];
      ListenerIsAllocated(k, r, ledger, gateways, g, i);
      ListenerIsAllocated(k, r, ledger, gateways, g, j);
      SharedPortIsShared(SyncLedger(r, ledger, gateways), gateways[g].uid, a.port, a.protocol, b.port, b.protocol, a.internalPort);
      EffectiveNeverClash(Unmerged(k, r, SyncLedger(r, ledger, gateways[..g]), gateways[g].uid, gateways[g].specs), i, j);
    }
  }

  // ------------------------------------------------------------- admission --

  lemma UnmergedAreServable(k: Checks, r: Ports.Range, ledger: Ports.Ledger, uid: string, specs: seq<Spec>, i: nat)
    requires i < |specs|
    ensures Servable(k, Unmerged(k, r, ledger, uid, specs)[i])
  {
    ValidatedIsServable(k, specs[i], InternalPort(r, ledger, uid, specs, i));
  }

  lemma MergedIsServable(k: Checks, survivors: seq<ListenerState>, l: ListenerState)
    requires Servable(k, l)
    ensures Servable(k, Ownership.Merged(survivors, l))
  {
    assert EffectiveName(Ownership.Merged(survivors, l)) == EffectiveName(l);
  }

  /** So what a sync compiles for a gateway, with whatever routes attach, passes the build's checks
      exactly when its served client CA bundles load. */
  lemma SyncIsAdmittedExactly(k: Checks, r: Ports.Range, ledger: Ports.Ledger, gateways: seq<GatewaySpec>, g: nat, outcomes: seq<RouteOutcome>)
    requires g < |gateways| && k.proxies(gateways[g].infra.trustedProxies) && Agreement.SoundClientCert(k, gateways[g].clientCert)
    ensures
      var inputs := InputsOf(k, r, ledger, gateways, g, outcomes);
      && Agreement.Checked(k, inputs)
      && (Admitted(k, ContentOf(inputs).gateway, SecretOf(ContentOf(inputs))) <==> Agreement.BundlesLoad(k, inputs.listeners))
  {
    var inputs := InputsOf(k, r, ledger, gateways, g, outcomes);
    var before := SyncLedger(r, ledger, gateways[..g]);
    var unmerged := Unmerged(k, r, before, gateways[g].uid, gateways[g].specs);
    forall i | 0 <= i < |inputs.listeners|
      ensures Servable(k, inputs.listeners[i])
    {
      UnmergedAreServable(k, r, before, gateways[g].uid, gateways[g].specs, i);
      MergedIsServable(k, Ownership.Survivors(unmerged[..i]), unmerged[i]);
    }
    Agreement.CompiledIsAdmittedExactly(k, inputs);
  }
}
