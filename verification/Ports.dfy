/** Internal port allocation: one port per (gateway, external port, protocol) group, persisted
    in an annotation of the gateway's Service and rebuilt from there on every sync. */
module Ports {
  import opened Strings

  // ------------------------------------------------------------------ keys --

  function GroupKey(port: nat, protocol: string): string {
    Decimal(port) + "/" + protocol
  }

  function FullKey(uid: string, key: string): string {
    uid + "|" + key
  }

  lemma FullKeysNameGateways(u: string, k: string, v: string, l: string)
    requires '|' !in u && '|' !in v && FullKey(u, k) == FullKey(v, l)
    ensures u == v && k == l
  {
    CutIsUnique(u, k, v, l, '|');
  }

  lemma GroupKeysNameGroups(p: nat, a: string, q: nat, b: string)
    requires GroupKey(p, a) == GroupKey(q, b)
    ensures p == q && a == b
  {
    CutIsUnique(Decimal(p), a, Decimal(q), b, '/');
    DecimalIsInjective(p, q);
  }

  // ------------------------------------------------------------- allocator --

  /** The conversion of a loop counter to a 32-bit port. */
  function ToInt32(n: int): int {
    (n + 0x8000_0000) % 0x1_0000_0000 - 0x8000_0000
  }

  type PortMap = map<string, int>

  /** A generated Service: the gateway it is labelled with and its port map, if that decodes. */
  datatype Service = Service(uid: string, portMap: Option<PortMap>)

  function FullKeys(uid: string, m: PortMap): (keys: set<string>)
    ensures forall full | full in keys :: |full| > |uid| && full == FullKey(uid, full[|uid| + 1..]) && full[|uid| + 1..] in m
  {
    var keys := set key | key in m :: FullKey(uid, key);
    assert forall key | key in m :: FullKey(uid, key)[|uid| + 1..] == key;
    keys
  }

  function Prefixed(uid: string, m: PortMap): PortMap {
    map full | full in FullKeys(uid, m) :: m[full[|uid| + 1..]]
  }

  predicate Readable(s: Service) {
    s.uid != "" && s.portMap.Some?
  }

  function Assigned(services: seq<Service>): PortMap {
    if services == [] then map[]
    else
      var n := |services| - 1;
      Assigned(services[..n]) + if Readable(services[n]) then Prefixed(services[n].uid, services[n].portMap.value) else map[]
  }

  function Used(services: seq<Service>): set<int> {
    if services == [] then {}
    else
      var n := |services| - 1;
      Used(services[..n]) + if Readable(services[n]) then services[n].portMap.value.Values else {}
  }

  lemma PrefixedHas(uid: string, m: PortMap, key: string)
    ensures key in m ==> FullKey(uid, key) in Prefixed(uid, m) && Prefixed(uid, m)[FullKey(uid, key)] == m[key]
    ensures FullKey(uid, key) in Prefixed(uid, m) ==> key in m
  {
    var full := FullKey(uid, key);
    assert full[|uid| + 1..] == key;
  }

  predicate Records(s: Service, full: string, port: int) {
    s.uid != "" && s.portMap.Some? && exists key | key in s.portMap.value :: full == FullKey(s.uid, key) && s.portMap.value[key] == port
  }

  /** The last of the Services that records a port for the key. */
  ghost predicate LastRecord(services: seq<Service>, i: int, full: string, port: int) {
    0 <= i < |services| && Records(services[i], full, port) && forall j, p | i < j < |services| :: !Records(services[j], full, p)
  }

  /** What an allocator starts from is exactly the decodable port maps of the labelled Services, the
      later ones over the earlier. */
  lemma {:induction false} AssignedExactly(services: seq<Service>, full: string, port: int)
    ensures (full in Assigned(services) && Assigned(services)[full] == port) <==> exists i :: LastRecord(services, i, full, port)
  {
    if services != [] {
      var n := |services| - 1;
      AssignedExactly(services[..n], full, port);
      RecordsExactly(services[n], full);
      LastRecords(services, full, port);
      assert (exists p :: Records(services[n], full, p)) <==>
             Readable(services[n]) && full in Prefixed(services[n].uid, services[n].portMap.value) by {
        if Readable(services[n]) && full in Prefixed(services[n].uid, services[n].portMap.value) {
          assert Records(services[n], full, Prefixed(services[n].uid, services[n].portMap.value)[full]);
        }
      }
    }
  }

  /** And the ports it takes for used are exactly those in there. */
  lemma {:induction false} UsedExactly(services: seq<Service>, port: int)
    ensures port in Used(services) <==> exists i, key | 0 <= i < |services| :: Records(services[i], FullKey(services[i].uid, key), port)
  {
    if services != [] {
      UsedExactly(services[..|services| - 1], port);
      UsedGrows(services, port);
    }
  }

  lemma RecordsExactly(s: Service, full: string)
    ensures forall port ::
      Records(s, full, port) <==>
      Readable(s) && full in Prefixed(s.uid, s.portMap.value) && Prefixed(s.uid, s.portMap.value)[full] == port
  {
    if Readable(s) {
      var m := s.portMap.value;
      forall key | key in m
        ensures FullKey(s.uid, key) in Prefixed(s.uid, m) && Prefixed(s.uid, m)[FullKey(s.uid, key)] == m[key]
      {
        PrefixedHas(s.uid, m, key);
      }
    }
  }

  lemma LastRecords(services: seq<Service>, full: string, port: int)
    requires services != []
    ensures
      var n := |services| - 1;
      (exists i :: LastRecord(services, i, full, port)) <==>
      Records(services[n], full, port) || ((forall p :: !Records(services[n], full, p)) && exists i :: LastRecord(services[..n], i, full, port))
  {
    var n := |services| - 1;
    if Records(services[n], full, port) {
      assert LastRecord(services, n, full, port);
    } else {
      if i :| LastRecord(services, i, full, port) {
        assert LastRecord(services[..n], i, full, port);
      }
      if (forall p :: !Records(services[n], full, p)) && exists i :: LastRecord(services[..n], i, full, port) {
        var i :| LastRecord(services[..n], i, full, port);
        assert LastRecord(services, i, full, port);
      }
    }
  }

  lemma UsedGrows(services: seq<Service>, port: int)
    requires services != []
    ensures
      var n := |services| - 1;
      (exists i, key | 0 <= i < |services| :: Records(services[i], FullKey(services[i].uid, key), port)) <==>
      (Readable(services[n]) && port in services[n].portMap.value.Values) ||
      (exists i, key | 0 <= i < n :: Records(services[..n][i], FullKey(services[..n][i].uid, key), port))
  {
    var n := |services| - 1;
    if Readable(services[n]) && port in services[n].portMap.value.Values {
      var key :| key in services[n].portMap.value && services[n].portMap.value[key] == port;
      assert Records(services[n], FullKey(services[n].uid, key), port);
    }
    if i, key :| 0 <= i < n && Records(services[..n][i], FullKey(services[..n][i].uid, key), port) {
      assert Records(services[i], FullKey(services[i].uid, key), port);
    }
    if i, key :| 0 <= i < |services| && Records(services[i], FullKey(services[i].uid, key), port) {
      if i < n {
        assert Records(services[..n][i], FullKey(services[..n][i].uid, key), port);
      }
    }
  }

  /** The rendered map of one gateway: its keys without the prefix. */
  function Rendered(held: PortMap, uid: string): PortMap {
    map key | key in (set full | full in held && HasPrefix(full, uid + "|") && |full| > |uid| + 1 :: full[|uid| + 1..])
              && FullKey(uid, key) in held ::
      held[FullKey(uid, key)]
  }

  lemma RenderedHas(held: PortMap, uid: string, key: string)
    ensures key in Rendered(held, uid) <==> key != "" && FullKey(uid, key) in held
    ensures key in Rendered(held, uid) ==> Rendered(held, uid)[key] == held[FullKey(uid, key)]
  {
    var full := FullKey(uid, key);
    assert full[|uid| + 1..] == key;
    assert full[..|uid| + 1] == uid + "|";
    if key in Rendered(held, uid) {
      var other :| other in held && HasPrefix(other, uid + "|") && |other| > |uid| + 1 && other[|uid| + 1..] == key;
      assert other == FullKey(uid, key);
    }
  }

  /** The first port of the range nobody uses. */
  function FirstFree(min: int, max: int, used: set<int>): (port: Option<int>)
    ensures port.Some? ==> port.value !in used && exists c | min <= c <= max :: ToInt32(c) == port.value
    ensures port.None? ==> forall c | min <= c <= max :: ToInt32(c) in used
    decreases max - min + 1
  {
    if min > max then None
    else if ToInt32(min) !in used then Some(ToInt32(min))
    else FirstFree(min + 1, max, used)
  }

  /** It is the first: every earlier one of the range is in use. */
  lemma {:induction false} FirstFreeIsFirst(min: int, max: int, used: set<int>) returns (c: int)
    requires FirstFree(min, max, used).Some?
    ensures min <= c <= max && FirstFree(min, max, used) == Some(ToInt32(c)) && ToInt32(c) !in used
    ensures forall d | min <= d < c :: ToInt32(d) in used
    decreases max - min + 1
  {
    c := min;
    if ToInt32(min) in used {
      c := FirstFreeIsFirst(min + 1, max, used);
    }
  }

  class PortAllocator {
    const min: int
    const max: int
    var used: set<int>
    var held: PortMap

    constructor (min: int, max: int, services: seq<Service>)
      ensures this.min == min && this.max == max
      ensures used == Used(services) && held == Assigned(services)
    {
      this.min, this.max := min, max;
      used, held := {}, map[];
      new;
      for i := 0 to |services|
        invariant used == Used(services[..i]) && held == Assigned(services[..i])
      {
        assert services[..i + 1][..i] == services[..i];
        if services[i].uid == "" || services[i].portMap.None? {
          continue;
        }
        LoadPortMap(services[i].uid, services[i].portMap.value);
      }
      assert services[..|services|] == services;
    }

    method LoadPortMap(uid: string, m: PortMap)
      modifies this`used, this`held
      ensures used == old(used) + m.Values && held == old(held) + Prefixed(uid, m)
    {
      var rest := m.Keys;
      ghost var before := Ledger(used, held);
      assert Read(before, uid, m, rest, before) by {
        assert m - rest == map[];
      }
      while rest != {}
        invariant Read(before, uid, m, rest, Ledger(used, held))
      {
        var key :| key in rest;
        ReadStep(before, uid, m, rest, key, Ledger(used, held));
        rest := rest - {key};
        held := held[FullKey(uid, key) := m[key]];
        used := used + {m[key]};
      }
      assert m - {} == m;
    }

    /** The stable port of a group: the one it holds, or the first free one. */
    method Allocate(uid: string, port: nat, protocol: string) returns (internal: Option<int>)
      modifies this`used, this`held
      ensures
        var key := FullKey(uid, GroupKey(port, protocol));
        var before, after := Ledger(old(used), old(held)), Ledger(used, held);
        internal == PortFor(before, min, max, key) && after == Granted(before, min, max, key)
    {
      var key := FullKey(uid, GroupKey(port, protocol));
      if key in held {
        return Some(held[key]);
      }
      var candidate := min;
      while candidate <= max
        invariant min <= candidate && FirstFree(min, max, used) == FirstFree(candidate, max, used)
      {
        var free := ToInt32(candidate);
        if free in used {
          candidate := candidate + 1;
          continue;
        }
        used := used + {free};
        held := held[key := free];
        return Some(free);
      }
      internal := None;
    }

    method PortMapOf(uid: string) returns (m: PortMap)
      ensures m == Rendered(held, uid)
    {
      m := map[];
      var prefix := uid + "|";
      var rest := held.Keys;
      while rest != {}
        invariant rest <= held.Keys
        invariant forall key | key in m :: FullKey(uid, key) in held.Keys - rest && key != "" && m[key] == held[FullKey(uid, key)]
        invariant forall key | key != "" && FullKey(uid, key) in held.Keys - rest :: key in m
      {
        var full :| full in rest;
        rest := rest - {full};
        if |full| > |prefix| && full[..|prefix|] == prefix {
          assert full == FullKey(uid, full[|prefix|..]);
          m := m[full[|prefix|..] := held[full]];
        }
        FullKeyCuts(uid, full);
      }
      forall key
        ensures key in m <==> key in Rendered(held, uid)
        ensures key in m ==> m[key] == Rendered(held, uid)[key]
      {
        RenderedHas(held, uid, key);
      }
    }
  }

  lemma FullKeyCuts(uid: string, full: string)
    ensures forall key | FullKey(uid, key) == full :: key == full[|uid| + 1..] && |full| > |uid|
    ensures forall key | FullKey(uid, key) == full && key != "" :: |full| > |uid| + 1 && full[..|uid| + 1] == uid + "|"
  {
  }

  lemma PrefixedGrows(uid: string, m: PortMap, key: string, port: int)
    ensures Prefixed(uid, m[key := port]) == Prefixed(uid, m)[FullKey(uid, key) := port]
  {
    var a, b := Prefixed(uid, m[key := port]), Prefixed(uid, m)[FullKey(uid, key) := port];
    assert FullKey(uid, key)[|uid| + 1..] == key;
    forall full
      ensures full in a <==> full in b
      ensures full in a ==> a[full] == b[full]
    {
      if |full| > |uid| {
        PrefixedHas(uid, m, full[|uid| + 1..]);
        PrefixedHas(uid, m[key := port], full[|uid| + 1..]);
      }
    }
  }

  /** The allocator once all entries of a port map but `rest` are in. */
  ghost predicate Read(before: Ledger, uid: string, m: PortMap, rest: set<string>, now: Ledger) {
    rest <= m.Keys && now == Ledger(before.used + (m - rest).Values, before.held + Prefixed(uid, m - rest))
  }

  lemma ReadStep(before: Ledger, uid: string, m: PortMap, rest: set<string>, key: string, now: Ledger)
    requires Read(before, uid, m, rest, now) && key in rest
    ensures Read(before, uid, m, rest - {key}, Ledger(now.used + {m[key]}, now.held[FullKey(uid, key) := m[key]]))
  {
    var seen := m - rest;
    assert m - (rest - {key}) == seen[key := m[key]];
    PrefixedGrows(uid, seen, key, m[key]);
    ValuesGrow(seen, key, m[key]);
    MergeUpdates(before.held, Prefixed(uid, seen), FullKey(uid, key), m[key]);
  }

  lemma MergeUpdates(a: PortMap, b: PortMap, key: string, port: int)
    ensures a + b[key := port] == (a + b)[key := port]
  {
  }

  lemma ValuesGrow(m: PortMap, key: string, port: int)
    requires key !in m
    ensures m[key := port].Values == m.Values + {port}
  {
    var grown := m[key := port];
    forall p
      ensures p in grown.Values <==> p in m.Values || p == port
    {
      if p in m.Values {
        var k :| k in m && m[k] == p;
        assert grown[k] == p;
      }
      assert grown[key] == port;
    }
  }

  // ------------------------------------------------------------ one ledger --

  datatype Ledger = Ledger(used: set<int>, held: PortMap)

  function PortFor(ledger: Ledger, min: int, max: int, key: string): Option<int> {
    if key in ledger.held then Some(ledger.held[key]) else FirstFree(min, max, ledger.used)
  }

  function Granted(ledger: Ledger, min: int, max: int, key: string): Ledger {
    var port := PortFor(ledger, min, max, key);
    if key in ledger.held || port.None? then ledger
    else Ledger(ledger.used + {port.value}, ledger.held[key := port.value])
  }

  /** No two keys share a port, and every held port is known as used. */
  ghost predicate Injective(ledger: Ledger) {
    && (forall a, b | a in ledger.held && b in ledger.held && ledger.held[a] == ledger.held[b] :: a == b)
    && (forall a | a in ledger.held :: ledger.held[a] in ledger.used)
  }

  /** An allocation keeps every port held before and never hands one out twice; it fails only
      when the whole range is used. */
  lemma AllocationIsFresh(ledger: Ledger, min: int, max: int, key: string)
    requires Injective(ledger)
    ensures
      var after := Granted(ledger, min, max, key);
      && Injective(after)
      && (forall k | k in ledger.held :: k in after.held && after.held[k] == ledger.held[k])
      && (forall k | k in after.held :: k in ledger.held || k == key)
      && (PortFor(ledger, min, max, key).Some? <==> key in after.held)
      && (PortFor(ledger, min, max, key).None? <==>
            key !in ledger.held && forall c | min <= c <= max :: ToInt32(c) in ledger.used)
  {
  }

  // ----------------------------------------------------------- many syncs --

  /** The persisted port maps by gateway, and the allocator of the sync under way. */
  datatype State = State(services: map<string, PortMap>, ledger: Option<Ledger>)

  datatype Step =
    | StartSync(order: seq<string>)
    | Allocate(uid: string, port: nat, protocol: string)
    | Persist(uid: string)
    | EndSync
    | DeleteService(uid: string)

  datatype Range = Range(min: int, max: int)

  function Listed(services: map<string, PortMap>, order: seq<string>): seq<Service>
    requires forall i | 0 <= i < |order| :: order[i] in services
  {
    seq(|order|, i requires 0 <= i < |order| => Service(order[i], Some(services[order[i]])))
  }

  /** Kubernetes UIDs are not empty and hold no bar. */
  predicate ProperUid(uid: string) {
    uid != "" && '|' !in uid
  }

  ghost predicate Enabled(s: State, step: Step) {
    match step
    case StartSync(order) =>
      && s.ledger.None?
      && (forall i, j | 0 <= i < j < |order| :: order[i] != order[j])
      && (forall i | 0 <= i < |order| :: order[i] in s.services)
      && (forall uid | uid in s.services :: uid in order)
    case Allocate(uid, _, _) => s.ledger.Some? && ProperUid(uid)
    case Persist(uid) => s.ledger.Some? && ProperUid(uid)
    case EndSync => s.ledger.Some?
    case DeleteService(uid) => true
  }

  ghost function Do(r: Range, s: State, step: Step): State
    requires Enabled(s, step)
  {
    match step
    case StartSync(order) =>
      var services := Listed(s.services, order);
      s.(ledger := Some(Ledger(Used(services), Assigned(services))))
    case Allocate(uid, port, protocol) =>
      s.(ledger := Some(Granted(s.ledger.value, r.min, r.max, FullKey(uid, GroupKey(port, protocol)))))
    case Persist(uid) => s.(services := s.services[uid := Rendered(s.ledger.value.held, uid)])
    case EndSync => s.(ledger := None)
    case DeleteService(uid) => s.(services := s.services - {uid})
  }

  datatype Run = Start | Then(before: Run, step: Step, after: State)

  function Last(run: Run): State {
    if run.Start? then State(map[], None) else run.after
  }

  ghost predicate IsRun(r: Range, run: Run) {
    run.Then? ==>
      && IsRun(r, run.before)
      && Enabled(Last(run.before), run.step)
      && run.after == Do(r, Last(run.before), run.step)
  }

  // ------------------------------------------------------------ invariant --

  predicate Persists(s: State, uid: string, key: string, port: int) {
    uid in s.services && key in s.services[uid] && s.services[uid][key] == port
  }

  ghost predicate ProperServices(s: State) {
    forall uid | uid in s.services :: ProperUid(uid) && "" !in s.services[uid]
  }

  /** No two persisted groups share a port. */
  ghost predicate PersistedApart(s: State) {
    forall u, k, v, l, port | Persists(s, u, k, port) && Persists(s, v, l, port) :: u == v && k == l
  }

  /** The allocator of a sync knows every persisted allocation. */
  ghost predicate KnowsPersisted(s: State) {
    s.ledger.Some? ==>
      forall u, k, port | Persists(s, u, k, port) :: FullKey(u, k) in s.ledger.value.held && s.ledger.value.held[FullKey(u, k)] == port
  }

  ghost predicate Invariant(s: State) {
    ProperServices(s) && PersistedApart(s) && KnowsPersisted(s) && (s.ledger.Some? ==> Injective(s.ledger.value))
  }

  lemma {:induction false} AssignedHas(services: seq<Service>, i: nat, key: string)
    requires forall x | 0 <= x < |services| :: Readable(services[x]) && '|' !in services[x].uid
    requires forall x, y | 0 <= x < y < |services| :: services[x].uid != services[y].uid
    requires i < |services| && services[i].portMap.Some? && key in services[i].portMap.value
    ensures FullKey(services[i].uid, key) in Assigned(services)
    ensures Assigned(services)[FullKey(services[i].uid, key)] == services[i].portMap.value[key]
    ensures services[i].portMap.value[key] in Used(services)
  {
    var n := |services| - 1;
    var last := services[n];
    if i < n {
      AssignedHas(services[..n], i, key);
      var full := FullKey(services[i].uid, key);
      if full in Prefixed(last.uid, last.portMap.value) {
        FullKeysNameGateways(services[i].uid, key, last.uid, full[|last.uid| + 1..]);
      }
    } else {
      PrefixedHas(last.uid, last.portMap.value, key);
    }
  }

  lemma {:induction false} AssignedFrom(services: seq<Service>, full: string) returns (i: nat, key: string)
    requires forall x | 0 <= x < |services| :: Readable(services[x])
    requires full in Assigned(services)
    ensures i < |services| && services[i].portMap.Some? && key in services[i].portMap.value && full == FullKey(services[i].uid, key)
  {
    var n := |services| - 1;
    var last := services[n];
    if full in Prefixed(last.uid, last.portMap.value) {
      i, key := n, full[|last.uid| + 1..];
    } else {
      i, key := AssignedFrom(services[..n], full);
    }
  }

  /** Rebuilding from the rendered maps recovers every persisted assignment and nothing else. */
  lemma RebuildRecovers(s: State, order: seq<string>, uid: string, key: string)
    requires ProperServices(s) && Enabled(s, StartSync(order)) && ProperUid(uid)
    ensures
      var rebuilt := Assigned(Listed(s.services, order));
      && (FullKey(uid, key) in rebuilt <==> uid in s.services && key in s.services[uid])
      && (FullKey(uid, key) in rebuilt ==> rebuilt[FullKey(uid, key)] == s.services[uid][key] && s.services[uid][key] in Used(Listed(s.services, order)))
  {
    var services := Listed(s.services, order);
    if uid in s.services && key in s.services[uid] {
      var i :| 0 <= i < |order| && order[i] == uid;
      AssignedHas(services, i, key);
    } else if FullKey(uid, key) in Assigned(services) {
      var i, k := AssignedFrom(services, FullKey(uid, key));
      FullKeysNameGateways(uid, key, services[i].uid, k);
    }
  }

  lemma RebuiltFrom(s: State, order: seq<string>, full: string) returns (uid: string, key: string)
    requires ProperServices(s) && Enabled(s, StartSync(order)) && full in Assigned(Listed(s.services, order))
    ensures full == FullKey(uid, key) && Persists(s, uid, key, Assigned(Listed(s.services, order))[full])
    ensures Assigned(Listed(s.services, order))[full] in Used(Listed(s.services, order))
  {
    var services := Listed(s.services, order);
    var i, k := AssignedFrom(services, full);
    AssignedHas(services, i, k);
    uid, key := services[i].uid, k;
  }

  lemma RebuiltIsInjective(s: State, order: seq<string>)
    requires ProperServices(s) && PersistedApart(s) && Enabled(s, StartSync(order))
    ensures Injective(Ledger(Used(Listed(s.services, order)), Assigned(Listed(s.services, order))))
  {
    var held := Assigned(Listed(s.services, order));
    forall a | a in held
      ensures held[a] in Used(Listed(s.services, order))
    {
      var u, k := RebuiltFrom(s, order, a);
    }
    forall a, b | a in held && b in held && held[a] == held[b]
      ensures a == b
    {
      var u, k := RebuiltFrom(s, order, a);
      var v, l := RebuiltFrom(s, order, b);
    }
  }

  lemma StartKeepsInvariant(r: Range, s: State, order: seq<string>)
    requires Invariant(s) && Enabled(s, StartSync(order))
    ensures Invariant(Do(r, s, StartSync(order)))
  {
    var s' := Do(r, s, StartSync(order));
    RebuiltIsInjective(s, order);
    forall u, k, port | Persists(s', u, k, port)
      ensures FullKey(u, k) in s'.ledger.value.held && s'.ledger.value.held[FullKey(u, k)] == port
    {
      assert Persists(s, u, k, port);
      RebuildRecovers(s, order, u, k);
    }
    forall u, k, v, l, p | Persists(s', u, k, p) && Persists(s', v, l, p)
      ensures u == v && k == l
    {
      assert Persists(s, u, k, p) && Persists(s, v, l, p);
    }
  }

  lemma PersistsAfterPersist(r: Range, s: State, uid: string, u: string, k: string, port: int)
    requires Invariant(s) && Enabled(s, Persist(uid)) && Persists(Do(r, s, Persist(uid)), u, k, port)
    ensures k != "" && FullKey(u, k) in s.ledger.value.held && s.ledger.value.held[FullKey(u, k)] == port
  {
    if u == uid {
      RenderedHas(s.ledger.value.held, uid, k);
    } else {
      assert Persists(s, u, k, port);
    }
  }

  lemma PersistKeepsInvariant(r: Range, s: State, uid: string)
    requires Invariant(s) && Enabled(s, Persist(uid))
    ensures Invariant(Do(r, s, Persist(uid)))
  {
    var s' := Do(r, s, Persist(uid));
    RenderedHas(s.ledger.value.held, uid, "");
    forall u, k, v, l, port | Persists(s', u, k, port) && Persists(s', v, l, port)
      ensures u == v && k == l
    {
      PersistsAfterPersist(r, s, uid, u, k, port);
      PersistsAfterPersist(r, s, uid, v, l, port);
      FullKeysNameGateways(u, k, v, l);
    }
    forall u, k, port | Persists(s', u, k, port)
      ensures FullKey(u, k) in s'.ledger.value.held && s'.ledger.value.held[FullKey(u, k)] == port
    {
      PersistsAfterPersist(r, s, uid, u, k, port);
    }
  }

  lemma StepKeepsInvariant(r: Range, s: State, step: Step)
    requires Invariant(s) && Enabled(s, step)
    ensures Invariant(Do(r, s, step))
  {
    match step
    case StartSync(order) => StartKeepsInvariant(r, s, order);
    case Allocate(uid, port, protocol) => AllocateKeepsInvariant(r, s, uid, port, protocol);
    case Persist(uid) => PersistKeepsInvariant(r, s, uid);
    case EndSync => EndKeepsInvariant(r, s, step);
    case DeleteService(uid) => EndKeepsInvariant(r, s, step);
  }

  lemma AllocateKeepsInvariant(r: Range, s: State, uid: string, port: nat, protocol: string)
    requires Invariant(s) && Enabled(s, Allocate(uid, port, protocol))
    ensures Invariant(Do(r, s, Allocate(uid, port, protocol)))
  {
    AllocationIsFresh(s.ledger.value, r.min, r.max, FullKey(uid, GroupKey(port, protocol)));
    var s' := Do(r, s, Allocate(uid, port, protocol));
    forall u, k, p | Persists(s', u, k, p)
      ensures FullKey(u, k) in s'.ledger.value.held && s'.ledger.value.held[FullKey(u, k)] == p
    {
      assert Persists(s, u, k, p);
    }
    forall u, k, v, l, p | Persists(s', u, k, p) && Persists(s', v, l, p)
      ensures u == v && k == l
    {
      assert Persists(s, u, k, p) && Persists(s, v, l, p);
    }
  }

  lemma EndKeepsInvariant(r: Range, s: State, step: Step)
    requires Invariant(s) && Enabled(s, step) && (step.EndSync? || step.DeleteService?)
    ensures Invariant(Do(r, s, step))
  {
    var s' := Do(r, s, step);
    forall u, k, v, l, p | Persists(s', u, k, p) && Persists(s', v, l, p)
      ensures u == v && k == l
    {
      assert Persists(s, u, k, p) && Persists(s, v, l, p);
    }
    forall u, k, p | Persists(s', u, k, p)
      ensures Persists(s, u, k, p)
    {
    }
  }

  lemma {:induction false} RunKeepsInvariant(r: Range, run: Run)
    requires IsRun(r, run)
    ensures Invariant(Last(run))
  {
    if run.Then? {
      RunKeepsInvariant(r, run.before);
      StepKeepsInvariant(r, Last(run.before), run.step);
    }
  }

  // ------------------------------------------------------------- theorems --

  /** The internal port a group has in the sync under way. */
  function PortOf(s: State, uid: string, port: nat, protocol: string): Option<int>
    requires s.ledger.Some?
  {
    var key := FullKey(uid, GroupKey(port, protocol));
    if key in s.ledger.value.held then Some(s.ledger.value.held[key]) else None
  }

  /** In one sync, distinct groups never share an internal port. */
  lemma GroupsNeverShare(r: Range, run: Run, u: string, p: nat, a: string, v: string, q: nat, b: string)
    requires IsRun(r, run) && Last(run).ledger.Some? && ProperUid(u) && ProperUid(v)
    requires PortOf(Last(run), u, p, a).Some? && PortOf(Last(run), u, p, a) == PortOf(Last(run), v, q, b)
    ensures u == v && p == q && a == b
  {
    RunKeepsInvariant(r, run);
    FullKeysNameGateways(u, GroupKey(p, a), v, GroupKey(q, b));
    GroupKeysNameGroups(p, a, q, b);
  }

  /** Persisting writes down every port the gateway holds, and nothing of any other gateway changes. */
  lemma PersistingWritesDown(r: Range, s: State, uid: string, port: nat, protocol: string)
    requires Enabled(s, Persist(uid)) && PortOf(s, uid, port, protocol).Some?
    ensures Persists(Do(r, s, Persist(uid)), uid, GroupKey(port, protocol), PortOf(s, uid, port, protocol).value)
    ensures forall u, key, p | u != uid :: Persists(Do(r, s, Persist(uid)), u, key, p) <==> Persists(s, u, key, p)
  {
    RenderedHas(s.ledger.value.held, uid, GroupKey(port, protocol));
  }

  /** The gateway's Service was not deleted since the allocation was persisted. */
  predicate Remains(run: Run, uid: string, key: string, port: int) {
    Persists(Last(run), uid, key, port) ||
    (run.Then? && Remains(run.before, uid, key, port) && run.step != DeleteService(uid))
  }

  lemma StepKeepsPersisted(r: Range, s: State, step: Step, uid: string, key: string, port: int)
    requires Invariant(s) && Enabled(s, step) && Persists(s, uid, key, port) && step != DeleteService(uid)
    ensures Persists(Do(r, s, step), uid, key, port)
  {
    if step == Persist(uid) {
      RenderedHas(s.ledger.value.held, uid, key);
    }
  }

  /** A persisted allocation is never renumbered while its Service exists, and every sync that
      runs meanwhile answers with that port for that group and for no other. */
  lemma {:induction false} PersistedNeverMoves(r: Range, run: Run, uid: string, key: string, port: int)
    requires IsRun(r, run) && Remains(run, uid, key, port)
    ensures Persists(Last(run), uid, key, port)
    ensures Last(run).ledger.Some? ==>
      var held := Last(run).ledger.value.held;
      && FullKey(uid, key) in held && held[FullKey(uid, key)] == port
      && forall other | other in held && held[other] == port :: other == FullKey(uid, key)
  {
    if !Persists(Last(run), uid, key, port) {
      PersistedNeverMoves(r, run.before, uid, key, port);
      RunKeepsInvariant(r, run.before);
      StepKeepsPersisted(r, Last(run.before), run.step, uid, key, port);
    }
    RunKeepsInvariant(r, run);
  }

  /** An allocation that was not persisted is not kept: after a sync that ended between handing
      a port out and writing it down, another gateway can be given the same port. */
  lemma UnpersistedPortMovesOn(port: nat, protocol: string) returns (first: Run, second: Run)
    ensures
      var r := Range(10000, 10999);
      && IsRun(r, first) && IsRun(r, second)
      && Last(first).ledger.Some? && Last(second).ledger.Some?
      && PortOf(Last(first), "a", port, protocol) == Some(10000)
      && PortOf(Last(second), "b", port, protocol) == Some(10000)
      && second.Then? && second.before.Then? && second.before.before.Then? && second.before.before.before == first
  {
    var r := Range(10000, 10999);
    var s0 := State(map[], None);
    var s1 := Do(r, s0, StartSync([]));
    var r1 := Then(Start, StartSync([]), s1);
    first := Then(r1, Allocate("a", port, protocol), Do(r, s1, Allocate("a", port, protocol)));
    assert ToInt32(10000) == 10000;
    var s3 := Do(r, Last(first), EndSync);
    var r3 := Then(first, EndSync, s3);
    var s4 := Do(r, s3, StartSync([]));
    var r4 := Then(r3, StartSync([]), s4);
    second := Then(r4, Allocate("b", port, protocol), Do(r, s4, Allocate("b", port, protocol)));
  }
}
