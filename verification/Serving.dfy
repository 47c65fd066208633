/** One data-plane pod: the watcher that reads snapshots and the loader that turns them into
    served tables and acknowledgements. */
module Serving {
  import opened Strings
  import opened Compiled
  import opened Building
  import opened Loading

  // -------------------------------------------------------------- watcher --

  /** A configuration snapshot as mailed to the loader. The two halves come from two reads. */
  datatype RawConfig = RawConfig(cms: ConfigMaps, secrets: Secrets)

  /** The watcher's change detector: every object name with its resource version. */
  datatype Snapshot = Snapshot(cms: map<Name, nat>, secrets: map<Name, nat>)

  function SnapshotOf(raw: RawConfig): Snapshot {
    Snapshot(map name | name in raw.cms :: raw.cms[name].version,
             map name | name in raw.secrets :: raw.secrets[name].version)
  }

  class Watcher {
    var lastSnapshot: Snapshot
    var mailbox: seq<RawConfig>

    constructor ()
      ensures lastSnapshot == SnapshotOf(RawConfig(map[], map[])) && mailbox == []
    {
      lastSnapshot, mailbox := Snapshot(map[], map[]), [];
    }

    /** `poll` once both lists have been read. */
    method Poll(cms: ConfigMaps, secrets: Secrets)
      modifies this
      ensures
        var raw := RawConfig(cms, secrets);
        && lastSnapshot == SnapshotOf(raw)
        && mailbox == old(mailbox) + if SnapshotOf(raw) == old(lastSnapshot) then [] else [raw]
    {
      var snapshot := SnapshotOf(RawConfig(cms, secrets));
      if snapshot == lastSnapshot {
        return;
      }
      mailbox := mailbox + [RawConfig(cms, secrets)];
      lastSnapshot := snapshot;
    }
  }

  // --------------------------------------------------------------- loader --

  /** The acknowledgement of one gateway. */
  datatype Status = Status(desired: Generation, applied: Generation, failed: bool)

  type Tables = map<string, GatewayTable>
  type Statuses = map<string, Status>

  datatype Judgement = Judgement(table: Option<GatewayTable>, status: Status)

  /** Last-valid behaviour: the served table stays, and the error is reported. */
  function Fallback(desired: Generation, table: Option<GatewayTable>, status: Option<Status>): Judgement {
    Judgement(table, Status(desired,
                            if table.Some? then table.value.generation
                            else if status.Some? then status.value.applied
                            else NoGeneration,
                            true))
  }

  /** What a manifest, and the outcome of loading it, mean for one gateway, given the table it
      serves and the status it last reported. */
  function Judge(m: Option<Manifest>, outcome: Outcome, table: Option<GatewayTable>, status: Option<Status>): Judgement {
    match m
    case None => Fallback(NoGeneration, table, status)
    case Some(m) =>
      if table.Some? && table.value.generation == m.generation then
        Judgement(table, Status(m.generation, m.generation, false))
      else
        match outcome
        case Loaded(loaded) => Judgement(Some(loaded), Status(m.generation, m.generation, false))
        case Refused(_) => Fallback(m.generation, table, status)
  }

  function OutcomeOf(k: Checks, m: Option<Manifest>, raw: RawConfig): Outcome {
    if m.None? then Refused(MissingObject) else Load(k, m.value, raw.cms, raw.secrets)
  }

  function Find<V>(m: map<string, V>, key: string): Option<V> {
    if key in m then Some(m[key]) else None
  }

  predicate IsManifest(cm: ConfigMap) {
    cm.labels.role == ManifestRole && cm.labels.gatewayUid != ""
  }

  /** The gateways a snapshot carries a manifest of. */
  function Gateways(cms: ConfigMaps): set<string> {
    set name | name in cms && IsManifest(cms[name]) :: cms[name].labels.gatewayUid
  }

  /** A manifest sits under the name of the gateway it is labelled with. */
  predicate ManifestsByName(cms: ConfigMaps) {
    forall name | name in cms && IsManifest(cms[name]) :: name == ManifestName(cms[name].labels.gatewayUid)
  }

  function JudgeGateway(k: Checks, uid: string, raw: RawConfig, tables: Tables, statuses: Statuses): Judgement
    requires ManifestName(uid) in raw.cms
  {
    var m := raw.cms[ManifestName(uid)].manifest;
    Judge(m, OutcomeOf(k, m, raw), Find(tables, uid), Find(statuses, uid))
  }

  function Judgements(k: Checks, raw: RawConfig, tables: Tables, statuses: Statuses): map<string, Judgement>
    requires ManifestsByName(raw.cms)
  {
    map uid | uid in Gateways(raw.cms) :: JudgeGateway(k, uid, raw, tables, statuses)
  }

  function TablesOf(judged: map<string, Judgement>): Tables {
    map uid | uid in judged && judged[uid].table.Some? :: judged[uid].table.value
  }

  function StatusesOf(judged: map<string, Judgement>): Statuses {
    map uid | uid in judged :: judged[uid].status
  }

  function NextTables(k: Checks, raw: RawConfig, tables: Tables, statuses: Statuses): Tables
    requires ManifestsByName(raw.cms)
  {
    TablesOf(Judgements(k, raw, tables, statuses))
  }

  function NextStatuses(k: Checks, raw: RawConfig, tables: Tables, statuses: Statuses): Statuses
    requires ManifestsByName(raw.cms)
  {
    StatusesOf(Judgements(k, raw, tables, statuses))
  }

  /** The loader actor. `tables` is the published routing state, before its ports are merged. */
  class Loader {
    var applied: Tables
    var tables: Tables
    var statuses: Statuses

    /** The manifest loop of `rebuild`, in whatever order the snapshot map is walked. */
    method JudgeAll(k: Checks, raw: RawConfig) returns (tables': Tables, statuses': Statuses)
      requires ManifestsByName(raw.cms)
      ensures tables' == NextTables(k, raw, applied, statuses)
      ensures statuses' == NextStatuses(k, raw, applied, statuses)
    {
      tables', statuses' := map[], map[];
      var rest := raw.cms.Keys;
      ghost var all := Judgements(k, raw, applied, statuses);
      ghost var judged: map<string, Judgement> := map[];
      while rest != {}
        invariant Walked(raw.cms, rest, judged, all)
        invariant tables' == TablesOf(judged) && statuses' == StatusesOf(judged)
      {
        var name :| name in rest;
        var cm := raw.cms[name];
        if cm.labels.role != ManifestRole || cm.labels.gatewayUid == "" {
          WalkSkips(raw.cms, rest, name, judged, all);
          rest := rest - {name};
          continue;
        }
        var uid := cm.labels.gatewayUid;
        var verdict := JudgeManifest(k, uid, cm.manifest, raw);
        WalkTakes(raw.cms, rest, name, judged, all);
        rest := rest - {name};
        assert verdict == all[uid];
        JudgementsGrow(judged, uid, verdict);
        judged := judged[uid := verdict];
        if verdict.table.Some? {
          tables' := tables'[uid := verdict.table.value];
        }
        statuses' := statuses'[uid := verdict.status];
      }
      WalkEnds(raw.cms, judged, all);
    }

    method JudgeManifest(k: Checks, uid: string, manifest: Option<Manifest>, raw: RawConfig) returns (judged: Judgement)
      ensures judged == Judge(manifest, OutcomeOf(k, manifest, raw), Find(applied, uid), Find(statuses, uid))
    {
      var status := Status(NoGeneration, NoGeneration, false);
      var table: Option<GatewayTable> := None;
      var failed := true;
      if manifest.Some? {
        var m := manifest.value;
        status := status.(desired := m.generation);
        if uid in applied && applied[uid].generation == m.generation {
          return Judgement(Some(applied[uid]), status.(applied := m.generation));
        }
        var outcome := LoadGeneration(k, m, raw.cms, raw.secrets);
        if outcome.Loaded? {
          failed := false;
          table := Some(outcome.table);
          status := status.(applied := m.generation);
        }
      }
      if failed {
        status := status.(failed := true);
        if uid in applied {
          table := Some(applied[uid]);
          status := status.(applied := applied[uid].generation);
        } else if uid in statuses {
          status := status.(applied := statuses[uid].applied);
        }
      }
      judged := Judgement(table, status);
    }

    /** `rebuild`: judge every gateway, then publish the tables, then the statuses. */
    method Rebuild(k: Checks, raw: RawConfig)
      requires ManifestsByName(raw.cms)
      modifies this
      ensures applied == NextTables(k, raw, old(applied), old(statuses)) && tables == applied
      ensures statuses == NextStatuses(k, raw, old(applied), old(statuses))
    {
      var tables', statuses' := JudgeAll(k, raw);
      applied := tables';
      tables := tables';
      statuses := statuses';
    }
  }

  lemma JudgementsGrow(judged: map<string, Judgement>, uid: string, verdict: Judgement)
    requires uid !in judged
    ensures StatusesOf(judged[uid := verdict]) == StatusesOf(judged)[uid := verdict.status]
    ensures TablesOf(judged[uid := verdict]) ==
            if verdict.table.Some? then TablesOf(judged)[uid := verdict.table.value] else TablesOf(judged)
  {
  }

  /** The gateways judged once the walk has left only `rest`. */
  ghost predicate Walked(cms: ConfigMaps, rest: set<Name>, judged: map<string, Judgement>, all: map<string, Judgement>) {
    && rest <= cms.Keys
    && all.Keys == Gateways(cms)
    && judged.Keys == (set name | name in cms && name !in rest && IsManifest(cms[name]) :: cms[name].labels.gatewayUid)
    && (forall uid | uid in judged :: uid in all && judged[uid] == all[uid])
  }

  lemma WalkSkips(cms: ConfigMaps, rest: set<Name>, name: Name, judged: map<string, Judgement>, all: map<string, Judgement>)
    requires Walked(cms, rest, judged, all) && name in rest && !IsManifest(cms[name])
    ensures Walked(cms, rest - {name}, judged, all)
  {
  }

  lemma WalkTakes(cms: ConfigMaps, rest: set<Name>, name: Name, judged: map<string, Judgement>, all: map<string, Judgement>)
    requires ManifestsByName(cms)
    requires Walked(cms, rest, judged, all) && name in rest && IsManifest(cms[name])
    ensures
      var uid := cms[name].labels.gatewayUid;
      uid !in judged && uid in all && Walked(cms, rest - {name}, judged[uid := all[uid]], all)
  {
  }

  lemma WalkEnds(cms: ConfigMaps, judged: map<string, Judgement>, all: map<string, Judgement>)
    requires Walked(cms, {}, judged, all)
    ensures judged == all
  {
    assert judged.Keys == all.Keys;
  }

  // ------------------------------------------------------------ isolation --

  /** Two snapshots hold the same object, or neither holds it. */
  predicate AgreeOn(a: RawConfig, b: RawConfig, name: Name) {
    && (name in a.cms <==> name in b.cms)
    && (name in a.cms ==> a.cms[name] == b.cms[name])
    && (name in a.secrets <==> name in b.secrets)
    && (name in a.secrets ==> a.secrets[name] == b.secrets[name])
  }

  lemma {:induction false} GatheringReadsListedObjects(uid: string, refs: seq<ObjectRef>, a: RawConfig, b: RawConfig)
    requires forall i | 0 <= i < |refs| :: AgreeOn(a, b, refs[i].name)
    ensures Gathered(uid, refs, a.cms, a.secrets) == Gathered(uid, refs, b.cms, b.secrets)
  {
    if refs != [] {
      GatheringReadsListedObjects(uid, refs[..|refs| - 1], a, b);
    }
  }

  /** Two snapshots agree on a gateway: on its manifest and on every object that lists. */
  ghost predicate AgreeOnGateway(a: RawConfig, b: RawConfig, uid: string) {
    && AgreeOn(a, b, ManifestName(uid))
    && (ManifestName(uid) in a.cms && a.cms[ManifestName(uid)].manifest.Some? ==>
          forall i | 0 <= i < |a.cms[ManifestName(uid)].manifest.value.objects| ::
            AgreeOn(a, b, a.cms[ManifestName(uid)].manifest.value.objects[i].name))
  }

  lemma SameOutcome(k: Checks, uid: string, a: RawConfig, b: RawConfig)
    requires AgreeOnGateway(a, b, uid) && ManifestName(uid) in a.cms
    ensures OutcomeOf(k, a.cms[ManifestName(uid)].manifest, a) == OutcomeOf(k, b.cms[ManifestName(uid)].manifest, b)
  {
    if a.cms[ManifestName(uid)].manifest.Some? {
      var m := a.cms[ManifestName(uid)].manifest.value;
      GatheringReadsListedObjects(m.gatewayUid, m.objects, a, b);
    }
  }

  /** A gateway's outcome depends on its own manifest and the objects that one lists, whatever
      the snapshots say of every other gateway. */
  lemma GatewaysAreIsolated(k: Checks, uid: string, a: RawConfig, b: RawConfig,
                            tables: Tables, statuses: Statuses, tables': Tables, statuses': Statuses)
    requires ManifestsByName(a.cms) && ManifestsByName(b.cms)
    requires Find(tables, uid) == Find(tables', uid) && Find(statuses, uid) == Find(statuses', uid)
    requires AgreeOnGateway(a, b, uid)
    ensures Find(NextTables(k, a, tables, statuses), uid) == Find(NextTables(k, b, tables', statuses'), uid)
    ensures Find(NextStatuses(k, a, tables, statuses), uid) == Find(NextStatuses(k, b, tables', statuses'), uid)
  {
    SameGateway(uid, a.cms, b.cms);
    var j, j' := Judgements(k, a, tables, statuses), Judgements(k, b, tables', statuses');
    assert uid in j <==> uid in j';
    if uid in j {
      SameOutcome(k, uid, a, b);
      assert j[uid] == j'[uid];
    }
    SameProjection(j, j', uid);
  }

  lemma SameProjection(j: map<string, Judgement>, j': map<string, Judgement>, uid: string)
    requires uid in j <==> uid in j'
    requires uid in j ==> j[uid] == j'[uid]
    ensures Find(TablesOf(j), uid) == Find(TablesOf(j'), uid) && Find(StatusesOf(j), uid) == Find(StatusesOf(j'), uid)
  {
  }

  lemma SameGateway(uid: string, a: ConfigMaps, b: ConfigMaps)
    requires ManifestsByName(a) && ManifestsByName(b)
    requires ManifestName(uid) in a <==> ManifestName(uid) in b
    requires ManifestName(uid) in a ==> a[ManifestName(uid)] == b[ManifestName(uid)]
    ensures uid in Gateways(a) <==> uid in Gateways(b)
    ensures uid in Gateways(a) ==> ManifestName(uid) in a
  {
    if uid in Gateways(a) {
      var n :| n in a && IsManifest(a[n]) && a[n].labels.gatewayUid == uid;
      assert b[n] == a[n];
    }
    if uid in Gateways(b) {
      var n :| n in b && IsManifest(b[n]) && b[n].labels.gatewayUid == uid;
      assert a[n] == b[n];
    }
  }

  // ----------------------------------------------------- what a rebuild does --

  lemma GatewayHasManifest(cms: ConfigMaps, uid: string)
    requires ManifestsByName(cms)
    ensures uid in Gateways(cms) <==>
      && uid != "" && ManifestName(uid) in cms
      && cms[ManifestName(uid)].labels.role == ManifestRole && cms[ManifestName(uid)].labels.gatewayUid == uid
  {
    if uid in Gateways(cms) {
      var n :| n in cms && IsManifest(cms[n]) && cms[n].labels.gatewayUid == uid;
    }
  }

  /** A gateway without a manifest in the snapshot is neither served nor reported afterwards. */
  lemma MissingIsDropped(k: Checks, raw: RawConfig, tables: Tables, statuses: Statuses, uid: string)
    requires ManifestsByName(raw.cms)
    ensures uid in NextStatuses(k, raw, tables, statuses) <==> uid in Gateways(raw.cms)
    ensures uid in NextTables(k, raw, tables, statuses) ==> uid in Gateways(raw.cms)
  {
    GatewayHasManifest(raw.cms, uid);
  }

  /** For a gateway with a manifest: the table it serves stays if it is of the manifest's generation,
      or if that does not load; otherwise the loaded one replaces it. The report names the
      manifest's generation as desired and fails exactly when nothing of it is served. */
  lemma RebuildIsExact(k: Checks, raw: RawConfig, tables: Tables, statuses: Statuses, uid: string)
    requires ManifestsByName(raw.cms) && uid in Gateways(raw.cms)
    ensures
      var served, report := Find(NextTables(k, raw, tables, statuses), uid), Find(NextStatuses(k, raw, tables, statuses), uid);
      && ManifestName(uid) in raw.cms && report.Some?
      && match raw.cms[ManifestName(uid)].manifest
         case None => served == Find(tables, uid) && report.value.desired == NoGeneration && report.value.failed
         case Some(m) =>
           var outcome := Load(k, m, raw.cms, raw.secrets);
           var current := uid in tables && tables[uid].generation == m.generation;
           && report.value.desired == m.generation
           && (report.value.failed <==> !current && !outcome.Loaded?)
           && served == (if !current && outcome.Loaded? then Some(outcome.table) else Find(tables, uid))
  {
    GatewayHasManifest(raw.cms, uid);
    assert Judgements(k, raw, tables, statuses)[uid] == JudgeGateway(k, uid, raw, tables, statuses);
  }

  // ------------------------------------------------ last valid and status --

  /** A gateway that is served stays served by every snapshot that carries its manifest. */
  lemma ServedStaysServed(k: Checks, uid: string, raw: RawConfig, tables: Tables, statuses: Statuses)
    requires ManifestsByName(raw.cms)
    requires uid in tables && uid in Gateways(raw.cms)
    ensures uid in NextTables(k, raw, tables, statuses)
  {
    assert Judgements(k, raw, tables, statuses)[uid].table.Some?;
  }

  function GenerationOf(table: Option<GatewayTable>): Generation {
    if table.Some? then table.value.generation else NoGeneration
  }

  /** The reported generation is that of the served table, or empty. */
  ghost predicate ReportsServed(tables: Tables, statuses: Statuses) {
    && (forall uid | uid in statuses :: statuses[uid].applied == GenerationOf(Find(tables, uid)))
    && (forall uid | uid in tables :: uid in statuses)
  }

  lemma JudgeReportsServed(m: Option<Manifest>, outcome: Outcome, table: Option<GatewayTable>, status: Option<Status>)
    requires m.Some? && outcome.Loaded? ==> outcome.table.generation == m.value.generation
    requires status.Some? ==> status.value.applied == GenerationOf(table)
    ensures
      var judged := Judge(m, outcome, table, status);
      judged.status.applied == GenerationOf(judged.table)
  {
  }

  lemma LoadKeepsGeneration(k: Checks, m: Manifest, raw: RawConfig)
    requires Load(k, m, raw.cms, raw.secrets).Loaded?
    ensures Load(k, m, raw.cms, raw.secrets).table.generation == m.generation
  {
  }

  /** Every rebuild reports exactly what it serves; in particular the status inherited from
      the previous report never names a generation. */
  lemma RebuildReportsServed(k: Checks, raw: RawConfig, tables: Tables, statuses: Statuses)
    requires ManifestsByName(raw.cms) && ReportsServed(tables, statuses)
    ensures ReportsServed(NextTables(k, raw, tables, statuses), NextStatuses(k, raw, tables, statuses))
  {
    var judged := Judgements(k, raw, tables, statuses);
    forall uid | uid in judged
      ensures judged[uid].status.applied == GenerationOf(judged[uid].table)
    {
      var m := raw.cms[ManifestName(uid)].manifest;
      var outcome := OutcomeOf(k, m, raw);
      if m.Some? && outcome.Loaded? {
        LoadKeepsGeneration(k, m.value, raw);
      }
      JudgeReportsServed(m, outcome, Find(tables, uid), Find(statuses, uid));
    }
    JudgementsReportServed(judged);
  }

  lemma JudgementsReportServed(judged: map<string, Judgement>)
    requires forall uid | uid in judged :: judged[uid].status.applied == GenerationOf(judged[uid].table)
    ensures ReportsServed(TablesOf(judged), StatusesOf(judged))
  {
  }
}
