/**
 * The remote side of the controllers: API server, application database, Connect cluster, inventory.
 *
 * `s` is the state of the transition system of Protocol.dfy; its bookkeeping of the two passes is auxiliary. Every
 * remote call first lets the other processes take any number of steps, then either fails or takes effect as one step.
 * With `calm` nothing interferes and no call fails for reasons outside the model.
 */
module Clusters {
  import opened Wrappers
  import opened Names
  import opened Pipeline
  import opened Config
  import opened Connect
  import opened Validate
  import opened Protocol
  import opened Invariants
  import opened Calm

  datatype Actor = PipelineController | ValidationController

  /** A step of somebody else. */
  predicate Foreign(who: Actor, l: Label) {
    match who
    case PipelineController => !OfPipeline(l)
    case ValidationController => !l.Validation?
  }

  /** What the pipeline controller may rely on while others run: nobody else touches its resources. */
  ghost predicate Untouched(a: Sys, b: Sys) {
    b.p == a.p && b.tables == a.tables && b.view == a.view && b.conns.Keys == a.conns.Keys && b.used == a.used
  }

  lemma ValidationLeavesResources(s: Sys, o: ValidationStep)
    requires ValidationEnabled(s, o)
    ensures Untouched(s, ApplyValidation(s, o)) && ApplyValidation(s, o).ephemeral == s.ephemeral
  {
  }

  lemma EnvironmentLeavesResources(s: Sys, e: EnvironmentStep)
    requires EnvironmentEnabled(s, e)
    ensures Untouched(s, ApplyEnvironment(s, e)) && ApplyEnvironment(s, e).ephemeral == s.ephemeral
    ensures ApplyEnvironment(s, e).v == s.v
  {
  }

  lemma OthersLeaveResources(s: Sys, l: Label)
    requires Enabled(s, l) && !OfPipeline(l)
    ensures Untouched(s, Apply(s, l))
  {
    match l
    case Validation(o) => ValidationLeavesResources(s, o);
    case Environment(e) => EnvironmentLeavesResources(s, e);
  }

  lemma CleanupLeavesVerdict(s: Sys, c: CleanupStep)
    requires CleanupEnabled(s, c)
    ensures ApplyCleanup(s, c).v == s.v && ApplyCleanup(s, c).ephemeral == s.ephemeral
  {
  }

  lemma SyncLeavesVerdict(s: Sys, n: SyncStep)
    requires SyncEnabled(s, n)
    ensures ApplySync(s, n).v == s.v && ApplySync(s, n).ephemeral == s.ephemeral
  {
  }

  lemma ActLeavesVerdict(s: Sys, a: ActStep)
    requires ActEnabled(s, a)
    ensures ApplyAct(s, a).v == s.v && ApplyAct(s, a).ephemeral == s.ephemeral
  {
  }

  lemma PassLeavesVerdict(s: Sys, o: PassStep)
    requires PassEnabled(s, o)
    ensures ApplyPass(s, o).v == s.v && ApplyPass(s, o).ephemeral == s.ephemeral
  {
  }

  /** The validation controller's pass is its own, and the EPHEMERAL variable never changes. */
  lemma StepLeavesVerdict(s: Sys, l: Label)
    requires Enabled(s, l)
    ensures Apply(s, l).ephemeral == s.ephemeral
    ensures !l.Validation? ==> Apply(s, l).v == s.v
  {
    match l
    case Cleanup(c) => CleanupLeavesVerdict(s, c);
    case Sync(n) => SyncLeavesVerdict(s, n);
    case Act(a) => ActLeavesVerdict(s, a);
    case Pass(o) => PassLeavesVerdict(s, o);
    case Validation(o) => ValidationLeavesResources(s, o);
    case Environment(e) => EnvironmentLeavesResources(s, e);
  }

  // ---- What the two databases have been asked, and when the answers were true.

  predicate InventoryCountSeen(moments: seq<Env>, spec: Spec, count: int) {
    exists i :: 0 <= i < |moments| && moments[i].HbiCount(spec) == count
  }

  predicate AppCountSeen(moments: seq<Env>, table: string, count: int) {
    exists i :: 0 <= i < |moments| && |moments[i].appIds(table)| == count
  }

  predicate InventoryIdsSeen(moments: seq<Env>, spec: Spec, ids: seq<string>) {
    exists i :: 0 <= i < |moments| && moments[i].hbiIds(spec.insightsOnly, spec.additionalFilters) == ids
  }

  predicate AppIdsSeen(moments: seq<Env>, table: string, ids: seq<string>) {
    exists i :: 0 <= i < |moments| && moments[i].appIds(table) == ids
  }

  /** The three counts of a give-up. */
  predicate CountsSeen(
    moments: seq<Env>, spec: Spec, activeTable: string, latestTable: string,
    inventoryCount: int, activeCount: int, latestCount: int)
  {
    && InventoryCountSeen(moments, spec, inventoryCount)
    && AppCountSeen(moments, activeTable, activeCount) && AppCountSeen(moments, latestTable, latestCount)
  }

  /** The answers of a validation; the ids are not asked for when the counts are way off. */
  predicate AnswersSeen(
    moments: seq<Env>, spec: Spec, table: string,
    hbiCount: int, appCount: int, hbiIds: seq<string>, appIds: seq<string>)
  {
    && InventoryCountSeen(moments, spec, hbiCount) && AppCountSeen(moments, table, appCount)
    && (!CountsWayOff(hbiCount, appCount) ==> InventoryIdsSeen(moments, spec, hbiIds) && AppIdsSeen(moments, table, appIds))
  }

  /** The counts and ids a step is taken on were once those of the databases. */
  predicate Truthful(s: Sys, l: Label, moments: seq<Env>) {
    match l
    case Act(ShowHealthier(inventoryCount, activeCount, latestCount)) =>
      s.p.PPass? && s.view.Some? ==>
        CountsSeen(moments, s.p.snap.spec, s.view.value, s.p.snap.status.tableName, inventoryCount, activeCount, latestCount)
    case Validation(Validate(hbiCount, appCount, hbiIds, appIds, _)) =>
      s.v.VPass? ==> AnswersSeen(moments, s.v.snap.spec, s.v.snap.status.tableName, hbiCount, appCount, hbiIds, appIds)
    case _ => true
  }

  /** All steps of the run were taken on true answers. */
  ghost predicate Honest(start: Sys, log: seq<Label>, moments: seq<Env>) {
    log == [] ||
    (Honest(start, log[..|log| - 1], moments) && Truthful(Final(start, log[..|log| - 1]), log[|log| - 1], moments))
  }

  ghost predicate SomeOf(some: seq<Env>, all: seq<Env>) {
    forall i :: 0 <= i < |some| ==> some[i] in all
  }

  /** The last of `m1` is among what `m2` has seen since `m0`. */
  lemma SeenSince(m0: seq<Env>, m1: seq<Env>, m2: seq<Env>)
    requires m0 != [] && m0 <= m1 <= m2
    ensures m1[|m1| - 1] in m2[|m0| - 1..]
  {
    var i := |m1| - |m0|;
    assert m2[|m0| - 1..][i] == m2[|m1| - 1] == m1[|m1| - 1];
  }

  lemma CountsSeenLater(
    m: seq<Env>, m': seq<Env>, spec: Spec, activeTable: string, latestTable: string,
    inventoryCount: int, activeCount: int, latestCount: int)
    requires SomeOf(m, m') && CountsSeen(m, spec, activeTable, latestTable, inventoryCount, activeCount, latestCount)
    ensures CountsSeen(m', spec, activeTable, latestTable, inventoryCount, activeCount, latestCount)
  {
    var i :| 0 <= i < |m| && m[i].HbiCount(spec) == inventoryCount;
    var j :| 0 <= j < |m| && |m[j].appIds(activeTable)| == activeCount;
    var k :| 0 <= k < |m| && |m[k].appIds(latestTable)| == latestCount;
    assert m[i] in m' && m[j] in m' && m[k] in m';
  }

  lemma AnswersSeenLater(
    m: seq<Env>, m': seq<Env>, spec: Spec, table: string,
    hbiCount: int, appCount: int, hbiIds: seq<string>, appIds: seq<string>)
    requires SomeOf(m, m') && AnswersSeen(m, spec, table, hbiCount, appCount, hbiIds, appIds)
    ensures AnswersSeen(m', spec, table, hbiCount, appCount, hbiIds, appIds)
  {
    var i :| 0 <= i < |m| && m[i].HbiCount(spec) == hbiCount;
    var j :| 0 <= j < |m| && |m[j].appIds(table)| == appCount;
    assert m[i] in m' && m[j] in m';
    if !CountsWayOff(hbiCount, appCount) {
      var a :| 0 <= a < |m| && m[a].hbiIds(spec.insightsOnly, spec.additionalFilters) == hbiIds;
      var b :| 0 <= b < |m| && m[b].appIds(table) == appIds;
      assert m[a] in m' && m[b] in m';
    }
  }

  lemma TruthfulLater(s: Sys, l: Label, m: seq<Env>, m': seq<Env>)
    requires SomeOf(m, m') && Truthful(s, l, m)
    ensures Truthful(s, l, m')
  {
    match l
    case Act(ShowHealthier(inventoryCount, activeCount, latestCount)) =>
      if s.p.PPass? && s.view.Some? {
        CountsSeenLater(m, m', s.p.snap.spec, s.view.value, s.p.snap.status.tableName, inventoryCount, activeCount, latestCount);
      }
    case Validation(Validate(hbiCount, appCount, hbiIds, appIds, _)) =>
      if s.v.VPass? {
        AnswersSeenLater(m, m', s.v.snap.spec, s.v.snap.status.tableName, hbiCount, appCount, hbiIds, appIds);
      }
    case _ =>
  }

  lemma {:induction false} HonestLater(start: Sys, log: seq<Label>, m: seq<Env>, m': seq<Env>)
    requires SomeOf(m, m') && Honest(start, log, m)
    ensures Honest(start, log, m')
  {
    if log != [] {
      var n := |log| - 1;
      HonestLater(start, log[..n], m, m');
      TruthfulLater(Final(start, log[..n]), log[n], m, m');
    }
  }

  lemma {:induction false} TruthfulAt(start: Sys, log: seq<Label>, moments: seq<Env>, k: nat)
    requires Honest(start, log, moments) && k < |log|
    ensures Truthful(Final(start, log[..k]), log[k], moments)
  {
    if k < |log| - 1 {
      TruthfulAt(start, log[..|log| - 1], moments, k);
      assert log[..|log| - 1][..k] == log[..k];
    }
  }

  predicate Validatable(o: Object) {
    GetState(o) != StateNew && GetState(o) != StateRemoved
  }

  datatype ConnectorRead = NotFound | Found(connector: Connector) | ReadFailed

  class Cluster {
    var s: Sys
    var env: Env
    const calm: bool
    /** The EPHEMERAL variable of the operator's process. */
    const ephemeral: bool
    /** Every configuration and host data there has been; `env` is the last. */
    var moments: seq<Env>
    ghost const start: Sys
    ghost var log: seq<Label>

    /** The state is what the run logged so far leads to. */
    ghost predicate Valid()
      reads this
    {
      && Init(start) && IsRun(start, log) && Final(start, log) == s
      && env.ephemeral == ephemeral == s.ephemeral == start.ephemeral
      && moments != [] && moments[|moments| - 1] == env && Honest(start, log, moments)
    }

    lemma Invariant()
      requires Valid()
      ensures Inv(s)
    {
      InvAlways(start, log);
    }

    /** A snapshot with the latest version number is the latest revision. */
    lemma LatestSnapshot()
      requires Valid()
      ensures s.p.PPass? && s.p.snap.rv == s.obj.rv ==> s.p.snap == s.obj
      ensures s.v.VPass? && s.v.snap.rv == s.obj.rv ==> s.v.snap == s.obj
    {
      Invariant();
    }

    lemma ViewHasTable()
      requires Valid()
      ensures s.view.Some? ==> s.view.value in s.tables
    {
      Invariant();
    }

    /** The run was only continued. */
    twostate predicate Continues()
      reads this
    {
      old(log) <= log && old(moments) <= moments
    }

    /** What has been there since the call began. */
    twostate function Window(): (w: seq<Env>)
      requires old(moments) != []
      reads this
    {
      if |moments| < |old(moments)| then [] else moments[|old(moments)| - 1..]
    }

    function World(): World
      reads this
    {
      Calm.World(s.obj, s.gone, s.tables, s.view, s.conns)
    }

    constructor (initial: Sys, env: Env, calm: bool)
      requires Init(initial) && env.ephemeral == initial.ephemeral
      ensures Valid() && s == initial && this.env == env && this.calm == calm && log == []
    {
      this.s, this.env, this.moments := initial, env, [env];
      this.calm, this.ephemeral, this.start, this.log := calm, initial.ephemeral, initial, [];
    }

    method Step(l: Label)
      requires Valid() && Enabled(s, l) && Truthful(s, l, moments)
      modifies this`s, this`log
      ensures Valid() && Continues() && s == Apply(old(s), l)
    {
      StepLeavesVerdict(s, l);
      ghost var log' := log + [l];
      assert log'[..|log'| - 1] == log;
      s := Apply(s, l);
      log := log';
    }

    /** The other processes run; configuration and host data change. */
    method Others(who: Actor)
      requires Valid()
      modifies this`s, this`log, this`env, this`moments
      ensures Valid() && Continues()
      ensures calm ==> s == old(s) && env == old(env) && moments == old(moments)
      ensures who.PipelineController? ==> Untouched(old(s), s)
      ensures who.ValidationController? ==> s.v == old(s.v)
    {
      if calm {
        return;
      }
      var steps: nat := *;
      while steps > 0
        invariant Valid() && Continues()
        invariant who.PipelineController? ==> Untouched(old(s), s)
        invariant who.ValidationController? ==> s.v == old(s.v)
      {
        var l: Label := *;
        if Enabled(s, l) && Foreign(who, l) && Truthful(s, l, moments) {
          StepLeavesVerdict(s, l);
          if who.PipelineController? {
            OthersLeaveResources(s, l);
          }
          Step(l);
        }
        steps := steps - 1;
      }
      var env': Env := *;
      if env'.ephemeral == ephemeral {
        HonestLater(start, log, moments, moments + [env']);
        env := env';
        moments := moments + [env];
      }
    }

    method Succeeds() returns (ok: bool)
      ensures calm ==> ok
    {
      ok := calm;
      if !calm {
        ok := *;
      }
    }

    /** Nothing the caller may rely on has changed. */
    twostate predicate Quiet(who: Actor)
      reads this
    {
      && Continues()
      && (calm ==> s == old(s) && env == old(env) && moments == old(moments))
      && (who.PipelineController? ==> Untouched(old(s), s))
      && (who.ValidationController? ==> s.v == old(s.v))
    }

    // ---- Reading.

    /** Fetches the resource from the informer cache, and so begins a pass. */
    method FetchForPipeline() returns (found: bool, o: Object)
      requires Valid() && s.p.PIdle?
      modifies this`s, this`log, this`env, this`moments
      ensures Valid() && Continues()
      ensures found ==> s.p == PPass(o, o.status, NotRead, Cleaning) && s.used == old(s.used)
      ensures !found ==> s.p.PIdle?
      ensures calm ==> World() == old(World()) && env == old(env) && found == !s.gone && (found ==> o == s.obj)
    {
      Others(PipelineController);
      found := Succeeds();
      o := s.obj;
      if s.gone || !found {
        return false, o;
      }
      var rev: nat := |s.past|;
      if !calm {
        rev := *;
        if rev > |s.past| {
          rev := |s.past|;
        }
      }
      o := Rev(s, rev);
      Step(Pass(Start(rev)));
    }

    method FetchForValidation() returns (found: bool, o: Object)
      requires Valid() && s.v.VIdle?
      modifies this`s, this`log, this`env, this`moments
      ensures Valid() && Continues()
      ensures s.v == if found && Validatable(o) then VPass(o, o.status, None, false) else VIdle
      ensures calm ==> World() == old(World()) && env == old(env) && found == !s.gone && (found ==> o == s.obj)
    {
      Others(ValidationController);
      found := Succeeds();
      o := s.obj;
      if s.gone || !found {
        return false, o;
      }
      var rev: nat := |s.past|;
      if !calm {
        rev := *;
        if rev > |s.past| {
          rev := |s.past|;
        }
      }
      o := Rev(s, rev);
      if Validatable(o) {
        Step(Validation(StartValidation(rev)));
      }
    }

    method GetCurrentTable(who: Actor) returns (ok: bool, table: Option<string>)
      requires Valid()
      modifies this`s, this`log, this`env, this`moments
      ensures Valid() && Quiet(who)
      ensures ok ==> table == s.view
      ensures calm ==> ok
    {
      Others(who);
      ok := Succeeds();
      table := s.view;
    }

    method CheckIfTableExists(who: Actor, tableName: string) returns (ok: bool, exists_: bool)
      requires Valid()
      modifies this`s, this`log, this`env, this`moments
      ensures Valid() && Quiet(who)
      ensures ok ==> exists_ == (tableName != "" && tableName in s.tables)
      ensures calm ==> ok
    {
      if tableName == "" {
        return true, false;
      }
      Others(who);
      ok := Succeeds();
      exists_ := tableName in s.tables;
    }

    method GetConnector(who: Actor, name: string) returns (r: ConnectorRead)
      requires Valid()
      modifies this`s, this`log, this`env, this`moments
      ensures Valid() && Quiet(who)
      ensures r.Found? ==> name in s.conns && s.conns[name] == r.connector
      ensures r.NotFound? ==> name !in s.conns
      ensures calm ==> !r.ReadFailed?
    {
      Others(who);
      var ok := Succeeds();
      r := if !ok then ReadFailed else if name in s.conns then Found(s.conns[name]) else NotFound;
    }

    method CountInventoryHosts(who: Actor, spec: Spec) returns (ok: bool, count: int)
      requires Valid()
      modifies this`s, this`log, this`env, this`moments
      ensures Valid() && Quiet(who)
      ensures ok ==> count == env.HbiCount(spec)
      ensures calm ==> ok
    {
      Others(who);
      ok := Succeeds();
      count := env.HbiCount(spec);
    }

    method GetInventoryIds(who: Actor, spec: Spec) returns (ok: bool, ids: seq<string>)
      requires Valid()
      modifies this`s, this`log, this`env, this`moments
      ensures Valid() && Quiet(who)
      ensures ok ==> ids == env.hbiIds(spec.insightsOnly, spec.additionalFilters)
      ensures calm ==> ok
    {
      Others(who);
      ok := Succeeds();
      ids := env.hbiIds(spec.insightsOnly, spec.additionalFilters);
    }

    /** Fails on a table that does not exist. */
    method CountAppHosts(who: Actor, table: string) returns (ok: bool, count: int)
      requires Valid()
      modifies this`s, this`log, this`env, this`moments
      ensures Valid() && Quiet(who)
      ensures ok ==> table in s.tables && count == |env.appIds(table)|
      ensures calm && table in s.tables ==> ok
    {
      Others(who);
      ok := Succeeds();
      ok := ok && table in s.tables;
      count := |env.appIds(table)|;
    }

    method GetAppIds(who: Actor, table: string) returns (ok: bool, ids: seq<string>)
      requires Valid()
      modifies this`s, this`log, this`env, this`moments
      ensures Valid() && Quiet(who)
      ensures ok ==> table in s.tables && ids == env.appIds(table)
      ensures calm && table in s.tables ==> ok
    {
      Others(who);
      ok := Succeeds();
      ok := ok && table in s.tables;
      ids := env.appIds(table);
    }

    method GetConnectorsForOwner() returns (ok: bool, names: seq<string>)
      requires Valid()
      modifies this`s, this`log, this`env, this`moments
      ensures Valid() && Quiet(PipelineController)
      ensures ok ==> forall n :: n in names <==> n in s.conns
      ensures calm ==> ok
    {
      Others(PipelineController);
      ok := Succeeds();
      names := ListOf(s.conns.Keys);
    }

    /** One row per listed base table. */
    method GetCyndiTables() returns (ok: bool, tables: seq<string>)
      requires Valid()
      modifies this`s, this`log, this`env, this`moments
      ensures Valid() && Quiet(PipelineController)
      ensures ok ==> forall t :: t in tables <==> t in s.tables && |t| >= 6 && t[..5] == "hosts"
      ensures calm ==> ok
    {
      Others(PipelineController);
      ok := Succeeds();
      tables := ListOf(ListedTables(s));
    }

    // ---- Changing tables, connectors and the view.

    /** Idempotent: a connector that does not exist is not an error. */
    method DeleteConnector(name: string) returns (ok: bool)
      requires Valid() && ViewWasRead(s) && name !in KeepConnectors(s.p.snap, s.p.view)
      modifies this`s, this`log, this`env, this`moments
      ensures Valid() && Continues()
      ensures s.p == old(s.p) && s.tables == old(s.tables) && s.view == old(s.view) && s.used == old(s.used)
      ensures s.conns.Keys == old(s.conns.Keys) - (if ok then {name} else {})
      ensures calm ==> ok && env == old(env) && World() == old(World()).(conns := old(s.conns) - {name})
    {
      Others(PipelineController);
      ok := Succeeds();
      if ok && name in s.conns {
        Step(Cleanup(DropConnector(name)));
      } else {
        assert name !in s.conns ==> s.conns - {name} == s.conns;
      }
    }

    method DeleteTable(table: string) returns (ok: bool)
      requires Valid() && ViewWasRead(s) && Listed(table) && table !in KeepTables(s.p.snap, s.p.view)
      modifies this`s, this`log, this`env, this`moments
      ensures Valid() && Continues()
      ensures s.p == old(s.p) && s.conns.Keys == old(s.conns.Keys) && s.used == old(s.used)
      ensures s.tables == old(s.tables) - (if ok then {table} else {})
      ensures s.view == if ok && old(s.view) == Some(table) then None else old(s.view)
      ensures calm ==> ok && env == old(env)
                       && World() == old(World()).(tables := s.tables, view := s.view)
    {
      var exists_;
      ok, exists_ := CheckIfTableExists(PipelineController, table);
      if !ok || !exists_ {
        Invariant();
        assert table !in s.tables ==> s.tables - {table} == s.tables;
        return;
      }
      Others(PipelineController);
      ok := Succeeds();
      if ok {
        Step(Cleanup(DropTable(table)));
      }
    }

    method CreateTable(tableName: string) returns (ok: bool)
      requires Valid() && InPhase(s, Creating(false)) && tableName == s.p.work.tableName && tableName !in s.tables
      modifies this`s, this`log, this`env, this`moments
      ensures Valid() && Continues()
      ensures s.p == if ok then old(s.p).(phase := Creating(true)) else old(s.p)
      ensures s.tables == old(s.tables) + (if ok then {tableName} else {})
      ensures s.view == old(s.view) && s.conns.Keys == old(s.conns.Keys) && s.used == old(s.used)
      ensures calm ==> ok && env == old(env)
                       && World() == old(World()).(tables := s.tables)
    {
      Others(PipelineController);
      ok := Succeeds();
      if ok {
        Step(Sync(SyncStep.CreateTable));
      }
    }

    /** Fails if a connector of that name exists. */
    method CreateConnector(name: string, connector: Connector) returns (ok: bool)
      requires Valid() && InPhase(s, Creating(true)) && s.p.snap.spec.ConnectorsManaged()
      requires name == NewConnectorName(s.p) && connector.target == s.p.work.tableName
      modifies this`s, this`log, this`env, this`moments
      ensures Valid() && Continues()
      ensures s.p == if ok then old(s.p).(phase := Committing) else old(s.p)
      ensures s.conns.Keys == old(s.conns.Keys) + (if ok then {name} else {})
      ensures s.view == old(s.view) && s.tables == old(s.tables) && s.used == old(s.used)
      ensures calm ==> env == old(env) && ok == (name !in old(s.conns))
      ensures calm ==> World() == old(World()).(conns := if ok then old(s.conns)[name := connector] else old(s.conns))
    {
      Others(PipelineController);
      ok := Succeeds();
      ok := ok && name !in s.conns;
      if ok {
        Step(Sync(SyncStep.CreateConnector(connector)));
      }
    }

    method UpdateConnectorState(name: string, paused: bool) returns (ok: bool)
      requires Valid() && Settled(s) && s.p.snap.spec.ConnectorsManaged() && name == s.p.snap.status.connectorName
      modifies this`s, this`log, this`env, this`moments
      ensures Valid() && Continues() && Untouched(old(s), s)
      ensures ok ==> name in s.conns && s.conns[name].state == ConnectorState(paused)
      ensures calm ==> env == old(env) && ok == (name in old(s.conns)) 
                       && World() == old(World()).(conns := SetState(old(s.conns), name, paused))
    {
      Others(PipelineController);
      ok := Succeeds();
      ok := ok && name in s.conns;
      if ok {
        Step(Act(ActStep.SetConnectorState(paused)));
      }
    }

    method ReplaceView(table: string, reason: ActStep) returns (ok: bool)
      requires Valid() && (reason.ShowValidTable? || reason.ShowHealthier?)
      requires table == (if s.p.PPass? then s.p.snap.status.tableName else "")
      requires table in s.tables ==> ActEnabled(s, reason) && Truthful(s, Act(reason), moments)
      modifies this`s, this`log, this`env, this`moments
      ensures Valid() && Continues()
      ensures s.p == old(s.p) && s.tables == old(s.tables) && s.conns.Keys == old(s.conns.Keys) && s.used == old(s.used)
      ensures s.view == if ok then Some(table) else old(s.view)
      ensures calm && table in old(s.tables) ==> ok && env == old(env) && World() == old(World()).(view := Some(table))
    {
      Others(PipelineController);
      ok := Succeeds();
      ok := ok && table in s.tables;
      if ok {
        TruthfulLater(s, Act(reason), old(moments), moments);
        Step(Act(reason));
      }
    }

    /** CREATE OR REPLACE VIEW, then GRANT: the view may have moved although the call fails. */
    method UpdateView(table: string, reason: ActStep) returns (ok: bool)
      requires Valid() && (reason.ShowValidTable? || reason.ShowHealthier?)
      requires table == (if s.p.PPass? then s.p.snap.status.tableName else "")
      requires table in s.tables ==> ActEnabled(s, reason) && Truthful(s, Act(reason), moments)
      modifies this`s, this`log, this`env, this`moments
      ensures Valid() && Continues()
      ensures s.p == old(s.p) && s.tables == old(s.tables) && s.conns.Keys == old(s.conns.Keys) && s.used == old(s.used)
      ensures s.view == Some(table) || (!ok && s.view == old(s.view))
      ensures calm && table in old(s.tables) ==> ok && env == old(env) && World() == old(World()).(view := Some(table))
    {
      ok := ReplaceView(table, reason);
      if ok {
        Others(PipelineController);
        ok := Succeeds();
      }
    }

    // ---- Writing the resource.

    /** Client.Update with the finalizer added; the response replaces the caller's copy. */
    method AddFinalizer() returns (ok: bool)
      requires Valid() && InPhase(s, Cleaned) && GetState(s.p.snap) == StateNew && !s.p.snap.finalizer
      modifies this`s, this`log, this`env, this`moments
      ensures Valid() && Continues()
      ensures s.tables == old(s.tables) && s.view == old(s.view) && s.conns.Keys == old(s.conns.Keys) && s.used == old(s.used)
      ensures s.p == if ok then old(s.p).(snap := old(s.p.snap).(rv := old(s.p.snap.rv) + 1, finalizer := true)) else old(s.p)
      ensures ok ==> s.obj == s.p.snap
      ensures calm && old(s.p.snap) == old(s.obj) && !old(s.gone) ==>
                ok && env == old(env) && World() == old(World()).(obj := s.p.snap)
    {
      Others(PipelineController);
      ok := Succeeds();
      ok := ok && !s.gone && s.p.snap.rv == s.obj.rv;
      if ok {
        LatestSnapshot();
        Step(Sync(SyncStep.AddFinalizer));
      }
    }

    method RemoveFinalizer() returns (ok: bool)
      requires Valid() && s.p.PPass? && GetState(s.p.snap) == StateRemoved
      requires s.p.phase.Cleaned? || (ephemeral && s.p.phase.Cleaning?)
      modifies this`s, this`log, this`env, this`moments
      ensures Valid() && Continues()
      ensures ok ==> s.p.PIdle? && s.gone && s.obj == old(s.p.snap)
      ensures !ok ==> s.p == old(s.p)
      ensures calm && old(s.p.snap) == old(s.obj) && !old(s.gone) ==>
                ok && env == old(env) && World() == old(World()).(gone := true)
    {
      Others(PipelineController);
      ok := Succeeds();
      ok := ok && !s.gone && s.p.snap.rv == s.obj.rv && (s.p.phase.Cleaned? || ephemeral);
      if ok {
        LatestSnapshot();
        Step(Pass(PassStep.RemoveFinalizer));
      }
    }

    /** The API server accepts the status. */
    method WriteStatus(status: Status)
      requires Valid() && PassEnabled(s, Commit) && status == Committed(s, s.p.work)
      requires Writes(s, s.p.snap, status)
      modifies this`s, this`log
      ensures Valid() && Continues() && s.p.PIdle?
      ensures s.obj == old(s.p.snap).(rv := old(s.p.snap.rv) + 1, status := status)
      ensures World() == old(World()).(obj := s.obj)
    {
      LatestSnapshot();
      Step(Pass(Commit));
    }

    /** Status().Update of the pipeline controller: conflicts unless the snapshot is the latest revision. */
    method UpdatePipelineStatus(status: Status) returns (ok: bool)
      requires Valid() && PassEnabled(s, Commit) && status == Committed(s, s.p.work) && status != s.p.snap.status
      modifies this`s, this`log, this`env, this`moments
      ensures Valid() && Continues()
      ensures s.p == if ok then PIdle else old(s.p)
      ensures ok ==> s.obj == old(s.p.snap).(rv := old(s.p.snap.rv) + 1, status := status)
      ensures calm && old(s.p.snap) == old(s.obj) && !old(s.gone) ==>
                && ok && env == old(env)
                && World() == old(World()).(obj := old(s.obj).(rv := old(s.obj.rv) + 1, status := status))
    {
      Others(PipelineController);
      ok := Succeeds();
      ok := ok && !s.gone && s.p.snap.rv == s.obj.rv;
      if ok {
        WriteStatus(status);
      }
    }

    /** Status().Update of the validation controller; the view may have moved since its active table was read. */
    method UpdateVerdict(status: Status) returns (ok: bool)
      requires Valid() && s.v.VPass? && s.v.decided && status != s.v.snap.status
      requires status == s.v.work.(activeTableName := status.activeTableName)
      modifies this`s, this`log, this`env, this`moments
      ensures Valid() && Continues()
      ensures s.v == if ok then VIdle else old(s.v)
      ensures ok ==> s.obj == old(s.v.snap).(rv := old(s.v.snap.rv) + 1, status := status)
      ensures calm && old(s.v.snap) == old(s.obj) && !old(s.gone) ==>
                && ok && env == old(env)
                && World() == old(World()).(obj := old(s.obj).(rv := old(s.obj.rv) + 1, status := status))
    {
      Others(ValidationController);
      ok := Succeeds();
      ok := ok && !s.gone && s.v.snap.rv == s.obj.rv;
      if ok {
        LatestSnapshot();
        Step(Validation(CommitVerdict(status.activeTableName)));
      }
    }
  }

  method ListOf(names: set<string>) returns (list: seq<string>)
    ensures forall n :: n in list <==> n in names
  {
    list := [];
    var todo := names;
    while todo != {}
      invariant todo <= names
      invariant forall n :: n in list <==> n in names - todo
    {
      var n :| n in todo;
      list := list + [n];
      todo := todo - {n};
    }
  }
}
