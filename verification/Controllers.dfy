/**
 * controllers/cyndipipeline_controller.go, controllers/iteration.go and controllers/validation_controller.go: the two
 * reconcilers. Under any interference and any failure they only continue a run of Protocol.dfy; undisturbed, they
 * compute the functions of Calm.dfy.
 */
module Controllers {
  import opened Wrappers
  import opened Lang
  import opened Names
  import opened Pipeline
  import opened Config
  import opened Connect
  import opened Deviation
  import opened Validate
  import opened LesserEvil
  import opened Protocol
  import opened Invariants
  import opened Calm
  import opened Clusters

  class ReconcileIteration {
    const c: Cluster
    const instance: CyndiPipeline
    /** The status the pass began with; not altered. */
    const original: Status
    /** None when setup failed, in which case there is no database connection either. */
    var config: Option<CyndiConfiguration>
    /** Secrets and libraries as setup loaded them. */
    var settings: Env

    constructor (c: Cluster, o: Object)
      ensures this.c == c && fresh(instance) && instance.Value() == o && original == o.status
    {
      this.c := c;
      this.instance := new CyndiPipeline(o);
      this.original := o.status;
      this.config := None;
      this.settings := c.env;
    }

    /** Loads the configuration and connects to the application database. */
    method Setup()
      modifies this
      ensures settings == c.env
      ensures config.Some? ==> config == BuildCyndiConfig(c.env.lib, instance.spec, c.env.cm)
      ensures c.calm ==> config == BuildCyndiConfig(c.env.lib, instance.spec, c.env.cm)
    {
      settings := c.env;
      config := BuildCyndiConfig(settings.lib, instance.spec, settings.cm);
      var ok := c.Succeeds();
      if !ok {
        config := None;
      }
    }

    // ---- The pipeline controller.

    /** The iteration is the pass that the transition system knows about; undisturbed, it works on the latest revision. */
    ghost predicate Running()
      reads this, c, instance
    {
      && c.Valid() && c.s.p.PPass?
      && instance.Value() == c.s.p.snap.(status := c.s.p.work)
      && original == c.s.p.snap.status
      && (c.calm ==> c.s.p.snap == c.s.obj && !c.s.gone)
    }

    /** Nothing but the snapshot has been read. */
    ghost predicate Starting()
      reads this, c, instance
    {
      Running() && c.s.p.phase.Cleaning? && c.s.p.view.NotRead? && instance.Value() == c.s.p.snap
    }

    method DropStaleConnectors(connectorsToKeep: seq<string>) returns (errors: nat)
      requires Running() && ViewWasRead(c.s)
      requires forall n :: n in connectorsToKeep <==> n in KeepConnectors(c.s.p.snap, c.s.p.view)
      modifies c
      ensures Running() && c.Continues()
      ensures c.s.p == old(c.s.p) && c.s.tables == old(c.s.tables) && c.s.view == old(c.s.view) && c.s.used == old(c.s.used)
      ensures errors == 0 ==> c.s.conns.Keys == old(c.s.conns.Keys) * KeepConnectors(c.s.p.snap, c.s.p.view)
      ensures c.calm ==> errors == 0 && c.env == old(c.env) && c.World() == old(c.World()).(conns := c.s.conns)
                         && Within(c.s.conns, old(c.s.conns))
    {
      errors := 0;
      ghost var keep := KeepConnectors(c.s.p.snap, c.s.p.view);
      var ok, connectors := c.GetConnectorsForOwner();
      if !ok {
        return 1;
      }
      ghost var before := c.s.conns;
      for i := 0 to |connectors|
        invariant c.Valid() && c.Continues()
        invariant c.s.p == old(c.s.p) && c.s.tables == old(c.s.tables) && c.s.view == old(c.s.view) && c.s.used == old(c.s.used)
        invariant errors == 0 ==> c.s.conns.Keys == before.Keys - Stale(connectors[..i], keep)
        invariant c.calm ==> errors == 0 && c.env == old(c.env) && c.World() == old(c.World()).(conns := c.s.conns)
        invariant c.calm ==> Within(c.s.conns, before)
      {
        var connector := connectors[i];
        StaleGrows(connectors, i, keep);
        if connector !in connectorsToKeep {
          ok := c.DeleteConnector(connector);
          if !ok {
            errors := errors + 1;
          }
        }
      }
      StaleAll(connectors, before.Keys, keep);
    }

    method DropTable(table: string) returns (ok: bool)
      requires c.Valid() && ViewWasRead(c.s) && Listed(table) && table !in KeepTables(c.s.p.snap, c.s.p.view)
      requires ViewStands(c.s)
      modifies c
      ensures c.Valid() && c.Continues() && ViewStands(c.s)
      ensures c.s.p == old(c.s.p) && c.s.conns.Keys == old(c.s.conns.Keys) && c.s.used == old(c.s.used)
      ensures c.s.tables == old(c.s.tables) - (if ok then {table} else {})
      ensures c.s.view == Standing(old(c.s.view), c.s.tables)
      ensures c.calm ==> ok && c.env == old(c.env) && c.World() == old(c.World()).(tables := c.s.tables, view := c.s.view)
    {
      ok := c.DeleteTable(table);
    }

    method ListTables() returns (ok: bool, tables: seq<string>)
      requires c.Valid()
      modifies c
      ensures c.Valid() && c.Quiet(PipelineController)
      ensures ok ==> forall t :: t in tables <==> t in ListedTables(c.s)
      ensures c.calm ==> ok
    {
      ok, tables := c.GetCyndiTables();
    }

    method DropStaleTables(tablesToKeep: seq<string>) returns (errors: nat)
      requires Running() && ViewWasRead(c.s)
      requires forall t :: t in tablesToKeep <==> t in KeepTables(c.s.p.snap, c.s.p.view)
      modifies c
      ensures Running() && c.Continues()
      ensures c.s.p == old(c.s.p) && c.s.conns.Keys == old(c.s.conns.Keys) && c.s.used == old(c.s.used)
      ensures c.s.tables <= old(c.s.tables) && c.s.view == Standing(old(c.s.view), c.s.tables)
      ensures errors == 0 ==>
                c.s.tables == Remaining(old(c.s.tables), KeepTables(c.s.p.snap, c.s.p.view))
      ensures c.calm ==> errors == 0 && c.env == old(c.env)
                         && c.World() == old(c.World()).(tables := c.s.tables, view := c.s.view)
    {
      errors := 0;
      ghost var keep := KeepTables(c.s.p.snap, c.s.p.view);
      c.ViewHasTable();
      var ok, tables := ListTables();
      if !ok {
        return 1;
      }
      ghost var all := ListedTables(c.s);
      for i := 0 to |tables|
        invariant c.Valid() && c.Continues()
        invariant c.s.p == old(c.s.p) && c.s.conns.Keys == old(c.s.conns.Keys) && c.s.used == old(c.s.used)
        invariant ViewStands(c.s) && c.s.tables <= old(c.s.tables) && c.s.view == Standing(old(c.s.view), c.s.tables)
        invariant errors == 0 ==> c.s.tables == old(c.s.tables) - Stale(tables[..i], keep)
        invariant c.calm ==> errors == 0 && c.env == old(c.env)
                             && c.World() == old(c.World()).(tables := c.s.tables, view := c.s.view)
      {
        var table := tables[i];
        StaleGrows(tables, i, keep);
        assert table in all;
        if table !in tablesToKeep {
          ok := DropTable(table);
          if !ok {
            errors := errors + 1;
          }
        }
      }
      StaleAll(tables, all, keep);
    }

    method ReadCurrentTable() returns (ok: bool, currentTable: Option<string>)
      requires c.Valid() && InPhase(c.s, Cleaning) && c.s.p.view.NotRead?
      modifies c
      ensures c.Valid() && c.Continues() && InPhase(c.s, Cleaning)
      ensures c.s.p == old(c.s.p).(view := if ok then Seen(currentTable) else Unreadable)
      ensures ok ==> config.Some? && currentTable == c.s.view
      ensures c.s.tables == old(c.s.tables) && c.s.view == old(c.s.view) && c.s.conns.Keys == old(c.s.conns.Keys) && c.s.used == old(c.s.used)
      ensures c.calm ==> ok == config.Some? && c.env == old(c.env) && c.World() == old(c.World())
    {
      ok, currentTable := config.Some?, None;
      if ok {
        ok, currentTable := c.GetCurrentTable(PipelineController);
      }
      c.Step(Cleanup(ReadView(ok)));
    }

    /** First half of deleteStaleDependencies: the current version's resources and those behind the view. */
    method DependenciesToKeep() returns (panics: bool, errors: nat, connectorsToKeep: seq<string>, tablesToKeep: seq<string>)
      requires Starting()
      modifies c
      ensures Running() && c.Continues() && InPhase(c.s, Cleaning)
      ensures panics <==> !SliceInBounds(c.s.p.snap, c.s.p.view)
      ensures c.s.p == old(c.s.p).(view := if errors == 0 then Seen(c.s.view) else Unreadable)
      ensures errors == 0 ==> config.Some?
      ensures !panics ==> forall n :: n in connectorsToKeep <==> n in KeepConnectors(c.s.p.snap, c.s.p.view)
      ensures !panics ==> forall t :: t in tablesToKeep <==> t in KeepTables(c.s.p.snap, c.s.p.view)
      ensures c.s.tables == old(c.s.tables) && c.s.view == old(c.s.view) && c.s.conns.Keys == old(c.s.conns.Keys) && c.s.used == old(c.s.used)
      ensures c.calm ==> (errors == 0 <==> config.Some?) && c.env == old(c.env) && c.World() == old(c.World())
    {
      panics, errors, connectorsToKeep, tablesToKeep := false, 0, [], [];
      var removed, managed := GetState(instance.Value()) == StateRemoved, instance.spec.ConnectorsManaged();
      if !removed && instance.status.pipelineVersion != "" {
        tablesToKeep := tablesToKeep + [TableName(instance.status.pipelineVersion)];
        if managed {
          connectorsToKeep := connectorsToKeep + [ConnectorName(instance.status.pipelineVersion, instance.spec.appName)];
        }
      }
      if !removed && !managed && instance.status.tableName != "" {
        tablesToKeep := tablesToKeep + [instance.status.tableName];
      }
      var ok, currentTable := ReadCurrentTable();
      if !ok {
        errors := errors + 1;
      } else if currentTable.Some? && !removed {
        tablesToKeep := tablesToKeep + [currentTable.value];
        if managed {
          if |currentTable.value| < |TABLE_PREFIX| {
            panics := true;
            return;
          }
          connectorsToKeep := connectorsToKeep + [TableNameToConnectorName(currentTable.value, instance.spec.appName)];
        }
      }
    }

    /** A panic leaves everything as it is. */
    method DeleteStaleDependencies() returns (panics: bool, errors: nat)
      requires Starting()
      modifies c
      ensures Running() && c.Continues()
      ensures c.s.p == old(c.s.p).(view := c.s.p.view) && c.s.used == old(c.s.used)
      ensures panics <==> !SliceInBounds(c.s.p.snap, c.s.p.view)
      ensures panics ==> c.s.tables == old(c.s.tables) && c.s.view == old(c.s.view) && c.s.conns.Keys == old(c.s.conns.Keys)
      ensures !panics && errors == 0 ==> config.Some? && CleanupEnabled(c.s, Finish)
      ensures c.calm ==> (errors == 0 <==> config.Some?) && c.env == old(c.env)
      ensures c.calm ==>
                var view := if config.Some? then Seen(old(c.s.view)) else Unreadable;
                && (panics <==> !SliceInBounds(old(c.s.obj), view))
                && c.World() == if panics then old(c.World()) else CleanedUp(old(c.World()), view, config.Some?)
    {
      var connectorsToKeep, tablesToKeep;
      c.ViewHasTable();
      panics, errors, connectorsToKeep, tablesToKeep := DependenciesToKeep();
      if panics {
        return;
      }
      var failed := DropStaleConnectors(connectorsToKeep);
      errors := errors + failed;
      if config.None? {
        errors := errors + 1;
      } else {
        failed := DropStaleTables(tablesToKeep);
        errors := errors + failed;
      }
      if c.calm {
        CleanedUpAs(old(c.World()), c.World(), c.s.p.view, config.Some?);
      }
    }

    // ---- What both controllers do.

    /** `problem` and `err` of the source as one outcome. */
    method CheckForDeviation(who: Actor) returns (outcome: Outcome)
      requires c.Valid() && config.Some?
      modifies c
      ensures c.Valid() && c.Quiet(who)
      ensures c.calm && instance.Value() == c.s.obj && settings == c.env ==>
                outcome == DeviationOf(c.World(), c.env, config.value)
    {
      var cfg := config.value;
      if instance.status.cyndiConfigVersion != cfg.configMapVersion {
        return Deviates(ConfigMapChanged);
      }
      if instance.status.specHash != cfg.specHash {
        return Deviates(SpecChanged);
      }
      var ok, dbTableExists := c.CheckIfTableExists(who, instance.status.tableName);
      if !ok {
        return CheckFailed;
      } else if !dbTableExists {
        return Deviates(TableNotFound);
      }
      if !instance.spec.ConnectorsManaged() {
        return NoDeviation;
      }
      outcome := CheckConnectorForDeviation(who);
    }

    /** Second half of checkForDeviation. */
    method CheckConnectorForDeviation(who: Actor) returns (outcome: Outcome)
      requires c.Valid() && config.Some?
      modifies c
      ensures c.Valid() && c.Quiet(who)
      ensures c.calm && settings == c.env ==>
                outcome == CheckConnector(instance.spec, config.value,
                                          if instance.status.connectorName in c.s.conns then Some(c.s.conns[instance.status.connectorName]) else None,
                                          c.env.Desired(instance.spec, config.value, instance.status.tableName))
    {
      var cfg := config.value;
      var read := c.GetConnector(who, instance.status.connectorName);
      if read.ReadFailed? {
        return CheckFailed;
      } else if read.NotFound? {
        return Deviates(ConnectorNotFound);
      }
      var connector := read.connector;
      if connector.IsFailed() {
        return Deviates(ConnectorFailed);
      }
      if connector.Label(LABEL_APP_NAME) != instance.spec.appName {
        return Deviates(AppNameDisagrees);
      }
      if connector.Label(LABEL_INSIGHTS_ONLY) != FormatBool(instance.spec.insightsOnly) {
        return Deviates(InsightsOnlyChanged);
      }
      if connector.Label(LABEL_STRIMZI_CLUSTER) != cfg.connectCluster {
        return Deviates(ConnectClusterChanged);
      }
      if connector.Label(LABEL_MAX_AGE) != FormatInt(cfg.connectorMaxAge) {
        return Deviates(MaxAgeChanged);
      }
      var newConnector := settings.Desired(instance.spec, cfg, instance.status.tableName);
      if newConnector.None? {
        return CheckFailed;
      }
      if ConfigsDiffer(connector.config, newConnector.value.config) {
        return Deviates(ConnectorConfigChanged);
      }
      return NoDeviation;
    }

    /** The thresholds of the current phase. */
    function GetValidationConfig(): (thresholds: ValidationConfiguration)
      requires config.Some?
      reads this, instance
      ensures instance.status.initialSyncInProgress ==> thresholds == config.value.validationConfigInit
      ensures !instance.status.initialSyncInProgress ==> thresholds == config.value.validationConfig
    {
      if instance.status.initialSyncInProgress then config.value.validationConfigInit else config.value.validationConfig
    }

    // ---- Acting on a pipeline that is neither new nor removed.

    method SetConnectorState() returns (ok: bool)
      requires c.Valid() && Settled(c.s) && instance.spec == c.s.p.snap.spec && instance.spec.ConnectorsManaged()
      requires instance.status.connectorName == c.s.p.snap.status.connectorName
      modifies c
      ensures c.Valid() && c.Continues() && Untouched(old(c.s), c.s)
      ensures ok ==> instance.status.connectorName in c.s.conns
                     && c.s.conns[instance.status.connectorName].state == ConnectorState(instance.spec.connectorPaused)
      ensures c.calm ==>
                && c.env == old(c.env) && ok == (instance.status.connectorName in old(c.s.conns))
                && c.World() == old(c.World()).(
                     conns := SetState(old(c.s.conns), instance.status.connectorName, instance.spec.connectorPaused))
    {
      var read := c.GetConnector(PipelineController, instance.status.connectorName);
      if !read.Found? {
        return false;
      }
      if read.connector.state == ConnectorState(instance.spec.connectorPaused) {
        assert SetState(c.s.conns, instance.status.connectorName, instance.spec.connectorPaused) == c.s.conns;
        return true;
      }
      ok := c.UpdateConnectorState(instance.status.connectorName, instance.spec.connectorPaused);
    }

    method RecreateViewIfNeeded() returns (ok: bool)
      requires c.Valid() && Settled(c.s) && instance.Value() == c.s.p.snap && GetState(c.s.p.snap) == StateValid
      modifies c
      ensures c.Valid() && c.Continues() && c.s.p == old(c.s.p)
      ensures ok && instance.spec.ConnectorsManaged() ==> c.s.view == Some(instance.status.tableName)
      ensures c.calm && instance.status.tableName in old(c.s.tables) ==>
                && ok && c.env == old(c.env)
                && c.World() == old(c.World()).(
                     view := if instance.spec.ConnectorsManaged() then Some(instance.status.tableName) else old(c.s.view))
    {
      if !instance.spec.ConnectorsManaged() {
        return true;
      }
      var table;
      ok, table := c.GetCurrentTable(PipelineController);
      if !ok {
        return;
      }
      if table != Some(instance.status.tableName) {
        ok := c.UpdateView(instance.status.tableName, ShowValidTable);
      }
    }

    /** Compares the table behind the view with the latest one by host counts. */
    method CompareCounts(activeTable: string) returns (ok: bool, hbiHostCount: int, activeTableHostCount: int, latestTableHostCount: int)
      requires c.Valid()
      modifies c
      ensures c.Valid() && c.Quiet(PipelineController)
      ensures ok ==> activeTable in c.s.tables && instance.status.tableName in c.s.tables
      ensures ok ==> CountsSeen(c.Window(), instance.spec, activeTable, instance.status.tableName,
                                hbiHostCount, activeTableHostCount, latestTableHostCount)
      ensures c.calm && activeTable in c.s.tables && instance.status.tableName in c.s.tables ==>
                && ok && hbiHostCount == c.env.HbiCount(instance.spec)
                && activeTableHostCount == |c.env.appIds(activeTable)|
                && latestTableHostCount == |c.env.appIds(instance.status.tableName)|
    {
      activeTableHostCount, latestTableHostCount := 0, 0;
      ok, hbiHostCount := c.CountInventoryHosts(PipelineController, instance.spec);
      if !ok {
        return;
      }
      ghost var first := c.moments;
      ok, activeTableHostCount := c.CountAppHosts(PipelineController, activeTable);
      if !ok {
        return;
      }
      ghost var second := c.moments;
      ok, latestTableHostCount := c.CountAppHosts(PipelineController, instance.status.tableName);
      SeenSince(old(c.moments), first, c.moments);
      SeenSince(old(c.moments), second, c.moments);
      SeenSince(old(c.moments), c.moments, c.moments);
    }

    /** Whether the latest table is at least as close to the inventory as the active one, and the step this justifies. */
    method WeighTables(activeTable: string) returns (ok: bool, closer: bool, reason: ActStep)
      requires c.Valid() && Settled(c.s) && instance.Value() == c.s.p.snap && instance.spec.ConnectorsManaged()
      requires GetState(c.s.p.snap) == StateInitialSync && c.s.p.snap.status.GetValid() == ConditionFalse
      requires c.s.view == Some(activeTable) && activeTable != instance.status.tableName
      modifies c
      ensures c.Valid() && c.Quiet(PipelineController) && reason.ShowHealthier?
      ensures ok && closer ==> ActEnabled(c.s, reason) && Truthful(c.s, Protocol.Act(reason), c.moments)
      ensures ok ==> Weighed(c.moments, |old(c.moments)| - 1, instance.spec, activeTable, instance.status.tableName, closer)
      ensures c.calm && activeTable in c.s.tables && instance.status.tableName in c.s.tables ==>
                ok && c.env.ShownAfter(Some(activeTable), instance.status.tableName, instance.spec)
                      == if closer then instance.status.tableName else activeTable
    {
      var hbiHostCount, activeTableHostCount, latestTableHostCount;
      ok, hbiHostCount, activeTableHostCount, latestTableHostCount := CompareCounts(activeTable);
      closer := !(Distance64(hbiHostCount, latestTableHostCount) > Distance64(hbiHostCount, activeTableHostCount));
      reason := ShowHealthier(hbiHostCount, activeTableHostCount, latestTableHostCount);
      if ok {
        CountsSeenLater(c.Window(), c.moments, instance.spec, activeTable, instance.status.tableName,
                        hbiHostCount, activeTableHostCount, latestTableHostCount);
      }
    }

    method MoveView(activeTable: string, reason: ActStep, ghost since: nat) returns (ok: bool)
      requires c.Valid() && c.s.p.PPass? && c.s.p.snap.status.tableName == instance.status.tableName
      requires reason.ShowHealthier? && ActEnabled(c.s, reason) && Truthful(c.s, Protocol.Act(reason), c.moments)
      requires Weighed(c.moments, since, instance.spec, activeTable, instance.status.tableName, true)
      modifies c
      ensures c.Valid() && c.Continues() && c.s.p == old(c.s.p)
      ensures Weighed(c.moments, since, instance.spec, activeTable, instance.status.tableName, true)
      ensures c.s.view == Some(instance.status.tableName) || (!ok && c.s.view == old(c.s.view))
      ensures c.calm && instance.status.tableName in old(c.s.tables) ==>
                ok && c.env == old(c.env) && c.World() == old(c.World()).(view := Some(instance.status.tableName))
    {
      ok := c.UpdateView(instance.status.tableName, reason);
      WeighedSince(old(c.moments), c.moments, since, since, instance.spec, activeTable, instance.status.tableName, true);
    }

    /** Moves the view off `activeTable`, unless that one is closer to the inventory. */
    method ReplaceIfHealthier(activeTable: string) returns (ok: bool)
      requires c.Valid() && Settled(c.s) && instance.Value() == c.s.p.snap && instance.spec.ConnectorsManaged()
      requires GetState(c.s.p.snap) == StateInitialSync && c.s.p.snap.status.GetValid() == ConditionFalse
      requires c.s.view == Some(activeTable) && activeTable in c.s.tables && activeTable != instance.status.tableName
      modifies c
      ensures c.Valid() && c.Continues() && c.s.p == old(c.s.p)
      ensures c.s.view != old(c.s.view) ==>
                c.s.view == Some(instance.status.tableName)
                && Weighed(c.moments, |old(c.moments)| - 1, instance.spec, activeTable, instance.status.tableName, true)
      ensures ok && c.s.view == old(c.s.view) ==>
                Weighed(c.moments, |old(c.moments)| - 1, instance.spec, activeTable, instance.status.tableName, false)
      ensures c.calm && instance.status.tableName in old(c.s.tables) ==>
                c.env == old(c.env)
                && c.World() == old(c.World()).(
                     view := Some(c.env.ShownAfter(Some(activeTable), instance.status.tableName, instance.spec)))
    {
      var closer, reason;
      ok, closer, reason := WeighTables(activeTable);
      if !ok || !closer {
        return;
      }
      ok := MoveView(activeTable, reason, |old(c.moments)| - 1);
    }

    /** Without a view there is nothing to weigh. */
    method ReplaceView(table: Option<string>) returns (ok: bool)
      requires c.Valid() && Settled(c.s) && instance.Value() == c.s.p.snap && instance.spec.ConnectorsManaged() && ViewStands(c.s)
      requires GetState(c.s.p.snap) == StateInitialSync && c.s.p.snap.status.GetValid() == ConditionFalse
      requires c.s.view == table && table != Some(instance.status.tableName)
      modifies c
      ensures c.Valid() && c.Continues() && c.s.p == old(c.s.p)
      ensures c.s.view in {table, Some(instance.status.tableName)}
      ensures c.s.view != table && table.Some? ==> Weighed(c.moments, |old(c.moments)| - 1, instance.spec, table.value, instance.status.tableName, true)
      ensures ok && c.s.view == table ==>
                table.Some? && Weighed(c.moments, |old(c.moments)| - 1, instance.spec, table.value, instance.status.tableName, false)
      ensures c.calm && instance.status.tableName in old(c.s.tables) ==>
                c.env == old(c.env)
                && c.World() == old(c.World()).(view := Some(c.env.ShownAfter(table, instance.status.tableName, instance.spec)))
    {
      if table.None? {
        ok := c.UpdateView(instance.status.tableName, ShowHealthier(0, 0, 0));
      } else {
        ok := ReplaceIfHealthier(table.value);
      }
    }

    method UpdateViewIfHealthier() returns (ok: bool)
      requires c.Valid() && Settled(c.s) && instance.Value() == c.s.p.snap && ViewStands(c.s)
      requires GetState(c.s.p.snap) == StateInitialSync && c.s.p.snap.status.GetValid() == ConditionFalse
      modifies c
      ensures c.Valid() && c.Continues() && c.s.p == old(c.s.p)
      ensures c.s.view != old(c.s.view) ==>
                && instance.spec.ConnectorsManaged() && c.s.view == Some(instance.status.tableName)
                && (old(c.s.view).Some? ==> Weighed(c.moments, |old(c.moments)| - 1, instance.spec, old(c.s.view).value, instance.status.tableName, true))
      ensures ok && instance.spec.ConnectorsManaged() && c.s.view != Some(instance.status.tableName) ==>
                old(c.s.view).Some? && Weighed(c.moments, |old(c.moments)| - 1, instance.spec, old(c.s.view).value, instance.status.tableName, false)
      ensures c.calm && instance.status.tableName in old(c.s.tables) ==>
                && c.env == old(c.env)
                && c.World() == old(c.World()).(
                     view := if instance.spec.ConnectorsManaged()
                             then Some(c.env.ShownAfter(old(c.s.view), instance.status.tableName, instance.spec))
                             else old(c.s.view))
    {
      if !instance.spec.ConnectorsManaged() {
        return true;
      }
      var table;
      ok, table := c.GetCurrentTable(PipelineController);
      if !ok || table == Some(instance.status.tableName) {
        return;
      }
      ghost var since := |c.moments| - 1;
      ok := ReplaceView(table);
      ghost var closer := c.s.view == Some(instance.status.tableName);
      if table.Some? && (closer || ok) {
        WeighedSince(c.moments, c.moments, since, |old(c.moments)| - 1, instance.spec, table.value, instance.status.tableName, closer);
      }
    }

    method UpdateStatusAndRequeue(who: Actor) returns (ok: bool)
      requires who.PipelineController? ==> Running() && PassEnabled(c.s, Commit)
      requires who.ValidationController? ==> Validating() && c.s.v.decided
      requires config.Some?
      modifies c, instance`status
      ensures c.Valid() && c.Continues()
      ensures ok ==> instance.status == old(instance.status).(activeTableName := instance.status.activeTableName)
      ensures ok ==> instance.status == original || c.s.obj.status == instance.status
      ensures c.calm ==> ok && c.env == old(c.env) && c.World() == CommitCalm(old(c.World()), original, old(instance.status))
    {
      var table;
      ok, table := c.GetCurrentTable(who);
      if !ok {
        return;
      }
      instance.status := instance.status.(activeTableName := table.GetOr(""));
      if instance.status != original {
        match who
        case PipelineController => ok := c.UpdatePipelineStatus(instance.status);
        case ValidationController => ok := c.UpdateVerdict(instance.status);
      }
    }

    // ---- STATE_NEW.

    method AddFinalizer() returns (ok: bool)
      requires Running() && InPhase(c.s, Cleaned) && instance.Value() == c.s.p.snap && GetState(c.s.p.snap) == StateNew
      modifies c, instance
      ensures c.Valid() && c.Continues()
      ensures ok ==> Running() && InPhase(c.s, Cleaned) && instance.Value() == c.s.p.snap && c.s.p.snap.finalizer
      ensures ok ==> instance.spec == old(instance.spec) && instance.status == old(instance.status) && GetState(c.s.p.snap) == StateNew
      ensures c.s.used == old(c.s.used)
      ensures c.calm ==>
                && ok && c.env == old(c.env)
                && c.World() == old(c.World()).(obj := if old(instance.finalizer) then old(c.s.obj)
                                                       else old(c.s.obj).(rv := old(c.s.obj.rv) + 1, finalizer := true))
    {
      if instance.finalizer {
        return true;
      }
      ok := c.AddFinalizer();
      if ok {
        instance.finalizer := true;
        instance.rv := instance.rv + 1;
      }
    }

    /** Chooses the new version. */
    method ChooseVersion(version: string)
      requires Running() && InPhase(c.s, Cleaned) && instance.Value() == c.s.p.snap && GetState(c.s.p.snap) == StateNew
      requires c.s.p.snap.finalizer && config.Some? && IsVersion(version) && version !in c.s.used
      modifies c, instance`status
      ensures Running() && c.Continues() && InPhase(c.s, Creating(false))
      ensures instance.status == ToInitialSync(false, instance.spec, old(instance.status).(
                                   cyndiConfigVersion := config.value.configMapVersion, specHash := config.value.specHash), version)
      ensures instance.status.pipelineVersion == version && instance.status.tableName != ""
      ensures c.env == old(c.env) && c.World() == old(c.World())
    {
      instance.status := instance.status.(cyndiConfigVersion := config.value.configMapVersion);
      instance.status := instance.status.(specHash := config.value.specHash);
      var _ := instance.TransitionToInitialSync(version);
      c.Step(Protocol.Sync(Begin(version, config.value.configMapVersion, config.value.specHash)));
    }

    method EnsureTable() returns (ok: bool)
      requires Running() && InPhase(c.s, Creating(false)) && instance.status.tableName != ""
      modifies c
      ensures c.Valid() && c.Continues()
      ensures ok ==> Running() && InPhase(c.s, Creating(true))
      ensures c.calm ==> ok && c.env == old(c.env)
                         && c.World() == old(c.World()).(tables := old(c.s.tables) + {instance.status.tableName})
    {
      var tableExists;
      ok, tableExists := c.CheckIfTableExists(PipelineController, instance.status.tableName);
      if !ok {
        return;
      }
      if tableExists {
        c.Step(Protocol.Sync(FindTable));
        assert c.s.tables == c.s.tables + {instance.status.tableName};
      } else {
        ok := c.CreateTable(instance.status.tableName);
      }
    }

    method EnsureConnector(version: string) returns (ok: bool)
      requires Running() && InPhase(c.s, Creating(true)) && config.Some? && version == instance.status.pipelineVersion
      modifies c
      ensures c.Valid() && c.Continues()
      ensures ok ==> Running() && InPhase(c.s, Committing)
      ensures c.calm ==> c.env == old(c.env)
      ensures c.calm && !instance.spec.ConnectorsManaged() ==> ok && c.World() == old(c.World())
      ensures c.calm && instance.spec.ConnectorsManaged() && settings == c.env ==>
                var name := ConnectorName(version, instance.spec.appName);
                var desired := c.env.Desired(instance.spec, config.value, instance.status.tableName);
                && ok == (desired.Some? && name !in old(c.s.conns))
                && c.World() == old(c.World()).(conns := if ok then old(c.s.conns)[name := desired.value] else old(c.s.conns))
    {
      if !instance.spec.ConnectorsManaged() {
        c.Step(Protocol.Sync(SkipConnector));
        return true;
      }
      var connector := settings.Desired(instance.spec, config.value, instance.status.tableName);
      if connector.None? {
        return false;
      }
      ok := c.CreateConnector(ConnectorName(version, instance.spec.appName), connector.value);
    }

    method CreateResources(version: string)
      requires Running() && InPhase(c.s, Creating(false)) && config.Some?
      requires instance.status.tableName != "" && version == instance.status.pipelineVersion
      modifies c, instance`status
      ensures c.Valid() && c.Continues()
      ensures c.calm && settings == old(c.env) ==>
                && c.env == old(c.env)
                && c.World() == CreateCalm(old(c.World()), old(c.env), config.value, original, old(instance.status), version)
    {
      var ok := EnsureTable();
      if !ok {
        return;
      }
      ok := EnsureConnector(version);
      if !ok {
        return;
      }
      ok := UpdateStatusAndRequeue(PipelineController);
    }

    method Sync(version: string)
      requires Running() && InPhase(c.s, Cleaned) && instance.Value() == c.s.p.snap && GetState(c.s.p.snap) == StateNew
      requires config.Some? && IsVersion(version) && version !in c.s.used
      modifies c, instance
      ensures c.Valid() && c.Continues()
      ensures c.calm && settings == old(c.env) ==>
                c.env == old(c.env) && c.World() == SyncCalm(old(c.World()), old(c.env), config.value, version)
    {
      var ok := AddFinalizer();
      if !ok {
        return;
      }
      ChooseVersion(version);
      CreateResources(version);
    }

    // ---- The pass.

    /** The pass is past its cleanup and has not changed the status yet. */
    ghost predicate Acting()
      reads this, c, instance
    {
      Running() && Settled(c.s) && instance.Value() == c.s.p.snap && config.Some?
    }

    method Refresh()
      requires Acting()
      modifies c, instance`status
      ensures c.Valid() && c.Continues()
      ensures c.calm ==> c.env == old(c.env) && c.World() == CommitCalm(old(c.World()), original, ToNew(original))
    {
      instance.TransitionToNew();
      c.Step(Protocol.Act(ActStep.Refresh));
      var _ := UpdateStatusAndRequeue(PipelineController);
    }

    /** The version did not become valid in time. */
    method GiveUp()
      requires Acting() && original.GetValid() == ConditionFalse
      requires c.calm ==> original.tableName in c.s.tables
      modifies c, instance`status
      ensures c.Valid() && c.Continues()
      ensures c.calm ==>
                && c.env == old(c.env)
                && c.World() == CommitCalm(
                     old(c.World()).(view := if GetState(old(c.s.obj)) == StateInitialSync && instance.spec.ConnectorsManaged()
                                             then Some(c.env.ShownAfter(old(c.s.view), original.tableName, instance.spec))
                                             else old(c.s.view)),
                     original, ToNew(original))
    {
      if GetState(instance.Value()) == StateInitialSync {
        c.ViewHasTable();
        var _ := UpdateViewIfHealthier();
      }
      Refresh();
    }

    method ShowTable()
      requires Acting() && GetState(c.s.p.snap) == StateValid
      requires c.calm ==> original.tableName in c.s.tables
      modifies c, instance`status
      ensures c.Valid() && c.Continues()
      ensures c.calm ==>
                && c.env == old(c.env)
                && c.World() == CommitCalm(
                     old(c.World()).(view := if instance.spec.ConnectorsManaged() then Some(original.tableName) else old(c.s.view)),
                     original, original)
    {
      var ok := RecreateViewIfNeeded();
      if !ok {
        return;
      }
      ok := UpdateStatusAndRequeue(PipelineController);
    }

    /** Valid, still waiting for a verdict, or failed for good. */
    method Decide()
      requires Acting()
      requires c.calm ==> original.tableName in c.s.tables
      modifies c, instance`status
      ensures c.Valid() && c.Continues()
      ensures c.calm ==> c.env == old(c.env) && c.World() == DecideCalm(old(c.World()), old(c.env), config.value)
    {
      if GetState(instance.Value()) == StateValid {
        ShowTable();
      } else if instance.status.GetValid() == ConditionFalse
             && instance.status.validationFailedCount >= GetValidationConfig().attemptsThreshold {
        GiveUp();
      } else {
        var _ := UpdateStatusAndRequeue(PipelineController);
      }
    }

    method Act()
      requires Acting()
      requires c.calm ==> DeviationOf(c.World(), c.env, config.value) == NoDeviation
      modifies c, instance`status
      ensures c.Valid() && c.Continues()
      ensures c.calm ==> c.env == old(c.env) && c.World() == ActCalm(old(c.World()), old(c.env), config.value)
    {
      if instance.spec.ConnectorsManaged() {
        var ok := SetConnectorState();
        if !ok {
          return;
        }
      }
      Decide();
    }

    /** A resource whose deletion was requested: the finalizer goes once nothing is left, in EPHEMERAL mode regardless. */
    method Finalize(errors: nat)
      requires Running() && GetState(c.s.p.snap) == StateRemoved && c.s.p.phase.Cleaning?
      requires errors == 0 ==> config.Some? && CleanupEnabled(c.s, Finish)
      modifies c
      ensures c.Valid() && c.Continues()
      ensures c.calm ==>
                c.World() == if errors == 0 || c.ephemeral then old(c.World()).(gone := true) else old(c.World())
    {
      var setupErrors := errors + if config.None? then 1 else 0;
      if setupErrors > 0 && !c.ephemeral {
        return;
      }
      if errors == 0 {
        c.Step(Cleanup(Finish));
      }
      var _ := c.RemoveFinalizer();
    }

    /** The rest of the pass after a cleanup without errors. */
    method Advance(version: string)
      requires Running() && InPhase(c.s, Cleaned) && instance.Value() == c.s.p.snap && GetState(c.s.p.snap) != StateRemoved
      requires config.Some? && IsVersion(version) && version !in c.s.used
      requires c.calm ==> settings == c.env
      modifies c, instance
      ensures c.Valid() && c.Continues()
      ensures c.calm ==> c.World() == AdvanceCalm(old(c.World()), old(c.env), config.value, version)
    {
      if GetState(instance.Value()) == StateNew {
        Sync(version);
        return;
      }
      var problem := CheckForDeviation(PipelineController);
      match problem
      case CheckFailed =>
      case Deviates(_) => Refresh();
      case NoDeviation => Act();
    }

    /** The pass once the stale dependencies are gone. */
    method End(errors: nat, version: string)
      requires Running() && c.s.p.phase.Cleaning? && instance.Value() == c.s.p.snap
      requires errors == 0 ==> config.Some? && CleanupEnabled(c.s, Finish)
      requires IsVersion(version) && version !in c.s.used
      requires c.calm ==> settings == c.env && (errors == 0 <==> config.Some?)
      modifies c, instance
      ensures c.Valid() && c.Continues()
      ensures c.calm ==> c.World() == EndCalm(old(c.World()), old(c.env), config, version)
    {
      if GetState(instance.Value()) == StateRemoved {
        Finalize(errors);
      } else if errors == 0 && config.Some? {
        c.Step(Cleanup(Finish));
        Advance(version);
      }
    }

    method Pass(version: string)
      requires Starting() && IsVersion(version) && version !in c.s.used
      requires c.calm ==> settings == c.env && config == ConfigFor(c.World(), c.env)
      modifies c, instance
      ensures c.Valid() && c.Continues()
      ensures c.calm ==> c.World() == PassCalm(old(c.World()), old(c.env), version)
    {
      var panics, errors := DeleteStaleDependencies();
      if !panics {
        End(errors, version);
      }
    }

    // ---- The validation controller.

    /** The iteration is the pass of the validation controller; undisturbed, it works on the latest revision. */
    ghost predicate Validating()
      reads this, c, instance
    {
      && c.Valid() && c.s.v.VPass?
      && instance.Value() == c.s.v.snap.(status := c.s.v.work)
      && original == c.s.v.snap.status
      && (c.calm ==> c.s.v.snap == c.s.obj && !c.s.gone)
    }

    /** The pass has not changed the status yet. */
    ghost predicate Undecided()
      reads this, c, instance
    {
      Validating() && instance.Value() == c.s.v.snap && !c.s.v.decided && config.Some?
    }

    method FetchCounts() returns (ok: bool, appHostCount: int, hbiHostCount: int)
      requires c.Valid()
      modifies c
      ensures c.Valid() && c.Quiet(ValidationController)
      ensures ok ==> InventoryCountSeen(c.Window(), instance.spec, hbiHostCount)
                     && AppCountSeen(c.Window(), instance.status.tableName, appHostCount)
      ensures c.calm && ok ==> instance.status.tableName in c.s.tables
      ensures c.calm && instance.status.tableName in c.s.tables ==>
                ok && appHostCount == |c.env.appIds(instance.status.tableName)| && hbiHostCount == c.env.HbiCount(instance.spec)
    {
      hbiHostCount := 0;
      ok, appHostCount := c.CountAppHosts(ValidationController, instance.status.tableName);
      if !ok {
        return;
      }
      ghost var first := c.moments;
      ok, hbiHostCount := c.CountInventoryHosts(ValidationController, instance.spec);
      SeenSince(old(c.moments), first, c.moments);
      SeenSince(old(c.moments), c.moments, c.moments);
    }

    method FetchIds() returns (ok: bool, hbiIds: seq<string>, appIds: seq<string>)
      requires c.Valid()
      modifies c
      ensures c.Valid() && c.Quiet(ValidationController)
      ensures ok ==> instance.status.tableName in c.s.tables
      ensures ok ==> InventoryIdsSeen(c.Window(), instance.spec, hbiIds) && AppIdsSeen(c.Window(), instance.status.tableName, appIds)
      ensures c.calm && instance.status.tableName in c.s.tables ==>
                && ok && appIds == c.env.appIds(instance.status.tableName)
                && hbiIds == c.env.hbiIds(instance.spec.insightsOnly, instance.spec.additionalFilters)
    {
      appIds := [];
      ok, hbiIds := c.GetInventoryIds(ValidationController, instance.spec);
      if !ok {
        return;
      }
      ghost var first := c.moments;
      ok, appIds := c.GetAppIds(ValidationController, instance.status.tableName);
      SeenSince(old(c.moments), first, c.moments);
      SeenSince(old(c.moments), c.moments, c.moments);
    }

    /** `validate` once the counts are known. */
    method CompareHosts(hbiHostCount: int, appHostCount: int)
      returns (ok: bool, verdict: Verdict, hbiIds: seq<string>, appIds: seq<string>)
      requires c.Valid() && config.Some?
      modifies c
      ensures c.Valid() && c.Quiet(ValidationController)
      ensures ok ==> verdict == Judge(hbiHostCount, appHostCount, hbiIds, appIds, GetValidationConfig().percentageThreshold)
      ensures ok && !CountsWayOff(hbiHostCount, appHostCount) ==>
                && instance.status.tableName in c.s.tables
                && InventoryIdsSeen(c.Window(), instance.spec, hbiIds) && AppIdsSeen(c.Window(), instance.status.tableName, appIds)
      ensures c.calm && instance.status.tableName in c.s.tables ==> ok
      ensures c.calm && ok && hbiHostCount == c.env.HbiCount(instance.spec)
              && appHostCount == |c.env.appIds(instance.status.tableName)| ==>
                verdict == JudgeSnapshot(c.env.hbiIds(instance.spec.insightsOnly, instance.spec.additionalFilters),
                                         c.env.appIds(instance.status.tableName), GetValidationConfig().percentageThreshold)
    {
      ok, hbiIds, appIds := true, [], [];
      var countMismatch := Distance64(hbiHostCount, appHostCount);
      var countMismatchRatio := Ratio(countMismatch, hbiHostCount);
      verdict := Verdict(false, countMismatchRatio, countMismatch, appHostCount);
      if countMismatchRatio > COUNT_MISMATCH_THRESHOLD {
        return;
      }
      ok, hbiIds, appIds := FetchIds();
      if ok {
        verdict := JudgeIds(hbiIds, appIds, appHostCount, GetValidationConfig().percentageThreshold);
      }
    }

    /** `validate` of the source, with the answers of its four queries; no ids are fetched on an early exit. */
    method Compare() returns (
        ok: bool, verdict: Verdict, hbiHostCount: int, appHostCount: int, hbiIds: seq<string>, appIds: seq<string>)
      requires c.Valid() && config.Some?
      modifies c
      ensures c.Valid() && c.Quiet(ValidationController)
      ensures ok ==> verdict == Judge(hbiHostCount, appHostCount, hbiIds, appIds, GetValidationConfig().percentageThreshold)
      ensures ok ==> CountsWayOff(hbiHostCount, appHostCount) || instance.status.tableName in c.s.tables
      ensures c.calm && ok ==> instance.status.tableName in c.s.tables
      ensures ok ==> AnswersSeen(c.Window(), instance.spec, instance.status.tableName, hbiHostCount, appHostCount, hbiIds, appIds)
      ensures c.calm && instance.status.tableName in c.s.tables ==>
                ok && verdict == JudgeSnapshot(c.env.hbiIds(instance.spec.insightsOnly, instance.spec.additionalFilters),
                                               c.env.appIds(instance.status.tableName), GetValidationConfig().percentageThreshold)
    {
      verdict, hbiIds, appIds := Verdict(false, -1.0, -1, -1), [], [];
      ok, appHostCount, hbiHostCount := FetchCounts();
      if !ok {
        return;
      }
      ghost var counted := c.moments;
      ok, verdict, hbiIds, appIds := CompareHosts(hbiHostCount, appHostCount);
      if ok {
        AnswersSeenSince(old(c.moments), counted, c.moments, instance.spec, instance.status.tableName,
                         hbiHostCount, appHostCount, hbiIds, appIds);
      }
    }

    method Validate() returns (ok: bool, verdict: Verdict)
      requires Undecided()
      modifies c
      ensures c.Valid() && c.Continues()
      ensures ok ==> c.s.v == VPass(old(c.s.v.snap),
                                    WithVerdict(original, verdict.isValid, verdict.mismatchCount, verdict.mismatchRatio, verdict.hostCount),
                                    Some(verdict.isValid), true)
      ensures c.calm ==> c.env == old(c.env) && c.World() == old(c.World())
      ensures c.calm && ok ==> original.tableName in old(c.s.tables)
      ensures c.calm && original.tableName in old(c.s.tables) ==>
                ok && verdict == VerdictCalm(old(c.World()), old(c.env), config.value)
    {
      var hbiHostCount, appHostCount, hbiIds, appIds;
      ok, verdict, hbiHostCount, appHostCount, hbiIds, appIds := Compare();
      if ok {
        AnswersSeenLater(c.Window(), c.moments, instance.spec, instance.status.tableName, hbiHostCount, appHostCount, hbiIds, appIds);
        c.Step(Validation(ValidationStep.Validate(
          hbiHostCount, appHostCount, hbiIds, appIds, GetValidationConfig().percentageThreshold)));
      }
    }

    /** The deviation check of the validation controller sends the pipeline to NEW on its own. */
    method RefreshInvalid()
      requires Undecided()
      modifies c, instance`status
      ensures c.Valid() && c.Continues()
      ensures c.calm ==> c.World() == CommitCalm(old(c.World()), original, ToNew(original))
    {
      instance.TransitionToNew();
      c.Step(Validation(ValidationStep.RefreshInvalid));
      var _ := UpdateStatusAndRequeue(ValidationController);
    }

    method RecordVerdict()
      requires Undecided()
      modifies c, instance`status
      ensures c.Valid() && c.Continues()
      ensures c.calm ==> c.World() == UncheckedPassCalm(old(c.World()), old(c.env), config.value)
    {
      var ok, verdict := Validate();
      if !ok {
        return;
      }
      var message := Mismatch(verdict.mismatchCount, verdict.mismatchRatio);
      if verdict.isValid {
        instance.SetValid(Condition(ConditionTrue, "ValidationSucceeded", message), verdict.hostCount);
      } else {
        instance.SetValid(Condition(ConditionFalse, "ValidationFailed", message), verdict.hostCount);
      }
      ok := UpdateStatusAndRequeue(ValidationController);
    }

    method ValidationPass(checkResourceDeviation: bool)
      requires Undecided()
      requires c.calm ==> settings == c.env
      modifies c, instance`status
      ensures c.Valid() && c.Continues()
      ensures c.calm ==> c.World() == if checkResourceDeviation then VerdictPassCalm(old(c.World()), old(c.env), config.value)
                                      else UncheckedPassCalm(old(c.World()), old(c.env), config.value)
    {
      if checkResourceDeviation {
        var problem := CheckForDeviation(ValidationController);
        match problem {
          case CheckFailed => return;
          case Deviates(_) => RefreshInvalid(); return;
          case NoDeviation =>
        }
      }
      RecordVerdict();
    }
  }

  /** The pipeline controller's Reconcile, for a resource that was found. */
  method ReconcileObject(c: Cluster, o: Object, version: string)
    requires c.Valid() && c.s.p == PPass(o, o.status, NotRead, Cleaning) && IsVersion(version) && version !in c.s.used
    requires c.calm ==> c.s.obj == o && !c.s.gone
    modifies c
    ensures c.Valid() && c.Continues()
    ensures c.calm ==> c.World() == PassCalm(old(c.World()), old(c.env), version)
  {
    var i := new ReconcileIteration(c, o);
    i.Setup();
    i.Pass(version);
  }

  /** controllers/cyndipipeline_controller.go: Reconcile. `version` is made from the clock. */
  method ReconcilePipeline(c: Cluster, version: string)
    requires c.Valid() && c.s.p.PIdle? && IsVersion(version) && version !in c.s.used
    modifies c
    ensures c.Valid() && c.Continues() && c.s.p.PIdle?
    ensures c.calm ==> c.World() == PassCalm(old(c.World()), old(c.env), version)
  {
    var found, o := c.FetchForPipeline();
    if found {
      ReconcileObject(c, o, version);
    }
    if c.s.p.PPass? {
      c.Step(Protocol.Pass(Abort));
    }
  }

  /** controllers/validation_controller.go: Reconcile, for a resource that was found. */
  method ValidateObject(c: Cluster, o: Object, checkResourceDeviation: bool)
    requires c.Valid() && (if Validatable(o) then c.s.v == VPass(o, o.status, None, false) else c.s.v.VIdle?)
    requires c.calm ==> c.s.obj == o && !c.s.gone
    modifies c
    ensures c.Valid() && c.Continues()
    ensures !Validatable(o) ==> c.s.v.VIdle?
    ensures c.calm ==> c.World() == if checkResourceDeviation then ValidationCalm(old(c.World()), old(c.env))
                                    else UncheckedValidationCalm(old(c.World()), old(c.env))
  {
    var i := new ReconcileIteration(c, o);
    i.Setup();
    if i.config.None? || !Validatable(i.instance.Value()) {
      return;
    }
    i.ValidationPass(checkResourceDeviation);
  }

  method ReconcileValidation(c: Cluster, checkResourceDeviation: bool)
    requires c.Valid() && c.s.v.VIdle?
    modifies c
    ensures c.Valid() && c.Continues() && c.s.v.VIdle?
    ensures c.calm ==> c.World() == if checkResourceDeviation then ValidationCalm(old(c.World()), old(c.env))
                                    else UncheckedValidationCalm(old(c.World()), old(c.env))
  {
    var found, o := c.FetchForValidation();
    if found {
      ValidateObject(c, o, checkResourceDeviation);
    }
    if c.s.v.VPass? {
      c.Step(Validation(AbortValidation));
    }
  }

  /** Host counts seen from `since` on say whether `latestTable` is at least as close to the inventory as `activeTable`. */
  ghost predicate Weighed(moments: seq<Env>, since: int, spec: Spec, activeTable: string, latestTable: string, closer: bool) {
    0 <= since <= |moments| &&
    exists inventory, active, latest ::
      && CountsSeen(moments[since..], spec, activeTable, latestTable, inventory, active, latest)
      && (closer <==> Distance64(inventory, latest) <= Distance64(inventory, active))
  }

  lemma WeighedSince(
    m: seq<Env>, m': seq<Env>, since: int, earlier: nat, spec: Spec, activeTable: string, latestTable: string, closer: bool)
    requires m <= m' && earlier <= since && Weighed(m, since, spec, activeTable, latestTable, closer)
    ensures Weighed(m', earlier, spec, activeTable, latestTable, closer)
  {
    var w, w' := m[since..], m'[earlier..];
    var inventory, active, latest :|
      && CountsSeen(w, spec, activeTable, latestTable, inventory, active, latest)
      && (closer <==> Distance64(inventory, latest) <= Distance64(inventory, active));
    forall i | 0 <= i < |w| ensures w[i] in w' {
      assert w[i] == w'[since - earlier + i];
    }
    CountsSeenLater(w, w', spec, activeTable, latestTable, inventory, active, latest);
  }

  lemma AnswersSeenSince(
    m0: seq<Env>, m1: seq<Env>, m2: seq<Env>, spec: Spec, table: string,
    hbiCount: int, appCount: int, hbiIds: seq<string>, appIds: seq<string>)
    requires m0 != [] && m0 <= m1 <= m2
    requires InventoryCountSeen(m1[|m0| - 1..], spec, hbiCount) && AppCountSeen(m1[|m0| - 1..], table, appCount)
    requires !CountsWayOff(hbiCount, appCount) ==>
               InventoryIdsSeen(m2[|m1| - 1..], spec, hbiIds) && AppIdsSeen(m2[|m1| - 1..], table, appIds)
    ensures AnswersSeen(m2[|m0| - 1..], spec, table, hbiCount, appCount, hbiIds, appIds)
  {
    var w1, w2, w := m1[|m0| - 1..], m2[|m1| - 1..], m2[|m0| - 1..];
    var i :| 0 <= i < |w1| && w1[i].HbiCount(spec) == hbiCount;
    var j :| 0 <= j < |w1| && |w1[j].appIds(table)| == appCount;
    assert w[i] == w1[i] && w[j] == w1[j];
    if !CountsWayOff(hbiCount, appCount) {
      var a :| 0 <= a < |w2| && w2[a].hbiIds(spec.insightsOnly, spec.additionalFilters) == hbiIds;
      var b :| 0 <= b < |w2| && w2[b].appIds(table) == appIds;
      assert w[|m1| - |m0| + a] == w2[a] && w[|m1| - |m0| + b] == w2[b];
    }
  }

  /** Some of the connectors, unchanged. */
  ghost predicate Within(conns: map<string, Connector>, all: map<string, Connector>) {
    forall n :: n in conns ==> n in all && conns[n] == all[n]
  }

  ghost predicate ViewStands(s: Sys) {
    s.view.Some? ==> s.view.value in s.tables
  }

  /** What is left of a view once only `tables` exist. */
  ghost function Standing(view: Option<string>, tables: set<string>): Option<string> {
    if view.Some? && view.value !in tables then None else view
  }

  lemma CleanedUpAs(w: World, w': World, view: ViewRead, listTables: bool)
    requires SliceInBounds(w.obj, view) && w' == w.(tables := w'.tables, view := w'.view, conns := w'.conns)
    requires w'.tables == if listTables then Remaining(w.tables, KeepTables(w.obj, view)) else w.tables
    requires w'.view == Standing(w.view, w'.tables)
    requires Within(w'.conns, w.conns) && w'.conns.Keys == w.conns.Keys * KeepConnectors(w.obj, view)
    ensures w' == CleanedUp(w, view, listTables)
  {
    assert forall n :: n in w'.conns <==> n in w'.conns.Keys;
    assert w'.conns == CleanedUp(w, view, listTables).conns;
  }

  /** The listed names that are not to be kept. */
  ghost function Stale(names: seq<string>, keep: set<string>): set<string> {
    set n | n in names && n !in keep
  }

  lemma StaleGrows(names: seq<string>, i: nat, keep: set<string>)
    requires i < |names|
    ensures Stale(names[..i + 1], keep) == Stale(names[..i], keep) + (if names[i] in keep then {} else {names[i]})
  {
    assert names[..i + 1] == names[..i] + [names[i]];
  }

  lemma StaleAll(names: seq<string>, all: set<string>, keep: set<string>)
    requires forall n :: n in names <==> n in all
    ensures Stale(names[..|names|], keep) == all - keep
    ensures all - (all - keep) == all * keep
  {
    assert names[..|names|] == names;
  }
}
