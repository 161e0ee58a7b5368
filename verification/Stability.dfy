/** What undisturbed passes lead to: a matching configuration, no refresh loop, fixpoints, and refreshes that do come. */
module Stability {
  import opened Wrappers
  import opened Lang
  import opened Names
  import opened Pipeline
  import opened Config
  import opened Connect
  import opened Deviation
  import opened Validate
  import opened Protocol
  import opened Calm

  // ---- STATE_NEW leads to a matching configuration.

  /** Only object, tables, view and connectors of a workable world may change, and the view keeps its table. */
  lemma StaysWorkable(w: World, w': World, e: Env, cfg: CyndiConfiguration)
    requires Workable(w, e, cfg)
    requires w'.obj.spec == w.obj.spec && !w'.obj.deleting && !w'.gone
    requires SliceInBounds(w'.obj, Seen(w'.view)) && (w'.view.Some? ==> w'.view.value in w'.tables)
    ensures Workable(w', e, cfg)
  {
  }

  lemma FreshStatus(spec: Spec, st0: Status, version: string, cfg: CyndiConfiguration)
    requires st0.pipelineVersion == "" && version != ""
    ensures var st := ToInitialSync(false, spec, st0.(cyndiConfigVersion := cfg.configMapVersion, specHash := cfg.specHash), version);
            && st.pipelineVersion == version && st.tableName != "" && StateOf(false, st) == StateInitialSync && st.initialSyncInProgress
            && st.cyndiConfigVersion == cfg.configMapVersion && st.specHash == cfg.specHash
            && st.GetValid() == ConditionUnknown && (st.tableName == st0.tableName || st.tableName == TableName(version))
            && (spec.ConnectorsManaged() ==>
                  st.tableName == TableName(version) && st.connectorName == ConnectorName(version, spec.appName))
  {
  }

  lemma CommittedFresh(w: World, original: Status, st: Status)
    requires st.pipelineVersion != original.pipelineVersion
    ensures CommitCalm(w, original, st) == w.(obj := w.obj.(rv := w.obj.rv + 1, status := st.(activeTableName := w.view.GetOr(""))))
  {
  }

  lemma CommittedMatches(w: World, e: Env, cfg: CyndiConfiguration, original: Status, st: Status)
    requires st.pipelineVersion != original.pipelineVersion
    requires Matches(w.(obj := w.obj.(status := st)), e, cfg) && PausedAsAsked(w.(obj := w.obj.(status := st)))
    ensures var w' := CommitCalm(w, original, st);
            && Matches(w', e, cfg) && PausedAsAsked(w') && w' == w.(obj := w'.obj) && w'.obj.spec == w.obj.spec
            && w'.obj.status == st.(activeTableName := w.view.GetOr("")) && w'.obj.deleting == w.obj.deleting
  {
    CommittedFresh(w, original, st);
  }

  lemma CreateMatches(w: World, e: Env, cfg: CyndiConfiguration, original: Status, st: Status, version: string)
    requires st.pipelineVersion != original.pipelineVersion && st.pipelineVersion == version != "" && st.tableName != ""
    requires st.cyndiConfigVersion == cfg.configMapVersion && st.specHash == cfg.specHash && !w.obj.deleting && !w.gone
    requires w.obj.spec.ConnectorsManaged() ==>
               && st.connectorName == ConnectorName(version, w.obj.spec.appName) && st.connectorName !in w.conns
               && e.Desired(w.obj.spec, cfg, st.tableName).Some?
    ensures var w' := CreateCalm(w, e, cfg, original, st, version);
            && Matches(w', e, cfg) && PausedAsAsked(w') && w' == w.(obj := w'.obj, tables := w'.tables, conns := w'.conns)
            && w'.obj.spec == w.obj.spec && w'.obj.deleting == w.obj.deleting && w.tables <= w'.tables
            && w'.obj.status == st.(activeTableName := w.view.GetOr(""))
  {
    var w1 := w.(tables := w.tables + {st.tableName});
    if w.obj.spec.ConnectorsManaged() {
      DesiredMatches(e, w.obj.spec, cfg, st.tableName);
      CommittedMatches(w1.(conns := w1.conns[st.connectorName := e.Desired(w.obj.spec, cfg, st.tableName).value]), e, cfg, original, st);
    } else {
      CommittedMatches(w1, e, cfg, original, st);
    }
  }

  /** The pass that leaves STATE_NEW enters INITIAL_SYNC in a matching configuration, under the names of its version. */
  lemma SyncMatches(w: World, e: Env, cfg: CyndiConfiguration, version: string)
    requires Workable(w, e, cfg) && Sliceable(w.obj.status) && GetState(w.obj) == StateNew && version != ""
    requires ConnectorName(version, w.obj.spec.appName) !in w.conns
    ensures var w' := SyncCalm(w, e, cfg, version);
            && Workable(w', e, cfg) && Stable(w', e, cfg) && !GiveUpDue(w', cfg)
            && GetState(w'.obj) == StateInitialSync && w'.obj.status.pipelineVersion == version
            && w'.obj.spec == w.obj.spec && w'.view == w.view && w.tables <= w'.tables
  {
    FreshStatus(w.obj.spec, w.obj.status, version, cfg);
    var st := ToInitialSync(false, w.obj.spec,
      w.obj.status.(cyndiConfigVersion := cfg.configMapVersion, specHash := cfg.specHash), version);
    var w1 := w.(obj := if w.obj.finalizer then w.obj else w.obj.(rv := w.obj.rv + 1, finalizer := true));
    CreateMatches(w1, e, cfg, w.obj.status, st, version);
    var w' := CreateCalm(w1, e, cfg, w.obj.status, st, version);
    StaysWorkable(w, w', e, cfg);
    FreshIsStable(w', e, cfg, st, version);
  }

  /** A matching pipeline whose status is that of a fresh version. */
  lemma FreshIsStable(w: World, e: Env, cfg: CyndiConfiguration, st: Status, version: string)
    requires OnTrack(w, e, cfg) && w.obj.status == st.(activeTableName := w.obj.status.activeTableName)
    requires st.pipelineVersion == version != "" && st.GetValid() == ConditionUnknown && st.initialSyncInProgress && Sliceable(st)
    requires w.obj.spec.ConnectorsManaged() ==>
               st.tableName == TableName(version) && st.connectorName == ConnectorName(version, w.obj.spec.appName)
    ensures Stable(w, e, cfg) && !GiveUpDue(w, cfg) && GetState(w.obj) == StateInitialSync
  {
  }

  // ---- The other states.

  lemma SetStateKeepsMatch(w: World, e: Env, cfg: CyndiConfiguration, view: Option<string>)
    requires Matches(w, e, cfg)
    ensures var w' := w.(view := view,
                         conns := if w.obj.spec.ConnectorsManaged()
                                  then SetState(w.conns, w.obj.status.connectorName, w.obj.spec.connectorPaused) else w.conns);
            Matches(w', e, cfg) && PausedAsAsked(w')
  {
  }

  lemma CommitKeepsMatch(w: World, e: Env, cfg: CyndiConfiguration, original: Status)
    requires Matches(w, e, cfg) && PausedAsAsked(w)
    ensures Matches(CommitCalm(w, original, w.obj.status), e, cfg) && PausedAsAsked(CommitCalm(w, original, w.obj.status))
    ensures CommitCalm(w, original, w.obj.status).obj.spec == w.obj.spec
  {
  }

  /** A pass over a matching configuration that does not give up keeps it matching, in the same version and state. */
  lemma ActMatches(w: World, e: Env, cfg: CyndiConfiguration)
    requires Matches(w, e, cfg)
    requires GetState(w.obj) == StateValid || !GivesUpNow(w.obj.status, cfg)
    ensures var w' := ActCalm(w, e, cfg);
            && Matches(w', e, cfg) && PausedAsAsked(w')
            && w'.obj.status == w.obj.status.(activeTableName := w'.obj.status.activeTableName)
            && w'.obj.spec == w.obj.spec && w'.view == ViewAfter(w, e, cfg) && w'.tables == w.tables
            && w'.conns.Keys == w.conns.Keys
  {
    SetStateKeepsMatch(w, e, cfg, ViewAfter(w, e, cfg));
    var w1 := w.(conns := if w.obj.spec.ConnectorsManaged()
                          then SetState(w.conns, w.obj.status.connectorName, w.obj.spec.connectorPaused) else w.conns,
                 view := ViewAfter(w, e, cfg));
    CommitKeepsMatch(w1, e, cfg, w.obj.status);
  }

  lemma ViewAfterIsKept(w: World, e: Env, cfg: CyndiConfiguration)
    requires Workable(w, e, cfg) && Matches(w, e, cfg)
    ensures ViewAfter(w, e, cfg).Some? ==> ViewAfter(w, e, cfg) == w.view || ViewAfter(w, e, cfg).value == w.obj.status.tableName
  {
  }

  /** A refresh leaves a NEW pipeline over the same tables, view and connectors. */
  lemma RefreshGivesNew(w: World, original: Status)
    requires original.pipelineVersion != ""
    ensures var w' := CommitCalm(w, original, ToNew(w.obj.status));
            w'.obj.status.pipelineVersion == "" && w'.obj.status.tableName == w.obj.status.tableName
            && w'.obj.spec == w.obj.spec && w'.obj.deleting == w.obj.deleting
            && w' == w.(obj := w'.obj)
  {
  }

  lemma CleanupShrinks(w: World)
    requires SliceInBounds(w.obj, Seen(w.view))
    ensures var w1 := CleanedUp(w, Seen(w.view), true); w1.tables <= w.tables && w1.conns.Keys <= w.conns.Keys && w1.obj == w.obj && w1.gone == w.gone
  {
  }

  /** Table names the controller generates can be sliced. */
  ghost predicate Sliceable(st: Status) {
    st.tableName == "" || |st.tableName| >= |TABLE_PREFIX|
  }

  ghost predicate OnTrack(w: World, e: Env, cfg: CyndiConfiguration) {
    Matches(w, e, cfg) && PausedAsAsked(w)
  }

  /** Back in STATE_NEW, with no more connectors than before. */
  ghost predicate Restarted(w: World, w': World, e: Env, cfg: CyndiConfiguration) {
    && GetState(w'.obj) == StateNew && Workable(w', e, cfg) && w'.obj.status.tableName == w.obj.status.tableName
    && w'.conns.Keys <= w.conns.Keys && w'.obj.spec == w.obj.spec
  }

  lemma GiveUpGivesNew(w: World, e: Env, cfg: CyndiConfiguration)
    requires Workable(w, e, cfg) && Matches(w, e, cfg) && Sliceable(w.obj.status)
    requires GetState(w.obj) != StateValid && GivesUpNow(w.obj.status, cfg)
    ensures var w' := ActCalm(w, e, cfg);
            Restarted(w, w', e, cfg) && w'.view == ViewAfter(w, e, cfg)
  {
    ViewAfterIsKept(w, e, cfg);
    var w1 := w.(conns := if w.obj.spec.ConnectorsManaged()
                          then SetState(w.conns, w.obj.status.connectorName, w.obj.spec.connectorPaused) else w.conns,
                 view := ViewAfter(w, e, cfg));
    RefreshGivesNew(w1, w.obj.status);
    StaysWorkable(w, ActCalm(w, e, cfg), e, cfg);
  }

  lemma DeviationRestarts(w: World, e: Env, cfg: CyndiConfiguration)
    requires Workable(w, e, cfg) && w.obj.status.pipelineVersion != ""
    ensures Restarted(w, CommitCalm(w, w.obj.status, ToNew(w.obj.status)), e, cfg)
  {
    RefreshGivesNew(w, w.obj.status);
    StaysWorkable(w, CommitCalm(w, w.obj.status, ToNew(w.obj.status)), e, cfg);
  }

  lemma CheckAlwaysDecides(w: World, e: Env, cfg: CyndiConfiguration)
    requires Workable(w, e, cfg)
    ensures DeviationOf(w, e, cfg) != CheckFailed
  {
  }

  lemma AfterCleanup(w: World, e: Env, cfg: CyndiConfiguration)
    requires Workable(w, e, cfg)
    ensures var w1 := CleanedUp(w, Seen(w.view), true);
            && Workable(w1, e, cfg) && w1.obj == w.obj && w1.view == w.view
            && w1.conns.Keys <= w.conns.Keys && w1.tables <= w.tables
  {
    var w1 := CleanedUp(w, Seen(w.view), true);
    CleanupKeepsView(w);
    CleanupShrinks(w);
    if w.view.Some? { assert w.view.value in KeepTables(w.obj, Seen(w.view)); }
    StaysWorkable(w, w1, e, cfg);
  }

  lemma CheckedPass(w: World, e: Env, cfg: CyndiConfiguration, version: string)
    requires Workable(w, e, cfg) && Sliceable(w.obj.status) && GetState(w.obj) != StateNew
    ensures OnTrack(PassCalm(w, e, version), e, cfg) || Restarted(w, PassCalm(w, e, version), e, cfg)
  {
    var w1 := CleanedUp(w, Seen(w.view), true);
    AfterCleanup(w, e, cfg);
    CheckAlwaysDecides(w1, e, cfg);
    NoDeviationIffMatches(w1, e, cfg);
    if DeviationOf(w1, e, cfg) != NoDeviation {
      DeviationRestarts(w1, e, cfg);
    } else if GetState(w1.obj) == StateValid || !GivesUpNow(w1.obj.status, cfg) {
      ActMatches(w1, e, cfg);
    } else {
      GiveUpGivesNew(w1, e, cfg);
    }
  }

  /**
   * Self-stabilisation: from any status that is not being removed and any set of tables and connectors, one or two
   * undisturbed passes reach a matching configuration. A connector whose configuration is not an object counts as
   * matching (Deviation.ConnectorPassesIff).
   */
  lemma TwoPassesStabilise(w: World, e: Env, cfg: CyndiConfiguration, v1: string, v2: string)
    requires Workable(w, e, cfg) && Sliceable(w.obj.status) && v1 != "" && v2 != ""
    requires ConnectorName(v1, w.obj.spec.appName) !in w.conns && ConnectorName(v2, w.obj.spec.appName) !in w.conns
    ensures var w1 := PassCalm(w, e, v1);
            OnTrack(w1, e, cfg) || OnTrack(PassCalm(w1, e, v2), e, cfg)
  {
    if GetState(w.obj) == StateNew {
      PassFromNew(w, e, cfg, v1);
    } else {
      CheckedPass(w, e, cfg, v1);
      var w1 := PassCalm(w, e, v1);
      if Restarted(w, w1, e, cfg) {
        PassFromNew(w1, e, cfg, v2);
      }
    }
  }

  /** What NoRefreshLoop starts from. */
  lemma PassFromNew(w: World, e: Env, cfg: CyndiConfiguration, version: string)
    requires Workable(w, e, cfg) && Sliceable(w.obj.status) && GetState(w.obj) == StateNew && version != ""
    requires ConnectorName(version, w.obj.spec.appName) !in w.conns
    ensures var w' := PassCalm(w, e, version);
            && Workable(w', e, cfg) && Stable(w', e, cfg) && !GiveUpDue(w', cfg)
            && GetState(w'.obj) == StateInitialSync && w'.obj.status.pipelineVersion == version
            && w'.view == w.view && w'.obj.spec == w.obj.spec
  {
    AfterCleanup(w, e, cfg);
    SyncMatches(CleanedUp(w, Seen(w.view), true), e, cfg, version);
  }

  // ---- No refresh loop.

  /** On track, with the names the controller records for a managed pipeline. */
  ghost predicate Stable(w: World, e: Env, cfg: CyndiConfiguration) {
    var st, spec := w.obj.status, w.obj.spec;
    && OnTrack(w, e, cfg) && Sliceable(st)
    && (spec.ConnectorsManaged() ==>
          st.tableName == TableName(st.pipelineVersion) && st.connectorName == ConnectorName(st.pipelineVersion, spec.appName))
  }

  /** Dropping other tables and connectors does not matter. */
  lemma KeepingItsOwnKeepsStable(w: World, w': World, e: Env, cfg: CyndiConfiguration)
    requires Stable(w, e, cfg) && w'.obj == w.obj && w'.gone == w.gone && w.obj.status.tableName in w'.tables
    requires w.obj.spec.ConnectorsManaged() ==>
               w.obj.status.connectorName in w'.conns
               && w'.conns[w.obj.status.connectorName] == w.conns[w.obj.status.connectorName]
    ensures Stable(w', e, cfg)
  {
  }

  lemma CleanupKeepsStable(w: World, e: Env, cfg: CyndiConfiguration)
    requires Workable(w, e, cfg) && Stable(w, e, cfg)
    ensures Stable(CleanedUp(w, Seen(w.view), true), e, cfg)
  {
    var st := w.obj.status;
    assert st.tableName in KeepTables(w.obj, Seen(w.view));
    if w.obj.spec.ConnectorsManaged() {
      assert st.connectorName in KeepConnectors(w.obj, Seen(w.view));
    }
    KeepingItsOwnKeepsStable(w, CleanedUp(w, Seen(w.view), true), e, cfg);
  }

  /** Two statuses that record the same version, table, connector and hashes. */
  ghost predicate SameRecord(a: Status, b: Status) {
    && a.pipelineVersion == b.pipelineVersion && a.tableName == b.tableName && a.connectorName == b.connectorName
    && a.cyndiConfigVersion == b.cyndiConfigVersion && a.specHash == b.specHash
  }

  lemma SameRecordKeepsStable(w: World, w': World, e: Env, cfg: CyndiConfiguration)
    requires Workable(w, e, cfg) && Stable(w, e, cfg)
    requires SameRecord(w'.obj.status, w.obj.status) && w'.obj.spec == w.obj.spec && w'.obj.deleting == w.obj.deleting
    requires w' == w.(obj := w'.obj)
    ensures Workable(w', e, cfg) && Stable(w', e, cfg)
  {
  }

  lemma VerdictKeepsRecord(w: World, st: Status, isValid: bool, count: int, ratio: real, hosts: int)
    ensures var work := WithVerdict(st, isValid, count, ratio, hosts);
            var w' := CommitCalm(w, st, work);
            && SameRecord(work.(activeTableName := w.view.GetOr("")), st)
            && (w.obj.status == st ==>
                  && w'.obj.status == work.(activeTableName := w.view.GetOr(""))
                  && w'.obj.spec == w.obj.spec && w'.obj.deleting == w.obj.deleting && w' == w.(obj := w'.obj))
  {
  }

  /** A give-up is due at the next pass of the pipeline controller. */
  ghost predicate GiveUpDue(w: World, cfg: CyndiConfiguration) {
    GetState(w.obj) != StateValid && GivesUpNow(w.obj.status, cfg)
  }

  lemma ActKeepsStable(w: World, e: Env, cfg: CyndiConfiguration)
    requires Workable(w, e, cfg) && Stable(w, e, cfg) && !GiveUpDue(w, cfg)
    ensures var w' := ActCalm(w, e, cfg);
            && Workable(w', e, cfg) && Stable(w', e, cfg) && w'.obj.spec == w.obj.spec
            && w'.obj.status == w.obj.status.(activeTableName := w'.obj.status.activeTableName)
  {
    ActMatches(w, e, cfg);
    ViewAfterIsKept(w, e, cfg);
    StaysWorkable(w, ActCalm(w, e, cfg), e, cfg);
  }

  lemma PassKeepsStable(w: World, e: Env, cfg: CyndiConfiguration, version: string)
    requires Workable(w, e, cfg) && Stable(w, e, cfg) && !GiveUpDue(w, cfg)
    ensures var w' := PassCalm(w, e, version);
            && Workable(w', e, cfg) && Stable(w', e, cfg) && w'.obj.spec == w.obj.spec
            && w' == ActCalm(CleanedUp(w, Seen(w.view), true), e, cfg)
            && w'.obj.status == w.obj.status.(activeTableName := w'.obj.status.activeTableName)
  {
    var w1 := CleanedUp(w, Seen(w.view), true);
    AfterCleanup(w, e, cfg);
    CleanupKeepsStable(w, e, cfg);
    NoDeviationIffMatches(w1, e, cfg);
    ActKeepsStable(w1, e, cfg);
  }

  lemma ValidationKeepsStable(w: World, e: Env, cfg: CyndiConfiguration)
    requires Workable(w, e, cfg) && Stable(w, e, cfg)
    ensures var w' := ValidationCalm(w, e); var v := VerdictCalm(w, e, cfg);
            && Workable(w', e, cfg) && Stable(w', e, cfg) && w' == w.(obj := w'.obj) && w'.obj.spec == w.obj.spec
            && w'.obj.status == WithVerdict(w.obj.status, v.isValid, v.mismatchCount, v.mismatchRatio, v.hostCount)
                                .(activeTableName := w.view.GetOr(""))
  {
    ValidationIsVerdict(w, e, cfg);
    var v := VerdictCalm(w, e, cfg);
    VerdictKeepsRecord(w, w.obj.status, v.isValid, v.mismatchCount, v.mismatchRatio, v.hostCount);
    SameRecordKeepsStable(w, ValidationCalm(w, e), e, cfg);
  }

  lemma ValidationIsVerdict(w: World, e: Env, cfg: CyndiConfiguration)
    requires Workable(w, e, cfg) && Stable(w, e, cfg)
    ensures var v := VerdictCalm(w, e, cfg);
            ValidationCalm(w, e)
              == CommitCalm(w, w.obj.status, WithVerdict(w.obj.status, v.isValid, v.mismatchCount, v.mismatchRatio, v.hostCount))
  {
    NoDeviationIffMatches(w, e, cfg);
  }

  /** The same configuration, secrets and libraries; the hosts of both databases may differ. */
  ghost predicate SameSettings(e: Env, e': Env) {
    e' == e.(hbiIds := e'.hbiIds, appIds := e'.appIds)
  }

  /** Whether a pipeline matches does not depend on the hosts. */
  lemma HostsDoNotMatter(w: World, e: Env, e': Env, cfg: CyndiConfiguration)
    requires SameSettings(e, e')
    ensures Workable(w, e', cfg) <==> Workable(w, e, cfg)
    ensures Stable(w, e', cfg) <==> Stable(w, e, cfg)
  {
    assert ConfigFor(w, e') == ConfigFor(w, e);
    assert forall t :: e'.Desired(w.obj.spec, cfg, t) == e.Desired(w.obj.spec, cfg, t);
  }

  /** A pass of either controller, with the hosts there are at the time. */
  datatype Action = PipelinePass(env: Env, version: string) | ValidationPass(env: Env)

  function Perform(w: World, a: Action): World {
    match a
    case PipelinePass(e, version) => PassCalm(w, e, version)
    case ValidationPass(e) => ValidationCalm(w, e)
  }

  function PerformAll(w: World, actions: seq<Action>): World {
    if actions == [] then w else Perform(PerformAll(w, actions[..|actions| - 1]), actions[|actions| - 1])
  }

  ghost predicate WithSettings(e: Env, actions: seq<Action>) {
    forall k :: 0 <= k < |actions| ==> SameSettings(e, actions[k].env)
  }

  /** No pass of the pipeline controller among `actions` finds the attempts exhausted. */
  ghost predicate NeverDue(w: World, cfg: CyndiConfiguration, actions: seq<Action>) {
    forall k :: 0 <= k < |actions| && actions[k].PipelinePass? ==> !GiveUpDue(PerformAll(w, actions[..k]), cfg)
  }

  lemma OneAction(w: World, e: Env, cfg: CyndiConfiguration, a: Action)
    requires Workable(w, e, cfg) && Stable(w, e, cfg) && SameSettings(e, a.env) && (a.PipelinePass? ==> !GiveUpDue(w, cfg))
    ensures var w' := Perform(w, a);
            && Workable(w', e, cfg) && Stable(w', e, cfg)
            && w'.obj.status.pipelineVersion == w.obj.status.pipelineVersion
  {
    HostsDoNotMatter(w, e, a.env, cfg);
    match a
    case PipelinePass(_, version) => PassKeepsStable(w, a.env, cfg, version);
    case ValidationPass(_) => ValidationKeepsStable(w, a.env, cfg);
    HostsDoNotMatter(Perform(w, a), e, a.env, cfg);
  }

  /**
   * No refresh loop: with config, spec and connector health unchanged, and however the hosts change, passes of both
   * controllers in any order never refresh a matching pipeline; only exhausted validation attempts do.
   */
  lemma {:induction false} NoRefreshLoop(w: World, e: Env, cfg: CyndiConfiguration, actions: seq<Action>)
    requires Workable(w, e, cfg) && Stable(w, e, cfg) && WithSettings(e, actions) && NeverDue(w, cfg, actions)
    ensures var w' := PerformAll(w, actions);
            && Workable(w', e, cfg) && Stable(w', e, cfg)
            && DeviationOf(w', e, cfg) == NoDeviation
            && w'.obj.status.pipelineVersion == w.obj.status.pipelineVersion
  {
    if actions == [] {
      NoDeviationIffMatches(w, e, cfg);
    } else {
      var n := |actions| - 1;
      var before := actions[..n];
      forall k | 0 <= k < n && before[k].PipelinePass? ensures !GiveUpDue(PerformAll(w, before[..k]), cfg) {
        assert before[..k] == actions[..k];
      }
      NoRefreshLoop(w, e, cfg, before);
      OneAction(PerformAll(w, before), e, cfg, actions[n]);
      NoDeviationIffMatches(PerformAll(w, actions), e, cfg);
    }
  }

  // ---- A valid pipeline comes to rest.

  /** A valid pipeline that the view and the status already show. */
  ghost predicate Shown(w: World, e: Env, cfg: CyndiConfiguration) {
    && Workable(w, e, cfg) && Stable(w, e, cfg) && GetState(w.obj) == StateValid
    && (w.obj.spec.ConnectorsManaged() ==> w.view == Some(w.obj.status.tableName))
    && w.obj.status.activeTableName == w.view.GetOr("")
  }

  lemma ValidPassShows(w: World, e: Env, cfg: CyndiConfiguration, version: string)
    requires Workable(w, e, cfg) && Stable(w, e, cfg) && GetState(w.obj) == StateValid
    ensures Shown(PassCalm(w, e, version), e, cfg)
  {
    PassKeepsStable(w, e, cfg, version);
    AfterCleanup(w, e, cfg);
    ValidActShows(CleanedUp(w, Seen(w.view), true), e, cfg);
  }

  lemma ValidActShows(w: World, e: Env, cfg: CyndiConfiguration)
    requires GetState(w.obj) == StateValid
    ensures var w' := ActCalm(w, e, cfg);
            && GetState(w'.obj) == StateValid && w'.obj.status.tableName == w.obj.status.tableName
            && (w.obj.spec.ConnectorsManaged() ==> w'.view == Some(w.obj.status.tableName))
            && w'.obj.status.activeTableName == w'.view.GetOr("")
  {
  }

  lemma UnchangedStateIsUnchanged(w: World, e: Env, cfg: CyndiConfiguration)
    requires Matches(w, e, cfg) && PausedAsAsked(w) && w.obj.spec.ConnectorsManaged()
    ensures SetState(w.conns, w.obj.status.connectorName, w.obj.spec.connectorPaused) == w.conns
  {
  }

  lemma ShownActIsNothing(w: World, e: Env, cfg: CyndiConfiguration)
    requires Shown(w, e, cfg)
    ensures ActCalm(w, e, cfg) == w
  {
    if w.obj.spec.ConnectorsManaged() {
      UnchangedStateIsUnchanged(w, e, cfg);
    }
  }

  lemma ShownPassOnlyCleans(w: World, e: Env, cfg: CyndiConfiguration, version: string)
    requires Shown(w, e, cfg)
    ensures PassCalm(w, e, version) == CleanedUp(w, Seen(w.view), true)
    ensures Shown(CleanedUp(w, Seen(w.view), true), e, cfg)
  {
    PassKeepsStable(w, e, cfg, version);
    AfterCleanup(w, e, cfg);
    CleanupKeepsStable(w, e, cfg);
    ShownActIsNothing(CleanedUp(w, Seen(w.view), true), e, cfg);
  }

  lemma CleanupIsIdempotent(w: World)
    requires SliceInBounds(w.obj, Seen(w.view)) && !w.obj.deleting && (w.view.Some? ==> w.view.value in w.tables)
    ensures var w1 := CleanedUp(w, Seen(w.view), true);
            w1.view == w.view && CleanedUp(w1, Seen(w1.view), true) == w1
  {
    CleanupKeepsView(w);
    var w1 := CleanedUp(w, Seen(w.view), true);
    CleanupKeepsView(w1) by {
      if w.view.Some? { assert w.view.value in KeepTables(w.obj, Seen(w.view)); }
    }
    var w2 := CleanedUp(w1, Seen(w1.view), true);
    assert w2.tables == w1.tables;
    assert w2.conns == w1.conns;
  }

  /** A valid pipeline is a fixpoint after at most two passes: one moves the view, the next removes what it replaced. */
  lemma ValidPipelineComesToRest(w: World, e: Env, cfg: CyndiConfiguration, v1: string, v2: string, v3: string)
    requires Workable(w, e, cfg) && Stable(w, e, cfg) && GetState(w.obj) == StateValid
    ensures var w1 := PassCalm(w, e, v1);
            && Shown(w1, e, cfg)
            && var w2 := PassCalm(w1, e, v2);
               && w2 == CleanedUp(w1, Seen(w1.view), true)
               && PassCalm(w2, e, v3) == w2
  {
    ValidPassShows(w, e, cfg, v1);
    var w1 := PassCalm(w, e, v1);
    ShownPassOnlyCleans(w1, e, cfg, v2);
    CleanupIsIdempotent(w1);
    ShownPassOnlyCleans(CleanedUp(w1, Seen(w1.view), true), e, cfg, v3);
  }

  lemma AcceptedBecomesValid(w: World, e: Env, cfg: CyndiConfiguration)
    requires Workable(w, e, cfg) && Stable(w, e, cfg) && VerdictCalm(w, e, cfg).isValid
    ensures var w' := ValidationCalm(w, e);
            && Workable(w', e, cfg) && Stable(w', e, cfg) && GetState(w'.obj) == StateValid
            && w' == w.(obj := w'.obj) && w'.obj.spec == w.obj.spec
            && w'.obj.status.tableName == w.obj.status.tableName
            && w'.obj.status.pipelineVersion == w.obj.status.pipelineVersion && !w'.obj.status.initialSyncInProgress
  {
    ValidationKeepsStable(w, e, cfg);
  }

  /**
   * A refresh reaches the applications: a pass over a NEW pipeline, one validation that accepts its table, and one more
   * pass leave the pipeline valid, matching and shown by the view.
   */
  lemma RefreshReachesTheView(w: World, e: Env, cfg: CyndiConfiguration, v1: string, v2: string)
    requires Workable(w, e, cfg) && Sliceable(w.obj.status) && GetState(w.obj) == StateNew && v1 != ""
    requires ConnectorName(v1, w.obj.spec.appName) !in w.conns
    requires VerdictCalm(PassCalm(w, e, v1), e, cfg).isValid
    ensures var w2 := ValidationCalm(PassCalm(w, e, v1), e);
            && Shown(PassCalm(w2, e, v2), e, cfg) && PassCalm(w2, e, v2).obj.status.pipelineVersion == v1
  {
    PassFromNew(w, e, cfg, v1);
    AcceptedBecomesValid(PassCalm(w, e, v1), e, cfg);
    var w2 := ValidationCalm(PassCalm(w, e, v1), e);
    ValidPassShows(w2, e, cfg, v2);
    PassKeepsStable(w2, e, cfg, v2);
  }

  /** Validating the same data again changes nothing once the pipeline is valid. */
  lemma AcceptedVerdictIsStable(w: World, e: Env, cfg: CyndiConfiguration)
    requires Workable(w, e, cfg) && Stable(w, e, cfg) && GetState(w.obj) == StateValid && !w.obj.status.initialSyncInProgress
    requires VerdictCalm(w, e, cfg).isValid
    ensures ValidationCalm(ValidationCalm(w, e), e) == ValidationCalm(w, e)
  {
    AcceptedBecomesValid(w, e, cfg);
    ValidationKeepsStable(w, e, cfg);
    var w1 := ValidationCalm(w, e);
    assert VerdictCalm(w1, e, cfg) == VerdictCalm(w, e, cfg);
    ValidationIsVerdict(w1, e, cfg);
  }

  /**
   * The hypotheses can be met: over any leftovers, with any hosts, and with any template that always renders, there is
   * a NEW pipeline whose first pass leads to the verdict on those hosts.
   */
  lemma HypothesesCanBeMet(lib: Library, db: DBParams, hbi: seq<string>, app: seq<string>, tables: set<string>, version: string)
    returns (w: World, e: Env, cfg: CyndiConfiguration)
    requires version != "" && forall t, inputs :: lib.render(t, inputs).Some?
    ensures Workable(w, e, cfg) && Sliceable(w.obj.status) && GetState(w.obj) == StateNew && w.tables == tables
    ensures var w1 := PassCalm(w, e, version);
            && Stable(w1, e, cfg) && !GiveUpDue(w1, cfg)
            && VerdictCalm(w1, e, cfg) == JudgeSnapshot(hbi, app, lib.defaults.validationConfigInit.percentageThreshold)
  {
    w, e, cfg := NewPipeline(lib, db, hbi, app, tables);
    PassFromNew(w, e, cfg, version);
    SomeVerdict(PassCalm(w, e, version), e, cfg, hbi, app);
  }

  lemma NewPipeline(lib: Library, db: DBParams, hbi: seq<string>, app: seq<string>, tables: set<string>)
    returns (w: World, e: Env, cfg: CyndiConfiguration)
    requires forall t, inputs :: lib.render(t, inputs).Some?
    ensures Workable(w, e, cfg) && GetState(w.obj) == StateNew && w.tables == tables && w.conns == map[]
    ensures Sliceable(w.obj.status) && cfg.validationConfigInit == lib.defaults.validationConfigInit
    ensures e.hbiIds(w.obj.spec.insightsOnly, w.obj.spec.additionalFilters) == hbi && forall t :: e.appIds(t) == app
  {
    var spec := Spec("app", false, [], None, None, None, None, None, None, "", "", None, false);
    w := World(Object(0, spec, false, false, EMPTY_STATUS), false, tables, None, map[]);
    e := Env(lib, map[], db, false, (_, _) => hbi, _ => app);
    cfg := DefaultConfig(lib, spec);
  }

  lemma SomeVerdict(w: World, e: Env, cfg: CyndiConfiguration, hbi: seq<string>, app: seq<string>)
    requires w.obj.status.pipelineVersion != "" && GetState(w.obj) == StateInitialSync
    requires e.hbiIds(w.obj.spec.insightsOnly, w.obj.spec.additionalFilters) == hbi && forall t :: e.appIds(t) == app
    ensures VerdictCalm(w, e, cfg) == JudgeSnapshot(hbi, app, cfg.validationConfigInit.percentageThreshold)
  {
  }

  lemma DefaultConfig(lib: Library, spec: Spec) returns (cfg: CyndiConfiguration)
    requires spec.topic.None? && spec.maxAge.None? && spec.validationThreshold.None?
    ensures BuildCyndiConfig(lib, spec, map[]) == Some(cfg)
    ensures cfg.validationConfigInit == lib.defaults.validationConfigInit
  {
    cfg := BuildCyndiConfig(lib, spec, map[]).value;
  }

  // ---- A pipeline that keeps failing is refreshed in time.

  /** One validation and one pass, with the hosts there are in that round. */
  datatype Turn = Turn(env: Env, version: string)

  function Round(w: World, turn: Turn): World {
    PassCalm(ValidationCalm(w, turn.env), turn.env, turn.version)
  }

  function AfterTurns(w: World, turns: seq<Turn>): World {
    if turns == [] then w else Round(AfterTurns(w, turns[..|turns| - 1]), turns[|turns| - 1])
  }

  ghost predicate FailedTurn(w: World, turn: Turn, e: Env, cfg: CyndiConfiguration) {
    SameSettings(e, turn.env) && !VerdictCalm(w, turn.env, cfg).isValid
  }

  /** The validation of every turn fails, on whatever hosts there are at the time. */
  ghost predicate FailsEveryTurn(w: World, turns: seq<Turn>, e: Env, cfg: CyndiConfiguration) {
    turns == [] ||
    (FailsEveryTurn(w, turns[..|turns| - 1], e, cfg) && FailedTurn(AfterTurns(w, turns[..|turns| - 1]), turns[|turns| - 1], e, cfg))
  }

  /** A matching pipeline with a status as the state machine keeps it. */
  ghost predicate Counting(w: World, e: Env, cfg: CyndiConfiguration) {
    Workable(w, e, cfg) && Stable(w, e, cfg) && w.obj.status.validationFailedCount >= 0
  }

  /** Version, phase and table of the pipeline being validated. */
  ghost predicate SamePipeline(a: Status, b: Status) {
    && a.pipelineVersion == b.pipelineVersion && a.tableName == b.tableName
    && a.initialSyncInProgress == b.initialSyncInProgress
  }

  /** A failed validation counts one up and leaves what is validated alone. */
  lemma FailingValidation(w: World, e: Env, cfg: CyndiConfiguration)
    requires Counting(w, e, cfg) && !VerdictCalm(w, e, cfg).isValid
    ensures var w' := ValidationCalm(w, e);
            && Counting(w', e, cfg) && SamePipeline(w'.obj.status, w.obj.status) && w' == w.(obj := w'.obj)
            && w'.obj.status.validationFailedCount == w.obj.status.validationFailedCount + 1
            && w'.obj.status.GetValid() == ConditionFalse && GetState(w'.obj) != StateValid && w'.obj.spec == w.obj.spec
  {
    ValidationKeepsStable(w, e, cfg);
  }

  lemma CleanupKeepsViewAfter(w: World, w1: World, e: Env, cfg: CyndiConfiguration)
    requires w1.obj == w.obj && w1.view == w.view
    ensures ViewAfter(w1, e, cfg) == ViewAfter(w, e, cfg)
  {
  }

  lemma DueGivesUp(w: World, e: Env, cfg: CyndiConfiguration, version: string)
    requires Workable(w, e, cfg) && Stable(w, e, cfg) && GiveUpDue(w, cfg)
    ensures var w1 := CleanedUp(w, Seen(w.view), true);
            && PassCalm(w, e, version) == ActCalm(w1, e, cfg)
            && Workable(w1, e, cfg) && Stable(w1, e, cfg) && w1.obj == w.obj && w1.view == w.view && w1.conns.Keys <= w.conns.Keys
  {
    AfterCleanup(w, e, cfg);
    CleanupKeepsStable(w, e, cfg);
    NoDeviationIffMatches(CleanedUp(w, Seen(w.view), true), e, cfg);
  }

  /** The pass that gives up shows the healthier table and leaves a NEW pipeline. */
  lemma DueGiveUp(w: World, e: Env, cfg: CyndiConfiguration, version: string)
    requires Workable(w, e, cfg) && Stable(w, e, cfg) && GiveUpDue(w, cfg)
    ensures var w' := PassCalm(w, e, version);
            Restarted(w, w', e, cfg) && w'.view == ViewAfter(w, e, cfg)
  {
    var w1 := CleanedUp(w, Seen(w.view), true);
    DueGivesUp(w, e, cfg, version);
    GiveUpGivesNew(w1, e, cfg);
    CleanupKeepsViewAfter(w, w1, e, cfg);
  }

  lemma FailingRound(w: World, e: Env, cfg: CyndiConfiguration, version: string)
    requires Counting(w, e, cfg) && !VerdictCalm(w, e, cfg).isValid
    ensures var w' := Round(w, Turn(e, version)); var count := w.obj.status.validationFailedCount + 1;
            if count >= ThresholdsOf(w.obj.status, cfg).attemptsThreshold then GetState(w'.obj) == StateNew
            else && Counting(w', e, cfg) && w'.obj.status.validationFailedCount == count
                 && SamePipeline(w'.obj.status, w.obj.status)
  {
    FailingValidation(w, e, cfg);
    var w1 := ValidationCalm(w, e);
    if GiveUpDue(w1, cfg) {
      DueGiveUp(w1, e, cfg, version);
    } else {
      PassKeepsStable(w1, e, cfg, version);
    }
  }

  function Due(st: Status, cfg: CyndiConfiguration): nat {
    var remaining := ThresholdsOf(st, cfg).attemptsThreshold - st.validationFailedCount;
    if remaining < 1 then 1 else remaining
  }

  /** Still the pipeline of `w`, with `n` more failed validations. */
  ghost predicate FailedTimes(w: World, w': World, e: Env, cfg: CyndiConfiguration, n: nat) {
    && Counting(w', e, cfg) && SamePipeline(w'.obj.status, w.obj.status)
    && w'.obj.status.validationFailedCount == w.obj.status.validationFailedCount + n
  }

  lemma OneMoreRound(w: World, w1: World, e: Env, cfg: CyndiConfiguration, turn: Turn, n: nat)
    requires FailedTimes(w, w1, e, cfg, n) && n < Due(w.obj.status, cfg) && FailedTurn(w1, turn, e, cfg)
    ensures if n + 1 == Due(w.obj.status, cfg) then GetState(Round(w1, turn).obj) == StateNew
            else FailedTimes(w, Round(w1, turn), e, cfg, n + 1)
  {
    HostsDoNotMatter(w1, e, turn.env, cfg);
    FailingRound(w1, turn.env, cfg, turn.version);
    HostsDoNotMatter(Round(w1, turn), e, turn.env, cfg);
    assert ThresholdsOf(w1.obj.status, cfg) == ThresholdsOf(w.obj.status, cfg);
  }

  /**
   * With fixed thresholds, and validations that fail every time, whatever the hosts are, a pipeline is refreshed after
   * exactly max(1, threshold - count) rounds of one validation and one pass, and not before.
   */
  lemma RefreshComesInTime(w: World, turns: seq<Turn>, e: Env, cfg: CyndiConfiguration)
    requires Counting(w, e, cfg) && FailsEveryTurn(w, turns, e, cfg)
    ensures var st := w.obj.status;
            var threshold := if st.initialSyncInProgress then cfg.validationConfigInit.attemptsThreshold
                             else cfg.validationConfig.attemptsThreshold;
            var due := if threshold - st.validationFailedCount < 1 then 1 else threshold - st.validationFailedCount;
            && (|turns| == due ==> GetState(AfterTurns(w, turns).obj) == StateNew)
            && (|turns| < due ==> FailedTimes(w, AfterTurns(w, turns), e, cfg, |turns|))
  {
    if |turns| <= Due(w.obj.status, cfg) {
      RefreshComesWhenDue(w, turns, e, cfg);
    }
  }

  lemma {:induction false} RefreshComesWhenDue(w: World, turns: seq<Turn>, e: Env, cfg: CyndiConfiguration)
    requires Counting(w, e, cfg) && FailsEveryTurn(w, turns, e, cfg) && |turns| <= Due(w.obj.status, cfg)
    ensures if |turns| == Due(w.obj.status, cfg) then GetState(AfterTurns(w, turns).obj) == StateNew
            else FailedTimes(w, AfterTurns(w, turns), e, cfg, |turns|)
  {
    if turns != [] {
      var n := |turns| - 1;
      RefreshComesWhenDue(w, turns[..n], e, cfg);
      OneMoreRound(w, AfterTurns(w, turns[..n]), e, cfg, turns[n], n);
    }
  }
}
