/** What one undisturbed pass of either controller comes to, case by case, in terms of what can be observed. */
module Outcomes {
  import opened Wrappers
  import opened Lang
  import opened Names
  import opened Pipeline
  import opened Config
  import opened Connect
  import opened Deviation
  import opened Validate
  import opened Protocol
  import opened Calm
  import opened Cleanups
  import opened Stability

  /** The status of a refreshed pipeline: version, verdict and counts forgotten, the active table brought up to date. */
  function Refreshed(w: World): World {
    w.(obj := w.obj.(rv := w.obj.rv + 1, status := w.obj.status.(
      pipelineVersion := "", initialSyncInProgress := false, validationFailedCount := 0, hostCount := -1,
      valid := Some(Condition(ConditionUnknown, "New", NotYetRun)),
      activeTableName := if w.view.Some? then w.view.value else "")))
  }

  lemma RefreshIsRefreshed(w: World)
    requires w.obj.status.pipelineVersion != ""
    ensures CommitCalm(w, w.obj.status, ToNew(w.obj.status)) == Refreshed(w)
  {
    RefreshSpelledOut(w.obj.status);
  }

  // ---- Deviations.

  /** A deviation is never validated: the pipeline becomes NEW, and nothing but its status changes. */
  lemma DeviationBeatsValidation(w: World, e: Env, cfg: CyndiConfiguration)
    requires Workable(w, e, cfg) && w.obj.status.pipelineVersion != "" && !Matches(w, e, cfg)
    ensures ValidationCalm(w, e) == Refreshed(w) && GetState(Refreshed(w).obj) == StateNew
  {
    NoDeviationIffMatches(w, e, cfg);
    CheckAlwaysDecides(w, e, cfg);
    RefreshIsRefreshed(w);
  }

  lemma PassAdvances(w: World, e: Env, cfg: CyndiConfiguration, version: string)
    requires ConfigFor(w, e) == Some(cfg) && SliceInBounds(w.obj, Seen(w.view)) && !w.gone && !w.obj.deleting
    ensures PassCalm(w, e, version) == AdvanceCalm(CleanedUp(w, Seen(w.view), true), e, cfg, version)
  {
  }

  lemma DeviationAdvances(w: World, e: Env, cfg: CyndiConfiguration, version: string)
    requires Workable(w, e, cfg) && w.obj.status.pipelineVersion != "" && !Matches(w, e, cfg)
    ensures AdvanceCalm(w, e, cfg, version) == Refreshed(w)
  {
    NoDeviationIffMatches(w, e, cfg);
    CheckAlwaysDecides(w, e, cfg);
    RefreshIsRefreshed(w);
  }

  /** Nor does the pipeline controller act on one: after the cleanup only the status changes. */
  lemma DeviationRefreshes(w: World, e: Env, cfg: CyndiConfiguration, version: string)
    requires Workable(w, e, cfg) && w.obj.status.pipelineVersion != ""
    requires !Matches(CleanedUp(w, Seen(w.view), true), e, cfg)
    ensures PassCalm(w, e, version) == Refreshed(CleanedUp(w, Seen(w.view), true))
  {
    AfterCleanup(w, e, cfg);
    PassAdvances(w, e, cfg, version);
    DeviationAdvances(CleanedUp(w, Seen(w.view), true), e, cfg, version);
  }

  /** All that would match, but for a template that does not render. */
  ghost predicate CannotCompare(w: World, e: Env, cfg: CyndiConfiguration) {
    var st, spec := w.obj.status, w.obj.spec;
    && ConfigFor(w, e) == Some(cfg) && st.pipelineVersion != "" && !w.obj.deleting && !w.gone
    && st.tableName != "" && st.tableName in w.tables
    && st.cyndiConfigVersion == cfg.configMapVersion && st.specHash == cfg.specHash
    && Managed(w.obj) && st.connectorName in w.conns && HealthyAndLabelled(spec, cfg, w.conns[st.connectorName])
    && e.Desired(spec, cfg, st.tableName).None?
  }

  /** Then neither controller decides anything. */
  lemma NothingIsDecidedWithoutTemplate(w: World, e: Env, cfg: CyndiConfiguration)
    requires CannotCompare(w, e, cfg)
    ensures ValidationCalm(w, e) == w
  {
  }

  lemma NothingIsDoneWithoutTemplate(w: World, e: Env, cfg: CyndiConfiguration, version: string)
    requires ConfigFor(w, e) == Some(cfg) && SliceInBounds(w.obj, Seen(w.view))
    requires CannotCompare(CleanedUp(w, Seen(w.view), true), e, cfg)
    ensures PassCalm(w, e, version) == CleanedUp(w, Seen(w.view), true)
  {
    PassAdvances(w, e, cfg, version);
    NothingAdvances(CleanedUp(w, Seen(w.view), true), e, cfg, version);
  }

  lemma NothingAdvances(w: World, e: Env, cfg: CyndiConfiguration, version: string)
    requires CannotCompare(w, e, cfg)
    ensures AdvanceCalm(w, e, cfg, version) == w
  {
    CheckFails(w, e, cfg);
    assert GetState(w.obj) != StateNew;
  }

  lemma CheckFails(w: World, e: Env, cfg: CyndiConfiguration)
    requires CannotCompare(w, e, cfg)
    ensures DeviationOf(w, e, cfg) == CheckFailed
  {
  }

  // ---- Verdicts.

  /** The tolerance in the current phase. */
  function Percentage(st: Status, cfg: CyndiConfiguration): int {
    if st.initialSyncInProgress then cfg.validationConfigInit.percentageThreshold else cfg.validationConfig.percentageThreshold
  }

  /** How many failed validations the current phase allows. */
  function Attempts(st: Status, cfg: CyndiConfiguration): int {
    if st.initialSyncInProgress then cfg.validationConfigInit.attemptsThreshold else cfg.validationConfig.attemptsThreshold
  }

  function Max1(n: int): int {
    if n < 1 then 1 else n
  }

  /** Counts at most half the inventory apart, and ids within the tolerance. */
  ghost predicate Acceptable(hbi: seq<string>, app: seq<string>, percentage: int) {
    && 2 * Abs(|hbi| - |app|) <= Max1(|hbi|)
    && 100 * |SymmetricDifference(hbi, app)| <= percentage * Max1(|hbi|)
  }

  lemma AcceptedIffAcceptable(hbi: seq<string>, app: seq<string>, percentage: int)
    requires CleanSnapshot(hbi, app)
    ensures JudgeSnapshot(hbi, app, percentage).isValid <==> Acceptable(hbi, app, percentage)
  {
    DistanceIsExact(|hbi|, |app|);
    WayOffIffHalf(|hbi|, |app|);
    MismatchIsSymmetricDifference(hbi, app, |app|, percentage);
  }

  /** The mismatch a verdict reports. */
  ghost function Reported(hbi: seq<string>, app: seq<string>): int {
    if 2 * Abs(|hbi| - |app|) <= Max1(|hbi|) then |SymmetricDifference(hbi, app)| else Abs(|hbi| - |app|)
  }

  lemma MismatchIsReported(hbi: seq<string>, app: seq<string>, percentage: int)
    requires CleanSnapshot(hbi, app)
    ensures var v := JudgeSnapshot(hbi, app, percentage);
            && v.hostCount == |app| && v.mismatchCount == Reported(hbi, app)
            && v.mismatchRatio == Reported(hbi, app) as real / Max1(|hbi|) as real
  {
    DistanceIsExact(|hbi|, |app|);
    WayOffIffHalf(|hbi|, |app|);
    ReportSpelledOut(|hbi|, |app|, hbi, app, percentage);
    MismatchIsSymmetricDifference(hbi, app, |app|, percentage);
  }

  /** The status after a verdict on these hosts. */
  ghost function Validated(w: World, hbi: seq<string>, app: seq<string>, percentage: int): Status {
    var st, ok := w.obj.status, Acceptable(hbi, app, percentage);
    var message := Mismatch(Reported(hbi, app), Reported(hbi, app) as real / Max1(|hbi|) as real);
    st.(valid := Some(if ok then Condition(ConditionTrue, "ValidationSucceeded", message)
                      else Condition(ConditionFalse, "ValidationFailed", message)),
        hostCount := |app|,
        validationFailedCount := if ok then 0 else st.validationFailedCount + 1,
        initialSyncInProgress := st.initialSyncInProgress && !ok,
        activeTableName := if w.view.Some? then w.view.value else "")
  }

  /**
   * The outcome of a validation, from configuration and hosts to the status that is committed: the hosts the spec asks
   * for are compared with the rows of the recorded table, under the tolerance of the current phase.
   */
  lemma VerdictOutcome(w: World, e: Env, cfg: CyndiConfiguration)
    requires Workable(w, e, cfg) && Matches(w, e, cfg)
    requires CleanSnapshot(e.hbiIds(w.obj.spec.insightsOnly, w.obj.spec.additionalFilters), e.appIds(w.obj.status.tableName))
    ensures var hbi, app := e.hbiIds(w.obj.spec.insightsOnly, w.obj.spec.additionalFilters), e.appIds(w.obj.status.tableName);
            var st := Validated(w, hbi, app, Percentage(w.obj.status, cfg));
            ValidationCalm(w, e) == if st == w.obj.status then w else w.(obj := w.obj.(rv := w.obj.rv + 1, status := st))
  {
    NoDeviationIffMatches(w, e, cfg);
    RecordOutcome(w, e, cfg);
  }

  lemma RecordOutcome(w: World, e: Env, cfg: CyndiConfiguration)
    requires CleanSnapshot(e.hbiIds(w.obj.spec.insightsOnly, w.obj.spec.additionalFilters), e.appIds(w.obj.status.tableName))
    ensures var hbi, app := e.hbiIds(w.obj.spec.insightsOnly, w.obj.spec.additionalFilters), e.appIds(w.obj.status.tableName);
            var st := Validated(w, hbi, app, Percentage(w.obj.status, cfg));
            RecordCalm(w, e, cfg) == if st == w.obj.status then w else w.(obj := w.obj.(rv := w.obj.rv + 1, status := st))
  {
    var hbi, app := e.hbiIds(w.obj.spec.insightsOnly, w.obj.spec.additionalFilters), e.appIds(w.obj.status.tableName);
    AcceptedIffAcceptable(hbi, app, Percentage(w.obj.status, cfg));
    MismatchIsReported(hbi, app, Percentage(w.obj.status, cfg));
    var v := JudgeSnapshot(hbi, app, Percentage(w.obj.status, cfg));
    VerdictSpelledOut(w.obj.status, v.isValid, v.mismatchCount, v.mismatchRatio, v.hostCount);
  }

  /** Without the deviation check the verdict is the same wherever the table exists, deviating or not. */
  lemma UncheckedVerdictOutcome(w: World, e: Env, cfg: CyndiConfiguration)
    requires ConfigFor(w, e) == Some(cfg) && !w.gone && !w.obj.deleting && w.obj.status.pipelineVersion != ""
    requires CleanSnapshot(e.hbiIds(w.obj.spec.insightsOnly, w.obj.spec.additionalFilters), e.appIds(w.obj.status.tableName))
    ensures var hbi, app := e.hbiIds(w.obj.spec.insightsOnly, w.obj.spec.additionalFilters), e.appIds(w.obj.status.tableName);
            var st := Validated(w, hbi, app, Percentage(w.obj.status, cfg));
            UncheckedValidationCalm(w, e)
              == if w.obj.status.tableName !in w.tables || st == w.obj.status then w
                 else w.(obj := w.obj.(rv := w.obj.rv + 1, status := st))
  {
    RecordOutcome(w, e, cfg);
  }

  /** There is nothing to validate on a pipeline that is NEW, being removed or gone, or without a configuration. */
  lemma NothingToValidate(w: World, e: Env)
    requires w.gone || w.obj.deleting || w.obj.status.pipelineVersion == "" || ConfigFor(w, e).None?
    ensures ValidationCalm(w, e) == w && UncheckedValidationCalm(w, e) == w
  {
  }

  // ---- Giving up.

  /** The attempts of the current phase are used up. */
  ghost predicate Exhausted(st: Status, cfg: CyndiConfiguration) {
    st.valid.Some? && st.valid.value.status == ConditionFalse && st.validationFailedCount >= Attempts(st, cfg)
  }

  lemma ExhaustedIffDue(w: World, cfg: CyndiConfiguration)
    ensures GiveUpDue(w, cfg) <==> Exhausted(w.obj.status, cfg)
  {
  }

  /** A matching pipeline is refreshed by the pipeline controller exactly when its attempts are used up. */
  lemma GivesUpIffExhausted(w: World, e: Env, cfg: CyndiConfiguration, version: string)
    requires Workable(w, e, cfg) && Stable(w, e, cfg)
    ensures GetState(PassCalm(w, e, version).obj) == StateNew <==> Exhausted(w.obj.status, cfg)
  {
    if GiveUpDue(w, cfg) {
      DueGiveUp(w, e, cfg, version);
    } else {
      PassKeepsStable(w, e, cfg, version);
    }
  }

  /** The view of a pipeline that matches: moved to a valid table, weighed at the give-up of a first sync, else left alone. */
  lemma ViewOutcome(w: World, e: Env, cfg: CyndiConfiguration, version: string)
    requires Workable(w, e, cfg) && Stable(w, e, cfg)
    ensures var st := w.obj.status;
            var isValid := st.valid.Some? && st.valid.value.status == ConditionTrue;
            PassCalm(w, e, version).view
              == if Managed(w.obj) && isValid then Some(st.tableName)
                 else if Managed(w.obj) && st.initialSyncInProgress && Exhausted(st, cfg)
                 then Some(e.ShownAfter(w.view, st.tableName, w.obj.spec))
                 else w.view
  {
    StatesSpelledOut(w.obj);
    if GiveUpDue(w, cfg) {
      DueGiveUp(w, e, cfg, version);
    } else {
      PassKeepsStable(w, e, cfg, version);
      AfterCleanup(w, e, cfg);
      ActMatches(CleanedUp(w, Seen(w.view), true), e, cfg);
      CleanupKeepsViewAfter(w, CleanedUp(w, Seen(w.view), true), e, cfg);
    }
  }

  // ---- New versions.

  /** The version a NEW pipeline gets: its names, current hashes, no verdict, and the finalizer on the resource. */
  ghost function Started(w: World, cfg: CyndiConfiguration, version: string): Object {
    var st, managed := w.obj.status, Managed(w.obj);
    w.obj.(
      rv := w.obj.rv + (if w.obj.finalizer then 1 else 2),
      finalizer := true,
      status := st.(
        pipelineVersion := version, initialSyncInProgress := true, validationFailedCount := 0, hostCount := -1,
        valid := Some(Condition(ConditionUnknown, "New", NotYetRun)),
        tableName := if managed || st.tableName == "" then "hosts_v" + version else st.tableName,
        connectorName := if managed then ConnectorName(version, w.obj.spec.appName) else st.connectorName,
        cyndiConfigVersion := cfg.configMapVersion, specHash := cfg.specHash,
        activeTableName := if w.view.Some? then w.view.value else ""))
  }

  /** A new version: its table, and for a managed pipeline the connector the spec asks for. */
  lemma NewVersionOutcome(w: World, e: Env, cfg: CyndiConfiguration, version: string)
    requires GetState(w.obj) == StateNew && version != ""
    requires Managed(w.obj) ==>
               ConnectorName(version, w.obj.spec.appName) !in w.conns && e.Desired(w.obj.spec, cfg, "hosts_v" + version).Some?
    ensures var o := Started(w, cfg, version);
            SyncCalm(w, e, cfg, version)
              == w.(obj := o, tables := w.tables + {o.status.tableName},
                    conns := if Managed(w.obj)
                             then w.conns[ConnectorName(version, w.obj.spec.appName)
                                          := e.Desired(w.obj.spec, cfg, "hosts_v" + version).value]
                             else w.conns)
  {
    NewVersionSpelledOut(w.obj.spec, w.obj.status.(cyndiConfigVersion := cfg.configMapVersion, specHash := cfg.specHash), version);
  }

  /** If the connector cannot be created, the version is not committed; its table and the finalizer stay. */
  lemma FailedVersionOutcome(w: World, e: Env, cfg: CyndiConfiguration, version: string)
    requires GetState(w.obj) == StateNew && Managed(w.obj)
    requires ConnectorName(version, w.obj.spec.appName) in w.conns || e.Desired(w.obj.spec, cfg, "hosts_v" + version).None?
    ensures SyncCalm(w, e, cfg, version)
         == w.(obj := w.obj.(rv := w.obj.rv + (if w.obj.finalizer then 0 else 1), finalizer := true),
               tables := w.tables + {"hosts_v" + version})
  {
    NewVersionSpelledOut(w.obj.spec, w.obj.status.(cyndiConfigVersion := cfg.configMapVersion, specHash := cfg.specHash), version);
  }

  /** An undisturbed pass over a NEW pipeline is its cleanup and then its new version. */
  lemma NewPassOutcome(w: World, e: Env, cfg: CyndiConfiguration, version: string)
    requires ConfigFor(w, e) == Some(cfg) && SliceInBounds(w.obj, Seen(w.view)) && !w.gone && GetState(w.obj) == StateNew
    ensures PassCalm(w, e, version) == SyncCalm(CleanedUp(w, Seen(w.view), true), e, cfg, version)
  {
  }

  // ---- Removal, and passes that cannot do anything.

  /** With a configuration a removed pipeline goes, and takes every hosts_ table, a view over one, and all connectors along. */
  lemma RemovalOutcome(w: World, e: Env, version: string)
    requires !w.gone && w.obj.deleting && ConfigFor(w, e).Some?
    ensures var w' := PassCalm(w, e, version);
            && w'.gone && w'.obj == w.obj && w'.conns == map[]
            && (forall t :: t in w'.tables <==> t in w.tables && !HostsTable(t))
            && (w.view.Some? && w.view.value in w.tables ==>
                  w'.view == if HostsTable(w.view.value) then None else w.view)
  {
  }

  /** Without one only EPHEMERAL mode lets it go; tables and view stay. */
  lemma RemovalWithoutConfig(w: World, e: Env, version: string)
    requires !w.gone && w.obj.deleting && ConfigFor(w, e).None?
    requires w.view.Some? ==> w.view.value in w.tables
    ensures PassCalm(w, e, version) == w.(gone := e.ephemeral, conns := map[])
  {
  }

  /** Without a configuration a pipeline that is not being removed keeps status, tables and view. */
  lemma PassWithoutConfig(w: World, e: Env, version: string)
    requires !w.gone && !w.obj.deleting && ConfigFor(w, e).None?
    requires w.view.Some? ==> w.view.value in w.tables
    ensures PassCalm(w, e, version) == w.(conns := PassCalm(w, e, version).conns)
  {
  }

  /** A resource that is gone, or whose view has a name too short to slice, is left alone. */
  lemma PassLeavesAlone(w: World, e: Env, version: string)
    requires w.gone || (&& ConfigFor(w, e).Some? && !w.obj.deleting && Managed(w.obj)
                        && w.view.Some? && |w.view.value| < 7)
    ensures PassCalm(w, e, version) == w
  {
  }

  // ---- What the passes work with.

  /** The settings in force are those of the spec, the config map and the defaults; the connector is rendered from them. */
  lemma SettingsInForce(w: World, e: Env, cfg: CyndiConfiguration)
    requires ConfigFor(w, e) == Some(cfg)
    ensures SetThresholds(e.lib, cfg.validationConfig, w.obj.spec, e.cm, "", e.lib.defaults.validationConfig)
    ensures SetThresholds(e.lib, cfg.validationConfigInit, w.obj.spec, e.cm, "init.", e.lib.defaults.validationConfigInit)
    ensures e.cm == map[] ==> cfg.configMapVersion == "-1"
    ensures e.cm != map[] ==> cfg.configMapVersion == e.lib.hashConfig(Without(e.cm, KEYS_IGNORED_BY_REFRESH))
    ensures cfg.specHash == e.lib.hashSpec(w.obj.spec.DataSpec())
  {
    ThresholdsSpelledOut(e.lib, w.obj.spec, e.cm, cfg);
    RecordedHashes(e.lib, w.obj.spec, e.cm, cfg);
    assert |e.cm| == 0 <==> e.cm == map[];
  }

  lemma ConnectorAskedFor(e: Env, spec: Spec, cfg: CyndiConfiguration, tableName: string)
    ensures var db := e.db.(sslMode := cfg.sslMode, sslRootCert := cfg.sslRootCert);
            var d := e.Desired(spec, cfg, tableName);
            var rendered := e.lib.render(cfg.connectorTemplate, DesiredInputs(e.lib, e.ephemeral, spec, cfg, db, tableName));
            && (d.Some? <==> rendered.Some?)
            && (d.Some? ==> d.value.config == rendered.value && d.value.target == tableName)
  {
    DesiredSpelledOut(e.lib, e.ephemeral, spec, cfg, e.AppDb(cfg), tableName);
  }
}
