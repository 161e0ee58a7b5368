/**
 * Undisturbed, error-free passes of the two controllers as functions, and what a sequence of them achieves.
 * Controllers.dfy proves that the controllers' code computes these functions when nothing interferes.
 */
module Calm {
  import opened Wrappers
  import opened Names
  import opened Pipeline
  import opened Config
  import opened Connect
  import opened Deviation
  import opened Validate
  import opened LesserEvil
  import opened Protocol

  datatype World = World(obj: Object, gone: bool, tables: set<string>, view: Option<string>, conns: map<string, Connector>)

  /** What the passes read but never write: configuration, secrets, and the hosts in the two databases. */
  datatype Env = Env(
    lib: Library,
    cm: ConfigMap,
    db: DBParams,
    ephemeral: bool,
    hbiIds: (bool, seq<Filter>) -> seq<string>,
    appIds: string -> seq<string>)
  {
    function AppDb(cfg: CyndiConfiguration): DBParams {
      db.(sslMode := cfg.sslMode, sslRootCert := cfg.sslRootCert)
    }

    function Desired(spec: Spec, cfg: CyndiConfiguration, tableName: string): Option<Connector> {
      DesiredConnector(lib, ephemeral, spec, cfg, AppDb(cfg), tableName)
    }

    /** The table shown after giving up on `candidate`. */
    function ShownAfter(view: Option<string>, candidate: string, spec: Spec): string {
      Healthier(view, candidate, HbiCount(spec), t => |appIds(t)|)
    }

    function HbiCount(spec: Spec): nat {
      |hbiIds(spec.insightsOnly, spec.additionalFilters)|
    }
  }

  function ConfigFor(w: World, e: Env): Option<CyndiConfiguration> {
    BuildCyndiConfig(e.lib, w.obj.spec, e.cm)
  }

  // ---- The parts of a pass.

  /** The tables left over when the listed ones that need not be kept are dropped. */
  function Remaining(tables: set<string>, keep: set<string>): set<string> {
    set t | t in tables && (Listed(t) ==> t in keep)
  }

  function CleanedUp(w: World, view: ViewRead, listTables: bool): World
    requires SliceInBounds(w.obj, view)
  {
    var keepT, keepC := KeepTables(w.obj, view), KeepConnectors(w.obj, view);
    var tables := if listTables then Remaining(w.tables, keepT) else w.tables;
    w.(tables := tables,
       view := if w.view.Some? && w.view.value !in tables then None else w.view,
       conns := map c | c in w.conns && c in keepC :: w.conns[c])
  }

  function CommitCalm(w: World, original: Status, work: Status): World {
    var st := work.(activeTableName := w.view.GetOr(""));
    if st == original then w else w.(obj := w.obj.(rv := w.obj.rv + 1, status := st))
  }

  function DeviationOf(w: World, e: Env, cfg: CyndiConfiguration): Outcome {
    var st := w.obj.status;
    CheckForDeviation(w.obj.spec, st, cfg,
                      st.tableName != "" && st.tableName in w.tables,
                      if st.connectorName in w.conns then Some(w.conns[st.connectorName]) else None,
                      e.Desired(w.obj.spec, cfg, st.tableName))
  }

  function ThresholdsOf(st: Status, cfg: CyndiConfiguration): ValidationConfiguration {
    if st.initialSyncInProgress then cfg.validationConfigInit else cfg.validationConfig
  }

  /** Table, connector and commit for the status `st` of a version just chosen. */
  function CreateCalm(w: World, e: Env, cfg: CyndiConfiguration, original: Status, st: Status, version: string): World {
    var spec, w1 := w.obj.spec, w.(tables := w.tables + {st.tableName});
    if !spec.ConnectorsManaged() then CommitCalm(w1, original, st)
    else
      var name, desired := ConnectorName(version, spec.appName), e.Desired(spec, cfg, st.tableName);
      if desired.None? || name in w.conns then w1
      else CommitCalm(w1.(conns := w1.conns[name := desired.value]), original, st)
  }

  /** STATE_NEW: a fresh version with its table and connector. */
  function SyncCalm(w: World, e: Env, cfg: CyndiConfiguration, version: string): World {
    var spec, original := w.obj.spec, w.obj.status;
    var st := ToInitialSync(false, spec, original.(cyndiConfigVersion := cfg.configMapVersion, specHash := cfg.specHash), version);
    CreateCalm(w.(obj := if w.obj.finalizer then w.obj else w.obj.(rv := w.obj.rv + 1, finalizer := true)),
               e, cfg, original, st, version)
  }

  predicate GivesUpNow(st: Status, cfg: CyndiConfiguration) {
    st.GetValid() == ConditionFalse && st.validationFailedCount >= ThresholdsOf(st, cfg).attemptsThreshold
  }

  /** The table the view shows after a pass over a pipeline that does not deviate. */
  function ViewAfter(w: World, e: Env, cfg: CyndiConfiguration): Option<string> {
    var st, spec := w.obj.status, w.obj.spec;
    if !spec.ConnectorsManaged() then w.view
    else match GetState(w.obj)
      case StateValid => Some(st.tableName)
      case StateInitialSync =>
        if GivesUpNow(st, cfg) then Some(e.ShownAfter(w.view, st.tableName, spec)) else w.view
      case _ => w.view
  }

  /** Showing the valid table, giving up, or waiting. */
  function DecideCalm(w: World, e: Env, cfg: CyndiConfiguration): World {
    var st := w.obj.status;
    CommitCalm(w.(view := ViewAfter(w, e, cfg)), st, if GetState(w.obj) != StateValid && GivesUpNow(st, cfg) then ToNew(st) else st)
  }

  /** The other states, for a pipeline that does not deviate. */
  function ActCalm(w: World, e: Env, cfg: CyndiConfiguration): World {
    var st, spec := w.obj.status, w.obj.spec;
    DecideCalm(if spec.ConnectorsManaged() then w.(conns := SetState(w.conns, st.connectorName, spec.connectorPaused)) else w, e, cfg)
  }

  /** A pass after a cleanup without errors, of a pipeline that is not being removed. */
  function AdvanceCalm(w: World, e: Env, cfg: CyndiConfiguration, version: string): World {
    if GetState(w.obj) == StateNew then SyncCalm(w, e, cfg, version)
    else match DeviationOf(w, e, cfg)
      case CheckFailed => w
      case Deviates(_) => CommitCalm(w, w.obj.status, ToNew(w.obj.status))
      case NoDeviation => ActCalm(w, e, cfg)
  }

  /** A pass after its cleanup, which has errors exactly when there is no configuration. */
  function EndCalm(w: World, e: Env, config: Option<CyndiConfiguration>, version: string): World {
    if w.obj.deleting then if config.Some? || e.ephemeral then w.(gone := true) else w
    else if config.None? then w
    else AdvanceCalm(w, e, config.value, version)
  }

  /**
   * One pass of the pipeline controller. Without a configuration there is no database connection either; the
   * connectors are still cleaned up. A slice out of bounds ends the pass before it has changed anything.
   */
  function PassCalm(w: World, e: Env, version: string): World {
    var config := ConfigFor(w, e);
    var view := if config.Some? then Seen(w.view) else Unreadable;
    if w.gone || !SliceInBounds(w.obj, view) then w
    else EndCalm(CleanedUp(w, view, config.Some?), e, config, version)
  }

  function VerdictCalm(w: World, e: Env, cfg: CyndiConfiguration): Verdict {
    var st, spec := w.obj.status, w.obj.spec;
    JudgeSnapshot(e.hbiIds(spec.insightsOnly, spec.additionalFilters), e.appIds(st.tableName),
                  ThresholdsOf(st, cfg).percentageThreshold)
  }

  function RecordCalm(w: World, e: Env, cfg: CyndiConfiguration): World {
    var v := VerdictCalm(w, e, cfg);
    CommitCalm(w, w.obj.status, WithVerdict(w.obj.status, v.isValid, v.mismatchCount, v.mismatchRatio, v.hostCount))
  }

  /** The verdict on a pipeline that has a table to validate, or its refresh. */
  function VerdictPassCalm(w: World, e: Env, cfg: CyndiConfiguration): World {
    match DeviationOf(w, e, cfg)
    case CheckFailed => w
    case Deviates(_) => CommitCalm(w, w.obj.status, ToNew(w.obj.status))
    case NoDeviation => RecordCalm(w, e, cfg)
  }

  /** Without the deviation check, a missing table makes the queries fail. */
  function UncheckedPassCalm(w: World, e: Env, cfg: CyndiConfiguration): World {
    if w.obj.status.tableName in w.tables then RecordCalm(w, e, cfg) else w
  }

  /** One pass of a validation controller that does not check for deviations. */
  function UncheckedValidationCalm(w: World, e: Env): World {
    if w.gone || GetState(w.obj) == StateRemoved || GetState(w.obj) == StateNew then w
    else match ConfigFor(w, e)
      case None => w
      case Some(cfg) => UncheckedPassCalm(w, e, cfg)
  }

  /** One pass of the validation controller. */
  function ValidationCalm(w: World, e: Env): World {
    if w.gone || GetState(w.obj) == StateRemoved || GetState(w.obj) == StateNew then w
    else match ConfigFor(w, e)
      case None => w
      case Some(cfg) => VerdictPassCalm(w, e, cfg)
  }

  // ---- Configurations that match the spec.

  /**
   * Table there, recorded hashes current, connector (when managed) running what the current spec asks for. A connector
   * whose configuration is not an object counts as running anything (Deviation.NonObjectPasses).
   */
  ghost predicate Matches(w: World, e: Env, cfg: CyndiConfiguration) {
    var st, spec := w.obj.status, w.obj.spec;
    && st.pipelineVersion != "" && !w.obj.deleting && !w.gone
    && st.tableName != "" && st.tableName in w.tables
    && st.cyndiConfigVersion == cfg.configMapVersion && st.specHash == cfg.specHash
    && (spec.ConnectorsManaged() ==>
          && st.connectorName in w.conns
          && e.Desired(spec, cfg, st.tableName).Some?
          && var c, d := w.conns[st.connectorName], e.Desired(spec, cfg, st.tableName).value;
             && HealthyAndLabelled(spec, cfg, c) && !ConfigsDiffer(c.config, d.config))
  }

  /** The managed connector is paused or running as the spec says. */
  ghost predicate PausedAsAsked(w: World) {
    var st, spec := w.obj.status, w.obj.spec;
    spec.ConnectorsManaged() && st.connectorName in w.conns ==> 
      w.conns[st.connectorName].state == (if spec.connectorPaused then "paused" else "running")
  }

  /** The deviation check accepts exactly the matching configurations, up to a template that does not render. */
  lemma NoDeviationIffMatches(w: World, e: Env, cfg: CyndiConfiguration)
    requires w.obj.status.pipelineVersion != "" && !w.obj.deleting && !w.gone
    ensures DeviationOf(w, e, cfg) == NoDeviation <==> Matches(w, e, cfg)
  {
  }

  /** Hypotheses: the configuration parses, the template renders, the view's table name can be sliced. */
  ghost predicate Workable(w: World, e: Env, cfg: CyndiConfiguration) {
    && ConfigFor(w, e) == Some(cfg) && !w.obj.deleting && !w.gone
    && SliceInBounds(w.obj, Seen(w.view)) && (w.view.Some? ==> w.view.value in w.tables)
    && (w.obj.spec.ConnectorsManaged() ==> forall t :: e.Desired(w.obj.spec, cfg, t).Some?)
  }

  lemma CleanupKeepsView(w: World)
    requires SliceInBounds(w.obj, Seen(w.view)) && !w.obj.deleting && (w.view.Some? ==> w.view.value in w.tables)
    ensures CleanedUp(w, Seen(w.view), true).view == w.view
    ensures CleanedUp(w, Seen(w.view), true).obj == w.obj
  {
    if w.view.Some? {
      assert w.view.value in KeepTables(w.obj, Seen(w.view));
    }
  }

  lemma DesiredMatches(e: Env, spec: Spec, cfg: CyndiConfiguration, tableName: string)
    requires e.Desired(spec, cfg, tableName).Some?
    ensures var d := e.Desired(spec, cfg, tableName).value;
            HealthyAndLabelled(spec, cfg, d) && d.state == (if spec.connectorPaused then "paused" else "running")
  {
  }
}
