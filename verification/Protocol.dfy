/**
 * The refresh protocol as a transition system: the pipeline controller, the validation controller and the
 * environment act on one resource, one application database and one set of connectors.
 *
 * Every remote call of a controller is one step, so anything may happen between two of them. A call that fails, a
 * pass that crashes and a call whose effect survives although its pass does not commit are all runs of the system.
 * Steps leave open what the decision to take them depends on only as far as no property below needs it; the
 * controllers' code in Controllers.dfy takes the decisions and is proved to produce runs of this system only.
 */
module Protocol {
  import opened Wrappers
  import opened Lang
  import opened Names
  import opened Pipeline
  import opened Connect
  import opened Validate

  /** What the cleanup of a pass learned about the view: not asked yet, the answer, or an error. */
  datatype ViewRead = NotRead | Seen(table: Option<string>) | Unreadable

  datatype Phase =
    | Cleaning                     // deleteStaleDependencies is running
    | Cleaned                      // it finished without an error
    | Creating(tableReady: bool)   // STATE_NEW: the new version is chosen
    | Committing                   // about to write the status

  /** The pipeline controller: the snapshot its pass works on, and the status it is going to write. */
  datatype PipelinePass = PIdle | PPass(snap: Object, work: Status, view: ViewRead, phase: Phase)

  /** The validation controller; `verdict` is the outcome of `validate`, if it ran. */
  datatype ValidationPass = VIdle | VPass(snap: Object, work: Status, verdict: Option<bool>, decided: bool)

  /** History: `validate` returned true on `table` while `version` was the committed version. */
  datatype Acceptance = Acceptance(version: string, table: string)

  /** History: a verdict that reached the committed status. */
  datatype Record = Record(version: string, ok: bool)

  datatype Sys = Sys(
    obj: Object,
    past: seq<Object>,
    gone: bool,
    ephemeral: bool,
    tables: set<string>,
    view: Option<string>,
    conns: map<string, Connector>,
    p: PipelinePass,
    v: ValidationPass,
    used: set<string>,
    accepted: set<Acceptance>,
    verdicts: seq<Record>)

  /** deleteStaleDependencies. */
  datatype CleanupStep =
    | ReadView(ok: bool)
    | DropConnector(name: string)
    | DropTable(table: string)
    | Finish

  /** Reconcile in STATE_NEW. */
  datatype SyncStep =
    | AddFinalizer
    | Begin(version: string, configVersion: string, specHash: string)
    | FindTable
    | CreateTable
    | CreateConnector(connector: Connector)
    | SkipConnector

  /** Reconcile in the other states. */
  datatype ActStep =
    | Refresh
    | SetConnectorState(paused: bool)
    | ShowValidTable
    | ShowHealthier(inventoryCount: int, activeCount: int, latestCount: int)

  /** Beginning and end of a pass of the pipeline controller. */
  datatype PassStep =
    | Start(rev: nat)
    | RemoveFinalizer
    | Commit
    | Abort

  datatype ValidationStep =
    | StartValidation(rev: nat)
    | RefreshInvalid
    | Validate(hbiCount: int, appCount: int, hbiIds: seq<string>, appIds: seq<string>, threshold: int)
    | CommitVerdict(activeTable: string)   // the view may have moved since it was read
    | AbortValidation

  /** Users, the cluster, and Kafka Connect. */
  datatype EnvironmentStep =
    | ChangeSpec(spec: Spec)
    | RequestDeletion
    | Touch
    | ChangeConnector(name: string, connector: Connector)

  datatype Label =
    | Cleanup(cleanup: CleanupStep)
    | Sync(sync: SyncStep)
    | Act(act: ActStep)
    | Pass(pass: PassStep)
    | Validation(validation: ValidationStep)
    | Environment(environment: EnvironmentStep)

  predicate OfPipeline(l: Label) {
    !l.Validation? && !l.Environment?
  }

  /** The k-th revision of the resource; informer caches may serve any of them. */
  function Rev(s: Sys, k: nat): Object
    requires k <= |s.past|
  {
    if k == |s.past| then s.obj else s.past[k]
  }

  // ---- What a cleanup keeps.

  function KeepTables(snap: Object, view: ViewRead): set<string> {
    if snap.deleting then {}
    else
      (if snap.status.pipelineVersion != "" then {TableName(snap.status.pipelineVersion)} else {})
      + (if !snap.spec.ConnectorsManaged() && snap.status.tableName != "" then {snap.status.tableName} else {})
      + (if view.Seen? && view.table.Some? then {view.table.value} else {})
  }

  /** The prefix of the view's table is sliced off for a managed pipeline: a shorter name panics, and the pass ends there. */
  predicate SliceInBounds(snap: Object, view: ViewRead) {
    !snap.deleting && snap.spec.ConnectorsManaged() && view.Seen? && view.table.Some? ==> |view.table.value| >= |TABLE_PREFIX|
  }

  function KeepConnectors(snap: Object, view: ViewRead): set<string>
    requires SliceInBounds(snap, view)
  {
    if snap.deleting || !snap.spec.ConnectorsManaged() then {}
    else
      (if snap.status.pipelineVersion != "" then {ConnectorName(snap.status.pipelineVersion, snap.spec.appName)} else {})
      + (if view.Seen? && view.table.Some? then {TableNameToConnectorName(view.table.value, snap.spec.appName)} else {})
  }

  function ListedTables(s: Sys): set<string> {
    set t | t in s.tables && Listed(t)
  }

  // ---- Writing the status.

  /** The status the pipeline controller would store: the active table is whatever the view shows. */
  function Committed(s: Sys, work: Status): Status {
    work.(activeTableName := s.view.GetOr(""))
  }

  /** A write is issued only if the status changed, and succeeds only on the latest revision. */
  predicate Writes(s: Sys, snap: Object, status: Status) {
    status != snap.status && !s.gone && snap.rv == s.obj.rv
  }

  function NextRevision(s: Sys, obj: Object): Sys {
    s.(obj := obj.(rv := s.obj.rv + 1), past := s.past + [s.obj])
  }

  function CommitStatus(s: Sys, snap: Object, status: Status): Sys {
    if Writes(s, snap, status) then NextRevision(s, s.obj.(status := status)) else s
  }

  // ---- The steps.

  predicate InPhase(s: Sys, phase: Phase) {
    s.p.PPass? && s.p.phase == phase
  }

  /** The pass is past the cleanup of a pipeline that is neither new nor removed. */
  predicate Settled(s: Sys) {
    InPhase(s, Cleaned) && GetState(s.p.snap) != StateNew && GetState(s.p.snap) != StateRemoved
  }

  predicate ViewWasRead(s: Sys) {
    InPhase(s, Cleaning) && !s.p.view.NotRead? && SliceInBounds(s.p.snap, s.p.view)
  }

  predicate CleanupEnabled(s: Sys, c: CleanupStep) {
    match c
    case ReadView(_) => InPhase(s, Cleaning) && s.p.view.NotRead?
    case DropConnector(name) => ViewWasRead(s) && name in s.conns && name !in KeepConnectors(s.p.snap, s.p.view)
    case DropTable(table) =>
      ViewWasRead(s) && table in s.tables && Listed(table) && table !in KeepTables(s.p.snap, s.p.view)
    case Finish =>
      && ViewWasRead(s) && s.p.view.Seen?
      && s.conns.Keys <= KeepConnectors(s.p.snap, s.p.view)
      && ListedTables(s) <= KeepTables(s.p.snap, s.p.view)
  }

  function ApplyCleanup(s: Sys, c: CleanupStep): Sys
    requires s.p.PPass?
  {
    match c
    case ReadView(ok) => s.(p := s.p.(view := if ok then Seen(s.view) else Unreadable))
    case DropConnector(name) => s.(conns := s.conns - {name})
    case DropTable(table) =>   // DROP ... CASCADE takes the view along
      s.(tables := s.tables - {table}, view := if s.view == Some(table) then None else s.view)
    case Finish => s.(p := s.p.(phase := Cleaned))
  }

  function NewConnectorName(p: PipelinePass): string
    requires p.PPass?
  {
    ConnectorName(p.work.pipelineVersion, p.snap.spec.appName)
  }

  predicate SyncEnabled(s: Sys, n: SyncStep) {
    match n
    case AddFinalizer =>
      && InPhase(s, Cleaned) && GetState(s.p.snap) == StateNew && !s.p.snap.finalizer
      && !s.gone && s.p.snap.rv == s.obj.rv
    case Begin(version, _, _) =>
      && InPhase(s, Cleaned) && GetState(s.p.snap) == StateNew && s.p.snap.finalizer
      && IsVersion(version) && version !in s.used
    case FindTable => InPhase(s, Creating(false)) && s.p.work.tableName in s.tables
    case CreateTable => InPhase(s, Creating(false)) && s.p.work.tableName !in s.tables
    case CreateConnector(connector) =>
      && InPhase(s, Creating(true)) && s.p.snap.spec.ConnectorsManaged()
      && NewConnectorName(s.p) !in s.conns && connector.target == s.p.work.tableName
    case SkipConnector => InPhase(s, Creating(true)) && !s.p.snap.spec.ConnectorsManaged()
  }

  function ApplySync(s: Sys, n: SyncStep): Sys
    requires s.p.PPass?
  {
    var p := s.p;
    match n
    case AddFinalizer =>
      var s' := NextRevision(s, s.obj.(finalizer := true));
      s'.(p := p.(snap := s'.obj))
    case Begin(version, configVersion, specHash) =>
      var st := p.snap.status.(cyndiConfigVersion := configVersion, specHash := specHash);
      s.(p := p.(work := ToInitialSync(p.snap.deleting, p.snap.spec, st, version), phase := Creating(false)),
         used := s.used + {version})
    case FindTable => s.(p := p.(phase := Creating(true)))
    case CreateTable => s.(tables := s.tables + {p.work.tableName}, p := p.(phase := Creating(true)))
    case CreateConnector(connector) => s.(conns := s.conns[NewConnectorName(p) := connector], p := p.(phase := Committing))
    case SkipConnector => s.(p := p.(phase := Committing))
  }

  predicate ActEnabled(s: Sys, a: ActStep) {
    Settled(s) &&
    var snap := s.p.snap;
    match a
    case Refresh => true
    case SetConnectorState(_) => snap.spec.ConnectorsManaged() && snap.status.connectorName in s.conns
    case ShowValidTable =>
      && GetState(snap) == StateValid && snap.spec.ConnectorsManaged()
      && s.view != Some(snap.status.tableName) && snap.status.tableName in s.tables
    case ShowHealthier(inventoryCount, activeCount, latestCount) =>
      && GetState(snap) == StateInitialSync && snap.status.GetValid() == ConditionFalse
      && snap.spec.ConnectorsManaged() && snap.status.tableName in s.tables
      && (s.view.None? || (&& s.view.value != snap.status.tableName
                           && Distance64(inventoryCount, latestCount) <= Distance64(inventoryCount, activeCount)))
  }

  function SetState(conns: map<string, Connector>, name: string, paused: bool): map<string, Connector> {
    if name in conns then conns[name := conns[name].(state := ConnectorState(paused))] else conns
  }

  function ApplyAct(s: Sys, a: ActStep): Sys
    requires s.p.PPass?
  {
    match a
    case Refresh => s.(p := s.p.(work := ToNew(s.p.snap.status), phase := Committing))
    case SetConnectorState(paused) => s.(conns := SetState(s.conns, s.p.snap.status.connectorName, paused))
    case ShowValidTable => s.(view := Some(s.p.snap.status.tableName))
    case ShowHealthier(_, _, _) => s.(view := Some(s.p.snap.status.tableName))
  }

  predicate PassEnabled(s: Sys, o: PassStep) {
    match o
    case Start(rev) => s.p.PIdle? && !s.gone && rev <= |s.past|
    case RemoveFinalizer =>
      && s.p.PPass? && GetState(s.p.snap) == StateRemoved
      && (s.p.phase.Cleaned? || (s.ephemeral && s.p.phase.Cleaning?))
      && !s.gone && s.p.snap.rv == s.obj.rv
    case Commit => InPhase(s, Committing) || Settled(s)
    case Abort => s.p.PPass?
  }

  function ApplyPass(s: Sys, o: PassStep): Sys
    requires PassEnabled(s, o)
  {
    match o
    case Start(rev) => s.(p := PPass(Rev(s, rev), Rev(s, rev).status, NotRead, Cleaning))
    case RemoveFinalizer => s.(gone := true, p := PIdle)
    case Commit => CommitStatus(s, s.p.snap, Committed(s, s.p.work)).(p := PIdle)
    case Abort => s.(p := PIdle)
  }

  predicate ValidationEnabled(s: Sys, o: ValidationStep) {
    match o
    case StartValidation(rev) =>
      && s.v.VIdle? && !s.gone && rev <= |s.past|
      && GetState(Rev(s, rev)) != StateNew && GetState(Rev(s, rev)) != StateRemoved
    case RefreshInvalid => s.v.VPass? && !s.v.decided
    case Validate(hbiCount, appCount, _, _, _) =>
      && s.v.VPass? && !s.v.decided
      && (CountsWayOff(hbiCount, appCount) || s.v.snap.status.tableName in s.tables)
    case CommitVerdict(_) => s.v.VPass? && s.v.decided
    case AbortValidation => s.v.VPass?
  }

  function ApplyValidation(s: Sys, o: ValidationStep): Sys
    requires ValidationEnabled(s, o)
  {
    var v := s.v;
    match o
    case StartValidation(rev) => s.(v := VPass(Rev(s, rev), Rev(s, rev).status, None, false))
    case RefreshInvalid => s.(v := v.(work := ToNew(v.snap.status), decided := true))
    case Validate(hbiCount, appCount, hbiIds, appIds, threshold) =>
      var verdict := Judge(hbiCount, appCount, hbiIds, appIds, threshold);
      s.(v := v.(work := WithVerdict(v.snap.status, verdict.isValid, verdict.mismatchCount, verdict.mismatchRatio, verdict.hostCount),
                 verdict := Some(verdict.isValid), decided := true),
         accepted := if verdict.isValid
                     then s.accepted + {Acceptance(s.obj.status.pipelineVersion, v.snap.status.tableName)}
                     else s.accepted)
    case CommitVerdict(activeTable) =>
      var status := v.work.(activeTableName := activeTable);
      CommitStatus(s, v.snap, status).(
        v := VIdle,
        verdicts := if v.verdict.Some? && Writes(s, v.snap, status)
                    then s.verdicts + [Record(v.work.pipelineVersion, v.verdict.value)]
                    else s.verdicts)
    case AbortValidation => s.(v := VIdle)
  }

  predicate EnvironmentEnabled(s: Sys, e: EnvironmentStep) {
    match e
    case ChangeSpec(_) => !s.gone
    case RequestDeletion => !s.gone && !s.obj.deleting
    case Touch => !s.gone
    case ChangeConnector(name, connector) => name in s.conns && connector.target == s.conns[name].target
  }

  function ApplyEnvironment(s: Sys, e: EnvironmentStep): Sys {
    match e
    case ChangeSpec(spec) => NextRevision(s, s.obj.(spec := spec))
    case RequestDeletion => NextRevision(s, s.obj.(deleting := true)).(gone := !s.obj.finalizer)
    case Touch => NextRevision(s, s.obj)
    case ChangeConnector(name, connector) => s.(conns := s.conns[name := connector])
  }

  predicate Enabled(s: Sys, l: Label) {
    match l
    case Cleanup(c) => CleanupEnabled(s, c)
    case Sync(n) => SyncEnabled(s, n)
    case Act(a) => ActEnabled(s, a)
    case Pass(o) => PassEnabled(s, o)
    case Validation(o) => ValidationEnabled(s, o)
    case Environment(e) => EnvironmentEnabled(s, e)
  }

  /** A step; a label that is not enabled changes nothing. */
  function Apply(s: Sys, l: Label): Sys {
    if !Enabled(s, l) then s
    else match l
      case Cleanup(c) => ApplyCleanup(s, c)
      case Sync(n) => ApplySync(s, n)
      case Act(a) => ApplyAct(s, a)
      case Pass(o) => ApplyPass(s, o)
      case Validation(o) => ApplyValidation(s, o)
      case Environment(e) => ApplyEnvironment(s, e)
  }

  // ---- Runs.

  /** A resource just created over a database and a cluster with leftovers of any kind. */
  predicate Init(s: Sys) {
    && s.obj.rv == 0 && s.obj.status == EMPTY_STATUS && !s.obj.deleting && !s.obj.finalizer
    && s.past == [] && !s.gone && s.p.PIdle? && s.v.VIdle?
    && s.used == {} && s.accepted == {} && s.verdicts == []
    && (s.view.Some? ==> s.view.value in s.tables)
  }

  function Final(s: Sys, ls: seq<Label>): Sys {
    if ls == [] then s else Apply(Final(s, ls[..|ls| - 1]), ls[|ls| - 1])
  }

  predicate IsRun(s: Sys, ls: seq<Label>) {
    ls == [] || (IsRun(s, ls[..|ls| - 1]) && Enabled(Final(s, ls[..|ls| - 1]), ls[|ls| - 1]))
  }

  /** Some run takes `s` to `f` by `ls`. */
  ghost predicate LeadsTo(s: Sys, ls: seq<Label>, f: Sys) {
    IsRun(s, ls) && Final(s, ls) == f
  }

  lemma LeadsOn(s: Sys, ls: seq<Label>, f: Sys, l: Label)
    requires LeadsTo(s, ls, f) && Enabled(f, l)
    ensures LeadsTo(s, ls + [l], Apply(f, l))
  {
    assert (ls + [l])[..|ls|] == ls;
  }

  lemma LedThere(s: Sys, ls: seq<Label>, f: Sys) returns (before: Sys)
    requires LeadsTo(s, ls, f) && ls != []
    ensures LeadsTo(s, ls[..|ls| - 1], before) && Enabled(before, ls[|ls| - 1]) && f == Apply(before, ls[|ls| - 1])
  {
    before := Final(s, ls[..|ls| - 1]);
  }

  /** Runs compose. */
  lemma {:induction false} Continue(s: Sys, ls: seq<Label>, f: Sys, more: seq<Label>, g: Sys)
    requires LeadsTo(s, ls, f) && LeadsTo(f, more, g)
    ensures LeadsTo(s, ls + more, g)
  {
    if more == [] {
      assert ls + more == ls;
    } else {
      var n := |more| - 1;
      var h := LedThere(f, more, g);
      Continue(s, ls, f, more[..n], h);
      LeadsOn(s, ls + more[..n], h, more[n]);
      assert ls + more == ls + more[..n] + [more[n]];
    }
  }

  /** Every beginning of a run is a run, and its next label is enabled. */
  lemma {:induction false} RunBefore(s: Sys, ls: seq<Label>, k: nat)
    requires IsRun(s, ls) && k <= |ls|
    ensures IsRun(s, ls[..k])
    ensures k < |ls| ==> Enabled(Final(s, ls[..k]), ls[k])
  {
    if k == |ls| {
      assert ls[..k] == ls;
    } else if k < |ls| - 1 {
      RunBefore(s, ls[..|ls| - 1], k);
      assert ls[..|ls| - 1][..k] == ls[..k];
    }
  }
}
