/** What every step of every interleaving keeps, with snapshots as stale as the caches may be. */
module Invariants {
  import opened Wrappers
  import opened Lang
  import opened Names
  import opened Pipeline
  import opened Connect
  import opened Validate
  import opened Protocol

  // ---- Revisions: what a matching resource version proves.

  ghost predicate Numbered(s: Sys) {
    s.obj.rv == |s.past| && forall k :: 0 <= k < |s.past| ==> s.past[k].rv == k
  }

  /** Deletion and the finalizer, once on the resource, stay. */
  ghost predicate Monotone(s: Sys) {
    forall k :: 0 <= k < |s.past| ==>
      (s.past[k].deleting ==> s.obj.deleting) && (s.past[k].finalizer ==> s.obj.finalizer)
  }

  ghost predicate Snapshot(s: Sys, snap: Object) {
    snap.rv <= |s.past| && Rev(s, snap.rv) == snap
  }

  ghost predicate Consistent(s: Sys) {
    && Numbered(s) && Monotone(s)
    && (s.p.PPass? ==> Snapshot(s, s.p.snap))
    && (s.v.VPass? ==> Snapshot(s, s.v.snap))
  }

  lemma RevisionKeeps(s: Sys, obj: Object)
    requires Consistent(s) && (s.obj.deleting ==> obj.deleting) && (s.obj.finalizer ==> obj.finalizer)
    ensures Numbered(NextRevision(s, obj)) && Monotone(NextRevision(s, obj))
    ensures forall snap :: Snapshot(s, snap) ==> Snapshot(NextRevision(s, obj), snap)
    ensures Snapshot(NextRevision(s, obj), NextRevision(s, obj).obj)
  {
  }

  // ---- Statuses: the state machine of state.go.

  ghost predicate NamedTable(table: string, used: set<string>) {
    |table| >= |TABLE_PREFIX| && table[..|TABLE_PREFIX|] == TABLE_PREFIX && table[|TABLE_PREFIX|..] in used
  }

  /** The shape of every status a controller can commit. */
  ghost predicate StatusOk(st: Status, used: set<string>) {
    && st.validationFailedCount >= 0
    && (st.validationFailedCount > 0 <==> st.GetValid() == ConditionFalse)
    && (st.initialSyncInProgress ==> st.pipelineVersion != "" && st.GetValid() != ConditionTrue)
    && (st.pipelineVersion == "" ==> st.GetValid() == ConditionUnknown)
    && (st.pipelineVersion != "" ==> st.tableName != "" && st.pipelineVersion in used)
    && (st.pipelineVersion != "" && st.GetValid() == ConditionUnknown ==> st.initialSyncInProgress)
    && (st.tableName != "" ==> NamedTable(st.tableName, used))
  }

  ghost predicate StatusesOk(s: Sys) {
    && "" !in s.used
    && StatusOk(s.obj.status, s.used)
    && (forall k :: 0 <= k < |s.past| ==> StatusOk(s.past[k].status, s.used))
    && (s.p.PPass? ==> StatusOk(s.p.work, s.used) && StatusOk(s.p.snap.status, s.used))
    && (s.v.VPass? ==> StatusOk(s.v.work, s.used) && StatusOk(s.v.snap.status, s.used)
                       && s.v.snap.status.pipelineVersion != "")
  }

  lemma TableNameIsNamed(v: string, used: set<string>)
    requires v in used
    ensures NamedTable(TableName(v), used) && TableName(v) != ""
  {
    assert TableName(v)[..|TABLE_PREFIX|] == TABLE_PREFIX;
    assert TableName(v)[|TABLE_PREFIX|..] == v;
  }

  lemma MutationsKeepStatusOk(st: Status, used: set<string>, count: int, ratio: real, hosts: int, isValid: bool)
    requires StatusOk(st, used)
    ensures StatusOk(ToNew(st), used)
    ensures st.pipelineVersion != "" ==> StatusOk(WithVerdict(st, isValid, count, ratio, hosts), used)
    ensures forall table :: StatusOk(st.(activeTableName := table), used)
  {
  }

  // ---- The status a pass is going to write, relative to its snapshot.

  ghost predicate WorkOk(s: Sys) {
    && (s.p.PPass? ==>
          var snap, work := s.p.snap, s.p.work;
          match s.p.phase
          case Cleaning => work == snap.status
          case Cleaned => work == snap.status
          case Creating(_) => NewWork(snap, work)
          case Committing => GetState(snap) != StateRemoved && (work == ToNew(snap.status) || NewWork(snap, work)))
    && (s.v.VPass? ==>
          var snap, work := s.v.snap, s.v.work;
          work.pipelineVersion in {"", snap.status.pipelineVersion} && work.tableName == snap.status.tableName)
  }

  /** The status of a fresh version on top of a NEW snapshot. */
  ghost predicate NewWork(snap: Object, work: Status) {
    && GetState(snap) == StateNew && snap.finalizer
    && IsVersion(work.pipelineVersion)
    && work == ToInitialSync(false, snap.spec,
                             snap.status.(cyndiConfigVersion := work.cyndiConfigVersion, specHash := work.specHash),
                             work.pipelineVersion)
  }

  // ---- The database.

  /** PostgreSQL keeps a view's table. */
  ghost predicate ViewOk(s: Sys) {
    s.view.Some? ==> s.view.value in s.tables
  }

  /** What a pass knows about tables and connectors once its cleanup is over. */
  ghost predicate PassOk(s: Sys) {
    s.p.PPass? && !s.p.phase.Cleaning? ==>
      && s.p.view.Seen? && SliceInBounds(s.p.snap, s.p.view)
      && (s.p.phase.Cleaned? ==>
            && s.conns.Keys <= KeepConnectors(s.p.snap, s.p.view)
            && ListedTables(s) <= KeepTables(s.p.snap, s.p.view))
      && (s.p.phase.Creating? ==>
            && s.conns.Keys <= KeepConnectors(s.p.snap, s.p.view)
            && ListedTables(s) <= KeepTables(s.p.snap, s.p.view) + {s.p.work.tableName}
            && (s.p.phase.tableReady ==> s.p.work.tableName in s.tables))
      && (s.p.phase.Committing? && NewWork(s.p.snap, s.p.work) ==>
            && s.p.work.tableName in s.tables
            && (s.p.snap.spec.ConnectorsManaged() ==> NewConnectorName(s.p) in s.conns))
  }

  // ---- All of it.

  ghost predicate Inv(s: Sys) {
    Consistent(s) && StatusesOk(s) && WorkOk(s) && ViewOk(s) && PassOk(s)
  }

  /** Any write of the resource that keeps deletion and finalizer, with a well-formed status. */
  lemma RevisionKeepsInv(s: Sys, obj: Object)
    requires Inv(s) && StatusOk(obj.status, s.used)
    requires (s.obj.deleting ==> obj.deleting) && (s.obj.finalizer ==> obj.finalizer)
    ensures Inv(NextRevision(s, obj))
  {
    RevisionKeeps(s, obj);
  }

  lemma CommitKeepsInv(s: Sys, snap: Object, work: Status, activeTable: string)
    requires Inv(s) && StatusOk(work, s.used)
    ensures Inv(CommitStatus(s, snap, work.(activeTableName := activeTable)))
  {
    MutationsKeepStatusOk(work, s.used, 0, 0.0, 0, true);
    RevisionKeepsInv(s, s.obj.(status := work.(activeTableName := activeTable)));
  }

  lemma CleanupKeepsInv(s: Sys, c: CleanupStep)
    requires Inv(s) && CleanupEnabled(s, c)
    ensures Inv(ApplyCleanup(s, c))
  {
  }

  lemma AddFinalizerKeepsInv(s: Sys)
    requires Inv(s) && SyncEnabled(s, AddFinalizer)
    ensures Inv(ApplySync(s, AddFinalizer))
  {
    RevisionKeepsInv(s, s.obj.(finalizer := true));
    var s' := NextRevision(s, s.obj.(finalizer := true));
    assert Snapshot(s', s'.obj);
    assert KeepTables(s'.obj, s.p.view) == KeepTables(s.p.snap, s.p.view);
    assert KeepConnectors(s'.obj, s.p.view) == KeepConnectors(s.p.snap, s.p.view);
  }

  lemma BeginKeepsInv(s: Sys, n: SyncStep)
    requires Inv(s) && n.Begin? && SyncEnabled(s, n)
    ensures Inv(ApplySync(s, n))
  {
    var st := s.p.snap.status.(cyndiConfigVersion := n.configVersion, specHash := n.specHash);
    TableNameIsNamed(n.version, s.used + {n.version});
    MoreVersions(s, n.version);
    var work := ApplySync(s, n).p.work;
    assert NewWork(s.p.snap, work);
  }

  lemma MoreVersions(s: Sys, version: string)
    requires StatusesOk(s) && IsVersion(version)
    ensures StatusesOk(s.(used := s.used + {version}))
  {
  }

  lemma CreationKeepsInv(s: Sys, n: SyncStep)
    requires Inv(s) && SyncEnabled(s, n) && !n.AddFinalizer? && !n.Begin?
    ensures Inv(ApplySync(s, n))
  {
    if n.CreateTable? {
      assert ListedTables(ApplySync(s, n)) <= ListedTables(s) + {s.p.work.tableName};
    }
  }

  lemma SyncKeepsInv(s: Sys, n: SyncStep)
    requires Inv(s) && SyncEnabled(s, n)
    ensures Inv(ApplySync(s, n))
  {
    match n
    case AddFinalizer => AddFinalizerKeepsInv(s);
    case Begin(_, _, _) => BeginKeepsInv(s, n);
    case FindTable => CreationKeepsInv(s, n);
    case CreateTable => CreationKeepsInv(s, n);
    case CreateConnector(_) => CreationKeepsInv(s, n);
    case SkipConnector => CreationKeepsInv(s, n);
  }

  lemma ActKeepsInv(s: Sys, a: ActStep)
    requires Inv(s) && ActEnabled(s, a)
    ensures Inv(ApplyAct(s, a))
  {
    if a.Refresh? {
      MutationsKeepStatusOk(s.p.snap.status, s.used, 0, 0.0, 0, true);
    } else if a.ShowValidTable? || a.ShowHealthier? {
      assert NamedTable(s.p.snap.status.tableName, s.used);
    }
  }

  lemma PassKeepsInv(s: Sys, o: PassStep)
    requires Inv(s) && PassEnabled(s, o)
    ensures Inv(ApplyPass(s, o))
  {
    if o.Commit? {
      CommitKeepsInv(s, s.p.snap, s.p.work, s.view.GetOr(""));
    }
  }

  lemma DecisionKeepsInv(s: Sys, v: ValidationPass, accepted: set<Acceptance>)
    requires Inv(s) && s.v.VPass? && v.VPass? && v.snap == s.v.snap && StatusOk(v.work, s.used)
    requires v.work.pipelineVersion in {"", v.snap.status.pipelineVersion} && v.work.tableName == v.snap.status.tableName
    ensures Inv(s.(v := v, accepted := accepted))
  {
  }

  lemma FinishedValidationKeepsInv(s: Sys, verdicts: seq<Record>)
    requires Inv(s)
    ensures Inv(s.(v := VIdle, verdicts := verdicts))
  {
  }

  lemma StartedValidationKeepsInv(s: Sys, o: ValidationStep)
    requires Inv(s) && o.StartValidation? && ValidationEnabled(s, o)
    ensures Inv(ApplyValidation(s, o))
  {
  }

  lemma ValidationKeepsInv(s: Sys, o: ValidationStep)
    requires Inv(s) && ValidationEnabled(s, o)
    ensures Inv(ApplyValidation(s, o))
  {
    match o
    case StartValidation(_) => StartedValidationKeepsInv(s, o);
    case RefreshInvalid =>
      MutationsKeepStatusOk(s.v.snap.status, s.used, 0, 0.0, 0, true);
      DecisionKeepsInv(s, ApplyValidation(s, o).v, s.accepted);
    case Validate(hbiCount, appCount, hbiIds, appIds, threshold) =>
      var j := Judge(hbiCount, appCount, hbiIds, appIds, threshold);
      MutationsKeepStatusOk(s.v.snap.status, s.used, j.mismatchCount, j.mismatchRatio, j.hostCount, j.isValid);
      DecisionKeepsInv(s, ApplyValidation(s, o).v, ApplyValidation(s, o).accepted);
    case CommitVerdict(activeTable) =>
      CommitKeepsInv(s, s.v.snap, s.v.work, activeTable);
      FinishedValidationKeepsInv(CommitStatus(s, s.v.snap, s.v.work.(activeTableName := activeTable)), ApplyValidation(s, o).verdicts);
    case AbortValidation => FinishedValidationKeepsInv(s, s.verdicts);
  }

  lemma EnvironmentKeepsInv(s: Sys, e: EnvironmentStep)
    requires Inv(s) && EnvironmentEnabled(s, e)
    ensures Inv(ApplyEnvironment(s, e))
  {
    match e
    case ChangeSpec(spec) => RevisionKeepsInv(s, s.obj.(spec := spec));
    case RequestDeletion => RevisionKeepsInv(s, s.obj.(deleting := true));
    case Touch => RevisionKeepsInv(s, s.obj);
    case ChangeConnector(_, _) =>
  }

  lemma StepKeepsInv(s: Sys, l: Label)
    requires Inv(s) && Enabled(s, l)
    ensures Inv(Apply(s, l))
  {
    match l
    case Cleanup(c) => CleanupKeepsInv(s, c);
    case Sync(n) => SyncKeepsInv(s, n);
    case Act(a) => ActKeepsInv(s, a);
    case Pass(o) => PassKeepsInv(s, o);
    case Validation(o) => ValidationKeepsInv(s, o);
    case Environment(e) => EnvironmentKeepsInv(s, e);
  }

  lemma {:induction false} InvAlways(s: Sys, ls: seq<Label>)
    requires Init(s) && IsRun(s, ls)
    ensures Inv(Final(s, ls))
  {
    if ls != [] {
      InvAlways(s, ls[..|ls| - 1]);
      StepKeepsInv(Final(s, ls[..|ls| - 1]), ls[|ls| - 1]);
    }
  }
}
