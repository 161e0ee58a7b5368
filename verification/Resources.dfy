/** Tables and connectors over all runs: how many there are, and which ones are never missing. */
module Resources {
  import opened Wrappers
  import opened Names
  import opened Pipeline
  import opened Connect
  import opened Protocol
  import opened Invariants
  import opened View

  // ---- Never more than two.

  lemma Smaller(a: set<string>, b: set<string>)
    requires a <= b
    ensures |a| <= |b|
  {
    assert b == a + (b - a);
  }

  lemma AtMostTwo(a: set<string>, x: string, y: string)
    requires a <= {x, y}
    ensures |a| <= 2
  {
    Smaller(a, {x, y});
    assert |{x, y}| <= 2;
  }

  /** Besides the table being created, a cleanup of a NEW pipeline keeps at most the view's table. */
  lemma NewPipelineKeepsOne(snap: Object, work: Status, view: ViewRead)
    requires NewWork(snap, work) && SliceInBounds(snap, view)
    ensures |KeepTables(snap, view) + {work.tableName}| <= 2
    ensures |KeepConnectors(snap, view)| <= 1
  {
    var other := if view.Seen? && view.table.Some? then view.table.value else work.tableName;
    AtMostTwo(KeepTables(snap, view) + {work.tableName}, work.tableName, other);
    if snap.spec.ConnectorsManaged() && view.Seen? && view.table.Some? {
      Smaller(KeepConnectors(snap, view), {TableNameToConnectorName(view.table.value, snap.spec.appName)});
    }
  }

  ghost predicate AtMostTwoEach(s: Sys) {
    |ListedTables(s)| <= 2 && |s.conns.Keys| <= 2
  }

  lemma CreatingATableKeepsTwo(s: Sys)
    requires Inv(s) && AtMostTwoEach(s) && SyncEnabled(s, CreateTable)
    ensures AtMostTwoEach(ApplySync(s, CreateTable))
  {
    NewPipelineKeepsOne(s.p.snap, s.p.work, s.p.view);
    Smaller(ListedTables(ApplySync(s, CreateTable)), KeepTables(s.p.snap, s.p.view) + {s.p.work.tableName});
  }

  lemma CreatingAConnectorKeepsTwo(s: Sys, n: SyncStep)
    requires Inv(s) && AtMostTwoEach(s) && n.CreateConnector? && SyncEnabled(s, n)
    ensures AtMostTwoEach(ApplySync(s, n))
  {
    ConnectorIsCreated(s, n);
    CleanupLeftOne(s);
    OneMoreName(s.conns.Keys, KeepConnectors(s.p.snap, s.p.view), NewConnectorName(s.p));
    assert ListedTables(ApplySync(s, n)) == ListedTables(s);
  }

  lemma ConnectorIsCreated(s: Sys, n: SyncStep)
    requires n.CreateConnector? && SyncEnabled(s, n)
    ensures ApplySync(s, n).tables == s.tables
    ensures ApplySync(s, n).conns.Keys == s.conns.Keys + {NewConnectorName(s.p)}
  {
  }

  lemma CleanupLeftOne(s: Sys)
    requires PassOk(s) && WorkOk(s) && InPhase(s, Creating(true))
    ensures SliceInBounds(s.p.snap, s.p.view)
    ensures s.conns.Keys <= KeepConnectors(s.p.snap, s.p.view) && |KeepConnectors(s.p.snap, s.p.view)| <= 1
  {
    NewPipelineKeepsOne(s.p.snap, s.p.work, s.p.view);
  }

  lemma OneMoreName(names: set<string>, keep: set<string>, name: string)
    requires names <= keep && |keep| <= 1
    ensures |names + {name}| <= 2
  {
    Smaller(names, keep);
  }

  lemma SyncKeepsAtMostTwo(s: Sys, n: SyncStep)
    requires Inv(s) && AtMostTwoEach(s) && SyncEnabled(s, n)
    ensures AtMostTwoEach(ApplySync(s, n))
  {
    if n.CreateTable? {
      CreatingATableKeepsTwo(s);
    } else if n.CreateConnector? {
      CreatingAConnectorKeepsTwo(s, n);
    } else {
      assert ListedTables(ApplySync(s, n)) == ListedTables(s);
    }
  }

  lemma StepKeepsAtMostTwo(s: Sys, l: Label)
    requires Inv(s) && AtMostTwoEach(s) && Enabled(s, l)
    ensures AtMostTwoEach(Apply(s, l))
  {
    if l.Sync? {
      SyncKeepsAtMostTwo(s, l.sync);
    } else {
      OnlySyncCreates(s, l);
      Smaller(ListedTables(Apply(s, l)), ListedTables(s));
      Smaller(Apply(s, l).conns.Keys, s.conns.Keys);
    }
  }

  ghost predicate NothingNew(s: Sys, s': Sys) {
    s'.tables <= s.tables && s'.conns.Keys <= s.conns.Keys
  }

  lemma CleanupCreatesNothing(s: Sys, c: CleanupStep)
    requires CleanupEnabled(s, c)
    ensures NothingNew(s, ApplyCleanup(s, c))
  {
  }

  lemma ActCreatesNothing(s: Sys, a: ActStep)
    requires ActEnabled(s, a)
    ensures NothingNew(s, ApplyAct(s, a))
  {
  }

  lemma OnlySyncCreates(s: Sys, l: Label)
    requires Enabled(s, l) && !l.Sync?
    ensures NothingNew(s, Apply(s, l))
  {
    match l
    case Cleanup(c) => CleanupCreatesNothing(s, c);
    case Act(a) => ActCreatesNothing(s, a);
    case Pass(_) =>
    case Validation(_) =>
    case Environment(_) =>
  }

  /**
   * Whatever fails, conflicts, crashes or is stale, and however managedConnectors is toggled: a run that starts with
   * at most two tables and two connectors never has more than two of either.
   */
  lemma {:induction false} NeverMoreThanTwo(s: Sys, ls: seq<Label>)
    requires Init(s) && IsRun(s, ls) && AtMostTwoEach(s)
    ensures AtMostTwoEach(Final(s, ls))
  {
    if ls != [] {
      var before := ls[..|ls| - 1];
      NeverMoreThanTwo(s, before);
      InvAlways(s, before);
      StepKeepsAtMostTwo(Final(s, before), ls[|ls| - 1]);
    }
  }

  // ---- The committed version always has its table and its connector.

  /** A step of a run with managed connectors and one app name, in which passes read what is committed. */
  ghost predicate Steady(s: Sys, l: Label, appName: string) {
    && (l.Pass? && l.pass.Start? && l.pass.rev <= |s.past| ==> ReadsCommitted(s, l.pass.rev))
    && SteadyChange(l, appName)
  }

  /** The revision may be stale, but records the committed version, and whether deletion was requested. */
  ghost predicate ReadsCommitted(s: Sys, rev: nat)
    requires rev <= |s.past|
  {
    Rev(s, rev).status.pipelineVersion == s.obj.status.pipelineVersion && Rev(s, rev).deleting == s.obj.deleting
  }

  ghost predicate SteadyChange(l: Label, appName: string) {
    l.Environment? && l.environment.ChangeSpec? ==> SteadySpec(l.environment.spec, appName)
  }

  ghost predicate SteadySpec(spec: Spec, appName: string) {
    spec.ConnectorsManaged() && spec.appName == appName
  }

  ghost predicate SteadyRun(s: Sys, ls: seq<Label>, appName: string) {
    && SteadySpec(s.obj.spec, appName)
    && forall k :: 0 <= k < |ls| ==> SteadyAt(s, ls, k, appName)
  }

  ghost predicate SteadyAt(s: Sys, ls: seq<Label>, k: nat, appName: string)
    requires k < |ls|
  {
    Steady(Final(s, ls[..k]), ls[k], appName)
  }

  lemma SteadyAtStart(s: Sys, ls: seq<Label>, other: seq<Label>, k: nat, appName: string)
    requires k < |ls| && k < |other| && ls[..k + 1] == other[..k + 1] && SteadyAt(s, ls, k, appName)
    ensures SteadyAt(s, other, k, appName)
  {
    assert ls[..k + 1][..k] == ls[..k] && other[..k + 1][..k] == other[..k];
    assert ls[..k + 1][k] == ls[k] && other[..k + 1][k] == other[k];
  }

  lemma SteadyBefore(s: Sys, ls: seq<Label>, n: nat, appName: string)
    requires SteadyRun(s, ls, appName) && n <= |ls|
    ensures SteadyRun(s, ls[..n], appName)
  {
    forall k | 0 <= k < n ensures SteadyAt(s, ls[..n], k, appName) {
      SteadyAtStart(s, ls, ls[..n], k, appName);
    }
  }

  /** Table and connector recorded with a version are named after it. */
  ghost predicate NamedAfterVersion(st: Status, appName: string) {
    st.pipelineVersion != "" ==>
      st.tableName == TableName(st.pipelineVersion) && st.connectorName == ConnectorName(st.pipelineVersion, appName)
  }

  ghost predicate SteadyObject(o: Object, appName: string) {
    SteadySpec(o.spec, appName) && NamedAfterVersion(o.status, appName)
  }

  ghost predicate SteadyRevisions(s: Sys, appName: string) {
    SteadyObject(s.obj, appName) && forall k :: 0 <= k < |s.past| ==> SteadyObject(s.past[k], appName)
  }

  /** Table and connector of the version recorded in `st` exist, under the names recorded there. */
  ghost predicate Has(s: Sys, st: Status, appName: string) {
    && st.tableName == TableName(st.pipelineVersion) && st.tableName in s.tables
    && st.connectorName == ConnectorName(st.pipelineVersion, appName) && st.connectorName in s.conns
  }

  ghost predicate Backed(s: Sys, appName: string) {
    && SteadyRevisions(s, appName)
    && (!s.obj.deleting && s.obj.status.pipelineVersion != "" ==> Has(s, s.obj.status, appName))
    && (s.p.PPass? ==>
          && (!s.obj.deleting ==> s.obj.status.pipelineVersion in {"", s.p.snap.status.pipelineVersion})
          && (!s.p.snap.deleting && s.p.snap.status.pipelineVersion != "" ==> Has(s, s.p.snap.status, appName)))
  }

  lemma SnapshotIsSteady(s: Sys, appName: string)
    requires Inv(s) && SteadyRevisions(s, appName)
    ensures s.p.PPass? ==> SteadyObject(s.p.snap, appName)
    ensures s.v.VPass? ==> SteadyObject(s.v.snap, appName)
  {
  }

  lemma RevisionKeepsSteady(s: Sys, obj: Object, appName: string)
    requires SteadyRevisions(s, appName) && SteadyObject(obj, appName)
    ensures SteadyRevisions(NextRevision(s, obj), appName)
  {
  }

  lemma CleanupKeepsBacked(s: Sys, c: CleanupStep, appName: string)
    requires Inv(s) && Backed(s, appName) && CleanupEnabled(s, c)
    ensures Backed(ApplyCleanup(s, c), appName)
  {
    SnapshotIsSteady(s, appName);
    // A deleting snapshot is a revision of a resource that is still deleting.
    assert s.p.snap.deleting ==> s.obj.deleting;
    if c.DropTable? && !s.p.snap.deleting && s.p.snap.status.pipelineVersion != "" {
      assert TableName(s.p.snap.status.pipelineVersion) in KeepTables(s.p.snap, s.p.view);
    }
    if !s.obj.deleting && s.obj.status.pipelineVersion != "" {
      assert s.obj.status.tableName == s.p.snap.status.tableName;
      assert s.obj.status.connectorName == s.p.snap.status.connectorName;
    }
  }

  lemma CommitKeepsBacked(s: Sys, appName: string)
    requires Inv(s) && Backed(s, appName) && PassEnabled(s, Commit)
    ensures Backed(ApplyPass(s, Commit), appName)
  {
    SnapshotIsSteady(s, appName);
    var status := Committed(s, s.p.work);
    if Writes(s, s.p.snap, status) {
      assert s.p.snap == s.obj;
      RevisionKeepsSteady(s, s.obj.(status := status), appName);
    }
  }

  lemma PassKeepsBacked(s: Sys, o: PassStep, appName: string)
    requires Inv(s) && Backed(s, appName) && PassEnabled(s, o) && Steady(s, Pass(o), appName)
    ensures Backed(ApplyPass(s, o), appName)
  {
    if o.Commit? {
      CommitKeepsBacked(s, appName);
    } else if o.Start? {
      assert Rev(s, o.rev).status.pipelineVersion != "" ==> Rev(s, o.rev).status.tableName == s.obj.status.tableName;
    }
  }

  lemma SyncKeepsBacked(s: Sys, n: SyncStep, appName: string)
    requires Inv(s) && Backed(s, appName) && SyncEnabled(s, n)
    ensures Backed(ApplySync(s, n), appName)
  {
    if n.AddFinalizer? {
      assert s.p.snap == s.obj;
      RevisionKeepsSteady(s, s.obj.(finalizer := true), appName);
    }
  }

  lemma ValidationKeepsBacked(s: Sys, o: ValidationStep, appName: string)
    requires Inv(s) && Backed(s, appName) && ValidationEnabled(s, o)
    requires o.CommitVerdict? ==> WorkKeepsNames(s)
    ensures Backed(ApplyValidation(s, o), appName)
  {
    if o.CommitVerdict? {
      var status := s.v.work.(activeTableName := o.activeTable);
      if Writes(s, s.v.snap, status) {
        assert s.v.snap == s.obj;
        RevisionKeepsSteady(s, s.obj.(status := status), appName);
      }
    }
  }

  /** A verdict leaves table and connector of its snapshot's status alone. */
  ghost predicate WorkKeepsNames(s: Sys) {
    s.v.VPass? ==> s.v.work.connectorName == s.v.snap.status.connectorName
  }

  lemma StepKeepsNames(s: Sys, l: Label)
    requires WorkKeepsNames(s) && Enabled(s, l)
    ensures WorkKeepsNames(Apply(s, l))
  {
  }

  lemma ActKeepsBacked(s: Sys, a: ActStep, appName: string)
    requires Inv(s) && Backed(s, appName) && ActEnabled(s, a)
    ensures Backed(ApplyAct(s, a), appName)
  {
  }

  lemma EnvironmentKeepsBacked(s: Sys, e: EnvironmentStep, appName: string)
    requires Inv(s) && Backed(s, appName) && EnvironmentEnabled(s, e) && Steady(s, Environment(e), appName)
    ensures Backed(ApplyEnvironment(s, e), appName)
  {
    match e
    case ChangeSpec(spec) => RevisionKeepsSteady(s, s.obj.(spec := spec), appName);
    case RequestDeletion => RevisionKeepsSteady(s, s.obj.(deleting := true), appName);
    case Touch => RevisionKeepsSteady(s, s.obj, appName);
    case ChangeConnector(_, _) =>
  }

  lemma StepKeepsBacked(s: Sys, l: Label, appName: string)
    requires Inv(s) && WorkKeepsNames(s) && Backed(s, appName) && Enabled(s, l) && Steady(s, l, appName)
    ensures Backed(Apply(s, l), appName)
  {
    match l
    case Cleanup(c) => CleanupKeepsBacked(s, c, appName);
    case Sync(n) => SyncKeepsBacked(s, n, appName);
    case Act(a) => ActKeepsBacked(s, a, appName);
    case Pass(o) => PassKeepsBacked(s, o, appName);
    case Validation(o) => ValidationKeepsBacked(s, o, appName);
    case Environment(e) => EnvironmentKeepsBacked(s, e, appName);
  }

  /**
   * Until deletion is requested, the version in the committed status has its table and its connector, at every moment
   * of every steady run: through conflicts, crashes after any call, and cleanups that cannot read the view.
   */
  lemma {:induction false} CommittedVersionIsBacked(s: Sys, ls: seq<Label>, appName: string)
    requires Init(s) && IsRun(s, ls) && SteadyRun(s, ls, appName)
    ensures Backed(Final(s, ls), appName) && WorkKeepsNames(Final(s, ls))
    ensures var f := Final(s, ls);
            !f.obj.deleting && f.obj.status.pipelineVersion != "" ==> Has(f, f.obj.status, appName)
  {
    if ls != [] {
      var n := |ls| - 1;
      var before := ls[..n];
      SteadyBefore(s, ls, n, appName);
      assert SteadyAt(s, ls, n, appName);
      CommittedVersionIsBacked(s, before, appName);
      InvAlways(s, before);
      StepKeepsNames(Final(s, before), ls[n]);
      StepKeepsBacked(Final(s, before), ls[n], appName);
    }
  }

  // ---- Which stale reads are harmless.

  /** The rest of the pass and whatever happens beside it; no other pass of the pipeline controller. */
  ghost predicate DuringPass(ls: seq<Label>, appName: string) {
    forall k :: 0 <= k < |ls| ==> SteadyChange(ls[k], appName) && !(ls[k].Pass? && ls[k].pass.Start?)
  }

  /** The committed version is still committed, but has lost its table or its connector. */
  ghost predicate Lost(f: Sys, version: string, appName: string) {
    !f.obj.deleting && f.obj.status.pipelineVersion == version && !Has(f, f.obj.status, appName)
  }

  /** A pass that starts on revision k can lose the committed version before it ends. */
  ghost predicate PassMayLose(f: Sys, k: nat, appName: string) {
    exists more ::
      && IsRun(f, [Pass(Start(k))] + more) && DuringPass(more, appName)
      && Lost(Final(f, [Pass(Start(k))] + more), f.obj.status.pipelineVersion, appName)
  }

  /**
   * The loss: a pass on a revision that records another version drops the table of the committed one. If the pass can
   * read the view, this takes a view that does not show the table; if it cannot, it happens under any view.
   */
  lemma StaleReadLoses(f: Sys, k: nat, readable: bool, appName: string) returns (g: Sys)
    requires Inv(f) && Backed(f, appName) && f.p.PIdle? && !f.gone && !f.obj.deleting && k <= |f.past|
    requires f.obj.status.pipelineVersion != "" && Rev(f, k).status.pipelineVersion != f.obj.status.pipelineVersion
    requires readable ==> f.view != Some(f.obj.status.tableName) && SliceInBounds(f.obj, Seen(f.view))
    ensures LeadsTo(f, [Pass(Start(k)), Cleanup(ReadView(readable)), Cleanup(DropTable(f.obj.status.tableName))], g)
    ensures Lost(g, f.obj.status.pipelineVersion, appName)
  {
    var start, version := Pass(Start(k)), f.obj.status.pipelineVersion;
    var read, drop := Cleanup(ReadView(readable)), Cleanup(DropTable(TableName(version)));
    TableNameRoundTrip(version, appName);
    NamesAreInjective(version, Rev(f, k).status.pipelineVersion, appName);
    assert SteadyObject(Rev(f, k), appName) && !Rev(f, k).deleting;
    LeadsOn(f, [], f, start);
    assert [] + [start] == [start];
    LeadsOn(f, [start], Apply(f, start), read);
    LeadsOn(f, [start] + [read], Apply(Apply(f, start), read), drop);
    assert [start, read, drop] == [start] + [read] + [drop];
    g := Apply(Apply(Apply(f, start), read), drop);
  }

  lemma SteadyContinuation(s: Sys, ls: seq<Label>, k: nat, more: seq<Label>, appName: string)
    requires IsRun(s, ls) && SteadyRun(s, ls, appName) && DuringPass(more, appName)
    requires k <= |Final(s, ls).past| && ReadsCommitted(Final(s, ls), k)
    ensures SteadyRun(s, ls + ([Pass(Start(k))] + more), appName)
  {
    var all := ls + ([Pass(Start(k))] + more);
    forall i | 0 <= i < |all| ensures SteadyAt(s, all, i, appName) {
      Pieces(ls, Pass(Start(k)), more, i);
      if i < |ls| {
        SteadyAtStart(s, ls, all, i, appName);
      } else if i == |ls| {
        StartIsSteady(s, ls, k, all, appName);
      } else {
        NoStartIsSteady(s, all, i, appName);
      }
    }
    SteadyFromStart(s, ls, all, appName);
  }

  lemma Pieces(ls: seq<Label>, l: Label, more: seq<Label>, i: nat)
    requires i < |ls + ([l] + more)|
    ensures var all := ls + ([l] + more);
            if i < |ls| then ls[..i + 1] == all[..i + 1]
            else if i == |ls| then all[..i] == ls && all[i] == l
            else all[i] == more[i - |ls| - 1]
  {
  }

  lemma SteadyFromStart(s: Sys, ls: seq<Label>, all: seq<Label>, appName: string)
    requires SteadyRun(s, ls, appName) && forall i :: 0 <= i < |all| ==> SteadyAt(s, all, i, appName)
    ensures SteadyRun(s, all, appName)
  {
  }

  lemma StartIsSteady(s: Sys, ls: seq<Label>, k: nat, all: seq<Label>, appName: string)
    requires |ls| < |all| && all[..|ls|] == ls && all[|ls|] == Pass(Start(k))
    requires k <= |Final(s, ls).past| && ReadsCommitted(Final(s, ls), k)
    ensures SteadyAt(s, all, |ls|, appName)
  {
  }

  lemma NoStartIsSteady(s: Sys, ls: seq<Label>, k: nat, appName: string)
    requires k < |ls| && SteadyChange(ls[k], appName) && !(ls[k].Pass? && ls[k].pass.Start?)
    ensures SteadyAt(s, ls, k, appName)
  {
  }

  /**
   * Steadiness is exact: a pass can lose the table of the committed version iff the revision it reads records another
   * version. Older revisions that record the committed one are harmless.
   */
  lemma StaleReadLosesIff(s: Sys, ls: seq<Label>, k: nat, appName: string)
    requires Init(s) && IsRun(s, ls) && SteadyRun(s, ls, appName)
    requires var f := Final(s, ls);
             f.p.PIdle? && !f.gone && !f.obj.deleting && f.obj.status.pipelineVersion != "" && k <= |f.past|
    ensures var f := Final(s, ls);
            PassMayLose(f, k, appName) <==> Rev(f, k).status.pipelineVersion != f.obj.status.pipelineVersion
  {
    var f := Final(s, ls);
    InvAlways(s, ls);
    CommittedVersionIsBacked(s, ls, appName);
    if Rev(f, k).status.pipelineVersion != f.obj.status.pipelineVersion {
      var g := StaleReadLoses(f, k, false, appName);
      var more := [Cleanup(ReadView(false)), Cleanup(DropTable(f.obj.status.tableName))];
      assert [Pass(Start(k))] + more == [Pass(Start(k)), Cleanup(ReadView(false)), Cleanup(DropTable(f.obj.status.tableName))];
    } else if PassMayLose(f, k, appName) {
      var more :|
        && IsRun(f, [Pass(Start(k))] + more) && DuringPass(more, appName)
        && Lost(Final(f, [Pass(Start(k))] + more), f.obj.status.pipelineVersion, appName);
      assert !Rev(f, k).deleting;
      SteadyContinuation(s, ls, k, more, appName);
      Continue(s, ls, f, [Pass(Start(k))] + more, Final(f, [Pass(Start(k))] + more));
      CommittedVersionIsBacked(s, ls + ([Pass(Start(k))] + more), appName);
    }
  }

  // ---- A finished cleanup leaves no connector without its table.

  ghost predicate VersionNamed(table: string) {
    |table| >= |TABLE_PREFIX| && table == TableName(table[|TABLE_PREFIX|..]) && IsVersion(table[|TABLE_PREFIX|..])
  }

  /** Every connector is named after the table it writes to. */
  ghost predicate Targeted(s: Sys, appName: string) {
    && (forall v :: v in s.used ==> IsVersion(v))
    && (s.view.Some? ==> VersionNamed(s.view.value))
    && (s.p.PPass? && s.p.view.Seen? && s.p.view.table.Some? ==> VersionNamed(s.p.view.table.value))
    && (forall c :: c in s.conns ==>
          VersionNamed(s.conns[c].target) && c == TableNameToConnectorName(s.conns[c].target, appName))
  }

  lemma VersionsNameTables(v: string, appName: string)
    requires IsVersion(v)
    ensures VersionNamed(TableName(v)) && TableNameToConnectorName(TableName(v), appName) == ConnectorName(v, appName)
  {
    TableNameRoundTrip(v, appName);
  }

  lemma CleanupKeepsTargeted(s: Sys, c: CleanupStep, appName: string)
    requires Inv(s) && Backed(s, appName) && Targeted(s, appName) && CleanupEnabled(s, c)
    ensures Targeted(ApplyCleanup(s, c), appName)
  {
  }

  lemma ConnectorKeepsTargeted(s: Sys, n: SyncStep, appName: string)
    requires Inv(s) && Backed(s, appName) && Targeted(s, appName) && n.CreateConnector? && SyncEnabled(s, n)
    ensures Targeted(ApplySync(s, n), appName)
  {
    var v, s' := s.p.work.pipelineVersion, ApplySync(s, n);
    VersionsNameTables(v, appName);
    assert n.connector.target == TableName(v);
    assert s' == s.(conns := s.conns[ConnectorName(v, appName) := n.connector], p := s'.p);
  }

  lemma SyncKeepsTargeted(s: Sys, n: SyncStep, appName: string)
    requires Inv(s) && Backed(s, appName) && Targeted(s, appName) && SyncEnabled(s, n)
    ensures Targeted(ApplySync(s, n), appName)
  {
    if n.CreateConnector? {
      ConnectorKeepsTargeted(s, n, appName);
    }
  }

  lemma ActKeepsTargeted(s: Sys, a: ActStep, appName: string)
    requires Inv(s) && Backed(s, appName) && Targeted(s, appName) && ActEnabled(s, a)
    ensures Targeted(ApplyAct(s, a), appName)
  {
    if a.ShowValidTable? || a.ShowHealthier? {
      VersionsNameTables(s.p.snap.status.pipelineVersion, appName);
    }
  }

  lemma PassKeepsTargeted(s: Sys, o: PassStep, appName: string)
    requires Inv(s) && Backed(s, appName) && Targeted(s, appName) && PassEnabled(s, o)
    ensures Targeted(ApplyPass(s, o), appName)
  {
  }

  lemma ValidationKeepsTargeted(s: Sys, o: ValidationStep, appName: string)
    requires Inv(s) && Backed(s, appName) && Targeted(s, appName) && ValidationEnabled(s, o)
    ensures Targeted(ApplyValidation(s, o), appName)
  {
  }

  lemma EnvironmentKeepsTargeted(s: Sys, e: EnvironmentStep, appName: string)
    requires Inv(s) && Backed(s, appName) && Targeted(s, appName) && EnvironmentEnabled(s, e)
    ensures Targeted(ApplyEnvironment(s, e), appName)
  {
  }

  lemma StepKeepsTargeted(s: Sys, l: Label, appName: string)
    requires Inv(s) && Backed(s, appName) && Targeted(s, appName) && Enabled(s, l)
    ensures Targeted(Apply(s, l), appName)
  {
    match l
    case Cleanup(c) => CleanupKeepsTargeted(s, c, appName);
    case Sync(n) => SyncKeepsTargeted(s, n, appName);
    case Act(a) => ActKeepsTargeted(s, a, appName);
    case Pass(o) => PassKeepsTargeted(s, o, appName);
    case Validation(o) => ValidationKeepsTargeted(s, o, appName);
    case Environment(e) => EnvironmentKeepsTargeted(s, e, appName);
  }

  /** Hypotheses on the leftovers found at the start: connectors and the view refer to tables by version. */
  ghost predicate TidyStart(s: Sys, appName: string) {
    && (s.view.Some? ==> VersionNamed(s.view.value))
    && (forall c :: c in s.conns ==>
          VersionNamed(s.conns[c].target) && c == TableNameToConnectorName(s.conns[c].target, appName))
  }

  lemma {:induction false} TargetedAlways(s: Sys, ls: seq<Label>, appName: string)
    requires Init(s) && TidyStart(s, appName) && IsRun(s, ls) && SteadyRun(s, ls, appName)
    ensures Targeted(Final(s, ls), appName)
  {
    if ls != [] {
      var n := |ls| - 1;
      var before := ls[..n];
      SteadyBefore(s, ls, n, appName);
      assert SteadyAt(s, ls, n, appName);
      TargetedAlways(s, before, appName);
      CommittedVersionIsBacked(s, before, appName);
      InvAlways(s, before);
      StepKeepsTargeted(Final(s, before), ls[n], appName);
    }
  }

  lemma SameNameSameTable(c: string, target: string, other: string, appName: string)
    requires VersionNamed(target) && VersionNamed(other)
    requires c == TableNameToConnectorName(target, appName) == TableNameToConnectorName(other, appName)
    ensures target == other
  {
    NamesAreInjective(target[|TABLE_PREFIX|..], other[|TABLE_PREFIX|..], appName);
  }

  /** Every connector writes to a table that exists. */
  ghost predicate NoOrphans(s: Sys) {
    forall c :: c in s.conns ==> s.conns[c].target in s.tables
  }

  /** Once a cleanup has finished without an error, every connector that is left writes to a table that is left. */
  lemma CleanupLeavesNoOrphanConnector(s0: Sys, ls: seq<Label>, appName: string)
    requires Init(s0) && TidyStart(s0, appName) && IsRun(s0, ls) && SteadyRun(s0, ls, appName)
    requires InPhase(Final(s0, ls), Cleaned)
    ensures NoOrphans(Final(s0, ls))
  {
    SeenAlways(s0, ls);
    CommittedVersionIsBacked(s0, ls, appName);
    TargetedAlways(s0, ls, appName);
    var s := Final(s0, ls);
    forall c | c in s.conns ensures s.conns[c].target in s.tables {
      assert c in KeepConnectors(s.p.snap, s.p.view);
      var v := s.p.snap.status.pipelineVersion;
      if v != "" && c == ConnectorName(v, appName) {
        VersionsNameTables(v, appName);
        SameNameSameTable(c, s.conns[c].target, TableName(v), appName);
      } else {
        SameNameSameTable(c, s.conns[c].target, s.p.view.table.value, appName);
      }
    }
  }
}
