/** Runs that do happen: a first version, the version lost to a stale read, and the view lost to a failed query. */
module Scenarios {
  import opened Wrappers
  import opened Names
  import opened Pipeline
  import opened Connect
  import opened Protocol
  import opened Invariants
  import opened View
  import opened Resources

  /** A resource just created, with managed connectors, over an empty database and no connectors. */
  ghost predicate Blank(s: Sys, appName: string) {
    && Init(s) && SteadySpec(s.obj.spec, appName)
    && s.tables == {} && s.view == None && s.conns == map[]
  }

  function FirstStatus(s: Sys, version: string): Status {
    ToInitialSync(false, s.obj.spec, EMPTY_STATUS.(cyndiConfigVersion := "config", specHash := "spec"), version)
  }

  function WithFinalizer(s: Sys): Object {
    s.obj.(rv := 1, finalizer := true)
  }

  function CleanedPass(s: Sys): Sys {
    s.(p := PPass(s.obj, s.obj.status, Seen(None), Cleaned))
  }

  lemma FirstCleanup(s: Sys, appName: string)
    requires Blank(s, appName)
    ensures LeadsTo(s, [Pass(Start(0)), Cleanup(ReadView(true)), Cleanup(Finish)], CleanedPass(s))
  {
    var s1 := s.(p := PPass(s.obj, s.obj.status, NotRead, Cleaning));
    var s2 := s.(p := PPass(s.obj, s.obj.status, Seen(None), Cleaning));
    ThreeSteps(s, Pass(Start(0)), s1, Cleanup(ReadView(true)), s2, Cleanup(Finish), CleanedPass(s));
  }

  function Chosen(s: Sys, version: string, phase: Phase): Sys {
    s.(obj := WithFinalizer(s), past := [s.obj], used := {version},
       p := PPass(WithFinalizer(s), FirstStatus(s, version), Seen(None), phase))
  }

  lemma FirstChoice(s: Sys, version: string, appName: string)
    requires Blank(s, appName) && IsVersion(version)
    ensures LeadsTo(CleanedPass(s), [Sync(AddFinalizer), Sync(Begin(version, "config", "spec"))], Chosen(s, version, Creating(false)))
  {
    var s4 := s.(obj := WithFinalizer(s), past := [s.obj], p := PPass(WithFinalizer(s), s.obj.status, Seen(None), Cleaned));
    LeadsOn(CleanedPass(s), [], CleanedPass(s), Sync(AddFinalizer));
    assert [] + [Sync(AddFinalizer)] == [Sync(AddFinalizer)];
    LeadsOn(CleanedPass(s), [Sync(AddFinalizer)], s4, Sync(Begin(version, "config", "spec")));
    assert [Sync(AddFinalizer), Sync(Begin(version, "config", "spec"))]
        == [Sync(AddFinalizer)] + [Sync(Begin(version, "config", "spec"))];
  }

  /** The state in which the first version is committed. */
  function FirstVersion(s: Sys, version: string, connector: Connector): Sys {
    s.(obj := WithFinalizer(s).(rv := 2, status := FirstStatus(s, version)), past := [s.obj, WithFinalizer(s)],
       used := {version}, tables := {TableName(version)},
       conns := map[ConnectorName(version, s.obj.spec.appName) := connector])
  }

  function WithTable(s: Sys, version: string): Sys {
    Chosen(s, version, Creating(true)).(tables := {TableName(version)})
  }

  function WithConnector(s: Sys, version: string, connector: Connector): Sys {
    Chosen(s, version, Committing).(
      tables := {TableName(version)}, conns := map[ConnectorName(version, s.obj.spec.appName) := connector])
  }

  lemma TableIsCreated(s: Sys, version: string, appName: string)
    requires Blank(s, appName) && IsVersion(version)
    ensures Enabled(Chosen(s, version, Creating(false)), Sync(CreateTable))
    ensures Apply(Chosen(s, version, Creating(false)), Sync(CreateTable)) == WithTable(s, version)
  {
  }

  lemma ConnectorIsCreated(s: Sys, version: string, connector: Connector, appName: string)
    requires Blank(s, appName) && IsVersion(version) && connector.target == TableName(version)
    ensures Enabled(WithTable(s, version), Sync(CreateConnector(connector)))
    ensures Apply(WithTable(s, version), Sync(CreateConnector(connector))) == WithConnector(s, version, connector)
  {
  }

  lemma VersionIsCommitted(s: Sys, version: string, connector: Connector, appName: string)
    requires Blank(s, appName) && IsVersion(version)
    ensures Enabled(WithConnector(s, version, connector), Pass(Commit))
    ensures Apply(WithConnector(s, version, connector), Pass(Commit)) == FirstVersion(s, version, connector)
  {
  }

  lemma FirstCreation(s: Sys, version: string, connector: Connector, appName: string)
    requires Blank(s, appName) && IsVersion(version) && connector.target == TableName(version)
    ensures LeadsTo(Chosen(s, version, Creating(false)),
                    [Sync(CreateTable), Sync(CreateConnector(connector)), Pass(Commit)], FirstVersion(s, version, connector))
  {
    TableIsCreated(s, version, appName);
    ConnectorIsCreated(s, version, connector, appName);
    VersionIsCommitted(s, version, connector, appName);
    ThreeSteps(Chosen(s, version, Creating(false)), Sync(CreateTable), WithTable(s, version), Sync(CreateConnector(connector)),
               WithConnector(s, version, connector), Pass(Commit), FirstVersion(s, version, connector));
  }

  lemma ThreeSteps(a: Sys, x: Label, b: Sys, y: Label, c: Sys, z: Label, d: Sys)
    requires Enabled(a, x) && b == Apply(a, x) && Enabled(b, y) && c == Apply(b, y) && Enabled(c, z) && d == Apply(c, z)
    ensures LeadsTo(a, [x, y, z], d)
  {
    OneStep(a, x, b);
    LeadsOn(a, [x], b, y);
    LeadsOn(a, [x] + [y], c, z);
    assert [x, y, z] == [x] + [y] + [z];
  }

  lemma OneStep(a: Sys, x: Label, b: Sys)
    requires Enabled(a, x) && b == Apply(a, x)
    ensures LeadsTo(a, [x], b)
  {
    LeadsOn(a, [], a, x);
    assert [] + [x] == [x];
  }

  /** A steady run that commits its first version. */
  lemma FirstVersionIsCommitted(s: Sys, version: string, connector: Connector, appName: string) returns (ls: seq<Label>)
    requires Blank(s, appName) && IsVersion(version) && connector.target == TableName(version)
    ensures LeadsTo(s, ls, FirstVersion(s, version, connector)) && SteadyRun(s, ls, appName)
  {
    FirstCleanup(s, appName);
    FirstChoice(s, version, appName);
    FirstCreation(s, version, connector, appName);
    var a := [Pass(Start(0)), Cleanup(ReadView(true)), Cleanup(Finish)];
    var b := [Sync(AddFinalizer), Sync(Begin(version, "config", "spec"))];
    var c := [Sync(CreateTable), Sync(CreateConnector(connector)), Pass(Commit)];
    Continue(s, a, CleanedPass(s), b, Chosen(s, version, Creating(false)));
    Continue(s, a + b, Chosen(s, version, Creating(false)), c, FirstVersion(s, version, connector));
    ls := a + b + c;
    var more := a[1..] + b + c;
    assert ls == [] + ([Pass(Start(0))] + more);
    SteadyContinuation(s, [], 0, more, appName);
  }

  /** Stale reads do lose a committed version: the first one, to a second pass that still reads the very first revision. */
  lemma StaleReadScenario(s: Sys, version: string, connector: Connector, appName: string)
    returns (ls: seq<Label>, more: seq<Label>, g: Sys)
    requires Blank(s, appName) && IsVersion(version) && connector.target == TableName(version)
    ensures LeadsTo(s, ls, FirstVersion(s, version, connector)) && SteadyRun(s, ls, appName)
    ensures LeadsTo(s, ls + more, g) && ViewAlwaysReadable(more) && Lost(g, version, appName)
  {
    ls := FirstVersionIsCommitted(s, version, connector, appName);
    var f := FirstVersion(s, version, connector);
    InvAlways(s, ls);
    CommittedVersionIsBacked(s, ls, appName);
    g := StaleReadLoses(f, 0, true, appName);
    more := [Pass(Start(0)), Cleanup(ReadView(true)), Cleanup(DropTable(f.obj.status.tableName))];
    Continue(s, ls, f, more, g);
  }

  /** The view does get lost without a deletion request: any leftover view over a hosts_ table, if reading it fails once. */
  lemma ViewLossScenario(s: Sys) returns (g: Sys)
    requires Init(s) && s.view.Some? && Listed(s.view.value)
    ensures LeadsTo(s, [Pass(Start(0)), Cleanup(ReadView(false)), Cleanup(DropTable(s.view.value))], g)
    ensures g.view == None && s.view.value !in g.tables && !g.obj.deleting
  {
    var table := s.view.value;
    var s1 := s.(p := PPass(s.obj, s.obj.status, NotRead, Cleaning));
    var s2 := s.(p := PPass(s.obj, s.obj.status, Unreadable, Cleaning));
    g := s2.(tables := s.tables - {table}, view := None);
    assert KeepTables(s.obj, Unreadable) == {};
    ThreeSteps(s, Pass(Start(0)), s1, Cleanup(ReadView(false)), s2, Cleanup(DropTable(table)), g);
  }
}
