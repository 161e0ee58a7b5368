/**
 * What cleanups drop and what they keep, in terms of names and prefixes: for every step of every run, and for
 * undisturbed passes.
 */
module Cleanups {
  import opened Wrappers
  import opened Names
  import opened Pipeline
  import opened Config
  import opened Connect
  import opened Deviation
  import opened Protocol
  import opened Invariants
  import opened Calm

  predicate Managed(o: Object) {
    o.spec.managedConnectors != Some(false)
  }

  /** A resource that is not being removed keeps its version's table, its recorded one if unmanaged, and the view's. */
  ghost predicate TableKept(o: Object, view: ViewRead, table: string) {
    !o.deleting &&
    (|| (o.status.pipelineVersion != "" && table == "hosts_v" + o.status.pipelineVersion)
     || (!Managed(o) && o.status.tableName != "" && table == o.status.tableName)
     || view == Seen(Some(table)))
  }

  /** One with managed connectors keeps its version's connector and that of the table the view shows. */
  ghost predicate ConnectorKept(o: Object, view: ViewRead, name: string) {
    !o.deleting && Managed(o) &&
    (|| (o.status.pipelineVersion != "" && name == ConnectorName(o.status.pipelineVersion, o.spec.appName))
     || (view.Seen? && view.table.Some? && |view.table.value| >= 7 && name == ConnectorName(view.table.value[7..], o.spec.appName)))
  }

  /** LIKE 'hosts_%'. */
  predicate HostsTable(table: string) {
    |table| >= 6 && table[..5] == "hosts"
  }

  /** The prefix of the view's table is sliced off only for a managed resource that is not being removed. */
  ghost predicate NameCanBeSliced(o: Object, view: ViewRead) {
    o.deleting || !Managed(o) || !view.Seen? || view.table.None? || |view.table.value| >= 7
  }

  lemma SliceInBoundsIff(o: Object, view: ViewRead)
    ensures SliceInBounds(o, view) <==> NameCanBeSliced(o, view)
  {
  }

  lemma KeptTables(o: Object, view: ViewRead, table: string)
    ensures table in KeepTables(o, view) <==> TableKept(o, view, table)
  {
  }

  lemma KeptConnectors(o: Object, view: ViewRead, name: string)
    requires SliceInBounds(o, view)
    ensures name in KeepConnectors(o, view) <==> ConnectorKept(o, view, name)
  {
  }

  // ---- Every step of every run.

  lemma SyncDropsNothing(s: Sys, n: SyncStep)
    requires SyncEnabled(s, n)
    ensures s.tables <= ApplySync(s, n).tables && s.conns.Keys <= ApplySync(s, n).conns.Keys
  {
  }

  lemma ActDropsNothing(s: Sys, a: ActStep)
    requires ActEnabled(s, a)
    ensures ApplyAct(s, a).tables == s.tables && ApplyAct(s, a).conns.Keys == s.conns.Keys
  {
  }

  lemma OnlyCleanupsDrop(s: Sys, l: Label)
    requires Enabled(s, l) && !l.Cleanup?
    ensures s.tables <= Apply(s, l).tables && s.conns.Keys <= Apply(s, l).conns.Keys
  {
    match l
    case Sync(n) => SyncDropsNothing(s, n);
    case Act(a) => ActDropsNothing(s, a);
    case Pass(_) =>
    case Validation(_) =>
    case Environment(_) =>
  }

  /**
   * However stale the snapshot: a table goes in one way only, by a cleanup, and then it is a hosts_ table that the
   * snapshot does not keep.
   */
  lemma OnlyStaleTablesAreDropped(s: Sys, ls: seq<Label>, l: Label, table: string)
    requires Init(s) && IsRun(s, ls) && Enabled(Final(s, ls), l)
    requires table in Final(s, ls).tables && table !in Apply(Final(s, ls), l).tables
    ensures l == Cleanup(DropTable(table)) && HostsTable(table)
    ensures var p := Final(s, ls).p; p.PPass? && !TableKept(p.snap, p.view, table)
  {
    var f := Final(s, ls);
    if !l.Cleanup? {
      OnlyCleanupsDrop(f, l);
    } else {
      KeptTables(f.p.snap, f.p.view, table);
    }
  }

  /** The same for connectors: in particular, the connector that feeds the table the pass saw behind the view stays. */
  lemma OnlyStaleConnectorsAreDropped(s: Sys, ls: seq<Label>, l: Label, name: string)
    requires Init(s) && IsRun(s, ls) && Enabled(Final(s, ls), l)
    requires name in Final(s, ls).conns && name !in Apply(Final(s, ls), l).conns
    ensures l == Cleanup(DropConnector(name))
    ensures var p := Final(s, ls).p; p.PPass? && !ConnectorKept(p.snap, p.view, name)
  {
    var f := Final(s, ls);
    assert name in f.conns.Keys;
    if !l.Cleanup? {
      OnlyCleanupsDrop(f, l);
    } else {
      KeptConnectors(f.p.snap, f.p.view, name);
    }
  }

  lemma ViewsConnectorIsNeverDropped(s: Sys, ls: seq<Label>, name: string, table: string)
    requires Init(s) && IsRun(s, ls) && Enabled(Final(s, ls), Cleanup(DropConnector(name)))
    requires var p := Final(s, ls).p; p.view == Seen(Some(table)) && !p.snap.deleting && Managed(p.snap)
    ensures |table| >= 7 && name != ConnectorName(table[7..], Final(s, ls).p.snap.spec.appName)
  {
    KeptConnectors(Final(s, ls).p.snap, Final(s, ls).p.view, name);
  }

  /** Conversely nothing that is stale stays: a cleanup finishes without an error only when all of it is gone. */
  lemma FinishedCleanupsLeaveOnlyKept(s: Sys, ls: seq<Label>)
    requires Init(s) && IsRun(s, ls) && Enabled(Final(s, ls), Cleanup(Finish))
    ensures var f := Final(s, ls);
            && (forall t :: t in f.tables && HostsTable(t) ==> TableKept(f.p.snap, f.p.view, t))
            && (forall n :: n in f.conns ==> ConnectorKept(f.p.snap, f.p.view, n))
  {
    var f := Final(s, ls);
    forall t | t in f.tables && HostsTable(t) ensures TableKept(f.p.snap, f.p.view, t) {
      assert t in ListedTables(f);
      KeptTables(f.p.snap, f.p.view, t);
    }
    forall n | n in f.conns ensures ConnectorKept(f.p.snap, f.p.view, n) {
      assert n in f.conns.Keys;
      KeptConnectors(f.p.snap, f.p.view, n);
    }
  }

  // ---- Undisturbed passes.

  /** What the cleanup of an undisturbed pass reads of the view. */
  function ReadCalm(w: World, e: Env): ViewRead {
    if ConfigFor(w, e).Some? then Seen(w.view) else Unreadable
  }

  /** The status of the version a NEW pipeline would get. */
  ghost predicate Creates(w: World, table: string, version: string) {
    && !w.obj.deleting && w.obj.status.pipelineVersion == ""
    && table == if Managed(w.obj) || w.obj.status.tableName == "" then "hosts_v" + version else w.obj.status.tableName
  }

  lemma CommitLeavesResources(w: World, original: Status, work: Status)
    ensures var w' := CommitCalm(w, original, work);
            w'.tables == w.tables && w'.conns == w.conns && w'.view == w.view && w'.gone == w.gone
  {
  }

  lemma ActLeavesResources(w: World, e: Env, cfg: CyndiConfiguration)
    ensures var w' := ActCalm(w, e, cfg);
            && w'.tables == w.tables && w'.conns.Keys == w.conns.Keys
            && forall n :: n in w.conns ==> w'.conns[n] == w.conns[n].(state := w'.conns[n].state)
  {
  }

  lemma SyncAddsResources(w: World, e: Env, cfg: CyndiConfiguration, version: string)
    requires GetState(w.obj) == StateNew
    ensures var w' := SyncCalm(w, e, cfg, version);
            && w.tables <= w'.tables && w.conns.Keys <= w'.conns.Keys
            && (forall t :: t in w'.tables && t !in w.tables ==> Creates(w, t, version))
            && (forall n :: n in w'.conns && n !in w.conns ==> Managed(w.obj) && n == ConnectorName(version, w.obj.spec.appName))
            && forall n :: n in w.conns ==> w'.conns[n] == w.conns[n]
  {
    var st := ToInitialSync(false, w.obj.spec,
      w.obj.status.(cyndiConfigVersion := cfg.configMapVersion, specHash := cfg.specHash), version);
    NewVersionSpelledOut(w.obj.spec, w.obj.status.(cyndiConfigVersion := cfg.configMapVersion, specHash := cfg.specHash), version);
    assert Creates(w, st.tableName, version);
  }

  /** After its cleanup a pass adds what a new version needs, and takes nothing away. */
  lemma EndAddsResources(w: World, e: Env, config: Option<CyndiConfiguration>, version: string)
    ensures var w' := EndCalm(w, e, config, version);
            && w.tables <= w'.tables && w.conns.Keys <= w'.conns.Keys
            && (forall t :: t in w'.tables && t !in w.tables ==> Creates(w, t, version))
            && (forall n :: n in w'.conns && n !in w.conns ==>
                  Managed(w.obj) && GetState(w.obj) == StateNew && n == ConnectorName(version, w.obj.spec.appName))
            && forall n :: n in w.conns ==> w'.conns[n] == w.conns[n].(state := w'.conns[n].state)
  {
    if !w.obj.deleting && config.Some? {
      if GetState(w.obj) == StateNew {
        SyncAddsResources(w, e, config.value, version);
      } else if DeviationOf(w, e, config.value) == NoDeviation {
        ActLeavesResources(w, e, config.value);
      } else {
        CommitLeavesResources(w, w.obj.status, ToNew(w.obj.status));
      }
    }
  }

  /**
   * Which tables an undisturbed pass with a configuration leaves: every table that is not a hosts_ table, and of those
   * exactly the kept ones; only a new version adds one.
   */
  lemma TablesAfterPass(w: World, e: Env, version: string, table: string)
    requires !w.gone && ConfigFor(w, e).Some? && NameCanBeSliced(w.obj, Seen(w.view))
    requires !Creates(w, table, version)
    ensures table in PassCalm(w, e, version).tables
            <==> table in w.tables && (HostsTable(table) ==> TableKept(w.obj, Seen(w.view), table))
  {
    SliceInBoundsIff(w.obj, Seen(w.view));
    var w1 := CleanedUp(w, Seen(w.view), true);
    KeptTables(w.obj, Seen(w.view), table);
    EndAddsResources(w1, e, ConfigFor(w, e), version);
  }

  /** Without a configuration, or where the slice panics, no table and no view is touched. */
  lemma TablesWithoutConfig(w: World, e: Env, version: string)
    requires ConfigFor(w, e).None? || !NameCanBeSliced(w.obj, Seen(w.view)) || w.gone
    ensures PassCalm(w, e, version).tables == w.tables
    ensures w.view.Some? && w.view.value in w.tables ==> PassCalm(w, e, version).view == w.view
  {
  }

  /** Which connectors an undisturbed pass leaves: exactly the kept ones, unchanged but for being paused or resumed. */
  lemma ConnectorsAfterPass(w: World, e: Env, version: string, name: string)
    requires !w.gone && NameCanBeSliced(w.obj, ReadCalm(w, e))
    requires name != ConnectorName(version, w.obj.spec.appName)
    ensures var w' := PassCalm(w, e, version);
            && (name in w'.conns <==> name in w.conns && ConnectorKept(w.obj, ReadCalm(w, e), name))
            && (name in w'.conns ==> w'.conns[name] == w.conns[name].(state := w'.conns[name].state))
  {
    SliceInBoundsIff(w.obj, ReadCalm(w, e));
    var w1 := CleanedUp(w, ReadCalm(w, e), ConfigFor(w, e).Some?);
    KeptConnectors(w.obj, ReadCalm(w, e), name);
    EndAddsResources(w1, e, ConfigFor(w, e), version);
    assert name in w1.conns ==> w1.conns[name] == w.conns[name];
  }

  /** In particular the table applications read stays fed while a refresh is under way. */
  lemma ViewsConnectorSurvivesPass(w: World, e: Env, version: string, table: string)
    requires !w.gone && !w.obj.deleting && Managed(w.obj) && ConfigFor(w, e).Some?
    requires w.view == Some(table) && |table| >= 7
    requires ConnectorName(table[7..], w.obj.spec.appName) in w.conns
    requires ConnectorName(table[7..], w.obj.spec.appName) != ConnectorName(version, w.obj.spec.appName)
    ensures var name := ConnectorName(table[7..], w.obj.spec.appName);
            name in PassCalm(w, e, version).conns && PassCalm(w, e, version).conns[name].target == w.conns[name].target
  {
    ConnectorsAfterPass(w, e, version, ConnectorName(table[7..], w.obj.spec.appName));
  }
}
