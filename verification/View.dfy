/** The inventory.hosts view: which table it may be moved to, and when it may be lost. */
module View {
  import opened Wrappers
  import opened Lang
  import opened Names
  import opened Pipeline
  import opened Protocol
  import opened Invariants

  // ---- The view is only lost where the cleanup could not see it.

  /** What a pass saw of the view is still there, unless the pipeline is being removed. */
  ghost predicate SeenOk(s: Sys) {
    s.p.PPass? && s.p.view.Seen? && !s.p.snap.deleting ==>
      && (s.p.view.table.Some? ==> s.p.view.table.value in s.tables)
      && (s.p.phase.Cleaning? ==> s.view == s.p.view.table)
      && (s.p.view.table.Some? ==> s.view.Some?)
  }

  lemma CleanupKeepsSeen(s: Sys, c: CleanupStep)
    requires Inv(s) && SeenOk(s) && CleanupEnabled(s, c)
    ensures SeenOk(ApplyCleanup(s, c))
  {
    if c.DropTable? && s.p.view.Seen? && s.p.view.table.Some? && !s.p.snap.deleting {
      assert s.p.view.table.value in KeepTables(s.p.snap, s.p.view);
    }
  }

  lemma SyncKeepsSeen(s: Sys, n: SyncStep)
    requires Inv(s) && SeenOk(s) && SyncEnabled(s, n)
    ensures SeenOk(ApplySync(s, n))
  {
    if n.AddFinalizer? {
      assert s.p.snap == s.obj;
    }
  }

  lemma ActKeepsSeen(s: Sys, a: ActStep)
    requires Inv(s) && SeenOk(s) && ActEnabled(s, a)
    ensures SeenOk(ApplyAct(s, a))
  {
  }

  lemma PassKeepsSeen(s: Sys, o: PassStep)
    requires Inv(s) && SeenOk(s) && PassEnabled(s, o)
    ensures SeenOk(ApplyPass(s, o))
  {
  }

  lemma ValidationKeepsSeen(s: Sys, o: ValidationStep)
    requires Inv(s) && SeenOk(s) && ValidationEnabled(s, o)
    ensures SeenOk(ApplyValidation(s, o))
  {
  }

  lemma EnvironmentKeepsSeen(s: Sys, e: EnvironmentStep)
    requires Inv(s) && SeenOk(s) && EnvironmentEnabled(s, e)
    ensures SeenOk(ApplyEnvironment(s, e))
  {
  }

  lemma StepKeepsSeen(s: Sys, l: Label)
    requires Inv(s) && SeenOk(s) && Enabled(s, l)
    ensures SeenOk(Apply(s, l))
  {
    match l
    case Cleanup(c) => CleanupKeepsSeen(s, c);
    case Sync(n) => SyncKeepsSeen(s, n);
    case Act(a) => ActKeepsSeen(s, a);
    case Pass(o) => PassKeepsSeen(s, o);
    case Validation(o) => ValidationKeepsSeen(s, o);
    case Environment(e) => EnvironmentKeepsSeen(s, e);
  }

  lemma {:induction false} SeenAlways(s: Sys, ls: seq<Label>)
    requires Init(s) && IsRun(s, ls)
    ensures Inv(Final(s, ls)) && SeenOk(Final(s, ls))
  {
    if ls != [] {
      var before := ls[..|ls| - 1];
      SeenAlways(s, before);
      StepKeepsInv(Final(s, before), ls[|ls| - 1]);
      StepKeepsSeen(Final(s, before), ls[|ls| - 1]);
    }
  }

  /** The step takes the table behind the view away, and the view with it. */
  ghost predicate LosesView(s: Sys, l: Label) {
    s.view.Some? && Apply(s, l).view.None?
  }

  /** A cleanup drops the view's table because the pipeline is being removed, or because it could not read the view. */
  ghost predicate DropsViewUnseen(s: Sys, l: Label) {
    && s.view.Some? && s.p.PPass? && l == Cleanup(DropTable(s.view.value))
    && (s.p.snap.deleting || (s.p.view.Unreadable? && s.view.value !in KeepTables(s.p.snap, Unreadable)))
  }

  lemma CleanupMayLoseView(s: Sys, c: CleanupStep)
    requires Inv(s) && SeenOk(s) && CleanupEnabled(s, c)
    ensures s.view.Some? && ApplyCleanup(s, c).view.None? <==> DropsViewUnseen(s, Cleanup(c))
  {
    if s.view.Some? && s.p.view.Seen? && !s.p.snap.deleting {
      assert s.view.value in KeepTables(s.p.snap, s.p.view);
    }
    if c.DropTable? && s.view == Some(c.table) {
      assert s.p.view.Unreadable? ==> KeepTables(s.p.snap, s.p.view) == KeepTables(s.p.snap, Unreadable);
    }
  }

  lemma SyncKeepsView(s: Sys, n: SyncStep)
    requires SyncEnabled(s, n)
    ensures s.view.Some? ==> ApplySync(s, n).view.Some?
  {
  }

  lemma ActKeepsView(s: Sys, a: ActStep)
    requires ActEnabled(s, a)
    ensures s.view.Some? ==> ApplyAct(s, a).view.Some?
  {
  }

  lemma PassKeepsView(s: Sys, o: PassStep)
    requires PassEnabled(s, o)
    ensures s.view.Some? ==> ApplyPass(s, o).view.Some?
  {
  }

  lemma ValidationKeepsView(s: Sys, o: ValidationStep)
    requires ValidationEnabled(s, o)
    ensures s.view.Some? ==> ApplyValidation(s, o).view.Some?
  {
  }

  lemma EnvironmentKeepsView(s: Sys, e: EnvironmentStep)
    requires EnvironmentEnabled(s, e)
    ensures s.view.Some? ==> ApplyEnvironment(s, e).view.Some?
  {
  }

  /**
   * In every run, and however stale the snapshot: the view is lost in exactly one way, by a cleanup that drops its
   * table because the pipeline is being removed or because GetCurrentTable failed in that very pass.
   */
  lemma ViewLostOnlyUnseen(s0: Sys, ls: seq<Label>, l: Label)
    requires Init(s0) && IsRun(s0, ls) && Enabled(Final(s0, ls), l)
    ensures LosesView(Final(s0, ls), l) <==> DropsViewUnseen(Final(s0, ls), l)
  {
    SeenAlways(s0, ls);
    var s := Final(s0, ls);
    match l
    case Cleanup(c) => CleanupMayLoseView(s, c);
    case Sync(n) => SyncKeepsView(s, n);
    case Act(a) => ActKeepsView(s, a);
    case Pass(o) => PassKeepsView(s, o);
    case Validation(o) => ValidationKeepsView(s, o);
    case Environment(e) => EnvironmentKeepsView(s, e);
  }

  /** A run in which no pass failed to read the view. */
  ghost predicate ViewAlwaysReadable(ls: seq<Label>) {
    forall k :: 0 <= k < |ls| ==> ls[k] != Cleanup(ReadView(false))
  }

  ghost predicate NeverUnreadable(s: Sys) {
    s.p.PPass? ==> !s.p.view.Unreadable?
  }

  lemma {:induction false} ReadableRunsSee(s: Sys, ls: seq<Label>)
    requires Init(s) && IsRun(s, ls) && ViewAlwaysReadable(ls)
    ensures NeverUnreadable(Final(s, ls))
  {
    if ls != [] {
      var n := |ls| - 1;
      ReadableRunsSee(s, ls[..n]);
      assert ls[n] != Cleanup(ReadView(false));
      ReadableStep(Final(s, ls[..n]), ls[n]);
    }
  }

  lemma ReadableStep(s: Sys, l: Label)
    requires NeverUnreadable(s) && Enabled(s, l) && l != Cleanup(ReadView(false))
    ensures NeverUnreadable(Apply(s, l))
  {
  }

  lemma DeletionStays(s: Sys, l: Label)
    requires s.obj.deleting && Enabled(s, l)
    ensures Apply(s, l).obj.deleting
  {
    match l
    case Cleanup(_) =>
    case Sync(_) =>
    case Act(_) =>
    case Pass(_) =>
    case Validation(_) =>
    case Environment(_) =>
  }

  /**
   * Until deletion is requested, applications never lose the view: once there, it stays there, always over an existing
   * table, in every run whose passes could read it; the snapshots may be arbitrarily stale.
   */
  lemma {:induction false} ViewIsNeverLost(s: Sys, ls: seq<Label>, k: nat)
    requires Init(s) && IsRun(s, ls) && ViewAlwaysReadable(ls) && k <= |ls|
    requires !Final(s, ls).obj.deleting && Final(s, ls[..k]).view.Some?
    ensures Final(s, ls).view.Some? && Final(s, ls).view.value in Final(s, ls).tables
  {
    SeenAlways(s, ls);
    if k < |ls| {
      var n := |ls| - 1;
      var before := ls[..n];
      var f, l := Final(s, before), ls[n];
      assert before[..k] == ls[..k];
      SeenAlways(s, before);
      if f.obj.deleting { DeletionStays(f, l); }
      ViewIsNeverLost(s, before, k);
      ReadableRunsSee(s, before);
      assert f.p.PPass? && f.p.snap.deleting ==> f.obj.deleting;
      ViewLostOnlyUnseen(s, before, l);
    } else {
      assert ls[..k] == ls;
    }
  }

  // ---- Every move of the view is justified.

  /** Some committed status had `table` as a valid pipeline's table. */
  ghost predicate WasValid(s: Sys, table: string) {
    exists k :: 0 <= k <= |s.past| && Rev(s, k).status.IsValid() && Rev(s, k).status.tableName == table
  }

  /** The pass gives up on a pipeline that never became valid. */
  ghost predicate GivesUp(s: Sys) {
    s.p.PPass? && GetState(s.p.snap) == StateInitialSync && s.p.snap.status.GetValid() == ConditionFalse
  }

  ghost predicate MoveJustified(s: Sys, l: Label, table: string) {
    && s.p.PPass? && !s.p.snap.deleting && s.p.snap.spec.ConnectorsManaged()
    && table == s.p.snap.status.tableName && table in s.tables
    && (|| WasValid(s, table)
        || (GivesUp(s) && s.view.None?)
        || (&& GivesUp(s) && s.view.Some? && l.Act? && l.act.ShowHealthier?
            && Distance64(l.act.inventoryCount, l.act.latestCount) <= Distance64(l.act.inventoryCount, l.act.activeCount)))
  }

  lemma CleanupMovesJustified(s: Sys, c: CleanupStep)
    requires Inv(s) && CleanupEnabled(s, c)
    ensures ApplyCleanup(s, c).view.Some? && ApplyCleanup(s, c).view != s.view ==> MoveJustified(s, Cleanup(c), ApplyCleanup(s, c).view.value)
  {
  }

  lemma SyncMovesJustified(s: Sys, n: SyncStep)
    requires Inv(s) && SyncEnabled(s, n)
    ensures ApplySync(s, n).view.Some? && ApplySync(s, n).view != s.view ==> MoveJustified(s, Sync(n), ApplySync(s, n).view.value)
  {
  }

  lemma ActMovesJustified(s: Sys, a: ActStep)
    requires Inv(s) && ActEnabled(s, a)
    ensures ApplyAct(s, a).view.Some? && ApplyAct(s, a).view != s.view ==> MoveJustified(s, Act(a), ApplyAct(s, a).view.value)
  {
    if a.ShowValidTable? {
      assert Rev(s, s.p.snap.rv).status.IsValid();
    }
  }

  lemma PassMovesJustified(s: Sys, o: PassStep)
    requires Inv(s) && PassEnabled(s, o)
    ensures ApplyPass(s, o).view.Some? && ApplyPass(s, o).view != s.view ==> MoveJustified(s, Pass(o), ApplyPass(s, o).view.value)
  {
  }

  lemma ValidationMovesJustified(s: Sys, o: ValidationStep)
    requires Inv(s) && ValidationEnabled(s, o)
    ensures ApplyValidation(s, o).view.Some? && ApplyValidation(s, o).view != s.view ==> MoveJustified(s, Validation(o), ApplyValidation(s, o).view.value)
  {
  }

  lemma EnvironmentMovesJustified(s: Sys, e: EnvironmentStep)
    requires Inv(s) && EnvironmentEnabled(s, e)
    ensures ApplyEnvironment(s, e).view.Some? && ApplyEnvironment(s, e).view != s.view ==> MoveJustified(s, Environment(e), ApplyEnvironment(s, e).view.value)
  {
  }

  /**
   * The view moves in three situations: its new table was valid in a committed status; or a pass gives up on a pipeline
   * and there is no view yet; or it gives up and its table is at least as close to the inventory as the old one.
   */
  lemma ViewMovesAreJustified(s0: Sys, ls: seq<Label>, l: Label)
    requires Init(s0) && IsRun(s0, ls) && Enabled(Final(s0, ls), l)
    ensures var s, s' := Final(s0, ls), Apply(Final(s0, ls), l);
            s'.view.Some? && s'.view != s.view ==> MoveJustified(s, l, s'.view.value)
  {
    InvAlways(s0, ls);
    var s := Final(s0, ls);
    match l
    case Cleanup(c) => CleanupMovesJustified(s, c);
    case Sync(n) => SyncMovesJustified(s, n);
    case Act(a) => ActMovesJustified(s, a);
    case Pass(o) => PassMovesJustified(s, o);
    case Validation(o) => ValidationMovesJustified(s, o);
    case Environment(e) => EnvironmentMovesJustified(s, e);
  }

  // ---- The slice of the view's table name.

  ghost predicate LongName(table: Option<string>) {
    table.Some? ==> |table.value| >= |TABLE_PREFIX|
  }

  ghost predicate LongNames(s: Sys) {
    LongName(s.view) && (s.p.PPass? && s.p.view.Seen? ==> LongName(s.p.view.table))
  }

  lemma ActKeepsLongNames(s: Sys, a: ActStep)
    requires Inv(s) && LongNames(s) && ActEnabled(s, a)
    ensures LongNames(ApplyAct(s, a))
  {
    assert NamedTable(s.p.snap.status.tableName, s.used);
  }

  lemma CleanupKeepsLongNames(s: Sys, c: CleanupStep)
    requires LongNames(s) && CleanupEnabled(s, c)
    ensures LongNames(ApplyCleanup(s, c))
  {
  }

  lemma SyncKeepsLongNames(s: Sys, n: SyncStep)
    requires LongNames(s) && SyncEnabled(s, n)
    ensures LongNames(ApplySync(s, n))
  {
  }

  lemma StepKeepsLongNames(s: Sys, l: Label)
    requires Inv(s) && LongNames(s) && Enabled(s, l)
    ensures LongNames(Apply(s, l))
  {
    match l
    case Cleanup(c) => CleanupKeepsLongNames(s, c);
    case Sync(n) => SyncKeepsLongNames(s, n);
    case Act(a) => ActKeepsLongNames(s, a);
    case Pass(_) =>
    case Validation(_) =>
    case Environment(_) =>
  }

  /** The slice panics in no run that starts without a view, or with one over a table whose name can be sliced. */
  lemma {:induction false} SliceNeverPanics(s: Sys, ls: seq<Label>)
    requires Init(s) && LongName(s.view) && IsRun(s, ls)
    ensures LongNames(Final(s, ls))
    ensures var p := Final(s, ls).p; p.PPass? ==> SliceInBounds(p.snap, p.view)
  {
    if ls != [] {
      var before := ls[..|ls| - 1];
      SliceNeverPanics(s, before);
      InvAlways(s, before);
      StepKeepsLongNames(Final(s, before), ls[|ls| - 1]);
    }
  }
}
