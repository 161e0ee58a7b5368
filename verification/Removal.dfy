/** Removal of a pipeline: what is guaranteed when the finalizer goes. */
module Removal {
  import opened Wrappers
  import opened Names
  import opened Pipeline
  import opened Protocol
  import opened Invariants

  /** No hosts_ table, no view over one, and no connector of the pipeline. */
  ghost predicate Clean(s: Sys) {
    ListedTables(s) == {} && s.conns == map[] && (s.view.Some? ==> !Listed(s.view.value))
  }

  lemma RemovalIsClean(s: Sys)
    requires Inv(s) && !s.ephemeral && PassEnabled(s, RemoveFinalizer)
    ensures Clean(s)
  {
    assert KeepTables(s.p.snap, s.p.view) == {} && KeepConnectors(s.p.snap, s.p.view) == {};
    assert s.conns.Keys == {};
    assert forall t :: t in s.tables && Listed(t) ==> t in ListedTables(s);
  }

  /** Outside EPHEMERAL mode a pass can remove the finalizer only after everything is gone, and only on the latest revision. */
  lemma FinalizerGuardsCleanup(s0: Sys, ls: seq<Label>)
    requires Init(s0) && IsRun(s0, ls) && !Final(s0, ls).ephemeral
    requires Enabled(Final(s0, ls), Pass(RemoveFinalizer))
    ensures Clean(Final(s0, ls)) && Final(s0, ls).p.snap == Final(s0, ls).obj
  {
    InvAlways(s0, ls);
    RemovalIsClean(Final(s0, ls));
  }

  /** The resource goes when its finalizer is removed, or at once on a deletion request that finds none. */
  lemma ResourceGoesIff(s: Sys, l: Label)
    requires Enabled(s, l) && !s.gone
    ensures Apply(s, l).gone <==> l == Pass(RemoveFinalizer) || (l == Environment(RequestDeletion) && !s.obj.finalizer)
  {
    match l
    case Cleanup(_) =>
    case Sync(_) =>
    case Act(_) =>
    case Pass(_) =>
    case Validation(_) =>
    case Environment(_) =>
  }

  lemma NamedIsListed(table: string, used: set<string>)
    requires NamedTable(table, used)
    ensures Listed(table)
  {
    assert table[..5] == table[..|TABLE_PREFIX|][..5];
  }

  /** Before the finalizer is on and after the resource is gone there is nothing to clean up. */
  ghost predicate LeavesNothing(s: Sys) {
    && !s.ephemeral
    && (s.gone || !s.obj.finalizer ==> Clean(s))
    && (s.gone && s.obj.finalizer ==> s.p.PIdle?)
  }

  lemma CleanupLeavesNothing(s: Sys, c: CleanupStep)
    requires Inv(s) && LeavesNothing(s) && CleanupEnabled(s, c)
    ensures LeavesNothing(ApplyCleanup(s, c))
  {
  }

  lemma SyncLeavesNothing(s: Sys, n: SyncStep)
    requires Inv(s) && LeavesNothing(s) && SyncEnabled(s, n)
    ensures LeavesNothing(ApplySync(s, n))
  {
    if n.CreateTable? || n.CreateConnector? {
      // Creating needs a snapshot with the finalizer, and the finalizer stays on the resource.
      assert s.p.snap.finalizer && s.obj.finalizer && !s.gone;
    } else if n.AddFinalizer? {
      assert s.p.snap == s.obj;
    }
  }

  lemma ActLeavesNothing(s: Sys, a: ActStep)
    requires Inv(s) && LeavesNothing(s) && ActEnabled(s, a)
    ensures LeavesNothing(ApplyAct(s, a))
  {
    if a.ShowValidTable? || a.ShowHealthier? {
      NamedIsListed(s.p.snap.status.tableName, s.used);
      assert s.p.snap.status.tableName in ListedTables(s);
    }
  }

  lemma PassLeavesNothing(s: Sys, o: PassStep)
    requires Inv(s) && LeavesNothing(s) && PassEnabled(s, o)
    ensures LeavesNothing(ApplyPass(s, o))
  {
    if o.RemoveFinalizer? {
      RemovalIsClean(s);
    }
  }

  lemma ValidationLeavesNothing(s: Sys, o: ValidationStep)
    requires Inv(s) && LeavesNothing(s) && ValidationEnabled(s, o)
    ensures LeavesNothing(ApplyValidation(s, o))
  {
  }

  lemma EnvironmentLeavesNothing(s: Sys, e: EnvironmentStep)
    requires Inv(s) && LeavesNothing(s) && EnvironmentEnabled(s, e)
    ensures LeavesNothing(ApplyEnvironment(s, e))
  {
  }

  lemma StepLeavesNothing(s: Sys, l: Label)
    requires Inv(s) && LeavesNothing(s) && Enabled(s, l)
    ensures LeavesNothing(Apply(s, l))
  {
    match l
    case Cleanup(c) => CleanupLeavesNothing(s, c);
    case Sync(n) => SyncLeavesNothing(s, n);
    case Act(a) => ActLeavesNothing(s, a);
    case Pass(o) => PassLeavesNothing(s, o);
    case Validation(o) => ValidationLeavesNothing(s, o);
    case Environment(e) => EnvironmentLeavesNothing(s, e);
  }

  /**
   * A pipeline created over a clean database and cluster leaves nothing behind, whichever way its resource disappears
   * and whatever failed, crashed or conflicted before: orphans of unfinished refreshes included.
   */
  lemma {:induction false} NothingIsLeftBehind(s: Sys, ls: seq<Label>)
    requires Init(s) && Clean(s) && !s.ephemeral && IsRun(s, ls)
    ensures LeavesNothing(Final(s, ls))
    ensures Final(s, ls).gone ==> Clean(Final(s, ls))
  {
    if ls != [] {
      var before := ls[..|ls| - 1];
      NothingIsLeftBehind(s, before);
      InvAlways(s, before);
      StepLeavesNothing(Final(s, before), ls[|ls| - 1]);
    }
  }
}
