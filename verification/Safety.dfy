/**
 * The safety theorems for the controllers' code. Every method of Controllers.dfy and Cluster.dfy keeps a cluster valid,
 * whatever runs in between and whatever fails, so these statements hold between any two calls the code makes.
 */
module Safety {
  import opened Wrappers
  import opened Names
  import opened Pipeline
  import opened Protocol
  import opened Invariants
  import opened Verdicts
  import opened View
  import opened Resources
  import opened Removal
  import opened Calm
  import opened Validate
  import opened Clusters

  lemma CommittedStatusIsSound(c: Cluster)
    requires c.Valid()
    ensures var st := c.s.obj.status;
            && GetState(c.s.obj) != StateUnknown
            && !(st.IsValid() && st.initialSyncInProgress)
            && (st.IsValid() ==> Acceptance(st.pipelineVersion, st.tableName) in c.s.accepted)
            && st.validationFailedCount == TrailingFailures(c.s.verdicts, st.pipelineVersion)
  {
    CommittedStatesAreProper(c.start, c.log, |c.s.past|);
    NoStaleVerdict(c.start, c.log);
    FailureCountCountsFailures(c.start, c.log);
  }

  lemma ResourcesStayBounded(c: Cluster)
    requires c.Valid() && AtMostTwoEach(c.start)
    ensures AtMostTwoEach(c.s)
  {
    NeverMoreThanTwo(c.start, c.log);
  }

  lemma NothingOutlivesThePipeline(c: Cluster)
    requires c.Valid() && !c.ephemeral && Clean(c.start) && c.s.gone
    ensures Clean(c.s)
  {
    NothingIsLeftBehind(c.start, c.log);
  }

  lemma ViewStaysOnAnExistingTable(c: Cluster, k: nat)
    requires c.Valid() && ViewAlwaysReadable(c.log) && !c.s.obj.deleting
    requires k <= |c.log| && IsRun(c.start, c.log[..k]) && Final(c.start, c.log[..k]).view.Some?
    ensures c.s.view.Some? && c.s.view.value in c.s.tables
  {
    ViewIsNeverLost(c.start, c.log, k);
  }

  /** The state before step k of the cluster's run. */
  ghost function Before(c: Cluster, k: nat): Sys
    requires k <= |c.log|
    reads c
  {
    Final(c.start, c.log[..k])
  }

  /**
   * A committed Valid=True goes back to a validation of the run that found its table matching on answers that were those
   * of the databases, while its version was the committed one.
   */
  lemma ValidMeansValidated(c: Cluster) returns (k: nat)
    requires c.Valid() && c.s.obj.status.IsValid()
    ensures AcceptsAt(c.start, c.log, k, Acceptance(c.s.obj.status.pipelineVersion, c.s.obj.status.tableName))
    ensures var o := c.log[k].validation;
            AnswersSeen(c.moments, Before(c, k).v.snap.spec, c.s.obj.status.tableName, o.hbiCount, o.appCount, o.hbiIds, o.appIds)
  {
    NoStaleVerdict(c.start, c.log);
    k := AcceptancesHappened(c.start, c.log, Acceptance(c.s.obj.status.pipelineVersion, c.s.obj.status.tableName));
    TruthfulAt(c.start, c.log, c.moments, k);
  }

  /** Every move of the view is justified, and the counts of a give-up were those of the databases. */
  lemma ViewOnlyMovesForAReason(c: Cluster, k: nat)
    requires c.Valid() && k < |c.log|
    ensures var s, l := Before(c, k), c.log[k];
            var view := Apply(s, l).view;
            view.Some? && view != s.view ==>
              && MoveJustified(s, l, view.value)
              && (l.Act? && l.act.ShowHealthier? && s.view.Some? ==>
                    CountsSeen(c.moments, s.p.snap.spec, s.view.value, view.value,
                               l.act.inventoryCount, l.act.activeCount, l.act.latestCount))
  {
    RunBefore(c.start, c.log, k);
    ViewMovesAreJustified(c.start, c.log[..k], c.log[k]);
    TruthfulAt(c.start, c.log, c.moments, k);
  }

  lemma ViewOnlyLostUnseen(c: Cluster, k: nat)
    requires c.Valid() && k < |c.log|
    ensures LosesView(Before(c, k), c.log[k]) <==> DropsViewUnseen(Before(c, k), c.log[k])
  {
    RunBefore(c.start, c.log, k);
    ViewLostOnlyUnseen(c.start, c.log[..k], c.log[k]);
  }

  lemma CommittedVersionStaysBacked(c: Cluster, appName: string)
    requires c.Valid() && SteadyRun(c.start, c.log, appName)
    requires !c.s.obj.deleting && c.s.obj.status.pipelineVersion != ""
    ensures Has(c.s, c.s.obj.status, appName)
  {
    CommittedVersionIsBacked(c.start, c.log, appName);
  }

  lemma NoOrphanAfterCleanup(c: Cluster, appName: string)
    requires c.Valid() && TidyStart(c.start, appName) && SteadyRun(c.start, c.log, appName) && InPhase(c.s, Cleaned)
    ensures NoOrphans(c.s)
  {
    CleanupLeavesNoOrphanConnector(c.start, c.log, appName);
  }
}
