/** Which validation verdicts reach the committed status, and what the failure counter counts. */
module Verdicts {
  import opened Wrappers
  import opened Names
  import opened Pipeline
  import opened Validate
  import opened Protocol
  import opened Invariants

  /** No controller can commit a status outside the five documented states. */
  lemma CommittedStatesAreProper(s: Sys, ls: seq<Label>, k: nat)
    requires Init(s) && IsRun(s, ls) && k <= |Final(s, ls).past|
    ensures var o := Rev(Final(s, ls), k);
            && GetState(o) != StateUnknown
            && !(o.status.IsValid() && o.status.initialSyncInProgress)
            && (o.status.validationFailedCount > 0 <==> o.status.GetValid() == ConditionFalse)
  {
    InvAlways(s, ls);
    var s' := Final(s, ls);
    assert StatusOk(Rev(s', k).status, s'.used);
  }

  // ---- No stale verdict.

  ghost predicate Vouched(s: Sys, st: Status) {
    st.IsValid() ==> Acceptance(st.pipelineVersion, st.tableName) in s.accepted
  }

  ghost predicate AcceptedOk(s: Sys) {
    && Vouched(s, s.obj.status)
    && (forall k :: 0 <= k < |s.past| ==> Vouched(s, s.past[k].status))
    && (s.v.VPass? && s.v.snap.rv == s.obj.rv ==> Vouched(s, s.v.work))
  }

  lemma NextRevisionKeepsAccepted(s: Sys, obj: Object)
    requires Consistent(s) && AcceptedOk(s) && Vouched(s, obj.status)
    ensures AcceptedOk(NextRevision(s, obj))
  {
  }

  lemma ValidationKeepsAccepted(s: Sys, o: ValidationStep)
    requires Inv(s) && AcceptedOk(s) && ValidationEnabled(s, o)
    ensures AcceptedOk(ApplyValidation(s, o))
  {
    match o
    case StartValidation(_) =>
    case RefreshInvalid =>
    case Validate(hbiCount, appCount, hbiIds, appIds, threshold) =>
      // A snapshot with the current version number is the committed resource.
      assert s.v.snap.rv == s.obj.rv ==> s.v.snap == s.obj;
    case CommitVerdict(activeTable) =>
      var status := s.v.work.(activeTableName := activeTable);
      if Writes(s, s.v.snap, status) {
        NextRevisionKeepsAccepted(s, s.obj.(status := status));
      }
    case AbortValidation =>
  }

  lemma QuietKeepsAccepted(s: Sys, s': Sys)
    requires AcceptedOk(s)
    requires s'.obj == s.obj && s'.past == s.past && s'.v == s.v && s'.accepted == s.accepted
    ensures AcceptedOk(s')
  {
  }

  lemma SyncKeepsAccepted(s: Sys, n: SyncStep)
    requires Inv(s) && AcceptedOk(s) && SyncEnabled(s, n)
    ensures AcceptedOk(ApplySync(s, n))
  {
    if n.AddFinalizer? {
      NextRevisionKeepsAccepted(s, s.obj.(finalizer := true));
      QuietKeepsAccepted(NextRevision(s, s.obj.(finalizer := true)), ApplySync(s, n));
    } else {
      QuietKeepsAccepted(s, ApplySync(s, n));
    }
  }

  lemma PassKeepsAccepted(s: Sys, o: PassStep)
    requires Inv(s) && AcceptedOk(s) && PassEnabled(s, o)
    ensures AcceptedOk(ApplyPass(s, o))
  {
    if o.Commit? && Writes(s, s.p.snap, Committed(s, s.p.work)) {
      assert Vouched(s, s.p.work);
      var s' := NextRevision(s, s.obj.(status := Committed(s, s.p.work)));
      NextRevisionKeepsAccepted(s, s.obj.(status := Committed(s, s.p.work)));
      QuietKeepsAccepted(s', ApplyPass(s, o));
    } else {
      QuietKeepsAccepted(s, ApplyPass(s, o));
    }
  }

  lemma EnvironmentKeepsAccepted(s: Sys, e: EnvironmentStep)
    requires Inv(s) && AcceptedOk(s) && EnvironmentEnabled(s, e)
    ensures AcceptedOk(ApplyEnvironment(s, e))
  {
    match e
    case ChangeSpec(spec) => NextRevisionKeepsAccepted(s, s.obj.(spec := spec));
    case RequestDeletion => NextRevisionKeepsAccepted(s, s.obj.(deleting := true));
    case Touch => NextRevisionKeepsAccepted(s, s.obj);
    case ChangeConnector(_, _) =>
  }

  lemma StepKeepsAccepted(s: Sys, l: Label)
    requires Inv(s) && AcceptedOk(s) && Enabled(s, l)
    ensures AcceptedOk(Apply(s, l))
  {
    match l
    case Cleanup(c) => QuietKeepsAccepted(s, ApplyCleanup(s, c));
    case Sync(n) => SyncKeepsAccepted(s, n);
    case Act(a) => QuietKeepsAccepted(s, ApplyAct(s, a));
    case Pass(o) => PassKeepsAccepted(s, o);
    case Validation(o) => ValidationKeepsAccepted(s, o);
    case Environment(e) => EnvironmentKeepsAccepted(s, e);
  }

  /**
   * A status committed as valid names a version and a table for which `validate` returned true while that very
   * version was the committed one.
   */
  lemma {:induction false} NoStaleVerdict(s: Sys, ls: seq<Label>)
    requires Init(s) && IsRun(s, ls)
    ensures AcceptedOk(Final(s, ls))
    ensures var st := Final(s, ls).obj.status;
            st.IsValid() ==> Acceptance(st.pipelineVersion, st.tableName) in Final(s, ls).accepted
  {
    if ls != [] {
      var before := ls[..|ls| - 1];
      NoStaleVerdict(s, before);
      InvAlways(s, before);
      StepKeepsAccepted(Final(s, before), ls[|ls| - 1]);
    }
  }

  /** Step k of the run is a `validate` that returned true on the table of `a` while its version was the committed one. */
  ghost predicate AcceptsAt(s: Sys, ls: seq<Label>, k: nat, a: Acceptance) {
    k < |ls| && Accepts(Final(s, ls[..k]), ls[k], a)
  }

  ghost predicate Accepts(s: Sys, l: Label, a: Acceptance) {
    && s.v.VPass? && l.Validation? && l.validation.Validate?
    && Judge(l.validation.hbiCount, l.validation.appCount, l.validation.hbiIds, l.validation.appIds, l.validation.threshold).isValid
    && a == Acceptance(s.obj.status.pipelineVersion, s.v.snap.status.tableName)
  }

  lemma SyncAcceptsNothing(s: Sys, n: SyncStep)
    requires SyncEnabled(s, n)
    ensures ApplySync(s, n).accepted == s.accepted
  {
  }

  lemma ValidationAccepts(s: Sys, o: ValidationStep, a: Acceptance)
    requires ValidationEnabled(s, o) && a in ApplyValidation(s, o).accepted && a !in s.accepted
    ensures Accepts(s, Validation(o), a)
  {
  }

  lemma OnlyValidationAccepts(s: Sys, l: Label, a: Acceptance)
    requires Enabled(s, l) && a in Apply(s, l).accepted && a !in s.accepted
    ensures Accepts(s, l, a)
  {
    match l
    case Cleanup(_) =>
    case Sync(n) => SyncAcceptsNothing(s, n);
    case Act(_) =>
    case Pass(_) =>
    case Validation(o) => ValidationAccepts(s, o, a);
    case Environment(_) =>
  }

  /** The history is the run's: every acceptance in it is a step of the run. */
  lemma {:induction false} AcceptancesHappened(s: Sys, ls: seq<Label>, a: Acceptance) returns (k: nat)
    requires Init(s) && IsRun(s, ls) && a in Final(s, ls).accepted
    ensures AcceptsAt(s, ls, k, a)
  {
    var n := |ls| - 1;
    var before := ls[..n];
    if a in Final(s, before).accepted {
      k := AcceptancesHappened(s, before, a);
      assert before[..k] == ls[..k];
    } else {
      OnlyValidationAccepts(Final(s, before), ls[n], a);
      k := n;
    }
  }

  /** A verdict computed before a refresh loses to the conflict check. */
  lemma StaleVerdictIsLost(s: Sys, ls: seq<Label>, activeTable: string)
    requires Init(s) && IsRun(s, ls)
    requires var f := Final(s, ls);
             && f.v.VPass? && f.v.decided
             && f.v.snap.status.pipelineVersion != f.obj.status.pipelineVersion
    ensures Apply(Final(s, ls), Validation(CommitVerdict(activeTable))).obj == Final(s, ls).obj
  {
    InvAlways(s, ls);
  }

  // ---- Commits.

  /** What a commit of the pipeline controller stores, and when: a changed status, with the view's table as the active one. */
  lemma CommitSpelledOut(s: Sys)
    requires PassEnabled(s, Commit)
    ensures var status := s.p.work.(activeTableName := if s.view.Some? then s.view.value else "");
            ApplyPass(s, Commit).obj
              == if status != s.p.snap.status && !s.gone && s.p.snap.rv == s.obj.rv
                 then s.obj.(rv := s.obj.rv + 1, status := status) else s.obj
    ensures var s' := ApplyPass(s, Commit);
            s'.tables == s.tables && s'.view == s.view && s'.conns == s.conns && s'.gone == s.gone && s'.p == PIdle
  {
  }

  lemma VerdictCommitSpelledOut(s: Sys, activeTable: string)
    requires ValidationEnabled(s, CommitVerdict(activeTable))
    ensures var status := s.v.work.(activeTableName := activeTable);
            ApplyValidation(s, CommitVerdict(activeTable)).obj
              == if status != s.v.snap.status && !s.gone && s.v.snap.rv == s.obj.rv
                 then s.obj.(rv := s.obj.rv + 1, status := status) else s.obj
  {
  }

  // ---- What ValidationFailedCount counts.

  /** How many failed verdicts for `version` the log ends with. */
  function TrailingFailures(log: seq<Record>, version: string): nat {
    if log == [] || log[|log| - 1].version != version || log[|log| - 1].ok then 0
    else 1 + TrailingFailures(log[..|log| - 1], version)
  }

  ghost predicate NewVersionIsNew(s: Sys) {
    s.p.PPass? && (s.p.phase.Creating? || (s.p.phase.Committing? && NewWork(s.p.snap, s.p.work))) ==>
      && s.p.work.pipelineVersion in s.used
      && s.p.work.pipelineVersion != s.obj.status.pipelineVersion
      && (forall k :: 0 <= k < |s.past| ==> s.past[k].status.pipelineVersion != s.p.work.pipelineVersion)
      && (s.v.VPass? ==> s.v.snap.status.pipelineVersion != s.p.work.pipelineVersion)
      && (forall k :: 0 <= k < |s.verdicts| ==> s.verdicts[k].version != s.p.work.pipelineVersion)
  }

  ghost predicate CountOk(s: Sys) {
    && s.obj.status.validationFailedCount == TrailingFailures(s.verdicts, s.obj.status.pipelineVersion)
    && (forall k :: 0 <= k < |s.verdicts| ==> s.verdicts[k].version in s.used)
    && NewVersionIsNew(s)
    && (s.v.VPass? && !s.v.decided ==> s.v.verdict.None?)
    && (s.v.VPass? && s.v.decided ==>
          match s.v.verdict
          case None => s.v.work == ToNew(s.v.snap.status)
          case Some(ok) =>
            && s.v.work.pipelineVersion == s.v.snap.status.pipelineVersion
            && s.v.work.validationFailedCount == if ok then 0 else s.v.snap.status.validationFailedCount + 1)
  }

  lemma UnknownVersionHasNoFailures(log: seq<Record>, version: string)
    requires forall k :: 0 <= k < |log| ==> log[k].version != version
    ensures TrailingFailures(log, version) == 0
  {
  }

  lemma SameStatusKeepsCount(s: Sys, obj: Object)
    requires Inv(s) && CountOk(s) && obj.status == s.obj.status
    ensures CountOk(NextRevision(s, obj))
  {
  }

  lemma WriteKeepsCount(s: Sys, status: Status)
    requires Inv(s) && CountOk(s) && PassEnabled(s, Commit)
    requires status.validationFailedCount == TrailingFailures(s.verdicts, status.pipelineVersion)
    ensures CountOk(NextRevision(s, s.obj.(status := status)).(p := PIdle))
  {
  }

  lemma CommitKeepsCount(s: Sys)
    requires Inv(s) && CountOk(s) && PassEnabled(s, Commit)
    ensures CountOk(ApplyPass(s, Commit))
  {
    var status := Committed(s, s.p.work);
    if Writes(s, s.p.snap, status) {
      assert s.p.snap == s.obj;
      if NewWork(s.p.snap, s.p.work) && s.p.phase.Committing? {
        UnknownVersionHasNoFailures(s.verdicts, s.p.work.pipelineVersion);
      } else if s.p.phase.Committing? {
        UnknownVersionHasNoFailures(s.verdicts, "");
      }
      WriteKeepsCount(s, status);
    }
  }

  lemma RecordKeepsCount(s: Sys, status: Status, verdicts: seq<Record>)
    requires Inv(s) && CountOk(s) && s.v.VPass? && status.pipelineVersion in {"", s.v.snap.status.pipelineVersion}
    requires verdicts == s.verdicts || (exists ok :: verdicts == s.verdicts + [Record(s.v.snap.status.pipelineVersion, ok)])
    requires status.validationFailedCount == TrailingFailures(verdicts, status.pipelineVersion)
    ensures CountOk(NextRevision(s, s.obj.(status := status)).(v := VIdle, verdicts := verdicts))
  {
  }

  lemma VerdictKeepsCount(s: Sys, o: ValidationStep)
    requires Inv(s) && CountOk(s) && o.CommitVerdict? && ValidationEnabled(s, o)
    ensures CountOk(ApplyValidation(s, o))
  {
    var status := s.v.work.(activeTableName := o.activeTable);
    if Writes(s, s.v.snap, status) {
      assert s.v.snap == s.obj;
      var version, verdicts := s.v.work.pipelineVersion, ApplyValidation(s, o).verdicts;
      if s.v.verdict.Some? {
        assert verdicts == s.verdicts + [Record(version, s.v.verdict.value)];
        assert verdicts[..|verdicts| - 1] == s.verdicts;
      } else {
        UnknownVersionHasNoFailures(s.verdicts, "");
      }
      RecordKeepsCount(s, status, verdicts);
    }
  }

  lemma SyncKeepsCount(s: Sys, n: SyncStep)
    requires Inv(s) && CountOk(s) && SyncEnabled(s, n)
    ensures CountOk(ApplySync(s, n))
  {
    match n
    case AddFinalizer => SameStatusKeepsCount(s, s.obj.(finalizer := true));
    case Begin(version, _, _) =>
      assert ApplySync(s, n).p.work.pipelineVersion == version;
    case _ =>
  }

  lemma DecisionKeepsCount(s: Sys, o: ValidationStep)
    requires Inv(s) && CountOk(s) && ValidationEnabled(s, o) && !o.CommitVerdict?
    ensures CountOk(ApplyValidation(s, o))
  {
    if o.StartValidation? {
      assert Rev(s, o.rev) == s.obj || Rev(s, o.rev) == s.past[o.rev];
    } else if o.Validate? {
      assert ApplyValidation(s, o).v.work.pipelineVersion == s.v.snap.status.pipelineVersion;
      assert ApplyValidation(s, o).v.snap == s.v.snap;
    }
  }

  lemma ActKeepsCount(s: Sys, a: ActStep)
    requires Inv(s) && CountOk(s) && ActEnabled(s, a)
    ensures CountOk(ApplyAct(s, a))
  {
  }

  lemma PassKeepsCount(s: Sys, o: PassStep)
    requires Inv(s) && CountOk(s) && PassEnabled(s, o)
    ensures CountOk(ApplyPass(s, o))
  {
    if o.Commit? { CommitKeepsCount(s); }
  }

  lemma EnvironmentKeepsCount(s: Sys, e: EnvironmentStep)
    requires Inv(s) && CountOk(s) && EnvironmentEnabled(s, e)
    ensures CountOk(ApplyEnvironment(s, e))
  {
    match e
    case ChangeSpec(spec) => SameStatusKeepsCount(s, s.obj.(spec := spec));
    case RequestDeletion => SameStatusKeepsCount(s, s.obj.(deleting := true));
    case Touch => SameStatusKeepsCount(s, s.obj);
    case ChangeConnector(_, _) =>
  }

  lemma CleanupKeepsCount(s: Sys, c: CleanupStep)
    requires Inv(s) && CountOk(s) && CleanupEnabled(s, c)
    ensures CountOk(ApplyCleanup(s, c))
  {
  }

  lemma StepKeepsCount(s: Sys, l: Label)
    requires Inv(s) && CountOk(s) && Enabled(s, l)
    ensures CountOk(Apply(s, l))
  {
    match l
    case Cleanup(c) => CleanupKeepsCount(s, c);
    case Sync(n) => SyncKeepsCount(s, n);
    case Act(a) => ActKeepsCount(s, a);
    case Pass(o) => PassKeepsCount(s, o);
    case Validation(o) => if o.CommitVerdict? { VerdictKeepsCount(s, o); } else { DecisionKeepsCount(s, o); }
    case Environment(e) => EnvironmentKeepsCount(s, e);
  }

  /** The counter is always the number of consecutive failed verdicts committed for the current version. */
  lemma {:induction false} FailureCountCountsFailures(s: Sys, ls: seq<Label>)
    requires Init(s) && IsRun(s, ls)
    ensures CountOk(Final(s, ls))
    ensures var f := Final(s, ls);
            f.obj.status.validationFailedCount == TrailingFailures(f.verdicts, f.obj.status.pipelineVersion)
  {
    if ls != [] {
      var before := ls[..|ls| - 1];
      FailureCountCountsFailures(s, before);
      InvAlways(s, before);
      StepKeepsCount(Final(s, before), ls[|ls| - 1]);
    }
  }
}
