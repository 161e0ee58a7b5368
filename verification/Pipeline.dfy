/** api/v1alpha1: the CyndiPipeline resource, its state machine, and the mutations of its status. */
module Pipeline {
  import opened Wrappers
  import opened Names

  type Filter = map<string, string>

  datatype Spec = Spec(
    appName: string,
    insightsOnly: bool,
    additionalFilters: seq<Filter>,
    connectCluster: Option<string>,
    maxAge: Option<int>,
    validationThreshold: Option<int>,
    topic: Option<string>,
    dbSecret: Option<string>,
    inventoryDbSecret: Option<string>,
    dbTableIndexSQL: string,
    refresh: string,
    managedConnectors: Option<bool>,
    connectorPaused: bool)
  {
    /** A copy with the operational-only fields zeroed, so that they do not reach the spec hash. */
    function DataSpec(): Spec {
      this.(managedConnectors := None, connectorPaused := false, refresh := "")
    }

    predicate ConnectorsManaged() {
      managedConnectors.GetOr(true)
    }
  }

  datatype ConditionStatus = ConditionUnknown | ConditionFalse | ConditionTrue

  /** The text of the Valid condition: the mismatch it reports, before rounding for display. */
  datatype Message = NotYetRun | Mismatch(count: int, ratio: real)

  datatype Condition = Condition(status: ConditionStatus, reason: string, message: Message)

  datatype Status = Status(
    validationFailedCount: int,
    pipelineVersion: string,
    connectorName: string,
    tableName: string,
    cyndiConfigVersion: string,
    specHash: string,
    initialSyncInProgress: bool,
    activeTableName: string,
    valid: Option<Condition>,
    hostCount: int)
  {
    function GetValid(): ConditionStatus {
      if valid.None? then ConditionUnknown else valid.value.status
    }

    predicate IsValid() {
      valid.Some? && valid.value.status == ConditionTrue
    }
  }

  /** The status of a resource that no controller has written yet. */
  const EMPTY_STATUS := Status(0, "", "", "", "", "", false, "", None, 0)

  /** One revision of the resource as the API server stores it. */
  datatype Object = Object(rv: nat, spec: Spec, deleting: bool, finalizer: bool, status: Status)

  datatype PipelineState = StateNew | StateInitialSync | StateValid | StateInvalid | StateRemoved | StateUnknown

  function StateOf(deleting: bool, status: Status): PipelineState {
    if deleting then StateRemoved
    else if status.pipelineVersion == "" then StateNew
    else if status.IsValid() then StateValid
    else if status.initialSyncInProgress then StateInitialSync
    else if status.GetValid() == ConditionFalse then StateInvalid
    else StateUnknown
  }

  function GetState(o: Object): PipelineState {
    StateOf(o.deleting, o.status)
  }

  // ---- What the mutating methods do to a status.

  function WithValid(st: Status, condition: Condition, hostCount: int): Status {
    var st' := st.(valid := Some(condition), hostCount := hostCount);
    match condition.status
    case ConditionFalse => st'.(validationFailedCount := st.validationFailedCount + 1)
    case ConditionUnknown => st'.(validationFailedCount := 0)
    case ConditionTrue => st'.(validationFailedCount := 0, initialSyncInProgress := false)
  }

  const NEW_CONDITION := Condition(ConditionUnknown, "New", NotYetRun)

  function WithValidReset(st: Status): Status {
    WithValid(st, NEW_CONDITION, -1)
  }

  function ToNew(st: Status): Status {
    WithValidReset(st).(initialSyncInProgress := false, pipelineVersion := "")
  }

  /** A pipeline that is neither NEW nor in INITIAL_SYNC is left alone: the assertion's error is what the caller drops. */
  function ToInitialSync(deleting: bool, spec: Spec, st: Status, version: string): Status {
    if StateOf(deleting, st) != StateInitialSync && StateOf(deleting, st) != StateNew then st
    else
      var st' := WithValidReset(st).(initialSyncInProgress := true, pipelineVersion := version);
      if spec.ConnectorsManaged() then
        st'.(tableName := TableName(version), connectorName := ConnectorName(version, spec.appName))
      else if st.tableName == "" then st'.(tableName := TableName(version))
      else st'
  }

  /** A verdict of the validation controller, as SetValid records it. */
  function WithVerdict(st: Status, isValid: bool, count: int, ratio: real, hostCount: int): Status {
    WithValid(st,
              if isValid then Condition(ConditionTrue, "ValidationSucceeded", Mismatch(count, ratio))
              else Condition(ConditionFalse, "ValidationFailed", Mismatch(count, ratio)),
              hostCount)
  }

  /** The in-memory copy of the resource that one reconcile pass works on. */
  class CyndiPipeline {
    var rv: nat
    var spec: Spec
    var deleting: bool
    var finalizer: bool
    var status: Status

    constructor (o: Object)
      ensures Value() == o
    {
      rv, spec, deleting, finalizer, status := o.rv, o.spec, o.deleting, o.finalizer, o.status;
    }

    function Value(): Object
      reads this
    {
      Object(rv, spec, deleting, finalizer, status)
    }

    method SetValid(condition: Condition, hostCount: int)
      modifies this`status
      ensures status == WithValid(old(status), condition, hostCount)
    {
      status := status.(valid := Some(condition));
      status := status.(hostCount := hostCount);
      match condition.status {
        case ConditionFalse =>
          status := status.(validationFailedCount := status.validationFailedCount + 1);
        case ConditionUnknown =>
          status := status.(validationFailedCount := 0);
        case ConditionTrue =>
          status := status.(validationFailedCount := 0);
          status := status.(initialSyncInProgress := false);
      }
    }

    method ResetValid()
      modifies this`status
      ensures status == WithValidReset(old(status))
    {
      SetValid(NEW_CONDITION, -1);
    }

    method TransitionToNew()
      modifies this`status
      ensures status == ToNew(old(status))
    {
      ResetValid();
      status := status.(initialSyncInProgress := false);
      status := status.(pipelineVersion := "");
    }

    method TransitionToInitialSync(version: string) returns (ok: bool)
      modifies this`status
      ensures ok <==> old(GetState(Value())) in {StateInitialSync, StateNew}
      ensures status == ToInitialSync(deleting, spec, old(status), version)
    {
      var state := GetState(Value());
      if state != StateInitialSync && state != StateNew {
        return false;
      }
      ResetValid();
      status := status.(initialSyncInProgress := true);
      status := status.(pipelineVersion := version);
      if spec.ConnectorsManaged() {
        status := status.(tableName := TableName(version));
        status := status.(connectorName := ConnectorName(version, spec.appName));
      } else if status.tableName == "" {
        status := status.(tableName := TableName(version));
      }
      return true;
    }
  }

  // ---- What the mutations and states amount to.

  /** Exactly three fields are operational: no other difference between two specs is invisible to the hash. */
  lemma DataSpecForgets(spec0: Spec, spec1: Spec)
    ensures spec0.DataSpec() == spec1.DataSpec()
            <==> spec1 == spec0.(managedConnectors := spec1.managedConnectors, connectorPaused := spec1.connectorPaused,
                                 refresh := spec1.refresh)
  {
    var a, b := spec0.DataSpec(), spec1.DataSpec();
    if a == b {
      assert a.appName == b.appName && a.insightsOnly == b.insightsOnly && a.additionalFilters == b.additionalFilters;
      assert a.connectCluster == b.connectCluster && a.maxAge == b.maxAge && a.validationThreshold == b.validationThreshold;
      assert a.topic == b.topic && a.dbSecret == b.dbSecret && a.inventoryDbSecret == b.inventoryDbSecret;
      assert a.dbTableIndexSQL == b.dbTableIndexSQL;
    }
  }

  /** The six states, by deletion, version, verdict and phase. */
  lemma StatesSpelledOut(o: Object)
    ensures var st := o.status;
            var valid := st.valid.Some? && st.valid.value.status == ConditionTrue;
            var failed := st.valid.Some? && st.valid.value.status == ConditionFalse;
            && (GetState(o) == StateRemoved <==> o.deleting)
            && (GetState(o) == StateNew <==> !o.deleting && st.pipelineVersion == "")
            && (GetState(o) == StateValid <==> !o.deleting && st.pipelineVersion != "" && valid)
            && (GetState(o) == StateInitialSync
                <==> !o.deleting && st.pipelineVersion != "" && !valid && st.initialSyncInProgress)
            && (GetState(o) == StateInvalid
                <==> !o.deleting && st.pipelineVersion != "" && failed && !st.initialSyncInProgress)
  {
  }

  /** A refresh forgets version, verdict and counts, and keeps the names and hashes recorded last. */
  lemma RefreshSpelledOut(st: Status)
    ensures ToNew(st) == st.(pipelineVersion := "", initialSyncInProgress := false, validationFailedCount := 0, hostCount := -1,
                             valid := Some(Condition(ConditionUnknown, "New", NotYetRun)))
  {
  }

  /** A verdict changes the condition, the host count, the counter, and ends the initial sync if it is positive. */
  lemma VerdictSpelledOut(st: Status, isValid: bool, count: int, ratio: real, hostCount: int)
    ensures WithVerdict(st, isValid, count, ratio, hostCount)
         == if isValid
            then st.(valid := Some(Condition(ConditionTrue, "ValidationSucceeded", Mismatch(count, ratio))), hostCount := hostCount,
                     validationFailedCount := 0, initialSyncInProgress := false)
            else st.(valid := Some(Condition(ConditionFalse, "ValidationFailed", Mismatch(count, ratio))), hostCount := hostCount,
                     validationFailedCount := st.validationFailedCount + 1)
  {
  }

  /** A new version takes over table and connector of a managed pipeline; an unmanaged one keeps the table it has. */
  lemma NewVersionSpelledOut(spec: Spec, st: Status, version: string)
    requires st.pipelineVersion == ""
    ensures var managed := spec.managedConnectors != Some(false);
            ToInitialSync(false, spec, st, version)
              == st.(pipelineVersion := version, initialSyncInProgress := true, validationFailedCount := 0, hostCount := -1,
                     valid := Some(Condition(ConditionUnknown, "New", NotYetRun)),
                     tableName := if managed || st.tableName == "" then "hosts_v" + version else st.tableName,
                     connectorName := if managed then ConnectorName(version, spec.appName) else st.connectorName)
  {
  }
}
