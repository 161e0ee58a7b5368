/** controllers/connect/connect.go: the KafkaConnector resource built from a configuration. */
module Connect {
  import opened Wrappers
  import opened Names
  import opened Pipeline
  import opened Config

  const LABEL_APP_NAME := "cyndi/appName"
  const LABEL_INSIGHTS_ONLY := "cyndi/insightsOnly"
  const LABEL_MAX_AGE := "cyndi/maxAge"
  const LABEL_STRIMZI_CLUSTER := "strimzi.io/cluster"

  /** A connector of this pipeline; `target` is the table its configuration writes to. */
  datatype Connector = Connector(
    labels: map<string, string>,
    target: string,
    config: ConnectorConfig,
    state: string,
    connectorStatus: Option<string>,
    taskStates: seq<Option<string>>)
  {
    function Label(name: string): string {
      if name in labels then labels[name] else ""
    }

    predicate IsFailed() {
      connectorStatus == Some("FAILED") || Some("FAILED") in taskStates
    }
  }

  datatype ConnectorConfiguration = ConnectorConfiguration(
    appName: string,
    additionalFilters: seq<Filter>,
    insightsOnly: bool,
    paused: bool,
    cluster: string,
    topic: string,
    tableName: string,
    db: DBParams,
    tasksMax: int,
    batchSize: int,
    maxAge: int,
    template: string,
    allowlistSystemProfile: string,
    topicReplicationFactor: int,
    deadLetterQueueTopicName: string)

  function ConnectorState(paused: bool): string {
    if paused then "paused" else "running"
  }

  function InputsOf(lib: Library, ephemeral: bool, c: ConnectorConfiguration): TemplateInputs {
    var env := (suffix: string) => "${env:" + lib.envPrefix(c.appName) + suffix + "}";
    TemplateInputs(
      tableName := c.tableName,
      topic := c.topic,
      dbPort := if ephemeral then c.db.port else env("_DB_PORT"),
      dbHostname := if ephemeral then c.db.host else env("_DB_HOSTNAME"),
      dbName := if ephemeral then c.db.name else env("_DB_NAME"),
      dbUser := if ephemeral then c.db.user else env("_DB_USERNAME"),
      dbPassword := if ephemeral then c.db.password else env("_DB_PASSWORD"),
      additionalFilters := c.additionalFilters,
      tasksMax := c.tasksMax,
      batchSize := c.batchSize,
      maxAge := c.maxAge,
      insightsOnly := c.insightsOnly,
      allowlistSP := c.allowlistSystemProfile,
      sslMode := c.db.sslMode,
      sslRootCert := c.db.sslRootCert,
      topicReplicationFactor := c.topicReplicationFactor,
      deadLetterQueueTopicName := c.deadLetterQueueTopicName)
  }

  /** None when the template does not parse, execute, or render to JSON. */
  function NewConnectorResource(lib: Library, ephemeral: bool, c: ConnectorConfiguration): Option<Connector> {
    var config :- lib.render(c.template, InputsOf(lib, ephemeral, c));
    Some(Connector(
           labels := map[
             LABEL_STRIMZI_CLUSTER := c.cluster,
             LABEL_APP_NAME := c.appName,
             LABEL_INSIGHTS_ONLY := FormatBool(c.insightsOnly),
             LABEL_MAX_AGE := FormatInt(c.maxAge)],
           target := c.tableName,
           config := config,
           state := ConnectorState(c.paused),
           connectorStatus := None,
           taskStates := []))
  }

  /** ReconcileIteration.createConnector up to the API call: the resource for the current spec, config and table. */
  function DesiredConnector(lib: Library, ephemeral: bool, spec: Spec, cfg: CyndiConfiguration, db: DBParams, tableName: string)
    : Option<Connector>
  {
    NewConnectorResource(lib, ephemeral, ConnectorConfiguration(
      appName := spec.appName,
      additionalFilters := spec.additionalFilters,
      insightsOnly := spec.insightsOnly,
      paused := spec.connectorPaused,
      cluster := cfg.connectCluster,
      topic := cfg.topic,
      tableName := tableName,
      db := db,
      tasksMax := cfg.connectorTasksMax,
      batchSize := cfg.connectorBatchSize,
      maxAge := cfg.connectorMaxAge,
      template := cfg.connectorTemplate,
      allowlistSystemProfile := cfg.connectorAllowlistSystemProfile,
      topicReplicationFactor := cfg.topicReplicationFactor,
      deadLetterQueueTopicName := cfg.deadLetterQueueTopicName))
  }

  /** The inputs of the template: the database's own parameters in EPHEMERAL mode, references to variables otherwise. */
  function DesiredInputs(lib: Library, ephemeral: bool, spec: Spec, cfg: CyndiConfiguration, db: DBParams, tableName: string)
    : TemplateInputs
  {
    var prefix := "${env:" + lib.envPrefix(spec.appName);
    TemplateInputs(
      tableName, cfg.topic,
      if ephemeral then db.port else prefix + "_DB_PORT" + "}",
      if ephemeral then db.host else prefix + "_DB_HOSTNAME" + "}",
      if ephemeral then db.name else prefix + "_DB_NAME" + "}",
      if ephemeral then db.user else prefix + "_DB_USERNAME" + "}",
      if ephemeral then db.password else prefix + "_DB_PASSWORD" + "}",
      spec.additionalFilters, cfg.connectorTasksMax, cfg.connectorBatchSize, cfg.connectorMaxAge, spec.insightsOnly,
      cfg.connectorAllowlistSystemProfile, db.sslMode, db.sslRootCert, cfg.topicReplicationFactor, cfg.deadLetterQueueTopicName)
  }

  /** The connector for a table: its labels, its state, and the rendered template as its configuration. */
  lemma DesiredSpelledOut(lib: Library, ephemeral: bool, spec: Spec, cfg: CyndiConfiguration, db: DBParams, tableName: string)
    ensures var d := DesiredConnector(lib, ephemeral, spec, cfg, db, tableName);
            var rendered := lib.render(cfg.connectorTemplate, DesiredInputs(lib, ephemeral, spec, cfg, db, tableName));
            && (d.Some? <==> rendered.Some?)
            && (d.Some? ==>
                  && d.value.config == rendered.value && d.value.target == tableName
                  && d.value.state == (if spec.connectorPaused then "paused" else "running")
                  && d.value.connectorStatus == None && d.value.taskStates == []
                  && d.value.labels == map["strimzi.io/cluster" := cfg.connectCluster, "cyndi/appName" := spec.appName,
                                           "cyndi/insightsOnly" := if spec.insightsOnly then "true" else "false",
                                           "cyndi/maxAge" := FormatInt(cfg.connectorMaxAge)])
  {
  }
}
