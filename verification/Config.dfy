/** controllers/config and controllers/utils/k8s.go: the effective configuration and the hashes that trigger refreshes. */
module Config {
  import opened Wrappers
  import opened Lang
  import opened Pipeline

  type ConfigMap = map<string, string>

  datatype ValidationConfiguration = ValidationConfiguration(interval: int, attemptsThreshold: int, percentageThreshold: int)

  datatype CyndiConfiguration = CyndiConfiguration(
    topic: string,
    connectCluster: string,
    connectorTemplate: string,
    connectorTasksMax: int,
    connectorBatchSize: int,
    connectorMaxAge: int,
    connectorAllowlistSystemProfile: string,
    topicReplicationFactor: int,
    deadLetterQueueTopicName: string,
    inventoryDbSecret: string,
    inventoryDbSchema: string,
    dbTableInitScript: string,
    dbTableIndexSQL: string,
    standardInterval: int,
    validationConfig: ValidationConfiguration,
    validationConfigInit: ValidationConfiguration,
    configMapVersion: string,
    specHash: string,
    sslMode: string,
    sslRootCert: string)

  datatype DBParams = DBParams(name: string, host: string, port: string, user: string, password: string, sslMode: string, sslRootCert: string)

  /** What the connector template is rendered from. Numbers and booleans stand for their decimal and true/false text. */
  datatype TemplateInputs = TemplateInputs(
    tableName: string,
    topic: string,
    dbPort: string,
    dbHostname: string,
    dbName: string,
    dbUser: string,
    dbPassword: string,
    additionalFilters: seq<Filter>,
    tasksMax: int,
    batchSize: int,
    maxAge: int,
    insightsOnly: bool,
    allowlistSP: string,
    sslMode: string,
    sslRootCert: string,
    topicReplicationFactor: int,
    deadLetterQueueTopicName: string)

  /** The spec.config field of a connector resource. */
  datatype ConnectorConfig = NoConfig | NotAnObject | ConfigObject(text: string)

  /** Library code that stays abstract: FNV over JSON, number parsing, text templates, upper-casing. */
  datatype Library = Library(
    hashConfig: ConfigMap -> string,
    hashSpec: Spec -> string,
    parseInt: string -> Option<int>,
    render: (string, TemplateInputs) -> Option<ConnectorConfig>,
    envPrefix: string -> string,
    defaults: CyndiConfiguration)

  const VALIDATION_INTERVAL := "validation.interval"
  const VALIDATION_ATTEMPTS_THRESHOLD := "validation.attempts.threshold"
  const VALIDATION_PERCENTAGE_THRESHOLD := "validation.percentage.threshold"

  /** Changes to these keys do not trigger a refresh. */
  const KEYS_IGNORED_BY_REFRESH: seq<string> := [
    "standard.interval",
    VALIDATION_INTERVAL,
    VALIDATION_ATTEMPTS_THRESHOLD,
    VALIDATION_PERCENTAGE_THRESHOLD,
    "init." + VALIDATION_INTERVAL,
    "init." + VALIDATION_ATTEMPTS_THRESHOLD,
    "init." + VALIDATION_PERCENTAGE_THRESHOLD]

  function ConfigMapHash(lib: Library, cm: ConfigMap, ignoredKeys: seq<string>): string {
    if |cm| == 0 then "-1" else lib.hashConfig(Without(cm, ignoredKeys))
  }

  /** The entries of the config map that the operator reads; None where the key is absent. */
  datatype Entries = Entries(
    connectorTopic: Option<string>,
    connectCluster: Option<string>,
    inventoryDbSecret: Option<string>,
    inventoryDbSchema: Option<string>,
    topicReplicationFactor: Option<string>,
    deadLetterQueueTopicName: Option<string>,
    connectorConfig: Option<string>,
    connectorTasksMax: Option<string>,
    connectorBatchSize: Option<string>,
    connectorMaxAge: Option<string>,
    connectorAllowlistSP: Option<string>,
    dbSchema: Option<string>,
    dbSSLMode: Option<string>,
    dbSSLRootCert: Option<string>,
    standardInterval: Option<string>,
    validation: ValidationEntries,
    validationInit: ValidationEntries)

  datatype ValidationEntries = ValidationEntries(
    interval: Option<string>,
    attemptsThreshold: Option<string>,
    percentageThreshold: Option<string>)

  function Lookup(cm: ConfigMap, key: string): Option<string> {
    if key in cm then Some(cm[key]) else None
  }

  function ReadEntries(cm: ConfigMap): Entries {
    Entries(
      connectorTopic := Lookup(cm, "connector.topic"),
      connectCluster := Lookup(cm, "connect.cluster"),
      inventoryDbSecret := Lookup(cm, "inventory.dbSecret"),
      inventoryDbSchema := Lookup(cm, "inventory.dbSchema"),
      topicReplicationFactor := Lookup(cm, "connector.topic.replication.factor"),
      deadLetterQueueTopicName := Lookup(cm, "connector.deadletterqueue.topic.name"),
      connectorConfig := Lookup(cm, "connector.config"),
      connectorTasksMax := Lookup(cm, "connector.tasks.max"),
      connectorBatchSize := Lookup(cm, "connector.batch.size"),
      connectorMaxAge := Lookup(cm, "connector.max.age"),
      connectorAllowlistSP := Lookup(cm, "connector.allowlist.sp"),
      dbSchema := Lookup(cm, "db.schema"),
      dbSSLMode := Lookup(cm, "db.ssl.mode"),
      dbSSLRootCert := Lookup(cm, "db.ssl.root.cert"),
      standardInterval := Lookup(cm, "standard.interval"),
      validation := ReadValidationEntries(cm, ""),
      validationInit := ReadValidationEntries(cm, "init."))
  }

  function ReadValidationEntries(cm: ConfigMap, prefix: string): ValidationEntries {
    ValidationEntries(
      interval := Lookup(cm, prefix + VALIDATION_INTERVAL),
      attemptsThreshold := Lookup(cm, prefix + VALIDATION_ATTEMPTS_THRESHOLD),
      percentageThreshold := Lookup(cm, prefix + VALIDATION_PERCENTAGE_THRESHOLD))
  }

  /** None when the entry is present but not a number. */
  function GetIntValue(lib: Library, entry: Option<string>, default: int): Option<int> {
    if entry.Some? then lib.parseInt(entry.value) else Some(default)
  }

  function GetValidationConfig(lib: Library, spec: Spec, entries: ValidationEntries, default: ValidationConfiguration)
    : Option<ValidationConfiguration>
  {
    var interval :- GetIntValue(lib, entries.interval, default.interval);
    var attempts :- GetIntValue(lib, entries.attemptsThreshold, default.attemptsThreshold);
    var percentage :- if spec.validationThreshold.Some? then spec.validationThreshold
                      else GetIntValue(lib, entries.percentageThreshold, default.percentageThreshold);
    Some(ValidationConfiguration(interval, attempts, percentage))
  }

  /** None when a numeric entry of the config map does not parse. */
  function BuildFromEntries(lib: Library, spec: Spec, e: Entries, configMapVersion: string): Option<CyndiConfiguration> {
    var d := lib.defaults;
    var replicationFactor :- GetIntValue(lib, e.topicReplicationFactor, d.topicReplicationFactor);
    var tasksMax :- GetIntValue(lib, e.connectorTasksMax, d.connectorTasksMax);
    var batchSize :- GetIntValue(lib, e.connectorBatchSize, d.connectorBatchSize);
    var maxAge :- if spec.maxAge.Some? then spec.maxAge else GetIntValue(lib, e.connectorMaxAge, d.connectorMaxAge);
    var standardInterval :- GetIntValue(lib, e.standardInterval, d.standardInterval);
    var validation :- GetValidationConfig(lib, spec, e.validation, d.validationConfig);
    var validationInit :- GetValidationConfig(lib, spec, e.validationInit, d.validationConfigInit);
    Some(CyndiConfiguration(
           topic := spec.topic.GetOr(e.connectorTopic.GetOr(d.topic)),
           connectCluster := spec.connectCluster.GetOr(e.connectCluster.GetOr(d.connectCluster)),
           connectorTemplate := e.connectorConfig.GetOr(d.connectorTemplate),
           connectorTasksMax := tasksMax,
           connectorBatchSize := batchSize,
           connectorMaxAge := maxAge,
           connectorAllowlistSystemProfile := e.connectorAllowlistSP.GetOr(d.connectorAllowlistSystemProfile),
           topicReplicationFactor := replicationFactor,
           deadLetterQueueTopicName := e.deadLetterQueueTopicName.GetOr(d.deadLetterQueueTopicName),
           inventoryDbSecret := spec.inventoryDbSecret.GetOr(e.inventoryDbSecret.GetOr(d.inventoryDbSecret)),
           inventoryDbSchema := e.inventoryDbSchema.GetOr(d.inventoryDbSchema),
           dbTableInitScript := e.dbSchema.GetOr(d.dbTableInitScript),
           dbTableIndexSQL := if spec.dbTableIndexSQL != "" then spec.dbTableIndexSQL else d.dbTableIndexSQL,
           standardInterval := standardInterval,
           validationConfig := validation,
           validationConfigInit := validationInit,
           configMapVersion := configMapVersion,
           specHash := lib.hashSpec(spec.DataSpec()),
           sslMode := e.dbSSLMode.GetOr(d.sslMode),
           sslRootCert := e.dbSSLRootCert.GetOr(d.sslRootCert)))
  }

  function BuildCyndiConfig(lib: Library, spec: Spec, cm: ConfigMap): Option<CyndiConfiguration> {
    BuildFromEntries(lib, spec, ReadEntries(cm), ConfigMapHash(lib, cm, KEYS_IGNORED_BY_REFRESH))
  }

  /** The hypothesis under which the hashes detect every change. */
  ghost predicate HashesAreInjective(lib: Library) {
    && (forall a, b :: lib.hashConfig(a) == lib.hashConfig(b) ==> a == b)
    && (forall a, b :: lib.hashSpec(a) == lib.hashSpec(b) ==> a == b)
    && (forall a :: lib.hashConfig(a) != "-1")
  }

  /** Two config maps get the same version iff they agree off the ignored keys and are both empty or both not. */
  lemma ConfigVersionDetects(lib: Library, a: ConfigMap, b: ConfigMap, ignored: seq<string>)
    requires HashesAreInjective(lib)
    ensures ConfigMapHash(lib, a, ignored) == ConfigMapHash(lib, b, ignored)
            <==> Without(a, ignored) == Without(b, ignored) && (a == map[] <==> b == map[])
  {
    if |a| == 0 { assert a == map[]; }
    if |b| == 0 { assert b == map[]; }
  }

  /** Removing the last entry changes the version even where the entry is one that is ignored. */
  lemma EmptyingIsDetected(lib: Library, value: string)
    requires HashesAreInjective(lib)
    ensures var cm := map["standard.interval" := value];
            && Without(cm, KEYS_IGNORED_BY_REFRESH) == Without(map[], KEYS_IGNORED_BY_REFRESH)
            && ConfigMapHash(lib, cm, KEYS_IGNORED_BY_REFRESH) != ConfigMapHash(lib, map[], KEYS_IGNORED_BY_REFRESH)
  {
    var cm := map["standard.interval" := value];
    assert KEYS_IGNORED_BY_REFRESH[0] == "standard.interval";
    ConfigVersionDetects(lib, cm, map[], KEYS_IGNORED_BY_REFRESH);
    assert "standard.interval" in cm;
  }

  // ---- Where each setting comes from.

  /** The spec's value, or else the config map's, or else the default. */
  predicate Set(value: string, override: Option<string>, entry: Option<string>, default: string) {
    value == if override.Some? then override.value else if entry.Some? then entry.value else default
  }

  /** The same for a number, whose text must parse where it is used. */
  predicate SetNumber(lib: Library, value: int, override: Option<int>, entry: Option<string>, default: int) {
    if override.Some? then value == override.value
    else if entry.Some? then lib.parseInt(entry.value) == Some(value)
    else value == default
  }

  /** Which entry is read from which key. */
  lemma EntriesSpelledOut(cm: ConfigMap)
    ensures var e := ReadEntries(cm);
            && e.connectorTopic == Lookup(cm, "connector.topic")
            && e.connectCluster == Lookup(cm, "connect.cluster")
            && e.inventoryDbSecret == Lookup(cm, "inventory.dbSecret")
            && e.inventoryDbSchema == Lookup(cm, "inventory.dbSchema")
            && e.deadLetterQueueTopicName == Lookup(cm, "connector.deadletterqueue.topic.name")
            && e.connectorConfig == Lookup(cm, "connector.config")
            && e.connectorAllowlistSP == Lookup(cm, "connector.allowlist.sp")
            && e.dbSchema == Lookup(cm, "db.schema")
            && e.dbSSLMode == Lookup(cm, "db.ssl.mode")
            && e.dbSSLRootCert == Lookup(cm, "db.ssl.root.cert")
  {
  }

  lemma ConnectorTextsSpelledOut(lib: Library, spec: Spec, e: Entries, version: string, cfg: CyndiConfiguration)
    requires BuildFromEntries(lib, spec, e, version) == Some(cfg)
    ensures var d := lib.defaults;
            && Set(cfg.topic, spec.topic, e.connectorTopic, d.topic)
            && Set(cfg.connectCluster, spec.connectCluster, e.connectCluster, d.connectCluster)
            && Set(cfg.deadLetterQueueTopicName, None, e.deadLetterQueueTopicName, d.deadLetterQueueTopicName)
            && Set(cfg.connectorTemplate, None, e.connectorConfig, d.connectorTemplate)
            && Set(cfg.connectorAllowlistSystemProfile, None, e.connectorAllowlistSP, d.connectorAllowlistSystemProfile)
  {
  }

  lemma DatabaseTextsSpelledOut(lib: Library, spec: Spec, e: Entries, version: string, cfg: CyndiConfiguration)
    requires BuildFromEntries(lib, spec, e, version) == Some(cfg)
    ensures var d := lib.defaults;
            && Set(cfg.inventoryDbSecret, spec.inventoryDbSecret, e.inventoryDbSecret, d.inventoryDbSecret)
            && Set(cfg.inventoryDbSchema, None, e.inventoryDbSchema, d.inventoryDbSchema)
            && Set(cfg.dbTableInitScript, None, e.dbSchema, d.dbTableInitScript)
            && Set(cfg.sslMode, None, e.dbSSLMode, d.sslMode)
            && Set(cfg.sslRootCert, None, e.dbSSLRootCert, d.sslRootCert)
            && cfg.dbTableIndexSQL == (if spec.dbTableIndexSQL == "" then d.dbTableIndexSQL else spec.dbTableIndexSQL)
  {
  }

  lemma NumbersSpelledOut(lib: Library, spec: Spec, cm: ConfigMap, cfg: CyndiConfiguration)
    requires BuildCyndiConfig(lib, spec, cm) == Some(cfg)
    ensures var d := lib.defaults;
            && SetNumber(lib, cfg.topicReplicationFactor, None, Lookup(cm, "connector.topic.replication.factor"), d.topicReplicationFactor)
            && SetNumber(lib, cfg.connectorTasksMax, None, Lookup(cm, "connector.tasks.max"), d.connectorTasksMax)
            && SetNumber(lib, cfg.connectorBatchSize, None, Lookup(cm, "connector.batch.size"), d.connectorBatchSize)
            && SetNumber(lib, cfg.connectorMaxAge, spec.maxAge, Lookup(cm, "connector.max.age"), d.connectorMaxAge)
            && SetNumber(lib, cfg.standardInterval, None, Lookup(cm, "standard.interval"), d.standardInterval)
            && cfg.specHash == lib.hashSpec(spec.DataSpec())
  {
  }

  /** One set of thresholds, read from the keys that begin with `prefix`. */
  predicate SetThresholds(lib: Library, v: ValidationConfiguration, spec: Spec, cm: ConfigMap, prefix: string, d: ValidationConfiguration) {
    && SetNumber(lib, v.interval, None, Lookup(cm, prefix + "validation.interval"), d.interval)
    && SetNumber(lib, v.attemptsThreshold, None, Lookup(cm, prefix + "validation.attempts.threshold"), d.attemptsThreshold)
    && SetNumber(lib, v.percentageThreshold, spec.validationThreshold, Lookup(cm, prefix + "validation.percentage.threshold"),
                 d.percentageThreshold)
  }

  /** Running pipelines and the initial sync have thresholds of their own. */
  lemma ThresholdsSpelledOut(lib: Library, spec: Spec, cm: ConfigMap, cfg: CyndiConfiguration)
    requires BuildCyndiConfig(lib, spec, cm) == Some(cfg)
    ensures SetThresholds(lib, cfg.validationConfig, spec, cm, "", lib.defaults.validationConfig)
    ensures SetThresholds(lib, cfg.validationConfigInit, spec, cm, "init.", lib.defaults.validationConfigInit)
  {
    ThresholdsRead(lib, spec, cm, "", lib.defaults.validationConfig);
    ThresholdsRead(lib, spec, cm, "init.", lib.defaults.validationConfigInit);
  }

  lemma ThresholdsRead(lib: Library, spec: Spec, cm: ConfigMap, prefix: string, default: ValidationConfiguration)
    ensures var v := GetValidationConfig(lib, spec, ReadValidationEntries(cm, prefix), default);
            v.Some? ==> SetThresholds(lib, v.value, spec, cm, prefix, default)
  {
  }
}
