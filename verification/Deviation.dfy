/** checkForDeviation: what makes a pipeline refresh. */
module Deviation {
  import opened Wrappers
  import opened Lang
  import opened Names
  import opened Pipeline
  import opened Config
  import opened Connect

  datatype Reason =
    | ConfigMapChanged | SpecChanged | TableNotFound | ConnectorNotFound | ConnectorFailed
    | AppNameDisagrees | InsightsOnlyChanged | ConnectClusterChanged | MaxAgeChanged | ConnectorConfigChanged

  datatype Outcome = NoDeviation | Deviates(reason: Reason) | CheckFailed

  /** A comparison that cannot read one of the two configurations as an object is skipped. */
  predicate ConfigsDiffer(current: ConnectorConfig, desired: ConnectorConfig) {
    !current.NotAnObject? && !desired.NotAnObject? && current != desired
  }

  /** What recorded hashes say, before the database and the connector are looked at. */
  function CheckHashes(status: Status, cfg: CyndiConfiguration): Outcome {
    if status.cyndiConfigVersion != cfg.configMapVersion then Deviates(ConfigMapChanged)
    else if status.specHash != cfg.specHash then Deviates(SpecChanged)
    else NoDeviation
  }

  function CheckConnector(spec: Spec, cfg: CyndiConfiguration, connector: Option<Connector>, desired: Option<Connector>): Outcome {
    if connector.None? then Deviates(ConnectorNotFound)
    else
      var c := connector.value;
      if c.IsFailed() then Deviates(ConnectorFailed)
      else if c.Label(LABEL_APP_NAME) != spec.appName then Deviates(AppNameDisagrees)
      else if c.Label(LABEL_INSIGHTS_ONLY) != FormatBool(spec.insightsOnly) then Deviates(InsightsOnlyChanged)
      else if c.Label(LABEL_STRIMZI_CLUSTER) != cfg.connectCluster then Deviates(ConnectClusterChanged)
      else if c.Label(LABEL_MAX_AGE) != FormatInt(cfg.connectorMaxAge) then Deviates(MaxAgeChanged)
      else if desired.None? then CheckFailed
      else if ConfigsDiffer(c.config, desired.value.config) then Deviates(ConnectorConfigChanged)
      else NoDeviation
  }

  /** The check on one consistent reading of database and cluster. */
  function CheckForDeviation(
    spec: Spec, status: Status, cfg: CyndiConfiguration, tableExists: bool, connector: Option<Connector>, desired: Option<Connector>)
    : Outcome
  {
    if CheckHashes(status, cfg) != NoDeviation then CheckHashes(status, cfg)
    else if !tableExists then Deviates(TableNotFound)
    else if !spec.ConnectorsManaged() then NoDeviation
    else CheckConnector(spec, cfg, connector, desired)
  }

  /** What the check compares besides the configuration. */
  predicate HealthyAndLabelled(spec: Spec, cfg: CyndiConfiguration, c: Connector) {
    && c.connectorStatus != Some("FAILED") && Some("FAILED") !in c.taskStates
    && Labelled(c, "cyndi/appName", spec.appName)
    && Labelled(c, "cyndi/insightsOnly", if spec.insightsOnly then "true" else "false")
    && Labelled(c, "strimzi.io/cluster", cfg.connectCluster)
    && Labelled(c, "cyndi/maxAge", FormatInt(cfg.connectorMaxAge))
  }

  /** A missing label counts as an empty one. */
  predicate Labelled(c: Connector, name: string, value: string) {
    if name in c.labels then c.labels[name] == value else value == ""
  }

  /**
   * A connector passes iff it is healthy, carries the current labels, and runs the desired configuration, or if one of
   * the two configurations is not an object.
   */
  lemma ConnectorPassesIff(spec: Spec, cfg: CyndiConfiguration, c: Connector, desired: Connector)
    ensures CheckConnector(spec, cfg, Some(c), Some(desired)) == NoDeviation
            <==> && HealthyAndLabelled(spec, cfg, c)
                 && (c.config == desired.config || c.config.NotAnObject? || desired.config.NotAnObject?)
  {
  }

  /** Whatever is desired, a desired connector whose configuration is replaced by something else than an object passes. */
  lemma NonObjectPasses(lib: Library, ephemeral: bool, spec: Spec, cfg: CyndiConfiguration, db: DBParams, tableName: string)
    requires DesiredConnector(lib, ephemeral, spec, cfg, db, tableName).Some?
    ensures var desired := DesiredConnector(lib, ephemeral, spec, cfg, db, tableName).value;
            var c := desired.(config := NotAnObject);
            && CheckConnector(spec, cfg, Some(c), Some(desired)) == NoDeviation
            && (!desired.config.NotAnObject? ==> c.config != desired.config)
  {
    var desired := DesiredConnector(lib, ephemeral, spec, cfg, db, tableName).value;
    ConnectorPassesIff(spec, cfg, desired.(config := NotAnObject), desired);
  }

  /** Pausing and the refresh field touch neither the hash nor anything the connector is compared on. */
  lemma OperationalFieldsAreInvisible(
    lib: Library, ephemeral: bool, cm: ConfigMap, db: DBParams, spec: Spec, status: Status, tableExists: bool,
    connector: Option<Connector>, paused: bool, refresh: string, cfg: CyndiConfiguration)
    requires BuildCyndiConfig(lib, spec, cm) == Some(cfg)
    ensures var spec' := spec.(connectorPaused := paused, refresh := refresh);
            && BuildCyndiConfig(lib, spec', cm) == Some(cfg)
            && CheckForDeviation(spec', status, cfg, tableExists, connector,
                                 DesiredConnector(lib, ephemeral, spec', cfg, db, status.tableName))
               == CheckForDeviation(spec, status, cfg, tableExists, connector,
                                    DesiredConnector(lib, ephemeral, spec, cfg, db, status.tableName))
  {
    var spec' := spec.(connectorPaused := paused, refresh := refresh);
    assert spec'.DataSpec() == spec.DataSpec();
    SpecReachesConfig(lib, spec, spec', ReadEntries(cm), ConfigMapHash(lib, cm, KEYS_IGNORED_BY_REFRESH));
    assert BuildCyndiConfig(lib, spec', cm) == Some(cfg);
  }

  lemma SpecReachesConfig(lib: Library, spec: Spec, spec': Spec, e: Entries, version: string)
    requires spec'.DataSpec() == spec.DataSpec()
    ensures BuildFromEntries(lib, spec', e, version) == BuildFromEntries(lib, spec, e, version)
  {
    assert spec'.topic == spec'.DataSpec().topic == spec.topic;
    assert spec'.validationThreshold == spec'.DataSpec().validationThreshold == spec.validationThreshold;
  }

  lemma RecordedHashes(lib: Library, spec: Spec, cm: ConfigMap, cfg: CyndiConfiguration)
    requires BuildCyndiConfig(lib, spec, cm) == Some(cfg)
    ensures cfg.configMapVersion == ConfigMapHash(lib, cm, KEYS_IGNORED_BY_REFRESH)
    ensures cfg.specHash == lib.hashSpec(spec.DataSpec())
  {
  }

  /** The config maps may differ in the reconcile interval and the two sets of validation settings only. */
  ghost predicate AgreeOffThresholds(a: ConfigMap, b: ConfigMap) {
    forall key ::
      key != "standard.interval"
      && key != "validation.interval" && key != "validation.attempts.threshold" && key != "validation.percentage.threshold"
      && key != "init." + "validation.interval" && key != "init." + "validation.attempts.threshold"
      && key != "init." + "validation.percentage.threshold"
      ==> Lookup(a, key) == Lookup(b, key)
  }

  lemma IgnoredKeys(key: string)
    ensures key in KEYS_IGNORED_BY_REFRESH
            <==> || key == "standard.interval"
                 || key == "validation.interval" || key == "validation.attempts.threshold" || key == "validation.percentage.threshold"
                 || key == "init." + "validation.interval" || key == "init." + "validation.attempts.threshold"
                 || key == "init." + "validation.percentage.threshold"
  {
    var keys := KEYS_IGNORED_BY_REFRESH;
    assert keys[0] == "standard.interval" && keys[1] == "validation.interval" && keys[2] == "validation.attempts.threshold";
    assert keys[3] == "validation.percentage.threshold" && keys[4] == "init." + "validation.interval";
    assert keys[5] == "init." + "validation.attempts.threshold" && keys[6] == "init." + "validation.percentage.threshold";
  }

  lemma IgnoredKeysSpelledOut(a: ConfigMap, b: ConfigMap)
    ensures Without(a, KEYS_IGNORED_BY_REFRESH) == Without(b, KEYS_IGNORED_BY_REFRESH) <==> AgreeOffThresholds(a, b)
  {
    var wa, wb := Without(a, KEYS_IGNORED_BY_REFRESH), Without(b, KEYS_IGNORED_BY_REFRESH);
    if wa == wb {
      forall key | key !in KEYS_IGNORED_BY_REFRESH ensures Lookup(a, key) == Lookup(b, key) {
        assert key in a <==> key in wa;
        assert key in b <==> key in wb;
      }
      forall key ensures key !in KEYS_IGNORED_BY_REFRESH ==> Lookup(a, key) == Lookup(b, key) { }
      forall key { IgnoredKeys(key); }
    }
    if AgreeOffThresholds(a, b) {
      forall key | key !in KEYS_IGNORED_BY_REFRESH ensures Lookup(a, key) == Lookup(b, key) {
        IgnoredKeys(key);
      }
      assert forall key :: key !in KEYS_IGNORED_BY_REFRESH ==> Lookup(a, key) == Lookup(b, key);
      assert forall key :: key in wa ==> key in wb && wa[key] == wb[key] by {
        forall key | key in wa ensures key in wb && wa[key] == wb[key] { assert Lookup(a, key) == Lookup(b, key); }
      }
      assert forall key :: key in wb ==> key in wa by {
        forall key | key in wb ensures key in wa { assert Lookup(a, key) == Lookup(b, key); }
      }
    }
  }

  /**
   * A pipeline recorded under (spec0, cm0) passes the hash comparison under (spec1, cm1) exactly when the specs agree in
   * all but managedConnectors, connectorPaused and refresh, the config maps agree in all but intervals and thresholds,
   * and both config maps are empty or neither is.
   */
  lemma HashesDetectExactlyDataChanges(
    lib: Library, spec0: Spec, cm0: ConfigMap, cfg0: CyndiConfiguration,
    spec1: Spec, cm1: ConfigMap, cfg1: CyndiConfiguration, status: Status)
    requires HashesAreInjective(lib)
    requires BuildCyndiConfig(lib, spec0, cm0) == Some(cfg0) && BuildCyndiConfig(lib, spec1, cm1) == Some(cfg1)
    requires status.cyndiConfigVersion == cfg0.configMapVersion && status.specHash == cfg0.specHash
    ensures CheckHashes(status, cfg1) == NoDeviation
            <==> && spec1 == spec0.(managedConnectors := spec1.managedConnectors, connectorPaused := spec1.connectorPaused,
                                    refresh := spec1.refresh)
                 && AgreeOffThresholds(cm0, cm1)
                 && (cm0 == map[] <==> cm1 == map[])
  {
    RecordedHashes(lib, spec0, cm0, cfg0);
    RecordedHashes(lib, spec1, cm1, cfg1);
    ConfigVersionDetects(lib, cm0, cm1, KEYS_IGNORED_BY_REFRESH);
    assert lib.hashSpec(spec0.DataSpec()) == lib.hashSpec(spec1.DataSpec()) <==> spec0.DataSpec() == spec1.DataSpec();
    DataSpecForgets(spec0, spec1);
    IgnoredKeysSpelledOut(cm0, cm1);
  }

  /** Every ignored key starts with "s", "v" or "ini"; no key the connector or the table is built from does. */
  predicate LooksIgnored(key: string) {
    |key| > 2 && (key[0] == 's' || key[0] == 'v' || (key[0] == 'i' && key[2] == 'i'))
  }

  lemma IgnoredKeysLookIgnored(key: string)
    requires key in KEYS_IGNORED_BY_REFRESH
    ensures LooksIgnored(key)
  {
  }

  lemma SameOffIgnoredKeys(a: ConfigMap, b: ConfigMap, key: string)
    requires Without(a, KEYS_IGNORED_BY_REFRESH) == Without(b, KEYS_IGNORED_BY_REFRESH)
    requires !LooksIgnored(key)
    ensures Lookup(a, key) == Lookup(b, key)
  {
    var wa, wb := Without(a, KEYS_IGNORED_BY_REFRESH), Without(b, KEYS_IGNORED_BY_REFRESH);
    if key in KEYS_IGNORED_BY_REFRESH {
      IgnoredKeysLookIgnored(key);
    }
    assert key in a <==> key in wa;
    assert key in b <==> key in wb;
    if key in a {
      assert a[key] == wa[key] == wb[key] == b[key];
    }
  }

  /** Two config maps that hash alike give the same entries, apart from the intervals and thresholds. */
  lemma EntriesAgree(a: ConfigMap, b: ConfigMap)
    requires Without(a, KEYS_IGNORED_BY_REFRESH) == Without(b, KEYS_IGNORED_BY_REFRESH)
    ensures var ea, eb := ReadEntries(a), ReadEntries(b);
            eb == ea.(standardInterval := eb.standardInterval, validation := eb.validation, validationInit := eb.validationInit)
  {
    SameOffIgnoredKeys(a, b, "connector.topic");
    SameOffIgnoredKeys(a, b, "connect.cluster");
    SameOffIgnoredKeys(a, b, "inventory.dbSecret");
    SameOffIgnoredKeys(a, b, "inventory.dbSchema");
    SameOffIgnoredKeys(a, b, "connector.topic.replication.factor");
    SameOffIgnoredKeys(a, b, "connector.deadletterqueue.topic.name");
    SameOffIgnoredKeys(a, b, "connector.config");
    SameOffIgnoredKeys(a, b, "connector.tasks.max");
    SameOffIgnoredKeys(a, b, "connector.batch.size");
    SameOffIgnoredKeys(a, b, "connector.max.age");
    SameOffIgnoredKeys(a, b, "connector.allowlist.sp");
    SameOffIgnoredKeys(a, b, "db.schema");
    SameOffIgnoredKeys(a, b, "db.ssl.mode");
    SameOffIgnoredKeys(a, b, "db.ssl.root.cert");
  }

  lemma BuildsAgree(lib: Library, spec: Spec, e0: Entries, cfg0: CyndiConfiguration, e1: Entries, cfg1: CyndiConfiguration, version: string)
    requires BuildFromEntries(lib, spec, e0, version) == Some(cfg0) && BuildFromEntries(lib, spec, e1, version) == Some(cfg1)
    requires e1 == e0.(standardInterval := e1.standardInterval, validation := e1.validation, validationInit := e1.validationInit)
    ensures cfg1 == cfg0.(standardInterval := cfg1.standardInterval,
                          validationConfig := cfg1.validationConfig,
                          validationConfigInit := cfg1.validationConfigInit)
  {
  }

  /** The keys left out of the hash only reach the intervals and thresholds, never the connector or the table. */
  lemma IgnoredKeysReachOnlyThresholds(
    lib: Library, ephemeral: bool, spec: Spec, db: DBParams, tableName: string,
    cm0: ConfigMap, cfg0: CyndiConfiguration, cm1: ConfigMap, cfg1: CyndiConfiguration)
    requires BuildCyndiConfig(lib, spec, cm0) == Some(cfg0) && BuildCyndiConfig(lib, spec, cm1) == Some(cfg1)
    requires Without(cm0, KEYS_IGNORED_BY_REFRESH) == Without(cm1, KEYS_IGNORED_BY_REFRESH)
    requires cm0 != map[] && cm1 != map[]
    ensures cfg1 == cfg0.(standardInterval := cfg1.standardInterval,
                          validationConfig := cfg1.validationConfig,
                          validationConfigInit := cfg1.validationConfigInit)
    ensures DesiredConnector(lib, ephemeral, spec, cfg0, db, tableName)
         == DesiredConnector(lib, ephemeral, spec, cfg1, db, tableName)
  {
    EntriesAgree(cm0, cm1);
    assert |cm0| != 0 && |cm1| != 0;
    BuildsAgree(lib, spec, ReadEntries(cm0), cfg0, ReadEntries(cm1), cfg1, ConfigMapHash(lib, cm0, KEYS_IGNORED_BY_REFRESH));
  }
}
