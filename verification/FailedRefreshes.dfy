/** Refreshes that fail one after the other: which table the view shows after any number of give-ups. */
module FailedRefreshes {
  import opened Wrappers
  import opened Lang
  import opened Names
  import opened Pipeline
  import opened Config
  import opened Deviation
  import opened LesserEvil
  import opened Protocol
  import opened Calm
  import opened Stability

  /** Settings and host counts are frozen; the hosts themselves may be exchanged. */
  ghost predicate SameCounts(e: Env, e': Env, spec: Spec) {
    && SameSettings(e, e') && e'.HbiCount(spec) == e.HbiCount(spec)
    && forall t :: |e'.appIds(t)| == |e.appIds(t)|
  }

  /** A managed pipeline between two refreshes that has never been valid: NEW, or matching and in its initial sync. */
  ghost predicate Ongoing(w: World, e: Env, cfg: CyndiConfiguration) {
    && Workable(w, e, cfg) && Sliceable(w.obj.status) && w.obj.spec.ConnectorsManaged()
    && (GetState(w.obj) == StateNew || (Stable(w, e, cfg) && GetState(w.obj) == StateInitialSync))
  }

  /** What is assumed of a pass: frozen counts, a version whose connector does not exist, a validation that fails. */
  ghost predicate Unlucky(w: World, a: Action, e: Env, cfg: CyndiConfiguration) {
    && SameCounts(e, a.env, w.obj.spec)
    && (a.PipelinePass? ==> a.version != "" && ConnectorName(a.version, w.obj.spec.appName) !in w.conns)
    && (a.ValidationPass? && GetState(w.obj) == StateInitialSync ==> !VerdictCalm(w, a.env, cfg).isValid)
  }

  ghost predicate UnluckyRun(w: World, actions: seq<Action>, e: Env, cfg: CyndiConfiguration) {
    actions == [] ||
    (&& UnluckyRun(w, actions[..|actions| - 1], e, cfg)
     && Unlucky(PerformAll(w, actions[..|actions| - 1]), actions[|actions| - 1], e, cfg))
  }

  ghost predicate GivesUpOn(w: World, a: Action, cfg: CyndiConfiguration) {
    a.PipelinePass? && GetState(w.obj) == StateInitialSync && GivesUpNow(w.obj.status, cfg)
  }

  /** The tables of the versions given up, in order. */
  ghost function GivenUp(w: World, actions: seq<Action>, cfg: CyndiConfiguration): seq<string> {
    if actions == [] then []
    else
      var before := actions[..|actions| - 1];
      var w1 := PerformAll(w, before);
      GivenUp(w, before, cfg) + (if GivesUpOn(w1, actions[|actions| - 1], cfg) then [w1.obj.status.tableName] else [])
  }

  lemma NewPassGoesOn(w: World, e: Env, cfg: CyndiConfiguration, version: string)
    requires Ongoing(w, e, cfg) && GetState(w.obj) == StateNew
    requires version != "" && ConnectorName(version, w.obj.spec.appName) !in w.conns
    ensures var w' := PassCalm(w, e, version);
            Ongoing(w', e, cfg) && w'.obj.spec == w.obj.spec && w'.view == w.view
  {
    PassFromNew(w, e, cfg, version);
  }

  lemma WaitingPassGoesOn(w: World, e: Env, cfg: CyndiConfiguration, version: string)
    requires Ongoing(w, e, cfg) && GetState(w.obj) == StateInitialSync && !GivesUpNow(w.obj.status, cfg)
    ensures var w' := PassCalm(w, e, version);
            Ongoing(w', e, cfg) && w'.obj.spec == w.obj.spec && w'.view == w.view
  {
    PassKeepsStable(w, e, cfg, version);
    AfterCleanup(w, e, cfg);
    WaitingActKeepsView(CleanedUp(w, Seen(w.view), true), e, cfg);
  }

  lemma WaitingActKeepsView(w: World, e: Env, cfg: CyndiConfiguration)
    requires GetState(w.obj) == StateInitialSync && !GivesUpNow(w.obj.status, cfg)
    ensures ActCalm(w, e, cfg).view == w.view
    ensures GetState(ActCalm(w, e, cfg).obj) == StateInitialSync
  {
  }

  lemma GivingUpGoesOn(w: World, e: Env, cfg: CyndiConfiguration, version: string)
    requires Ongoing(w, e, cfg) && GetState(w.obj) == StateInitialSync && GivesUpNow(w.obj.status, cfg)
    ensures var w' := PassCalm(w, e, version);
            && Ongoing(w', e, cfg) && w'.obj.spec == w.obj.spec
            && w'.view == Some(e.ShownAfter(w.view, w.obj.status.tableName, w.obj.spec))
  {
    DueGiveUp(w, e, cfg, version);
  }

  lemma FailedValidationGoesOn(w: World, e: Env, cfg: CyndiConfiguration)
    requires Ongoing(w, e, cfg) && (GetState(w.obj) == StateInitialSync ==> !VerdictCalm(w, e, cfg).isValid)
    ensures var w' := ValidationCalm(w, e);
            Ongoing(w', e, cfg) && w'.obj.spec == w.obj.spec && w'.view == w.view
  {
    if GetState(w.obj) == StateInitialSync {
      ValidationKeepsStable(w, e, cfg);
    }
  }

  lemma OneUnluckyAction(w: World, e: Env, cfg: CyndiConfiguration, a: Action)
    requires Ongoing(w, a.env, cfg) && Unlucky(w, a, e, cfg)
    ensures var w' := Perform(w, a);
            && Ongoing(w', a.env, cfg) && w'.obj.spec == w.obj.spec
            && w'.view == if GivesUpOn(w, a, cfg) then Some(a.env.ShownAfter(w.view, w.obj.status.tableName, w.obj.spec)) else w.view
  {
    match a
    case PipelinePass(e', version) =>
      if GetState(w.obj) == StateNew {
        NewPassGoesOn(w, e', cfg, version);
      } else if GivesUpNow(w.obj.status, cfg) {
        GivingUpGoesOn(w, e', cfg, version);
      } else {
        WaitingPassGoesOn(w, e', cfg, version);
      }
    case ValidationPass(e') => FailedValidationGoesOn(w, e', cfg);
  }

  /** Host counts of the tables, frozen. */
  function TableCounts(e: Env): string -> int {
    t => |e.appIds(t)|
  }

  lemma SameCountsSameChoice(e: Env, e': Env, spec: Spec, view: Option<string>, candidate: string)
    requires SameCounts(e, e', spec)
    ensures e'.ShownAfter(view, candidate, spec) == Healthier(view, candidate, e.HbiCount(spec), TableCounts(e))
  {
  }

  /** What one pass does to the pipeline and the view, by the frozen counts of `e`. */
  ghost predicate GoesOn(w: World, a: Action, w': World, e: Env, cfg: CyndiConfiguration) {
    && Ongoing(w', e, cfg) && w'.obj.spec == w.obj.spec
    && w'.view == if GivesUpOn(w, a, cfg)
                  then Some(Healthier(w.view, w.obj.status.tableName, e.HbiCount(w.obj.spec), TableCounts(e))) else w.view
  }

  lemma OneActionGoesOn(w: World, e: Env, cfg: CyndiConfiguration, a: Action)
    requires Ongoing(w, e, cfg) && Unlucky(w, a, e, cfg)
    ensures GoesOn(w, a, Perform(w, a), e, cfg)
  {
    HostsDoNotMatter(w, e, a.env, cfg);
    OneUnluckyAction(w, e, cfg, a);
    HostsDoNotMatter(Perform(w, a), e, a.env, cfg);
    SameCountsSameChoice(e, a.env, w.obj.spec, w.view, w.obj.status.tableName);
  }

  ghost predicate ShowsHealthiest(w: World, w': World, tables: seq<string>, e: Env, cfg: CyndiConfiguration) {
    && Ongoing(w', e, cfg) && w'.obj.spec == w.obj.spec
    && w'.view == HealthierOf(w.view, tables, e.HbiCount(w.obj.spec), TableCounts(e))
  }

  lemma ShowsHealthiestStill(w: World, w1: World, tables: seq<string>, a: Action, w2: World, e: Env, cfg: CyndiConfiguration)
    requires ShowsHealthiest(w, w1, tables, e, cfg) && GoesOn(w1, a, w2, e, cfg)
    ensures ShowsHealthiest(w, w2, tables + (if GivesUpOn(w1, a, cfg) then [w1.obj.status.tableName] else []), e, cfg)
  {
    var all := tables + [w1.obj.status.tableName];
    assert all[..|all| - 1] == tables;
    assert tables + [] == tables;
  }

  /** After any passes of both controllers the view shows the healthiest of what it showed at first and all tables given up. */
  lemma {:induction false} ViewAfterGiveUps(w: World, actions: seq<Action>, e: Env, cfg: CyndiConfiguration)
    requires Ongoing(w, e, cfg) && UnluckyRun(w, actions, e, cfg)
    ensures ShowsHealthiest(w, PerformAll(w, actions), GivenUp(w, actions, cfg), e, cfg)
  {
    if actions != [] {
      var n := |actions| - 1;
      var w1 := PerformAll(w, actions[..n]);
      ViewAfterGiveUps(w, actions[..n], e, cfg);
      OneActionGoesOn(w1, e, cfg, actions[n]);
      ShowsHealthiestStill(w, w1, GivenUp(w, actions[..n], cfg), actions[n], Perform(w1, actions[n]), e, cfg);
    }
  }

  /**
   * Over any chain of failed refreshes with frozen counts, with or without a view at the start: the view shows the last
   * one, of the table it showed at first and the tables given up since, whose count is closest to the inventory's.
   */
  lemma ActiveTableStaysClosest(w: World, actions: seq<Action>, e: Env, cfg: CyndiConfiguration) returns (i: nat)
    requires Ongoing(w, e, cfg) && UnluckyRun(w, actions, e, cfg)
    requires Counts(e.HbiCount(w.obj.spec), TableCounts(e)) && Contenders(w.view, GivenUp(w, actions, cfg)) != []
    ensures LastClosest(Contenders(w.view, GivenUp(w, actions, cfg)), i, e.HbiCount(w.obj.spec), TableCounts(e))
    ensures PerformAll(w, actions).view == Some(Contenders(w.view, GivenUp(w, actions, cfg))[i])
  {
    ViewAfterGiveUps(w, actions, e, cfg);
    i := ActiveTableIsLastClosest(w.view, GivenUp(w, actions, cfg), e.HbiCount(w.obj.spec), TableCounts(e));
  }
}
