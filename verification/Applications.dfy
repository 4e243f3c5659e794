/** The Argo CD Application an Addon is turned into (internal/controller/argocd/application.go) and the
    reading of its status (internal/controller/status/translator.go). */
module Applications {
  import opened Wrappers
  import opened Labels
  import opened Aggregation
  import opened Dependencies

  const MANAGED_BY := "app.kubernetes.io/managed-by"
  const OPERATOR := "addon-operator"
  const ADDON_LABEL := "addons.in-cloud.io/addon"
  const ARGO_FINALIZER := "resources-finalizer.argocd.argoproj.io"
  const IN_CLUSTER := "in-cluster"
  const DEFAULT_CLUSTER := "https://kubernetes.default.svc"

  datatype Backoff = Backoff(duration: string, factor: Option<int>, maxDuration: string)
  datatype Retry = Retry(limit: int, backoff: Option<Backoff>)
  datatype Automated = Automated(prune: bool, selfHeal: bool, allowEmpty: bool)
  /** A nil map or slice is None here: DeepEqual tells it from one that is present and empty. */
  datatype NamespaceMetadata = NamespaceMetadata(labels: Option<LabelMap>, annotations: Option<LabelMap>)
  datatype SyncPolicy = SyncPolicy(
    automated: Option<Automated>, syncOptions: Option<seq<string>>, namespaceMetadata: Option<NamespaceMetadata>,
    retry: Option<Retry>)
  datatype IgnoreDifference = IgnoreDifference(
    group: string, kind: string, name: string, namespace: string,
    jsonPointers: Option<seq<string>>, jqPathExpressions: Option<seq<string>>, managers: Option<seq<string>>)

  datatype Backend = Backend(
    namespace: string, project: string, syncPolicy: Option<SyncPolicy>,
    ignoreDifferences: Option<seq<IgnoreDifference>>, finalizer: Option<bool>)

  datatype AddonSpec = AddonSpec(
    chart: string, path: string, repoURL: string, version: string, targetCluster: string, targetNamespace: string,
    pluginName: string, releaseName: string, backend: Backend,
    valuesSelectors: seq<ValuesSelector>, initDependencies: seq<Dependency>)

  /** The other fields stand for everything Argo CD knows that this operator never sets. */
  datatype Helm = Helm(values: string, releaseName: string, other: string)
  datatype Plugin = Plugin(name: string, env: seq<(string, string)>, other: string)
  datatype Source = Source(
    chart: string, path: string, repoURL: string, targetRevision: string,
    helm: Option<Helm>, plugin: Option<Plugin>, other: string)
  datatype Destination = Destination(server: string, name: string, namespace: string)
  datatype Spec = Spec(
    project: string, source: Option<Source>, sources: seq<Source>, destination: Destination,
    syncPolicy: Option<SyncPolicy>, ignoreDifferences: Option<seq<IgnoreDifference>>, other: string)

  datatype SyncCode = Synced | OutOfSync | SyncUnknown
  datatype HealthCode = Healthy | Degraded | Progressing | Suspended | MissingHealth | HealthUnknown
  datatype ComparedTo = ComparedTo(source: Source, sources: seq<Source>)
  datatype AppStatus = AppStatus(comparedTo: ComparedTo, sync: SyncCode, health: HealthCode)

  datatype App = App(labels: LabelMap, finalizers: seq<string>, spec: Spec, status: AppStatus, terminating: bool)

  const NO_SOURCE := Source("", "", "", "", None, None, "")
  const NEW_STATUS := AppStatus(ComparedTo(NO_SOURCE, []), SyncUnknown, HealthUnknown)

  /** ApplicationBuilder; base64 encoding is not part of this model. */
  datatype Builder = Builder(defaultRetry: Option<Retry>, base64: string -> string)

  // ---- Build ----

  function BuildPlugin(b: Builder, spec: AddonSpec, valuesYAML: string): Plugin {
    Plugin(spec.pluginName,
           [("HELM_VALUES", b.base64(valuesYAML))]
           + (if spec.releaseName != "" then [("RELEASE_NAME", spec.releaseName)] else []), "")
  }

  function BuildSource(b: Builder, spec: AddonSpec, valuesYAML: string): Source {
    Source(spec.chart, spec.path, spec.repoURL, spec.version,
           if spec.pluginName != "" then None else Some(Helm(valuesYAML, spec.releaseName, "")),
           if spec.pluginName != "" then Some(BuildPlugin(b, spec, valuesYAML)) else None, "")
  }

  function GetDestination(spec: AddonSpec): Destination {
    if spec.targetCluster == IN_CLUSTER then Destination(DEFAULT_CLUSTER, "", spec.targetNamespace)
    else if "https://" <= spec.targetCluster || "http://" <= spec.targetCluster then
      Destination(spec.targetCluster, "", spec.targetNamespace)
    else Destination("", spec.targetCluster, spec.targetNamespace)
  }

  function GetSyncPolicy(b: Builder, spec: AddonSpec): Option<SyncPolicy> {
    match spec.backend.syncPolicy
    case None => None
    case Some(p) =>
      Some(p.(syncOptions := NoneIfEmpty(p.syncOptions), retry := if p.retry.Some? then p.retry else b.defaultRetry))
  }

  function NoneIfEmpty<T(==)>(items: Option<seq<T>>): Option<seq<T>> {
    if items == Some([]) then None else items
  }

  function GetProject(spec: AddonSpec): string {
    if spec.backend.project != "" then spec.backend.project else "default"
  }

  function Build(b: Builder, name: string, spec: AddonSpec, valuesYAML: string): App {
    App(map[MANAGED_BY := OPERATOR, ADDON_LABEL := name],
        if spec.backend.finalizer == Some(true) then [ARGO_FINALIZER] else [],
        Spec(GetProject(spec), Some(BuildSource(b, spec, valuesYAML)), [], GetDestination(spec),
             GetSyncPolicy(b, spec), NoneIfEmpty(spec.backend.ignoreDifferences), ""),
        NEW_STATUS, false)
  }

  // ---- What the operator promises to put into an Application ----

  /** The source is the Addon's own and carries the values: given to Helm, or to the plugin in its environment. */
  predicate Carries(source: Source, b: Builder, addon: AddonSpec, valuesYAML: string) {
    && source.chart == addon.chart && source.path == addon.path && source.repoURL == addon.repoURL
    && source.targetRevision == addon.version
    && if addon.pluginName == "" then
         && source.plugin.None? && source.helm.Some?
         && source.helm.value.values == valuesYAML && source.helm.value.releaseName == addon.releaseName
       else
         && source.helm.None? && source.plugin.Some?
         && source.plugin.value.name == addon.pluginName && source.plugin.value.other == ""
         && source.plugin.value.env
            == if addon.releaseName == "" then [("HELM_VALUES", b.base64(valuesYAML))]
               else [("HELM_VALUES", b.base64(valuesYAML)), ("RELEASE_NAME", addon.releaseName)]
  }

  /** A cluster is named, except that a URL is its server and in-cluster is the local one. */
  predicate Targets(d: Destination, cluster: string, namespace: string) {
    && d.namespace == namespace
    && if cluster == "in-cluster" then d.server == "https://kubernetes.default.svc" && d.name == ""
       else if "https://" <= cluster || "http://" <= cluster then d.server == cluster && d.name == ""
       else d.server == "" && d.name == cluster
  }

  /** The Addon's own policy; the operator's retry stands in for a missing one. */
  predicate Transfers(policy: Option<SyncPolicy>, own: Option<SyncPolicy>, defaultRetry: Option<Retry>) {
    && (policy.Some? <==> own.Some?)
    && (own.Some? ==>
          && policy.value.automated == own.value.automated
          && policy.value.namespaceMetadata == own.value.namespaceMetadata
          && policy.value.syncOptions == (if own.value.syncOptions == Some([]) then None else own.value.syncOptions)
          && policy.value.retry == if own.value.retry.None? then defaultRetry else own.value.retry)
  }

  predicate Delivers(spec: Spec, b: Builder, addon: AddonSpec, valuesYAML: string) {
    && spec.project == (if addon.backend.project == "" then "default" else addon.backend.project)
    && spec.source.Some? && Carries(spec.source.value, b, addon, valuesYAML) && spec.sources == []
    && Targets(spec.destination, addon.targetCluster, addon.targetNamespace)
    && Transfers(spec.syncPolicy, addon.backend.syncPolicy, b.defaultRetry)
    && spec.ignoreDifferences
       == if addon.backend.ignoreDifferences == Some([]) then None else addon.backend.ignoreDifferences
  }

  /** Two labels say whose Application it is; the finalizer is there exactly if asked for; nothing else moves. */
  predicate Marks(was: App, now: App, name: string, finalizer: bool) {
    && now.labels == was.labels["app.kubernetes.io/managed-by" := "addon-operator"]["addons.in-cloud.io/addon" := name]
    && now.status == was.status && now.terminating == was.terminating
    && if !finalizer then multiset(now.finalizers) == multiset(was.finalizers)[ARGO_FINALIZER := 0]
       else now.finalizers
            == was.finalizers
               + (if ARGO_FINALIZER in was.finalizers then [] else ["resources-finalizer.argocd.argoproj.io"])
  }

  // ---- UpdateSpec and NeedsUpdate ----

  function Without(finalizers: seq<string>, f: string): seq<string> {
    if finalizers == [] then []
    else
      var front, last := Without(finalizers[..|finalizers| - 1], f), finalizers[|finalizers| - 1];
      if last == f then front else front + [last]
  }

  function UpdatedFinalizers(existing: seq<string>, desired: seq<string>): seq<string> {
    if ARGO_FINALIZER !in desired then Without(existing, ARGO_FINALIZER)
    else if ARGO_FINALIZER in existing then existing
    else existing + [ARGO_FINALIZER]
  }

  function Updated(existing: App, desired: App): App {
    existing.(spec := desired.spec,
              labels := existing.labels + desired.labels,
              finalizers := UpdatedFinalizers(existing.finalizers, desired.finalizers))
  }

  predicate NeedsHelmUpdate(existing: Option<Helm>, desired: Option<Helm>) {
    if existing.None? || desired.None? then existing.None? != desired.None?
    else existing.value.values != desired.value.values || existing.value.releaseName != desired.value.releaseName
  }

  predicate NeedsPluginUpdate(existing: Option<Plugin>, desired: Option<Plugin>) {
    if existing.None? || desired.None? then existing.None? != desired.None?
    else existing.value != desired.value
  }

  predicate NeedsSourceUpdate(existing: Option<Source>, desired: Option<Source>) {
    if existing.None? || desired.None? then desired.Some?
    else
      var e, d := existing.value, desired.value;
      || e.chart != d.chart || e.path != d.path || e.repoURL != d.repoURL || e.targetRevision != d.targetRevision
      || NeedsHelmUpdate(e.helm, d.helm) || NeedsPluginUpdate(e.plugin, d.plugin)
  }

  predicate NeedsUpdate(existing: App, desired: App) {
    || (exists k | k in desired.labels :: Lookup(existing.labels, k) != desired.labels[k])
    || existing.spec.project != desired.spec.project
    || existing.spec.destination != desired.spec.destination
    || NeedsSourceUpdate(existing.spec.source, desired.spec.source)
    || existing.spec.syncPolicy != desired.spec.syncPolicy
    || existing.spec.ignoreDifferences != desired.spec.ignoreDifferences
    || (ARGO_FINALIZER in desired.finalizers) != (ARGO_FINALIZER in existing.finalizers)
  }

  /** The object the controller holds and updates in place. */
  class Application {
    var labels: LabelMap
    var finalizers: seq<string>
    var spec: Spec
    const status: AppStatus
    const terminating: bool

    constructor (app: App)
      ensures Contents() == app
    {
      labels, finalizers, spec := app.labels, app.finalizers, app.spec;
      status, terminating := app.status, app.terminating;
    }

    function Contents(): App
      reads this
    {
      App(labels, finalizers, spec, status, terminating)
    }

    method UpdateSpec(b: Builder, name: string, addon: AddonSpec, valuesYAML: string)
      modifies this
      ensures Contents() == Updated(old(Contents()), Build(b, name, addon, valuesYAML))
      ensures Delivers(spec, b, addon, valuesYAML)
      ensures Marks(old(Contents()), Contents(), name, addon.backend.finalizer == Some(true))
    {
      var desired := Build(b, name, addon, valuesYAML);
      spec := desired.spec;
      labels := labels + desired.labels;
      if ARGO_FINALIZER in desired.finalizers {
        if ARGO_FINALIZER !in finalizers {
          finalizers := finalizers + [ARGO_FINALIZER];
        }
      } else {
        finalizers := Without(finalizers, ARGO_FINALIZER);
      }
      BuildDelivers(b, name, addon, valuesYAML);
      UpdateMarks(old(Contents()), b, name, addon, valuesYAML);
    }
  }

  // ---- Convergence ----

  datatype ManagedHelm = ManagedHelm(values: string, releaseName: string)
  datatype ManagedSource = ManagedSource(
    chart: string, path: string, repoURL: string, targetRevision: string,
    helm: Option<ManagedHelm>, plugin: Option<Plugin>)
  datatype Managed = Managed(
    managedBy: Option<string>, addonLabel: Option<string>, project: string, destination: Destination,
    source: Option<ManagedSource>, syncPolicy: Option<SyncPolicy>,
    ignoreDifferences: Option<seq<IgnoreDifference>>, argoFinalizer: bool)

  function OptionLookup(labels: LabelMap, k: string): Option<string> {
    if k in labels then Some(labels[k]) else None
  }

  function ManagedPart(s: Source): ManagedSource {
    ManagedSource(s.chart, s.path, s.repoURL, s.targetRevision,
                  if s.helm.Some? then Some(ManagedHelm(s.helm.value.values, s.helm.value.releaseName)) else None,
                  s.plugin)
  }

  /** The part of an Application this operator owns. */
  function Projection(app: App): Managed {
    Managed(OptionLookup(app.labels, MANAGED_BY), OptionLookup(app.labels, ADDON_LABEL),
            app.spec.project, app.spec.destination,
            if app.spec.source.Some? then Some(ManagedPart(app.spec.source.value)) else None,
            app.spec.syncPolicy, app.spec.ignoreDifferences, ARGO_FINALIZER in app.finalizers)
  }

  lemma {:induction false} WithoutContents(finalizers: seq<string>, f: string)
    ensures multiset(Without(finalizers, f)) == multiset(finalizers)[f := 0]
  {
    if finalizers != [] {
      WithoutContents(finalizers[..|finalizers| - 1], f);
      assert finalizers == finalizers[..|finalizers| - 1] + [finalizers[|finalizers| - 1]];
    }
  }

  /** The managed part of a source is the one built exactly when it carries the Addon's source and values. */
  lemma CarriesIff(source: Source, b: Builder, addon: AddonSpec, valuesYAML: string)
    ensures Carries(source, b, addon, valuesYAML) <==>
            ManagedPart(source) == ManagedPart(BuildSource(b, addon, valuesYAML))
  {
    var built := BuildPlugin(b, addon, valuesYAML);
    assert built.env == if addon.releaseName == "" then [("HELM_VALUES", b.base64(valuesYAML))]
                        else [("HELM_VALUES", b.base64(valuesYAML)), ("RELEASE_NAME", addon.releaseName)];
    if source.plugin.Some? {
      var p := source.plugin.value;
      assert p == Plugin(p.name, p.env, p.other);
    }
  }

  lemma BuildDelivers(b: Builder, name: string, addon: AddonSpec, valuesYAML: string)
    ensures Delivers(Build(b, name, addon, valuesYAML).spec, b, addon, valuesYAML)
  {
    CarriesIff(BuildSource(b, addon, valuesYAML), b, addon, valuesYAML);
  }

  lemma UpdateMarks(existing: App, b: Builder, name: string, addon: AddonSpec, valuesYAML: string)
    ensures Marks(existing, Updated(existing, Build(b, name, addon, valuesYAML)), name,
                  addon.backend.finalizer == Some(true))
  {
    WithoutContents(existing.finalizers, ARGO_FINALIZER);
  }

  ghost predicate Injective(f: string -> string) {
    forall x, y | f(x) == f(y) :: x == y
  }

  /** One source carries one text of values, whichever Addons it is read for. */
  lemma CarriedValuesUnique(source: Source, b: Builder, v: AddonSpec, w: AddonSpec, vYAML: string, wYAML: string)
    requires Injective(b.base64) && Carries(source, b, v, vYAML) && Carries(source, b, w, wYAML)
    ensures vYAML == wYAML
  {
    if v.pluginName != "" {
      assert source.plugin.value.env[0].1 == b.base64(vYAML) == b.base64(wYAML);
    }
  }

  lemma {:induction false} WithoutKeepsOthers(finalizers: seq<string>, f: string, g: string)
    ensures g in Without(finalizers, f) <==> g in finalizers && g != f
  {
    if finalizers != [] {
      WithoutKeepsOthers(finalizers[..|finalizers| - 1], f, g);
      assert finalizers == finalizers[..|finalizers| - 1] + [finalizers[|finalizers| - 1]];
    }
  }

  lemma UpdateInstallsDesired(existing: App, b: Builder, name: string, spec: AddonSpec, valuesYAML: string)
    ensures Projection(Updated(existing, Build(b, name, spec, valuesYAML)))
            == Projection(Build(b, name, spec, valuesYAML))
  {
    WithoutKeepsOthers(existing.finalizers, ARGO_FINALIZER, ARGO_FINALIZER);
  }

  lemma NeedsUpdateIsProjection(existing: App, b: Builder, name: string, spec: AddonSpec, valuesYAML: string)
    requires name != ""
    ensures NeedsUpdate(existing, Build(b, name, spec, valuesYAML)) <==>
            Projection(existing) != Projection(Build(b, name, spec, valuesYAML))
  {
    var desired := Build(b, name, spec, valuesYAML);
    assert desired.labels[MANAGED_BY] == OPERATOR && desired.labels[ADDON_LABEL] == name;
    assert OPERATOR != "";
    assert (exists k | k in desired.labels :: Lookup(existing.labels, k) != desired.labels[k]) <==>
           (Lookup(existing.labels, MANAGED_BY) != OPERATOR || Lookup(existing.labels, ADDON_LABEL) != name);
  }

  /** NeedsUpdate says no exactly when UpdateSpec would leave the managed part as it is. */
  lemma NeedsUpdateIff(existing: App, b: Builder, name: string, spec: AddonSpec, valuesYAML: string)
    requires name != ""
    ensures var desired := Build(b, name, spec, valuesYAML);
            !NeedsUpdate(existing, desired) <==> Projection(Updated(existing, desired)) == Projection(existing)
  {
    NeedsUpdateIsProjection(existing, b, name, spec, valuesYAML);
    UpdateInstallsDesired(existing, b, name, spec, valuesYAML);
  }

  /** An Application that needs no update carries the Addon's source and values. */
  lemma UpToDateCarries(existing: App, b: Builder, name: string, spec: AddonSpec, valuesYAML: string)
    requires name != "" && !NeedsUpdate(existing, Build(b, name, spec, valuesYAML))
    ensures existing.spec.source.Some? && Carries(existing.spec.source.value, b, spec, valuesYAML)
  {
    NeedsUpdateIsProjection(existing, b, name, spec, valuesYAML);
    CarriesIff(existing.spec.source.value, b, spec, valuesYAML);
  }

  /** In memory one update converges. */
  lemma UpdateConverges(existing: App, b: Builder, name: string, spec: AddonSpec, valuesYAML: string)
    requires name != ""
    ensures var desired := Build(b, name, spec, valuesYAML);
            !NeedsUpdate(Updated(existing, desired), desired)
  {
    UpdateInstallsDesired(existing, b, name, spec, valuesYAML);
    NeedsUpdateIsProjection(Updated(existing, Build(b, name, spec, valuesYAML)), b, name, spec, valuesYAML);
  }

  // ---- Convergence across the store ----

  function NilIfEmpty(labels: Option<LabelMap>): Option<LabelMap> {
    if labels == Some(map[]) then None else labels
  }

  function StoredPolicy(p: SyncPolicy): SyncPolicy {
    p.(syncOptions := NoneIfEmpty(p.syncOptions),
       namespaceMetadata :=
         match p.namespaceMetadata
         case None => None
         case Some(m) => Some(NamespaceMetadata(NilIfEmpty(m.labels), NilIfEmpty(m.annotations))))
  }

  function StoredDifference(d: IgnoreDifference): IgnoreDifference {
    d.(jsonPointers := NoneIfEmpty(d.jsonPointers), jqPathExpressions := NoneIfEmpty(d.jqPathExpressions),
       managers := NoneIfEmpty(d.managers))
  }

  function StoredDifferences(ds: seq<IgnoreDifference>): (r: seq<IgnoreDifference>)
    ensures |r| == |ds|
  {
    seq(|ds|, i requires 0 <= i < |ds| => StoredDifference(ds[i]))
  }

  /** An Application as it comes back from the store: every empty map and slice is left out (omitempty). */
  function Stored(app: App): App {
    app.(spec := app.spec.(
           syncPolicy := if app.spec.syncPolicy.Some? then Some(StoredPolicy(app.spec.syncPolicy.value)) else None,
           ignoreDifferences :=
             match NoneIfEmpty(app.spec.ignoreDifferences)
             case None => None
             case Some(ds) => Some(StoredDifferences(ds))))
  }

  predicate Solid(d: IgnoreDifference) {
    d.jsonPointers != Some([]) && d.jqPathExpressions != Some([]) && d.managers != Some([])
  }

  /** No field of the Addon that Build copies as it is is present and empty. */
  ghost predicate NoEmptyFields(spec: AddonSpec) {
    && (spec.backend.syncPolicy.Some? && spec.backend.syncPolicy.value.namespaceMetadata.Some? ==>
          spec.backend.syncPolicy.value.namespaceMetadata.value.labels != Some(map[])
          && spec.backend.syncPolicy.value.namespaceMetadata.value.annotations != Some(map[]))
    && (spec.backend.ignoreDifferences.Some? ==>
          forall i | 0 <= i < |spec.backend.ignoreDifferences.value| :: Solid(spec.backend.ignoreDifferences.value[i]))
  }

  lemma StoredDifferencesSame(ds: seq<IgnoreDifference>)
    ensures StoredDifferences(ds) == ds <==> forall i | 0 <= i < |ds| :: Solid(ds[i])
  {
    var r := StoredDifferences(ds);
    if r == ds {
      forall i | 0 <= i < |ds|
        ensures Solid(ds[i])
      {
        assert r[i] == ds[i];
      }
    }
  }

  lemma StoredPolicySame(b: Builder, spec: AddonSpec, p: SyncPolicy)
    requires GetSyncPolicy(b, spec) == Some(p)
    ensures StoredPolicy(p) == p <==>
            (p.namespaceMetadata.Some? ==>
               p.namespaceMetadata.value.labels != Some(map[]) && p.namespaceMetadata.value.annotations != Some(map[]))
  {
  }

  lemma StoredBuildSame(b: Builder, name: string, spec: AddonSpec, valuesYAML: string)
    ensures Stored(Build(b, name, spec, valuesYAML)) == Build(b, name, spec, valuesYAML) <==> NoEmptyFields(spec)
  {
    if spec.backend.ignoreDifferences.Some? {
      StoredDifferencesSame(spec.backend.ignoreDifferences.value);
    }
    if GetSyncPolicy(b, spec).Some? {
      StoredPolicySame(b, spec, GetSyncPolicy(b, spec).value);
    }
  }

  /** After one update and a trip through the store, no further update is needed exactly when the Addon
      has none of these fields present and empty: then, and only then, does the loop converge. */
  lemma StoreConvergesIff(existing: App, b: Builder, name: string, spec: AddonSpec, valuesYAML: string)
    requires name != ""
    ensures var desired := Build(b, name, spec, valuesYAML);
            !NeedsUpdate(Stored(Updated(existing, desired)), desired) <==> NoEmptyFields(spec)
  {
    var desired := Build(b, name, spec, valuesYAML);
    UpdateInstallsDesired(existing, b, name, spec, valuesYAML);
    NeedsUpdateIsProjection(Stored(Updated(existing, desired)), b, name, spec, valuesYAML);
    StoredBuildSame(b, name, spec, valuesYAML);
    assert Stored(Updated(existing, desired)).spec == Stored(desired).spec;
  }

  /** Empty namespace labels in the Addon: an update is needed after every update. */
  lemma EmptyLabelsNeverConverge(
    existing: App, b: Builder, name: string, spec: AddonSpec, policy: SyncPolicy, valuesYAML: string)
    requires name != "" && spec.backend.syncPolicy == Some(policy)
    requires policy.namespaceMetadata == Some(NamespaceMetadata(Some(map[]), None))
    ensures var desired := Build(b, name, spec, valuesYAML);
            NeedsUpdate(Stored(Updated(existing, desired)), desired)
  {
    StoreConvergesIff(existing, b, name, spec, valuesYAML);
  }

  /** Labels and finalizers of others survive an update, and only the operator's own change. */
  lemma UpdateKeepsForeign(existing: App, b: Builder, name: string, spec: AddonSpec, valuesYAML: string, key: string)
    ensures var updated := Updated(existing, Build(b, name, spec, valuesYAML));
            && (key != MANAGED_BY && key != ADDON_LABEL ==>
                  OptionLookup(updated.labels, key) == OptionLookup(existing.labels, key))
            && (key != ARGO_FINALIZER ==> (key in updated.finalizers <==> key in existing.finalizers))
            && updated.status == existing.status && updated.terminating == existing.terminating
  {
    WithoutKeepsOthers(existing.finalizers, ARGO_FINALIZER, key);
  }

  // ---- Reading the status ----

  /** Argo CD has compared the live state against exactly the present spec.source. */
  predicate ComparedToCurrent(app: App) {
    && app.spec.sources == [] && app.status.comparedTo.sources == []
    && app.spec.source.Some?
    && (var seen := app.status.comparedTo.source;
        (seen.repoURL != "" || seen.chart != "" || seen.path != "") && app.spec.source.value == seen)
  }
}
