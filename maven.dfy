/**
 * The Maven variant of the composition engine: scope-normalised, versioned
 * dependencies, the build and reporting plugins, and the parent.
 */
module MavenGenerator {
  import opened Wrappers
  import opened Catalogs
  import opened Versions

  datatype MavenDescriptor = MavenDescriptor(
    dependencies: seq<Declaration>,
    buildPlugins: seq<Declaration>,
    reportingPlugins: seq<Declaration>,
    parent: Option<Declaration>)

  /** Dependency types that keep whatever scope the declaration had. */
  const CompileTypes: set<string> := {"compile", "implementation", "compileOnly"}
  /** Dependency types mapped to the "runtime" scope. */
  const RuntimeTypes: set<string> := {"runtime", "runtimeOnly"}
  /** Dependency types mapped to the "test" scope. */
  const TestTypes: set<string> := {"testCompile", "testImplementation", "testCompileOnly", "testRuntime", "testRuntimeOnly"}

  /** The plugin roles `build` asks for. */
  const BuildRole: string := "build"
  const ReportingRole: string := "reporting"

  /**
   * The scope switch of `_setDependenciesScope`: the new scope of a
   * dependency of type `kind` whose scope was `scope`. Total: every type,
   * an absent one included, falls in exactly one class.
   */
  function ScopeFor(kind: Option<string>, scope: Option<string>): (r: Option<string>)
    ensures kind.Some? && kind.value in CompileTypes ==> r == scope
    ensures kind.Some? && kind.value in RuntimeTypes ==> r == Some("runtime")
    ensures kind.Some? && kind.value in TestTypes ==> r == Some("test")
    ensures kind.None? || kind.value !in CompileTypes + RuntimeTypes + TestTypes ==> r == Some("none")
  {
    match kind
    case None => Some("none")
    case Some(t) =>
      match t
      case "compile" => scope
      case "implementation" => scope
      case "compileOnly" => scope
      case "runtime" => Some("runtime")
      case "runtimeOnly" => Some("runtime")
      case "testCompile" => Some("test")
      case "testImplementation" => Some("test")
      case "testCompileOnly" => Some("test")
      case "testRuntime" => Some("test")
      case "testRuntimeOnly" => Some("test")
      case _ => Some("none")
  }

  /** Applying the table twice is applying it once. */
  lemma ScopeForIdempotent(kind: Option<string>, scope: Option<string>)
    ensures ScopeFor(kind, ScopeFor(kind, scope)) == ScopeFor(kind, scope)
  {
  }

  /** One dependency after the scope switch: only `scope` may change. */
  function WithScope(d: Declaration): (r: Declaration)
    ensures r.(scope := d.scope) == d
    ensures r.scope == ScopeFor(d.kind, d.scope)
  {
    d.(scope := ScopeFor(d.kind, d.scope))
  }

  /** The scope switch over a list: same length and order, element by element. */
  function WithScopes(ds: seq<Declaration>): (r: seq<Declaration>)
    ensures |r| == |ds|
    ensures forall i :: 0 <= i < |ds| ==> r[i].(scope := ds[i].scope) == ds[i]
    ensures forall i :: 0 <= i < |ds| ==> r[i].scope == ScopeFor(ds[i].kind, ds[i].scope)
  {
    seq(|ds|, i requires 0 <= i < |ds| => WithScope(ds[i]))
  }

  /** Normalising scopes twice gives the same list as normalising once. */
  lemma WithScopesIdempotent(ds: seq<Declaration>)
    ensures WithScopes(WithScopes(ds)) == WithScopes(ds)
  {
  }

  /** The plugins whose `type` is `role`, in order. */
  function WithRole(plugins: seq<Declaration>, role: string): (r: seq<Declaration>)
    ensures |r| <= |plugins|
    ensures forall p :: p in r <==> p in plugins && p.kind == Some(role)
    decreases |plugins|
  {
    if plugins == [] then []
    else if plugins[0].kind == Some(role) then [plugins[0]] + WithRole(plugins[1..], role)
    else WithRole(plugins[1..], role)
  }

  /** The role filter keeps order and multiplicity: filtering a concatenation concatenates the filterings. */
  lemma {:induction false} WithRoleAppend(a: seq<Declaration>, b: seq<Declaration>, role: string)
    ensures WithRole(a + b, role) == WithRole(a, role) + WithRole(b, role)
    decreases |a|
  {
    if a == [] {
      assert a + b == b;
    } else {
      assert (a + b)[0] == a[0];
      assert (a + b)[1..] == a[1..] + b;
      WithRoleAppend(a[1..], b, role);
      if a[0].kind == Some(role) {
        assert [a[0]] + (WithRole(a[1..], role) + WithRole(b, role))
            == ([a[0]] + WithRole(a[1..], role)) + WithRole(b, role);
      }
    }
  }

  /** Filters for two different roles take disjoint parts of the same sequence. */
  lemma {:induction false} RolesPartition(plugins: seq<Declaration>, role1: string, role2: string)
    requires role1 != role2
    ensures |WithRole(plugins, role1)| + |WithRole(plugins, role2)| <= |plugins|
    ensures forall p :: p in WithRole(plugins, role1) ==> p !in WithRole(plugins, role2)
    decreases |plugins|
  {
    if plugins != [] {
      RolesPartition(plugins[1..], role1, role2);
    }
  }

  /** The feature plugins of one role (`getPlugins(type)` before version resolution). */
  function PluginsWithRole(catalog: Catalog, features: seq<FeatureId>, role: string): (r: seq<Declaration>)
    ensures forall p :: p in r <==> p.kind == Some(role) &&
                                    exists f :: f in features && p in Contribution(catalog, f, PluginsOf)
  {
    WithRole(FeaturePlugins(catalog, features), role)
  }

  predicate DeclaresParent(catalog: Catalog, f: FeatureId)
  {
    f in catalog && catalog[f].parent.Some?
  }

  /** `features.find(...)`: the first selected feature whose fragment declares a parent. */
  function FirstDeclaringParent(catalog: Catalog, features: seq<FeatureId>): (r: Option<FeatureId>)
    ensures r.None? <==> forall f :: f in features ==> !DeclaresParent(catalog, f)
    ensures r.Some? ==> exists k :: 0 <= k < |features| && features[k] == r.value &&
                                    DeclaresParent(catalog, features[k]) &&
                                    forall j :: 0 <= j < k ==> !DeclaresParent(catalog, features[j])
    ensures r.Some? ==> r.value in features && DeclaresParent(catalog, r.value)
    decreases |features|
  {
    if features == [] then None
    else if DeclaresParent(catalog, features[0]) then Some(features[0])
    else
      var r := FirstDeclaringParent(catalog, features[1..]);
      assert forall f :: f in features ==> f == features[0] || f in features[1..];
      if r.Some? then
        var k :| 0 <= k < |features[1..]| && features[1..][k] == r.value &&
                 DeclaresParent(catalog, features[1..][k]) &&
                 forall j :: 0 <= j < k ==> !DeclaresParent(catalog, features[1..][j]);
        assert features[k + 1] == r.value;
        assert forall j :: 0 <= j < k + 1 ==> !DeclaresParent(catalog, features[j]) by {
          forall j | 0 <= j < k + 1 ensures !DeclaresParent(catalog, features[j]) {
            if j > 0 {
              assert features[j] == features[1..][j - 1];
            }
          }
        }
        r
      else r
  }

  /**
   * `getParent`: the parent of the first feature that declares one, version
   * resolved, or none. The source tests the truthiness of the found feature's
   * NAME, so a feature named "" yields no parent even when it declares one.
   */
  function ParentOf(catalog: Catalog, lookup: Lookup, features: seq<FeatureId>): (r: Result<Option<Declaration>>)
    ensures FirstDeclaringParent(catalog, features).None? ==> r == Success(None)
    ensures FirstDeclaringParent(catalog, features) == Some("") ==> r == Success(None)
    ensures var first := FirstDeclaringParent(catalog, features);
            first.Some? && first.value != "" ==>
              var resolved := ResolveOne(lookup, catalog[first.value].parent.value);
              (r.Success? <==> resolved.Success?) &&
              (r.Success? ==> r.value == Some(resolved.value)) &&
              (r.Failure? ==> r.error == resolved.error)
    ensures r.Success? && r.value.Some? ==>
              exists f :: f in features && f != "" && DeclaresParent(catalog, f) &&
                          IsResolved(lookup, catalog[f].parent.value, r.value.value)
  {
    match FirstDeclaringParent(catalog, features)
    case None => Success(None)
    case Some(f) =>
      if f == "" then Success(None)
      else
        match ResolveOne(lookup, catalog[f].parent.value)
        case Success(p) => Success(Some(p))
        case Failure(e) => Failure(e)
  }

  /**
   * First match wins: when the selection is `before + [x] + after`, nothing in
   * `before` declares a parent and `x` does, the parent is `x`'s, whatever
   * `after` declares.
   */
  lemma ParentFirstMatchWins(catalog: Catalog, lookup: Lookup, before: seq<FeatureId>, x: FeatureId,
                             after: seq<FeatureId>)
    requires forall f :: f in before ==> !DeclaresParent(catalog, f)
    requires DeclaresParent(catalog, x) && x != ""
    ensures var p := catalog[x].parent.value;
            ParentOf(catalog, lookup, before + [x] + after) ==
              match ResolveOne(lookup, p)
              case Success(q) => Success(Some(q))
              case Failure(e) => Failure(e)
  {
    var features := before + [x] + after;
    var r := FirstDeclaringParent(catalog, features);
    assert features[|before|] == x;
    assert r.Some?;
    var k :| 0 <= k < |features| && features[k] == r.value && DeclaresParent(catalog, features[k]) &&
             forall j :: 0 <= j < k ==> !DeclaresParent(catalog, features[j]);
  }

  /**
   * As written: when the first feature declaring a parent is named "", there
   * is no parent, whatever the later features declare.
   */
  lemma EmptyFeatureNameHidesParent(catalog: Catalog, lookup: Lookup, before: seq<FeatureId>,
                                    after: seq<FeatureId>)
    requires forall f :: f in before ==> !DeclaresParent(catalog, f)
    requires DeclaresParent(catalog, "")
    ensures ParentOf(catalog, lookup, before + [""] + after) == Success(None)
  {
    var features := before + [""] + after;
    var r := FirstDeclaringParent(catalog, features);
    assert features[|before|] == "";
    assert r.Some?;
    var k :| 0 <= k < |features| && features[k] == r.value && DeclaresParent(catalog, features[k]) &&
             forall j :: 0 <= j < k ==> !DeclaresParent(catalog, features[j]);
  }

  /** `_setPluginsDependenciesLastVersion` on one plugin: its nested dependencies resolved, nothing else touched. */
  function ResolvePluginDependencies(lookup: Lookup, plugin: Declaration): (r: Result<Declaration>)
    ensures plugin.nested.None? ==> r == Success(plugin)
    ensures r.Success? ==> r.value.(nested := plugin.nested) == plugin
    ensures r.Success? && plugin.nested.Some? ==>
              var before := plugin.nested.value;
              r.value.nested.Some? && |r.value.nested.value| == |before| &&
              forall i :: 0 <= i < |before| ==> IsResolved(lookup, before[i], r.value.nested.value[i])
    ensures r.Failure? ==> plugin.nested.Some? &&
                           exists k :: 0 <= k < |plugin.nested.value| && plugin.nested.value[k].lastVersion &&
                                       lookup(plugin.nested.value[k]) == Failure(r.error)
  {
    if plugin.nested.Some? then
      match ResolveAll(lookup, plugin.nested.value)
      case Success(ds) => Success(plugin.(nested := Some(ds)))
      case Failure(e) => Failure(e)
    else Success(plugin)
  }

  function PluginResolver(lookup: Lookup): Declaration -> Result<Declaration>
  {
    p => ResolvePluginDependencies(lookup, p)
  }

  /** Nested-dependency resolution over a plugin list: same length and order, plugins without them unchanged. */
  function ResolvePluginsDependencies(lookup: Lookup, plugins: seq<Declaration>): (r: Result<seq<Declaration>>)
    ensures r.Success? <==> forall i :: 0 <= i < |plugins| ==> ResolvePluginDependencies(lookup, plugins[i]).Success?
    ensures r.Success? ==> |r.value| == |plugins|
    ensures r.Success? ==> forall i :: 0 <= i < |plugins| ==> ResolvePluginDependencies(lookup, plugins[i]) == Success(r.value[i])
    ensures r.Success? ==> forall i :: 0 <= i < |plugins| ==> r.value[i].(nested := plugins[i].nested) == plugins[i]
    ensures r.Success? ==> forall i :: 0 <= i < |plugins| && plugins[i].nested.None? ==> r.value[i] == plugins[i]
    ensures r.Failure? ==> exists k :: 0 <= k < |plugins| && ResolvePluginDependencies(lookup, plugins[k]) == Failure(r.error)
  {
    var r := MapAll(PluginResolver(lookup), plugins);
    assert forall i :: 0 <= i < |plugins| ==> PluginResolver(lookup)(plugins[i]) == ResolvePluginDependencies(lookup, plugins[i]);
    r
  }

  /** The merged dependency list: feature dependencies, then the explicit ones, scopes normalised. */
  function ScopedDependencies(catalog: Catalog, features: seq<FeatureId>, explicit: seq<Declaration>): (r: seq<Declaration>)
    ensures var merged := DependenciesFromFeatures(catalog, features) + explicit;
            |r| == |merged| &&
            forall i :: 0 <= i < |merged| ==>
              r[i].scope == ScopeFor(merged[i].kind, merged[i].scope) && r[i].(scope := merged[i].scope) == merged[i]
  {
    WithScopes(DependenciesFromFeatures(catalog, features) + explicit)
  }

  /**
   * What `Maven.from` yields: the four parts, or the failure of a version
   * lookup (reported in the order dependencies, build plugins, reporting
   * plugins, parent). Every lookup, plugins' and parent's too, goes to the
   * dependency lookup, and one failure fails the whole.
   */
  function Compose(catalog: Catalog, versions: VersionService, features: seq<FeatureId>,
                   explicit: seq<Declaration>): (r: Result<MavenDescriptor>)
    ensures var lookup := versions.dependencyLastVersion;
            r.Success? <==>
              && AllResolvable(lookup, ScopedDependencies(catalog, features, explicit))
              && AllResolvable(lookup, PluginsWithRole(catalog, features, BuildRole))
              && AllResolvable(lookup, PluginsWithRole(catalog, features, ReportingRole))
              && ParentOf(catalog, lookup, features).Success?
  {
    var lookup := versions.dependencyLastVersion;
    match ResolveAll(lookup, ScopedDependencies(catalog, features, explicit))
    case Failure(e) => Failure(e)
    case Success(dependencies) =>
      match ResolveAll(lookup, PluginsWithRole(catalog, features, BuildRole))
      case Failure(e) => Failure(e)
      case Success(buildPlugins) =>
        match ResolveAll(lookup, PluginsWithRole(catalog, features, ReportingRole))
        case Failure(e) => Failure(e)
        case Success(reportingPlugins) =>
          match ParentOf(catalog, lookup, features)
          case Failure(e) => Failure(e)
          case Success(parent) => Success(MavenDescriptor(dependencies, buildPlugins, reportingPlugins, parent))
  }

  /**
   * A failed composition reports the failure of a flagged declaration's own
   * dependency lookup: a scoped dependency's, a build or reporting plugin's,
   * or the chosen feature's parent's.
   */
  lemma ComposeFailure(catalog: Catalog, versions: VersionService, features: seq<FeatureId>,
                       explicit: seq<Declaration>)
    requires Compose(catalog, versions, features, explicit).Failure?
    ensures var error := Compose(catalog, versions, features, explicit).error;
            var first := FirstDeclaringParent(catalog, features);
            exists d ::
              && (|| d in ScopedDependencies(catalog, features, explicit)
                  || d in PluginsWithRole(catalog, features, BuildRole)
                  || d in PluginsWithRole(catalog, features, ReportingRole)
                  || (first.Some? && first.value != "" && d == catalog[first.value].parent.value))
              && d.lastVersion && versions.dependencyLastVersion(d) == Failure(error)
  {
    var lookup := versions.dependencyLastVersion;
    var scoped := ScopedDependencies(catalog, features, explicit);
    var build := PluginsWithRole(catalog, features, BuildRole);
    var reporting := PluginsWithRole(catalog, features, ReportingRole);
    var error := Compose(catalog, versions, features, explicit).error;
    if ResolveAll(lookup, scoped).Failure? {
      var k :| 0 <= k < |scoped| && scoped[k].lastVersion && lookup(scoped[k]) == Failure(error);
      assert scoped[k] in scoped;
    } else if ResolveAll(lookup, build).Failure? {
      var k :| 0 <= k < |build| && build[k].lastVersion && lookup(build[k]) == Failure(error);
      assert build[k] in build;
    } else if ResolveAll(lookup, reporting).Failure? {
      var k :| 0 <= k < |reporting| && reporting[k].lastVersion && lookup(reporting[k]) == Failure(error);
      assert reporting[k] in reporting;
    } else {
      var first := FirstDeclaringParent(catalog, features);
      var p := catalog[first.value].parent.value;
      assert ResolveOne(lookup, p).Failure?;
      assert p.lastVersion && lookup(p) == Failure(error);
    }
  }

  /**
   * Dependency i of the descriptor is merged dependency i (features first,
   * then explicit) with the table's scope, then version-resolved: the lookup
   * sees the scoped declaration.
   */
  lemma ComposeDependencies(catalog: Catalog, versions: VersionService, features: seq<FeatureId>,
                            explicit: seq<Declaration>)
    requires Compose(catalog, versions, features, explicit).Success?
    ensures var d := Compose(catalog, versions, features, explicit).value;
            var merged := DependenciesFromFeatures(catalog, features) + explicit;
            |d.dependencies| == |merged| &&
            forall i :: 0 <= i < |merged| ==>
              && d.dependencies[i].scope == ScopeFor(merged[i].kind, merged[i].scope)
              && IsResolved(versions.dependencyLastVersion, WithScope(merged[i]), d.dependencies[i])
  {
  }

  /**
   * Each plugin list is its role's feature plugins resolved element-wise,
   * every plugin in it has that role, and the parent is the one `getParent`
   * picks, from a feature that declares it.
   */
  lemma ComposePluginsAndParent(catalog: Catalog, versions: VersionService, features: seq<FeatureId>,
                                explicit: seq<Declaration>)
    requires Compose(catalog, versions, features, explicit).Success?
    ensures var d := Compose(catalog, versions, features, explicit).value;
            var lookup := versions.dependencyLastVersion;
            && ResolveAll(lookup, PluginsWithRole(catalog, features, BuildRole)) == Success(d.buildPlugins)
            && ResolveAll(lookup, PluginsWithRole(catalog, features, ReportingRole)) == Success(d.reportingPlugins)
            && (forall p :: p in d.buildPlugins ==> p.kind == Some(BuildRole))
            && (forall p :: p in d.reportingPlugins ==> p.kind == Some(ReportingRole))
            && ParentOf(catalog, lookup, features) == Success(d.parent)
            && (d.parent.Some? ==> exists f :: f in features && DeclaresParent(catalog, f))
  {
  }

  /** A feature that declares no parent does not change which feature's parent is chosen. */
  lemma {:induction false} FirstDeclaringParentSkips(catalog: Catalog, f1: seq<FeatureId>, x: FeatureId,
                                                     f2: seq<FeatureId>)
    requires !DeclaresParent(catalog, x)
    ensures FirstDeclaringParent(catalog, f1 + [x] + f2) == FirstDeclaringParent(catalog, f1 + f2)
    decreases |f1|
  {
    if f1 == [] {
      assert f1 + [x] + f2 == [x] + f2;
      assert ([x] + f2)[1..] == f2;
      assert f1 + f2 == f2;
    } else {
      assert (f1 + [x] + f2)[0] == f1[0] == (f1 + f2)[0];
      assert (f1 + [x] + f2)[1..] == f1[1..] + [x] + f2;
      assert (f1 + f2)[1..] == f1[1..] + f2;
      FirstDeclaringParentSkips(catalog, f1[1..], x, f2);
    }
  }

  /** A feature that is not in the catalog changes nothing in the descriptor, wherever it is selected. */
  lemma ComposeIgnoresUnknownFeature(catalog: Catalog, versions: VersionService, f1: seq<FeatureId>,
                                     x: FeatureId, f2: seq<FeatureId>, explicit: seq<Declaration>)
    requires x !in catalog
    ensures Compose(catalog, versions, f1 + [x] + f2, explicit) == Compose(catalog, versions, f1 + f2, explicit)
  {
    var with, without := f1 + [x] + f2, f1 + f2;
    CollectSkipsSilent(catalog, f1, x, f2, DependenciesOf);
    CollectSkipsSilent(catalog, f1, x, f2, PluginsOf);
    FirstDeclaringParentSkips(catalog, f1, x, f2);
    assert ScopedDependencies(catalog, with, explicit) == ScopedDependencies(catalog, without, explicit);
    assert PluginsWithRole(catalog, with, BuildRole) == PluginsWithRole(catalog, without, BuildRole);
    assert PluginsWithRole(catalog, with, ReportingRole) == PluginsWithRole(catalog, without, ReportingRole);
    assert ParentOf(catalog, versions.dependencyLastVersion, with)
        == ParentOf(catalog, versions.dependencyLastVersion, without);
  }

  /** No plugin is both a build plugin and a reporting plugin, and together they are no more than the feature plugins. */
  lemma BuildAndReportingDisjoint(catalog: Catalog, versions: VersionService, features: seq<FeatureId>,
                                  explicit: seq<Declaration>)
    requires Compose(catalog, versions, features, explicit).Success?
    ensures var d := Compose(catalog, versions, features, explicit).value;
            && (forall p :: p in d.buildPlugins ==> p !in d.reportingPlugins)
            && |d.buildPlugins| + |d.reportingPlugins| <= |FeaturePlugins(catalog, features)|
  {
    RolesPartition(FeaturePlugins(catalog, features), BuildRole, ReportingRole);
  }

  /** The Maven generator: the injected catalog and version service, and the inputs `from` assigns. */
  class Maven {
    const catalog: Catalog
    const versions: VersionService
    var features: seq<FeatureId>
    var dependencies: seq<Declaration>
    var config: Config

    constructor(catalog: Catalog, versions: VersionService)
      ensures this.catalog == catalog && this.versions == versions
      ensures features == [] && dependencies == [] && config == map[]
    {
      this.catalog := catalog;
      this.versions := versions;
      features := [];
      dependencies := [];
      config := map[];
    }

    /** `Maven.from`: a fresh generator given the three inputs, then built; `config` is stored but not read. */
    static method From(catalog: Catalog, versions: VersionService, features: seq<FeatureId>,
                       dependencies: seq<Declaration>, config: Config) returns (r: Result<MavenDescriptor>)
      ensures r == Compose(catalog, versions, features, dependencies)
    {
      var maven := new Maven(catalog, versions);
      maven.features := features;
      maven.dependencies := dependencies;
      maven.config := config;
      r := maven.Build();
    }

    /** All four parts, failing as a whole when a version lookup fails. */
    method Build() returns (r: Result<MavenDescriptor>)
      ensures r == Compose(catalog, versions, features, dependencies)
    {
      var resolvedDependencies := GetDependencies();
      var buildPlugins := GetPlugins(BuildRole);
      var reportingPlugins := GetPlugins(ReportingRole);
      var parent := GetParent();
      if resolvedDependencies.Failure? {
        return Failure(resolvedDependencies.error);
      }
      if buildPlugins.Failure? {
        return Failure(buildPlugins.error);
      }
      if reportingPlugins.Failure? {
        return Failure(reportingPlugins.error);
      }
      if parent.Failure? {
        return Failure(parent.error);
      }
      r := Success(MavenDescriptor(resolvedDependencies.value, buildPlugins.value, reportingPlugins.value, parent.value));
    }

    /** Feature dependencies followed by the explicit ones: scopes first, then versions. */
    method GetDependencies() returns (r: Result<seq<Declaration>>)
      ensures r == ResolveAll(versions.dependencyLastVersion, ScopedDependencies(catalog, features, dependencies))
    {
      var merged := SetDependenciesScope(DependenciesFromFeatures(catalog, features) + dependencies);
      r := SetDependenciesLastVersion(merged);
    }

    /** The feature plugins whose type is `role`, versions resolved through the dependency lookup. */
    method GetPlugins(role: string) returns (r: Result<seq<Declaration>>)
      ensures r == ResolveAll(versions.dependencyLastVersion, PluginsWithRole(catalog, features, role))
    {
      r := SetDependenciesLastVersion(WithRole(FeaturePlugins(catalog, features), role));
    }

    /** The first declared parent, version resolved, or none. */
    method GetParent() returns (r: Result<Option<Declaration>>)
      ensures r == ParentOf(catalog, versions.dependencyLastVersion, features)
    {
      var feature := FirstDeclaringParent(catalog, features);
      if feature.Some? && feature.value != "" {
        var parent := SetDependencyLastVersion(catalog[feature.value].parent.value);
        if parent.Failure? {
          return Failure(parent.error);
        }
        return Success(Some(parent.value));
      }
      r := Success(None);
    }

    /** The scope switch applied to every dependency, in order. */
    method SetDependenciesScope(ds: seq<Declaration>) returns (r: seq<Declaration>)
      ensures r == WithScopes(ds)
    {
      r := [];
      var i := 0;
      while i < |ds|
        invariant i <= |ds|
        invariant |r| == i
        invariant forall j :: 0 <= j < i ==> r[j] == WithScope(ds[j])
      {
        r := r + [WithScope(ds[i])];
        i := i + 1;
      }
    }

    /** One declaration's version, resolved when it is flagged. */
    method SetDependencyLastVersion(d: Declaration) returns (r: Result<Declaration>)
      ensures r == ResolveOne(versions.dependencyLastVersion, d)
    {
      if d.lastVersion {
        var version := versions.dependencyLastVersion(d);
        if version.Failure? {
          return Failure(version.error);
        }
        return Success(d.(version := Some(version.value)));
      }
      r := Success(d);
    }

    /** `_setDependencyLastVersion` over a list; the first failure fails the whole. */
    method SetDependenciesLastVersion(ds: seq<Declaration>) returns (r: Result<seq<Declaration>>)
      ensures r == ResolveAll(versions.dependencyLastVersion, ds)
    {
      var lookup := versions.dependencyLastVersion;
      var done: seq<Declaration> := [];
      var i := 0;
      assert ds[i..] == ds;
      PrefixedNothing(MapAll(Resolver(lookup), ds));
      while i < |ds|
        invariant i <= |ds|
        invariant MapAll(Resolver(lookup), ds) == Prefixed(done, MapAll(Resolver(lookup), ds[i..]))
      {
        MapAllStep(Resolver(lookup), ds, i, done);
        var resolved := SetDependencyLastVersion(ds[i]);
        if resolved.Failure? {
          return Failure(resolved.error);
        }
        done := done + [resolved.value];
        i := i + 1;
      }
      assert ds[i..] == [];
      assert done + [] == done;
      r := Success(done);
    }

    /** Every plugin's nested `dependencies.dependency` list resolved; plugins without one pass through. */
    method SetPluginsDependenciesLastVersion(plugins: seq<Declaration>) returns (r: Result<seq<Declaration>>)
      ensures r == ResolvePluginsDependencies(versions.dependencyLastVersion, plugins)
    {
      var lookup := versions.dependencyLastVersion;
      var done: seq<Declaration> := [];
      var i := 0;
      assert plugins[i..] == plugins;
      PrefixedNothing(MapAll(PluginResolver(lookup), plugins));
      while i < |plugins|
        invariant i <= |plugins|
        invariant MapAll(PluginResolver(lookup), plugins) == Prefixed(done, MapAll(PluginResolver(lookup), plugins[i..]))
      {
        MapAllStep(PluginResolver(lookup), plugins, i, done);
        var plugin := plugins[i];
        if plugin.nested.Some? {
          var nested := SetDependenciesLastVersion(plugin.nested.value);
          if nested.Failure? {
            return Failure(nested.error);
          }
          plugin := plugin.(nested := Some(nested.value));
        }
        done := done + [plugin];
        i := i + 1;
      }
      assert plugins[i..] == [];
      assert done + [] == done;
      r := Success(done);
    }
  }
}
