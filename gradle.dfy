/**
 * The Gradle variant of the composition engine: a descriptor with six
 * parts built from the selected features, the explicit dependencies and the
 * configuration map.
 */
module GradleGenerator {
  import opened Wrappers
  import opened Catalogs
  import opened Versions

  /** A template to render and the path it is written to. */
  datatype Template = Template(template: string, destination: string)

  /** A computed property; `value` is absent when the configuration lacks the key. */
  datatype Property = Property(name: string, value: Option<Value>)

  datatype GradleDescriptor = GradleDescriptor(
    dependencies: seq<Declaration>,
    plugins: seq<Declaration>,
    configurations: seq<string>,
    templates: seq<Template>,
    properties: seq<Property>,
    excludedDependencies: seq<string>)

  /** Gradle templates are written under this directory. */
  const TemplateDirectory: string := "gradle/"

  /** The selected features' configuration entries, passed through verbatim. */
  function Configurations(catalog: Catalog, features: seq<FeatureId>): (r: seq<string>)
    ensures forall c :: c in r <==> exists f :: f in features && c in Contribution(catalog, f, ConfigurationOf)
  {
    assert forall c :: c in Collect(catalog, features, ConfigurationOf) <==>
                       exists f :: f in features && c in Contribution(catalog, f, ConfigurationOf) by {
      forall c { CollectMember(catalog, features, ConfigurationOf, c); }
    }
    Collect(catalog, features, ConfigurationOf)
  }

  /** A template name and its destination: the name under the Gradle directory. */
  function TemplateFor(name: string): (t: Template)
    ensures t.template == name
    ensures |t.destination| == |TemplateDirectory| + |name|
    ensures t.destination[..|TemplateDirectory|] == TemplateDirectory
    ensures t.destination[|TemplateDirectory|..] == name
  {
    Template(name, TemplateDirectory + name)
  }

  /** One template per name, in the same order. */
  function TemplatesFor(names: seq<string>): (r: seq<Template>)
    ensures |r| == |names|
    ensures forall i :: 0 <= i < |names| ==> r[i] == TemplateFor(names[i])
    decreases |names|
  {
    if names == [] then [] else [TemplateFor(names[0])] + TemplatesFor(names[1..])
  }

  /** `getTemplates`: every template comes from a selected feature and is written under the Gradle directory. */
  function Templates(catalog: Catalog, features: seq<FeatureId>): (r: seq<Template>)
    ensures forall t :: t in r ==> t.destination == TemplateDirectory + t.template &&
                                   exists f :: f in features && t.template in Contribution(catalog, f, TemplatesOf)
    ensures var names := Collect(catalog, features, TemplatesOf);
            |r| == |names| && forall i :: 0 <= i < |names| ==> r[i].template == names[i]
  {
    var names := Collect(catalog, features, TemplatesOf);
    var r := TemplatesFor(names);
    assert forall t :: t in r ==> t.template in names by {
      forall t | t in r ensures t.template in names {
        var i :| 0 <= i < |names| && t == TemplateFor(names[i]);
        assert names[i] in names;
      }
    }
    r
  }

  /** Templates follow the selection: those of `f1 + f2` are those of `f1`, then those of `f2`. */
  lemma TemplatesAppend(catalog: Catalog, f1: seq<FeatureId>, f2: seq<FeatureId>)
    ensures Templates(catalog, f1 + f2) == Templates(catalog, f1) + Templates(catalog, f2)
  {
    CollectAppend(catalog, f1, f2, TemplatesOf);
    var t1, t2 := Templates(catalog, f1), Templates(catalog, f2);
    var t := Templates(catalog, f1 + f2);
    assert |t| == |t1| + |t2|;
    forall i | 0 <= i < |t|
      ensures t[i] == (t1 + t2)[i]
    {
      assert t[i] == TemplateFor(t[i].template);
      if i < |t1| {
        assert t1[i] == TemplateFor(t1[i].template);
      } else {
        assert t2[i - |t1|] == TemplateFor(t2[i - |t1|].template);
      }
    }
  }

  /** A property spec evaluated against the configuration: a missing key gives an absent value. */
  function PropertyFor(spec: PropertySpec, config: Config): (p: Property)
    ensures p.name == spec.name
    ensures p.value.Some? <==> spec.config in config
    ensures p.value.Some? ==> p.value.value == config[spec.config]
  {
    Property(spec.name, if spec.config in config then Some(config[spec.config]) else None)
  }

  /** One property per spec, in the same order. */
  function PropertiesFor(specs: seq<PropertySpec>, config: Config): (r: seq<Property>)
    ensures |r| == |specs|
    ensures forall i :: 0 <= i < |specs| ==> r[i] == PropertyFor(specs[i], config)
    decreases |specs|
  {
    if specs == [] then [] else [PropertyFor(specs[0], config)] + PropertiesFor(specs[1..], config)
  }

  /** `getProperties`: every property is a selected feature's spec evaluated against the configuration. */
  function Properties(catalog: Catalog, features: seq<FeatureId>, config: Config): (r: seq<Property>)
    ensures forall p :: p in r ==> exists spec :: spec in Collect(catalog, features, PropertiesOf) &&
                                                 p == PropertyFor(spec, config)
    ensures |r| == |Collect(catalog, features, PropertiesOf)|
    ensures var specs := Collect(catalog, features, PropertiesOf);
            forall i :: 0 <= i < |specs| ==> r[i] == PropertyFor(specs[i], config)
  {
    var specs := Collect(catalog, features, PropertiesOf);
    var r := PropertiesFor(specs, config);
    assert forall p :: p in r ==> exists i :: 0 <= i < |specs| && p == PropertyFor(specs[i], config);
    r
  }

  /**
   * The explicit dependencies mapped to their `exclude` lists and flattened
   * one level: a dependency without one leaves a single absent entry.
   */
  function FlattenExcludes(explicit: seq<Declaration>): (r: seq<Option<string>>)
    ensures (forall i :: 0 <= i < |explicit| ==> explicit[i].exclude.None?) ==> r == seq(|explicit|, _ => None)
    decreases |explicit|
  {
    if explicit == [] then []
    else ExcludeEntries(explicit[0]) + FlattenExcludes(explicit[1..])
  }

  /** What one explicit dependency puts in the flattened list: its `exclude` list, or one absent entry. */
  function ExcludeEntries(d: Declaration): seq<Option<string>>
  {
    if d.exclude.Some? then d.exclude.value else [None]
  }

  /** Flattening keeps the dependencies' order: flattening a concatenation concatenates the flattenings. */
  lemma {:induction false} FlattenExcludesAppend(a: seq<Declaration>, b: seq<Declaration>)
    ensures FlattenExcludes(a + b) == FlattenExcludes(a) + FlattenExcludes(b)
    decreases |a|
  {
    if a == [] {
      assert a + b == b;
    } else {
      var ab := a + b;
      assert ab[0] == a[0];
      assert ab[1..] == a[1..] + b;
      FlattenExcludesAppend(a[1..], b);
      calc {
        FlattenExcludes(ab);
        ExcludeEntries(a[0]) + FlattenExcludes(a[1..] + b);
        ExcludeEntries(a[0]) + (FlattenExcludes(a[1..]) + FlattenExcludes(b));
        (ExcludeEntries(a[0]) + FlattenExcludes(a[1..])) + FlattenExcludes(b);
        FlattenExcludes(a) + FlattenExcludes(b);
      }
    }
  }

  /** Whether a flattened entry is falsy (`undefined`, `null` or the empty string). */
  predicate Falsy(x: Option<string>)
  {
    x.None? || x.value == ""
  }

  /** Lodash `compact`: the truthy entries, in order. */
  function Compact(xs: seq<Option<string>>): (r: seq<string>)
    ensures |r| <= |xs|
    ensures forall s :: s in r <==> s != "" && Some(s) in xs
    decreases |xs|
  {
    if xs == [] then []
    else if Falsy(xs[0]) then Compact(xs[1..])
    else [xs[0].value] + Compact(xs[1..])
  }

  /** `compact` keeps order and duplicates: compacting a concatenation concatenates the compactions. */
  lemma {:induction false} CompactAppend(a: seq<Option<string>>, b: seq<Option<string>>)
    ensures Compact(a + b) == Compact(a) + Compact(b)
    decreases |a|
  {
    if a == [] {
      assert a + b == b;
    } else {
      assert (a + b)[0] == a[0];
      assert (a + b)[1..] == a[1..] + b;
      CompactAppend(a[1..], b);
      if !Falsy(a[0]) {
        assert [a[0].value] + (Compact(a[1..]) + Compact(b)) == ([a[0].value] + Compact(a[1..])) + Compact(b);
      }
    }
  }

  /** Whether explicit dependency `d` names `s` in its exclusion list. */
  predicate Excludes(d: Declaration, s: string)
  {
    d.exclude.Some? && Some(s) in d.exclude.value
  }

  lemma {:induction false} FlattenExcludesMember(explicit: seq<Declaration>, s: string)
    ensures Some(s) in FlattenExcludes(explicit) <==> exists d :: d in explicit && Excludes(d, s)
    decreases |explicit|
  {
    if explicit != [] {
      FlattenExcludesMember(explicit[1..], s);
      if exists d :: d in explicit && Excludes(d, s) {
        var d :| d in explicit && Excludes(d, s);
        if d != explicit[0] {
          assert d in explicit[1..];
        }
      }
      if Some(s) in FlattenExcludes(explicit) && !Excludes(explicit[0], s) {
        var d :| d in explicit[1..] && Excludes(d, s);
        assert d in explicit;
      }
    }
  }

  /**
   * The excluded coordinates: exactly the non-empty entries of the explicit
   * dependencies' exclusion lists. It does not depend on the features at all.
   */
  function ExcludedDependencies(explicit: seq<Declaration>): (r: seq<string>)
    ensures forall s :: s in r <==> s != "" && exists d :: d in explicit && Excludes(d, s)
  {
    assert forall s :: Some(s) in FlattenExcludes(explicit) <==> exists d :: d in explicit && Excludes(d, s) by {
      forall s { FlattenExcludesMember(explicit, s); }
    }
    Compact(FlattenExcludes(explicit))
  }

  /**
   * The exclusions are listed dependency by dependency, in order and with
   * duplicates: those of `a + b` are those of `a` followed by those of `b`.
   */
  lemma ExcludedDependenciesAppend(a: seq<Declaration>, b: seq<Declaration>)
    ensures ExcludedDependencies(a + b) == ExcludedDependencies(a) + ExcludedDependencies(b)
  {
    FlattenExcludesAppend(a, b);
    CompactAppend(FlattenExcludes(a), FlattenExcludes(b));
  }

  /**
   * What `Gradle.from` yields: the six parts, or the failure of a version
   * lookup (the dependencies' failure is reported before the plugins').
   */
  function Compose(catalog: Catalog, versions: VersionService, features: seq<FeatureId>,
                   explicit: seq<Declaration>, config: Config): (r: Result<GradleDescriptor>)
    ensures var merged := DependenciesFromFeatures(catalog, features) + explicit;
            r.Success? <==> AllResolvable(versions.dependencyLastVersion, merged) &&
                            AllResolvable(versions.gradlePluginLastVersion, FeaturePlugins(catalog, features))
    ensures r.Success? ==>
              var merged := DependenciesFromFeatures(catalog, features) + explicit;
              |r.value.dependencies| == |merged| &&
              forall i :: 0 <= i < |merged| ==>
                IsResolved(versions.dependencyLastVersion, merged[i], r.value.dependencies[i])
    ensures r.Success? ==>
              var plugins := FeaturePlugins(catalog, features);
              |r.value.plugins| == |plugins| &&
              forall i :: 0 <= i < |plugins| ==>
                IsResolved(versions.gradlePluginLastVersion, plugins[i], r.value.plugins[i])
    ensures r.Success? ==> r.value.configurations == Configurations(catalog, features)
    ensures r.Success? ==> r.value.templates == Templates(catalog, features)
    ensures r.Success? ==> r.value.properties == Properties(catalog, features, config)
    ensures r.Success? ==> r.value.excludedDependencies == ExcludedDependencies(explicit)
  {
    match ResolveAll(versions.dependencyLastVersion, DependenciesFromFeatures(catalog, features) + explicit)
    case Failure(e) => Failure(e)
    case Success(dependencies) =>
      match ResolveAll(versions.gradlePluginLastVersion, FeaturePlugins(catalog, features))
      case Failure(e) => Failure(e)
      case Success(plugins) =>
        Success(GradleDescriptor(dependencies, plugins, Configurations(catalog, features),
                                 Templates(catalog, features), Properties(catalog, features, config),
                                 ExcludedDependencies(explicit)))
  }

  /**
   * A failed composition reports the failure of a flagged declaration's own
   * lookup: a merged dependency's, or a feature plugin's.
   */
  lemma ComposeFailure(catalog: Catalog, versions: VersionService, features: seq<FeatureId>,
                       explicit: seq<Declaration>, config: Config)
    requires Compose(catalog, versions, features, explicit, config).Failure?
    ensures var error := Compose(catalog, versions, features, explicit, config).error;
            var merged := DependenciesFromFeatures(catalog, features) + explicit;
            (exists d :: d in merged && d.lastVersion && versions.dependencyLastVersion(d) == Failure(error)) ||
            (exists p :: p in FeaturePlugins(catalog, features) && p.lastVersion &&
                         versions.gradlePluginLastVersion(p) == Failure(error))
  {
    var merged := DependenciesFromFeatures(catalog, features) + explicit;
    var plugins := FeaturePlugins(catalog, features);
    var deps := ResolveAll(versions.dependencyLastVersion, merged);
    if deps.Failure? {
      var k :| 0 <= k < |merged| && merged[k].lastVersion && versions.dependencyLastVersion(merged[k]) == Failure(deps.error);
      assert merged[k] in merged;
    } else {
      var ps := ResolveAll(versions.gradlePluginLastVersion, plugins);
      var k :| 0 <= k < |plugins| && plugins[k].lastVersion && versions.gradlePluginLastVersion(plugins[k]) == Failure(ps.error);
      assert plugins[k] in plugins;
    }
  }

  /**
   * The dependency list is the resolved feature dependencies followed by the
   * resolved explicit dependencies.
   */
  lemma ComposeDependenciesSplit(catalog: Catalog, versions: VersionService, features: seq<FeatureId>,
                                 explicit: seq<Declaration>, config: Config)
    requires Compose(catalog, versions, features, explicit, config).Success?
    ensures var lookup := versions.dependencyLastVersion;
            var fromFeatures := ResolveAll(lookup, DependenciesFromFeatures(catalog, features));
            var fromExplicit := ResolveAll(lookup, explicit);
            fromFeatures.Success? && fromExplicit.Success? &&
            Compose(catalog, versions, features, explicit, config).value.dependencies
              == fromFeatures.value + fromExplicit.value
  {
    MapAllAppend(Resolver(versions.dependencyLastVersion), DependenciesFromFeatures(catalog, features), explicit);
  }

  /** A feature that is not in the catalog changes nothing in the descriptor, wherever it is selected. */
  lemma ComposeIgnoresUnknownFeature(catalog: Catalog, versions: VersionService, f1: seq<FeatureId>,
                                     x: FeatureId, f2: seq<FeatureId>, explicit: seq<Declaration>, config: Config)
    requires x !in catalog
    ensures Compose(catalog, versions, f1 + [x] + f2, explicit, config)
         == Compose(catalog, versions, f1 + f2, explicit, config)
  {
    CollectSkipsSilent(catalog, f1, x, f2, DependenciesOf);
    CollectSkipsSilent(catalog, f1, x, f2, PluginsOf);
    CollectSkipsSilent(catalog, f1, x, f2, ConfigurationOf);
    CollectSkipsSilent(catalog, f1, x, f2, TemplatesOf);
    CollectSkipsSilent(catalog, f1, x, f2, PropertiesOf);
  }

  /** The Gradle generator: the injected catalog and version service, and the inputs `from` assigns. */
  class Gradle {
    const catalog: Catalog
    const versions: VersionService
    var features: seq<FeatureId>
    var dependencies: seq<Declaration>
    var config: Config

    constructor(catalog: Catalog, versions: VersionService)
      ensures this.catalog == catalog && this.versions == versions
      ensures features == [] && dependencies == [] && config == map[]
    {
      this.catalog := catalog;
      this.versions := versions;
      features := [];
      dependencies := [];
      config := map[];
    }

    /** `Gradle.from`: a fresh generator given the three inputs, then built. */
    static method From(catalog: Catalog, versions: VersionService, features: seq<FeatureId>,
                       dependencies: seq<Declaration>, config: Config) returns (r: Result<GradleDescriptor>)
      ensures r == Compose(catalog, versions, features, dependencies, config)
    {
      var gradle := new Gradle(catalog, versions);
      gradle.features := features;
      gradle.dependencies := dependencies;
      gradle.config := config;
      r := gradle.Build();
    }

    /** All six parts, failing as a whole when a version lookup fails. */
    method Build() returns (r: Result<GradleDescriptor>)
      ensures r == Compose(catalog, versions, features, dependencies, config)
    {
      var resolvedDependencies := GetDependencies();
      var resolvedPlugins := GetPlugins();
      if resolvedDependencies.Failure? {
        return Failure(resolvedDependencies.error);
      }
      if resolvedPlugins.Failure? {
        return Failure(resolvedPlugins.error);
      }
      r := Success(GradleDescriptor(resolvedDependencies.value, resolvedPlugins.value,
                                    Configurations(catalog, features), Templates(catalog, features),
                                    Properties(catalog, features, config), ExcludedDependencies(dependencies)));
    }

    /** Feature dependencies followed by the explicit ones, versions resolved. */
    method GetDependencies() returns (r: Result<seq<Declaration>>)
      ensures r == ResolveAll(versions.dependencyLastVersion, DependenciesFromFeatures(catalog, features) + dependencies)
    {
      var merged := DependenciesFromFeatures(catalog, features) + dependencies;
      r := SetDependenciesLastVersion(merged);
    }

    /** Feature plugins with versions resolved through the plugin lookup. */
    method GetPlugins() returns (r: Result<seq<Declaration>>)
      ensures r == ResolveAll(versions.gradlePluginLastVersion, FeaturePlugins(catalog, features))
    {
      r := SetPluginLastVersion(FeaturePlugins(catalog, features));
    }

    /** Each flagged plugin gets the plugin lookup's version; the first failure fails the whole. */
    method SetPluginLastVersion(plugins: seq<Declaration>) returns (r: Result<seq<Declaration>>)
      ensures r == ResolveAll(versions.gradlePluginLastVersion, plugins)
    {
      var lookup := versions.gradlePluginLastVersion;
      var done: seq<Declaration> := [];
      var i := 0;
      assert plugins[i..] == plugins;
      PrefixedNothing(MapAll(Resolver(lookup), plugins));
      while i < |plugins|
        invariant i <= |plugins|
        invariant MapAll(Resolver(lookup), plugins) == Prefixed(done, MapAll(Resolver(lookup), plugins[i..]))
      {
        MapAllStep(Resolver(lookup), plugins, i, done);
        var plugin := plugins[i];
        if plugin.lastVersion {
          var version := lookup(plugin);
          if version.Failure? {
            return Failure(version.error);
          }
          plugin := plugin.(version := Some(version.value));
        }
        done := done + [plugin];
        i := i + 1;
      }
      assert plugins[i..] == [];
      assert done + [] == done;
      r := Success(done);
    }

    /** Each flagged dependency gets the dependency lookup's version; the first failure fails the whole. */
    method SetDependenciesLastVersion(ds: seq<Declaration>) returns (r: Result<seq<Declaration>>)
      ensures r == ResolveAll(versions.dependencyLastVersion, ds)
    {
      var lookup := versions.dependencyLastVersion;
      var done: seq<Declaration> := [];
      var i := 0;
      assert ds[i..] == ds;
      PrefixedNothing(MapAll(Resolver(lookup), ds));
      while i < |ds|
        invariant i <= |ds|
        invariant MapAll(Resolver(lookup), ds) == Prefixed(done, MapAll(Resolver(lookup), ds[i..]))
      {
        MapAllStep(Resolver(lookup), ds, i, done);
        var dependency := ds[i];
        if dependency.lastVersion {
          var version := lookup(dependency);
          if version.Failure? {
            return Failure(version.error);
          }
          dependency := dependency.(version := Some(version.value));
        }
        done := done + [dependency];
        i := i + 1;
      }
      assert ds[i..] == [];
      assert done + [] == done;
      r := Success(done);
    }
  }
}
