/**
 * The data shapes shared by both build systems, and fragment extraction:
 * flattening one kind of entry over the selected features, in selection
 * order, skipping features that are not in the catalog or whose fragment
 * lacks that kind.
 */
module Catalogs {
  import opened Wrappers

  type FeatureId = string

  /**
   * A dependency or plugin declaration. `kind` is the source's `type`
   * property (a dependency type tag such as "testImplementation", or a Maven
   * plugin role such as "build"); `exclude` is a Gradle dependency's list of
   * excluded transitive coordinates, where `None` and `Some("")` stand for
   * the falsy entries the source drops; `nested` is a Maven plugin's
   * `dependencies.dependency` list.
   */
  datatype Declaration = Declaration(
    coordinates: string,
    version: Option<string>,
    lastVersion: bool,
    kind: Option<string>,
    scope: Option<string>,
    exclude: Option<seq<Option<string>>>,
    nested: Option<seq<Declaration>>)

  /** A property to compute: its name and the configuration key it is read from. */
  datatype PropertySpec = PropertySpec(name: string, config: string)

  /** A scalar from the caller's configuration map. */
  datatype Value = Text(text: string) | Flag(flag: bool) | Number(number: int)

  type Config = map<string, Value>

  /** What one feature contributes; every kind may be absent. */
  datatype Fragment = Fragment(
    dependencies: Option<seq<Declaration>>,
    plugins: Option<seq<Declaration>>,
    configuration: Option<seq<string>>,
    templates: Option<seq<string>>,
    properties: Option<seq<PropertySpec>>,
    parent: Option<Declaration>)

  /** The static feature table, injected. */
  type Catalog = map<FeatureId, Fragment>

  function DependenciesOf(f: Fragment): Option<seq<Declaration>> { f.dependencies }
  function PluginsOf(f: Fragment): Option<seq<Declaration>> { f.plugins }
  function ConfigurationOf(f: Fragment): Option<seq<string>> { f.configuration }
  function TemplatesOf(f: Fragment): Option<seq<string>> { f.templates }
  function PropertiesOf(f: Fragment): Option<seq<PropertySpec>> { f.properties }

  /** The entries of one kind that a single feature contributes. */
  function Contribution<T>(catalog: Catalog, feature: FeatureId, kind: Fragment -> Option<seq<T>>): seq<T>
  {
    if feature in catalog && kind(catalog[feature]).Some? then kind(catalog[feature]).value else []
  }

  /** One-level flatten of the contributions of the selected features, in selection order. */
  function Collect<T>(catalog: Catalog, features: seq<FeatureId>, kind: Fragment -> Option<seq<T>>): (r: seq<T>)
    ensures forall y :: y in r ==> exists f :: f in features && y in Contribution(catalog, f, kind)
    decreases |features|
  {
    if features == [] then []
    else
      var rest := Collect(catalog, features[1..], kind);
      assert forall f :: f in features[1..] ==> f in features;
      Contribution(catalog, features[0], kind) + rest
  }

  /** Every selected feature's dependencies, in selection order. */
  function DependenciesFromFeatures(catalog: Catalog, features: seq<FeatureId>): (r: seq<Declaration>)
    ensures forall d :: d in r <==> exists f :: f in features && d in Contribution(catalog, f, DependenciesOf)
  {
    assert forall d :: d in Collect(catalog, features, DependenciesOf) <==>
                       exists f :: f in features && d in Contribution(catalog, f, DependenciesOf) by {
      forall d { CollectMember(catalog, features, DependenciesOf, d); }
    }
    Collect(catalog, features, DependenciesOf)
  }

  /** Every selected feature's plugins, in selection order (before version resolution). */
  function FeaturePlugins(catalog: Catalog, features: seq<FeatureId>): (r: seq<Declaration>)
    ensures forall p :: p in r <==> exists f :: f in features && p in Contribution(catalog, f, PluginsOf)
  {
    assert forall p :: p in Collect(catalog, features, PluginsOf) <==>
                       exists f :: f in features && p in Contribution(catalog, f, PluginsOf) by {
      forall p { CollectMember(catalog, features, PluginsOf, p); }
    }
    Collect(catalog, features, PluginsOf)
  }

  /** Extraction distributes over concatenation of selections: order kept, nothing deduplicated. */
  lemma {:induction false} CollectAppend<T>(catalog: Catalog, f1: seq<FeatureId>, f2: seq<FeatureId>,
                                            kind: Fragment -> Option<seq<T>>)
    ensures Collect(catalog, f1 + f2, kind) == Collect(catalog, f1, kind) + Collect(catalog, f2, kind)
    decreases |f1|
  {
    if f1 == [] {
      assert f1 + f2 == f2;
    } else {
      var head := Contribution(catalog, f1[0], kind);
      assert (f1 + f2)[0] == f1[0];
      assert (f1 + f2)[1..] == f1[1..] + f2;
      calc {
        Collect(catalog, f1 + f2, kind);
        head + Collect(catalog, f1[1..] + f2, kind);
        { CollectAppend(catalog, f1[1..], f2, kind); }
        head + (Collect(catalog, f1[1..], kind) + Collect(catalog, f2, kind));
        (head + Collect(catalog, f1[1..], kind)) + Collect(catalog, f2, kind);
      }
    }
  }

  /** A feature missing from the catalog, or lacking the kind, contributes nothing wherever it stands. */
  lemma CollectSkipsSilent<T>(catalog: Catalog, f1: seq<FeatureId>, x: FeatureId, f2: seq<FeatureId>,
                              kind: Fragment -> Option<seq<T>>)
    requires x !in catalog || kind(catalog[x]).None?
    ensures Collect(catalog, f1 + [x] + f2, kind) == Collect(catalog, f1 + f2, kind)
  {
    CollectAppend(catalog, f1 + [x], f2, kind);
    CollectAppend(catalog, f1, [x], kind);
    CollectAppend(catalog, f1, f2, kind);
    assert Collect(catalog, [x], kind) == [] by {
      assert [x][1..] == [];
    }
  }

  /** An entry is extracted exactly when some selected feature contributes it. */
  lemma {:induction false} CollectMember<T>(catalog: Catalog, features: seq<FeatureId>,
                                            kind: Fragment -> Option<seq<T>>, y: T)
    ensures y in Collect(catalog, features, kind) <==>
            exists f :: f in features && y in Contribution(catalog, f, kind)
    decreases |features|
  {
    if features != [] {
      var rest := features[1..];
      CollectMember(catalog, rest, kind, y);
      assert Collect(catalog, features, kind)
          == Contribution(catalog, features[0], kind) + Collect(catalog, rest, kind);
      if y in Collect(catalog, features, kind) {
        if y in Contribution(catalog, features[0], kind) {
          assert features[0] in features;
        } else {
          var f :| f in rest && y in Contribution(catalog, f, kind);
          assert f in features;
        }
      }
      if exists f :: f in features && y in Contribution(catalog, f, kind) {
        var f :| f in features && y in Contribution(catalog, f, kind);
        if f != features[0] {
          assert f in rest;
        }
      }
    }
  }

  /**
   * The selection behaves as a set for membership: reordering the selected
   * features (or repeating them) never changes which entries are extracted.
   */
  lemma CollectSelectionOrderIrrelevant<T>(catalog: Catalog, f1: seq<FeatureId>, f2: seq<FeatureId>,
                                           kind: Fragment -> Option<seq<T>>)
    requires forall f :: f in f1 <==> f in f2
    ensures forall y :: y in Collect(catalog, f1, kind) <==> y in Collect(catalog, f2, kind)
  {
    forall y ensures y in Collect(catalog, f1, kind) <==> y in Collect(catalog, f2, kind) {
      CollectMember(catalog, f1, kind, y);
      CollectMember(catalog, f2, kind, y);
    }
  }
}
