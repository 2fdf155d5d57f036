# Feature-to-descriptor composition engine (yasge), modelled in Dafny

yasge scaffolds Java projects. Its core turns a list of selected features,
a list of explicit dependencies and a configuration map into a build
descriptor. Each feature is looked up in a static feature catalog, and each
catalog entry (a fragment) may declare dependencies, plugins, configuration
entries, templates, properties and, for Maven, a parent. There are two
build-system variants:

- **Gradle** builds six parts:
  - dependencies: the feature dependencies, then the explicit ones, with "last
    version" resolution;
  - plugins: the feature plugins, resolved through the Gradle plugin lookup;
  - configurations: the feature configuration entries, verbatim;
  - templates: each name paired with the destination `gradle/<name>`;
  - properties: each spec's name paired with the configuration value for its key;
  - excluded dependencies: the non-empty exclusion entries of the *explicit*
    dependencies.
- **Maven** builds four parts:
  - dependencies: feature dependencies, then explicit ones, normalised through
    a fixed type-to-scope table and then version-resolved;
  - build plugins and reporting plugins: the feature plugins filtered by their
    `type`;
  - parent: that of the first selected feature that declares one.

Files:

- `wrappers.dfy`: `Option` and `Result`.
- `catalogs.dfy`: the declarations, fragments and catalog; `Collect`, the
  one-level flatten of one kind of entry over the selected features, and its
  laws.
- `versions.dfy`: the injected version service. `MapAll` is the sequential
  fail-fast model of `Promise.all`. `ResolveOne` and `ResolveAll` model
  "last version" resolution.
- `gradle.dfy`: the Gradle getters, the `Compose` specification and the
  `Gradle` class.
- `maven.dfy`: the scope table, role filter, parent search, the `Compose`
  specification and the `Maven` class.

The classes keep the shape of the source:
- `From` assigns the three inputs to a fresh object and calls `Build`.
- The methods that map over a list in the source (`_setDependenciesScope`,
  `_setDependenciesLastVersion`, `_setPluginLastVersion`,
  `_setPluginsDependenciesLastVersion`) are methods with loops. The
  single-declaration write `_setDependencyLastVersion` is a method without one.
- Each method is proved equal to a pure specification function. The
  properties are proved about those functions.
- A declaration is a value, and each in-place field write is a record update.

Behaviour of the source that the model keeps as written:
- Nothing is deduplicated, neither between features nor between a feature and
  an explicit dependency.
- Maven resolves plugins and the parent through the *dependency* lookup.
- Maven stores `config` but never reads it.
- `_setPluginsDependenciesLastVersion` is defined but never called by `build`.
- `getParent` tests whether the found feature's *name* is truthy. A feature
  named `""` that declares a parent therefore yields no parent
  (`MavenGenerator.EmptyFeatureNameHidesParent`). The model keeps this case
  as written.

## Model

| member | source | states |
|---|---|---|
| `Catalogs.Collect` | generators/gradle/gradle.js:78-83 | every extracted entry comes from some selected feature's fragment of that kind |
| `Catalogs.DependenciesFromFeatures` | generators/gradle/gradle.js:46-53 | a dependency is extracted iff some selected feature that is in the catalog and declares `dependencies` lists it |
| `Catalogs.FeaturePlugins` | generators/gradle/gradle.js:55-61 | a plugin is extracted iff some selected feature in the catalog lists it under `plugins` |
| `Catalogs.CollectAppend` | generators/maven/maven.js:42-49 | extraction over `f1 + f2` is the extraction over `f1` followed by that over `f2`: selection order, catalog order within a feature, no deduplication |
| `Catalogs.CollectSkipsSilent` | generators/gradle/gradle.js:78-83 | a feature missing from the catalog, or whose fragment lacks the kind, contributes nothing wherever it stands in the selection |
| `Catalogs.CollectMember` | generators/maven/maven.js:52-55 | an entry is extracted iff some selected feature contributes it |
| `Catalogs.CollectSelectionOrderIrrelevant` | generators/gradle/gradle.js:47-52 | two selections with the same features (any order, any repetition) extract the same set of entries |
| `Versions.MapAll` | generators/gradle/gradle.js:43 | `Promise.all` over per-element work: success iff every element succeeds, then one result per element in order; otherwise the failure of some element all of whose predecessors succeeded |
| `Versions.MapAllAppend` | generators/gradle/gradle.js:40-43 | resolving a concatenation is resolving each part and concatenating, the first part's failure first |
| `Versions.ResolveOne` | generators/maven/maven.js:97-106 | a flagged declaration gets the looked-up version and nothing else changes; an unflagged one is returned unchanged; a failed lookup is the failure |
| `Versions.ResolveAll` | generators/gradle/gradle.js:132-143 | same length and order, each element resolved on its own; succeeds iff every flagged element's lookup succeeds; every flagged element then has a version; a failure comes from a flagged element |
| `Versions.ResolveAllFirstFailure` | generators/gradle/gradle.js:43 | fail-fast: a failed resolution reports the error of the first flagged declaration whose lookup fails |
| `GradleGenerator.Configurations` | generators/gradle/gradle.js:67-75 | a configuration entry is in the result iff some selected feature declares it |
| `GradleGenerator.TemplateFor` | generators/gradle/gradle.js:85-89 | the destination is `gradle/` followed by the template name, and stripping `gradle/` gives the name back |
| `GradleGenerator.TemplatesFor` | generators/gradle/gradle.js:85-90 | one template per name, in the same order |
| `GradleGenerator.Templates` | generators/gradle/gradle.js:77-91 | one template per collected name, in order; each destination is `gradle/` followed by the template name, and each name comes from a selected feature |
| `GradleGenerator.TemplatesAppend` | generators/gradle/gradle.js:77-91 | the templates of `f1 + f2` are those of `f1` followed by those of `f2`: selection order, no deduplication |
| `GradleGenerator.PropertyFor` | generators/gradle/gradle.js:101-105 | the property keeps the spec's name; its value is present iff the config key is, and is then the config's value |
| `GradleGenerator.PropertiesFor` | generators/gradle/gradle.js:93-107 | one property per spec, in the same order |
| `GradleGenerator.Properties` | generators/gradle/gradle.js:93-107 | one property per collected spec, in order: property i is collected spec i evaluated against the configuration |
| `GradleGenerator.Compact` | generators/gradle/gradle.js:110 | lodash `compact`: exactly the truthy (present, non-empty) entries, never more entries than the input |
| `GradleGenerator.CompactAppend` | generators/gradle/gradle.js:110 | `compact` keeps order and duplicates: compacting `a + b` is compacting `a`, then `b` |
| `GradleGenerator.FlattenExcludes` | generators/gradle/gradle.js:110-115 | when no explicit dependency has an `exclude` list, each contributes exactly one absent entry |
| `GradleGenerator.FlattenExcludesAppend` | generators/gradle/gradle.js:110-115 | flattening keeps dependency order: flattening `a + b` is flattening `a`, then `b` |
| `GradleGenerator.FlattenExcludesMember` | generators/gradle/gradle.js:110-115 | an exclusion is in the flattened list iff some explicit dependency's `exclude` list holds it |
| `GradleGenerator.ExcludedDependencies` | generators/gradle/gradle.js:109-117 | an exclusion is reported iff it is non-empty and some explicit dependency excludes it; features never contribute |
| `GradleGenerator.ExcludedDependenciesAppend` | generators/gradle/gradle.js:109-117 | exclusions are listed dependency by dependency, in order and with duplicates kept |
| `GradleGenerator.Compose` | generators/gradle/gradle.js:19-36 | succeeds iff every flagged merged dependency and flagged feature plugin resolves; dependencies and plugins are then their inputs resolved element-wise; the other four parts come from their getters |
| `GradleGenerator.ComposeFailure` | generators/gradle/gradle.js:19-36 | a failed composition reports the error of a flagged merged dependency's lookup or of a flagged feature plugin's lookup |
| `GradleGenerator.ComposeDependenciesSplit` | generators/gradle/gradle.js:39-44 | the dependency list is the resolved feature dependencies followed by the resolved explicit dependencies |
| `GradleGenerator.ComposeIgnoresUnknownFeature` | generators/gradle/gradle.js:46-107 | selecting a feature that is not in the catalog changes nothing in the descriptor |
| `GradleGenerator.Gradle.constructor` | generators/gradle/gradle.js:7-9 | the generator holds the injected catalog and version service |
| `GradleGenerator.Gradle.From` | generators/gradle/gradle.js:11-17 | a fresh generator with the three inputs builds exactly `Compose` of them |
| `GradleGenerator.Gradle.Build` | generators/gradle/gradle.js:19-37 | returns `Compose` of the generator's inputs |
| `GradleGenerator.Gradle.GetDependencies` | generators/gradle/gradle.js:39-44 | the feature dependencies followed by the explicit ones, resolved through the dependency lookup |
| `GradleGenerator.Gradle.GetPlugins` | generators/gradle/gradle.js:55-65 | the feature plugins resolved through the Gradle plugin lookup |
| `GradleGenerator.Gradle.SetPluginLastVersion` | generators/gradle/gradle.js:119-130 | the loop's result is `ResolveAll` with the plugin lookup |
| `GradleGenerator.Gradle.SetDependenciesLastVersion` | generators/gradle/gradle.js:132-143 | the loop's result is `ResolveAll` with the dependency lookup |
| `MavenGenerator.ScopeFor` | generators/maven/maven.js:74-91 | compile, implementation and compileOnly keep the scope; runtime and runtimeOnly give "runtime"; the five test types give "test"; any other or absent type gives "none" |
| `MavenGenerator.ScopeForIdempotent` | generators/maven/maven.js:72-95 | applying the table to its own result changes nothing |
| `MavenGenerator.WithScope` | generators/maven/maven.js:73-93 | only `scope` changes, and it becomes the table's value for the declaration's type |
| `MavenGenerator.WithScopes` | generators/maven/maven.js:72-95 | same length and order; every field but `scope` is kept, and each scope is the table's value for that declaration |
| `MavenGenerator.WithScopesIdempotent` | generators/maven/maven.js:72-94 | normalising a list twice equals normalising it once |
| `MavenGenerator.WithRole` | generators/maven/maven.js:56 | a plugin is kept iff it is in the input and its type is the role; never more plugins than the input |
| `MavenGenerator.WithRoleAppend` | generators/maven/maven.js:56 | the filter keeps order and multiplicity: filtering `a + b` is filtering `a`, then `b` |
| `MavenGenerator.PluginsWithRole` | generators/maven/maven.js:51-56 | a plugin is listed iff its type is the role and a selected feature declares it |
| `MavenGenerator.RolesPartition` | generators/maven/maven.js:51-56 | filters for two different roles are disjoint and together no longer than the input |
| `MavenGenerator.FirstDeclaringParent` | generators/maven/maven.js:63-65 | none iff no selected feature declares a parent; otherwise a feature that declares one and no earlier feature does |
| `MavenGenerator.ParentOf` | generators/maven/maven.js:62-70 | no declaring feature gives no parent; a first declaring feature named `""` gives no parent; otherwise the result is the first declaring feature's parent, version-resolved, or that resolution's failure |
| `MavenGenerator.ParentFirstMatchWins` | generators/maven/maven.js:62-70 | with nothing earlier declaring a parent, the first declaring feature's parent is resolved and returned, whatever later features declare |
| `MavenGenerator.EmptyFeatureNameHidesParent` | generators/maven/maven.js:63-69 | when the first feature that declares a parent is named `""`, there is no parent, whatever later features declare |
| `MavenGenerator.ResolvePluginDependencies` | generators/maven/maven.js:110-117 | a plugin without nested dependencies is unchanged; otherwise only its nested list changes, resolved element-wise; a failure comes from a flagged nested dependency |
| `MavenGenerator.ResolvePluginsDependencies` | generators/maven/maven.js:108-120 | succeeds iff every plugin's nested resolution succeeds; then element i is plugin i's own resolution, so only nested lists change and plugins without them are unchanged |
| `MavenGenerator.ScopedDependencies` | generators/maven/maven.js:36-37 | one entry per merged dependency (features first, then explicit), in order, with only `scope` changed to the table's value |
| `MavenGenerator.FirstDeclaringParentSkips` | generators/maven/maven.js:63-65 | a feature that declares no parent does not change which feature is chosen |
| `MavenGenerator.ComposeIgnoresUnknownFeature` | generators/maven/maven.js:42-70 | selecting a feature that is not in the catalog changes nothing in the descriptor |
| `MavenGenerator.Compose` | generators/maven/maven.js:19-32 | succeeds iff every flagged scoped dependency, every flagged build and reporting plugin, and the chosen parent resolve through the dependency lookup: one failure fails the whole |
| `MavenGenerator.ComposeFailure` | generators/maven/maven.js:19-32 | a failed composition reports the dependency-lookup error of a flagged scoped dependency, a flagged build or reporting plugin, or the chosen feature's flagged parent |
| `MavenGenerator.ComposeDependencies` | generators/maven/maven.js:35-40 | dependency i is merged dependency i (features first, then explicit) given the table's scope and then version-resolved, the lookup seeing the scoped declaration |
| `MavenGenerator.ComposePluginsAndParent` | generators/maven/maven.js:19-32 | the build and reporting lists are their role's feature plugins resolved element-wise through the dependency lookup, each carrying its role; the parent is the one `getParent` picks, from a declaring feature |
| `MavenGenerator.BuildAndReportingDisjoint` | generators/maven/maven.js:22-23 | no plugin is in both lists, and the two lists together are no longer than the feature plugins |
| `MavenGenerator.Maven.constructor` | generators/maven/maven.js:7-9 | the generator holds the injected catalog and version service |
| `MavenGenerator.Maven.From` | generators/maven/maven.js:11-17 | a fresh generator with the three inputs builds exactly `Compose` of them |
| `MavenGenerator.Maven.Build` | generators/maven/maven.js:19-33 | returns `Compose` of the generator's inputs |
| `MavenGenerator.Maven.GetDependencies` | generators/maven/maven.js:35-40 | the merged dependencies with scopes normalised first, then resolved |
| `MavenGenerator.Maven.GetPlugins` | generators/maven/maven.js:51-60 | the feature plugins of the given role, resolved through the dependency lookup |
| `MavenGenerator.Maven.GetParent` | generators/maven/maven.js:62-70 | returns `ParentOf` of the generator's inputs |
| `MavenGenerator.Maven.SetDependenciesScope` | generators/maven/maven.js:72-95 | the loop's result is the scope table applied to every dependency in order |
| `MavenGenerator.Maven.SetDependencyLastVersion` | generators/maven/maven.js:97-106 | returns `ResolveOne` with the dependency lookup |
| `MavenGenerator.Maven.SetDependenciesLastVersion` | generators/maven/maven.js:122-124 | the loop's result is `ResolveAll` with the dependency lookup |
| `MavenGenerator.Maven.SetPluginsDependenciesLastVersion` | generators/maven/maven.js:108-120 | the loop's result is `ResolvePluginsDependencies` with the dependency lookup |

## Left out

- Concurrency: the source issues its version lookups concurrently. The model
  runs them one after another. `_setDependenciesLastVersion` and
  `_setPluginLastVersion` return one promise per element, and every caller
  joins them at once with `Promise.all`.
- MavenGenerator.ResolvePluginsDependencies: `_setPluginsDependenciesLastVersion`
  returns one promise per plugin and never joins them. A plugin whose nested
  lookup fails does not stop the others, which still write their nested lists.
  The model joins the per-plugin outcomes fail-fast into one `Result`. Each
  plugin's own outcome is still `ResolvePluginDependencies`.
- Failure order: when several lookups fail, JavaScript reports whichever
  rejects first in time. The model reports the first failure in list order,
  and in `build` the order is dependencies, then plugins, then parent.
- Aliasing: the source writes `version` and `scope` into the very objects of
  the module-level feature tables and of the caller's lists. A later
  composition in the same process can therefore see values written by an
  earlier one. The model treats declarations as values. It also does not model
  a declaration object that appears twice in a list and is written twice.
- The registry client (`commons/versions-service`) is not part of this model.
  It is an injected pair of total lookups returning `Result`.
- The feature tables (`./features` of each generator) are not part of this
  model. The catalog is a parameter.
- JavaScript truthiness is modelled only where the source relies on it:
  - absent fragment kinds;
  - `lastVersion` as a boolean;
  - absent or empty-string exclusion entries, which `compact` drops;
  - the `""` feature name in `getParent`.
  Declarations are records and are never falsy. A non-array value where the
  source expects an array is not modelled.
- Configuration lookups model only keys the map holds. Keys inherited from
  JavaScript's object prototype (such as `constructor`) are not modelled.
- `app/prompt.js` and `generators/library/index.js` are not part of this
  model. They are prompt definitions and generator lifecycle glue.
