# IntelliJ Plugin Verifier: plugin structure, resolution and command-line core

This project models, in Dafny, the sequential core of the IntelliJ Plugin Verifier and of its
plugin-structure library. It also proves properties of that model.

- **Plugin descriptor creation** (`PluginCreator`): a creator reads the bean of a
  `plugin.xml`. It validates every property and registers each problem with its level, then
  assembles an `IdePlugin` from the bean and the descriptor's elements:
  - dependencies, content modules, extensions, extension points, listeners, components and
    themes;
  - optional and module descriptors, whose content it merges in.
  
  A creation succeeds exactly when no registered problem is an error.
- **The plugin record** (`IdePluginImpl`): its default values, its `toString`, and its
  compatibility test with an IDE build.
- **Descriptor resolution errors** (`PluginDescriptorResolutionError`): their level and their
  order-independent messages.
- **Class resolvers**:
  - the fixed, composite, caching and empty resolvers, as their behaviour is asserted in
    `ResolverTest`;
  - the lazily filled class table of the soft-reference jar resolver (`SoftJarResolver`).
- **Trunk API dependency resolution** (`CheckTrunkApiTask`, `LastCompatibleSelector`):
  - a memoizing resolver that is shared between the release and the trunk checks;
  - the fallback chains of the two bundled-plugin resolvers;
  - the filter that keeps JetBrains plugins out of the check.
- **The super-type hint of a problem report** (`HierarchicalProblemsDescription`): the IDE
  super-classes and super-interfaces of a class, and the sorted sentence that names them.
- **The TeamCity plugin-bean validator.**
- **The command-line helpers** (`CmdUtil`, `VOptionsUtil`): the parser of the
  ignored-problems file, the conversion of external class prefixes, and the IDE version
  given on the command line.

State that the source changes in place is modelled as classes:
- `PluginCreator`, with its plugin, problems, optional configuration files and content modules;
- `CacheResolver`, `SoftJarResolver` and `RepeatingResolver`, each with its table.

Loops are methods proved against specification functions. Everything else is functions and
lemmas over datatypes.

Some steps of the source happen outside the model: XML and JSON parsing, resource lookup,
version parsing, the repository and the garbage collector. Their outcomes are parameters of
the operations that use them:
- an `Outcome` for the XInclude and bean steps;
- a `ThemeOutcome` per theme path;
- `parseVersion`, `isReleaseDate`, `isInteger` and the description text analysis, as functions in a
  `ValidationEnv`;
- lookup functions for the repository and the bundled plugins;
- a `cleared` flag and the bytes read from the jar.

## Model

| member | source | states |
|---|---|---|
| ClassResolvers.CreateFixed | intellij-plugin-structure/tests/src/test/kotlin/com/jetbrains/plugin/structure/resolvers/ResolverTest.kt:26 | a fixed resolver's classes are exactly the nodes' names; each name maps to a node with that name, and a repeated name keeps the last node |
| ClassResolvers.FirstFound | intellij-plugin-structure/tests/src/test/kotlin/com/jetbrains/plugin/structure/resolvers/ResolverTest.kt:65-67 | a composite lookup finds a class iff some child finds it, and then it is the first child's answer |
| ClassResolvers.ClassPackages | intellij-plugin-structure/tests/src/test/kotlin/com/jetbrains/plugin/structure/resolvers/ResolverTest.kt:62 | a name without `/` lies in the root package `""`; every other package is a proper prefix of the name that ends right before a `/` |
| ClassResolvers.FoundIffInAllClasses | intellij-plugin-structure/tests/src/test/kotlin/com/jetbrains/plugin/structure/resolvers/ResolverTest.kt:28-30 | for every resolver, a class resolves iff it is in `allClasses`, and the node found carries the requested name |
| ClassResolvers.CompositeFirstMatchWins | intellij-plugin-structure/tests/src/test/kotlin/com/jetbrains/plugin/structure/resolvers/ResolverTest.kt:65-67 | when child k is the first to find a class, the composite returns child k's result |
| ClassResolvers.CompositeClassesAreUnion | intellij-plugin-structure/tests/src/test/kotlin/com/jetbrains/plugin/structure/resolvers/ResolverTest.kt:63 | a composite's classes are the union of its children's |
| ClassResolvers.PackagesAreSlashPrefixes | intellij-plugin-structure/tests/src/test/kotlin/com/jetbrains/plugin/structure/resolvers/ResolverTest.kt:62 | a resolver contains a package iff the package is the root of a slash-free class name or a proper `/`-prefix of one of its classes |
| ClassResolvers.EmptyCacheHasNothing | intellij-plugin-structure/tests/src/test/kotlin/com/jetbrains/plugin/structure/resolvers/ResolverTest.kt:10-15 | the empty resolver finds nothing and has no classes and no packages |
| ClassResolvers.OneClassResolver | intellij-plugin-structure/tests/src/test/kotlin/com/jetbrains/plugin/structure/resolvers/ResolverTest.kt:17-34 | a fixed resolver over one root-package class has exactly that class, finds it with its node and origin, and has only the root package |
| ClassResolvers.CacheResolver.constructor | intellij-plugin-structure/tests/src/test/kotlin/com/jetbrains/plugin/structure/resolvers/ResolverTest.kt:11 | a new cache wraps its delegate with an empty table |
| ClassResolvers.CacheResolver.Resolve | intellij-plugin-structure/tests/src/test/kotlin/com/jetbrains/plugin/structure/resolvers/ResolverTest.kt:29-31 | the cache answers what its delegate answers, and records that answer |
| ClassResolvers.CacheResolver.Classes | intellij-plugin-structure/tests/src/test/kotlin/com/jetbrains/plugin/structure/resolvers/ResolverTest.kt:28 | the cache has its delegate's classes |
| ClassResolvers.CacheResolver.Packages | intellij-plugin-structure/tests/src/test/kotlin/com/jetbrains/plugin/structure/resolvers/ResolverTest.kt:32-33 | the cache has its delegate's packages |
| ClassResolvers.CompositeSearchOrderIsClassPath | intellij-plugin-structure/tests/src/test/kotlin/com/jetbrains/plugin/structure/resolvers/ResolverTest.kt:57-67 | in the two-jar scenario, a class in both jars comes from the first jar, and a class in one jar comes from that jar |
| ClassResolvers.ScenarioClassPackages | intellij-plugin-structure/tests/src/test/kotlin/com/jetbrains/plugin/structure/resolvers/ResolverTest.kt:62 | each class of the two-jar scenario lies in exactly the packages `some` and `some/package` |
| ClassResolvers.CompositeScenarioAllClasses | intellij-plugin-structure/tests/src/test/kotlin/com/jetbrains/plugin/structure/resolvers/ResolverTest.kt:62-63 | in the two-jar scenario, the classes are the three names and the packages are `some` and `some/package` |
| SoftJar.ClassKey | intellij-plugin-structure/src/main/java/com/intellij/structure/impl/resolvers/SoftJarResolver.java:40-41 | an entry gives a key iff it ends in `.class`; the key is the prefix before the first `.class` |
| SoftJar.PlainClassEntry | intellij-plugin-structure/src/main/java/com/intellij/structure/impl/resolvers/SoftJarResolver.java:41 | for a key without `.class`, the entry `key.class` gives that key back |
| SoftJar.PreloadClassMap | intellij-plugin-structure/src/main/java/com/intellij/structure/impl/resolvers/SoftJarResolver.java:35-44 | the preloading loop's keys are exactly the class keys of the entries, none of them read yet |
| SoftJar.SoftJarResolver.constructor | intellij-plugin-structure/src/main/java/com/intellij/structure/impl/resolvers/SoftJarResolver.java:29-33 | the key set is fixed at construction to the class keys of the jar entries |
| SoftJar.SoftJarResolver.AllClasses | intellij-plugin-structure/src/main/java/com/intellij/structure/impl/resolvers/SoftJarResolver.java:48-50 | `getAllClasses` is the key set |
| SoftJar.SoftJarResolver.IsEmpty | intellij-plugin-structure/src/main/java/com/intellij/structure/impl/resolvers/SoftJarResolver.java:58-60 | `isEmpty` holds iff the key set is empty |
| SoftJar.SoftJarResolver.ClassLocation | intellij-plugin-structure/src/main/java/com/intellij/structure/impl/resolvers/SoftJarResolver.java:92-97 | the location is the resolver itself iff the class is a key, otherwise none |
| SoftJar.SoftJarResolver.FindClass | intellij-plugin-structure/src/main/java/com/intellij/structure/impl/resolvers/SoftJarResolver.java:64-89 | an unknown name gives null and changes nothing; a live cached class is returned without reading; otherwise the jar is read, a failed read gives null, and only that key's entry is overwritten |
| DependencyResolution.Select | verifier-core/src/main/java/com/jetbrains/pluginverifier/dependencies/LastCompatibleSelector.kt:7-13 | the result is the plugin iff the repository has a last compatible update for the IDE version and id; otherwise not-found, with a reason naming both |
| DependencyResolution.ReleaseDownload | verifier-core/src/main/java/com/jetbrains/pluginverifier/tasks/CheckTrunkApiTask.kt:57 | the release download resolver downloads the selected update, or reports not-found when nothing is selected |
| DependencyResolution.RepeatingResolver.constructor | verifier-core/src/main/java/com/jetbrains/pluginverifier/tasks/CheckTrunkApiTask.kt:61-63 | a new repeating resolver has an empty table and has made no delegate calls |
| DependencyResolution.RepeatingResolver.Resolve | verifier-core/src/main/java/com/jetbrains/pluginverifier/tasks/CheckTrunkApiTask.kt:65-66 | a known dependency returns the stored result with no delegate call; an unknown one calls the delegate once and stores whatever it returns, not-found included |
| DependencyResolution.CheckTrunkApiTask.constructor | verifier-core/src/main/java/com/jetbrains/pluginverifier/tasks/CheckTrunkApiTask.kt:57-59 | both chains share one fresh, empty repeating resolver |
| DependencyResolution.CheckTrunkApiTask.ReleaseResolve | verifier-core/src/main/java/com/jetbrains/pluginverifier/tasks/CheckTrunkApiTask.kt:73-80 | a bundled result other than not-found is returned with the table untouched; otherwise the shared resolver answers, downloading from the release selector |
| DependencyResolution.CheckTrunkApiTask.TrunkResolve | verifier-core/src/main/java/com/jetbrains/pluginverifier/tasks/CheckTrunkApiTask.kt:89-100 | a bundled result other than not-found is returned; modules and JetBrains ids are downloaded in their last update without memoizing; any other id goes to the resolver shared with the release chain |
| DependencyResolution.PluginsToCheck | verifier-core/src/main/java/com/jetbrains/pluginverifier/tasks/CheckTrunkApiTask.kt:28 | the plugins checked are exactly the updates whose id is not a JetBrains id |
| DependencyResolution.PluginsToCheckAppend | verifier-core/src/main/java/com/jetbrains/pluginverifier/tasks/CheckTrunkApiTask.kt:28 | the filter keeps the updates' order: filtering a concatenation concatenates the filtered parts |
| HierarchyDescription.FindIdeSuperClassesAndInterfaces | verifier-core/src/main/java/com/jetbrains/pluginverifier/results/presentation/HierarchicalProblemsDescription.kt:9-23 | the visitor loop collects exactly the IDE super-classes and the IDE super-interfaces of the ancestors |
| HierarchyDescription.CollectedAreIdeAncestors | verifier-core/src/main/java/com/jetbrains/pluginverifier/results/presentation/HierarchicalProblemsDescription.kt:12-19 | a name is collected as a class (an interface) iff some ancestor with that name is an IDE class that is not (is) an interface |
| HierarchyDescription.Pluralize | verifier-core/src/main/java/com/jetbrains/pluginverifier/results/presentation/HierarchicalProblemsDescription.kt:42 | one item keeps the word; any other count extends it |
| HierarchyDescription.ToFullJavaClassName | verifier-core/src/main/java/com/jetbrains/pluginverifier/results/presentation/HierarchicalProblemsDescription.kt:44 | a binary name becomes a name of the same length without `/` |
| HierarchyDescription.JoinMentionsEach | verifier-core/src/main/java/com/jetbrains/pluginverifier/results/presentation/HierarchicalProblemsDescription.kt:44 | the joined list names every class in it |
| HierarchyDescription.Sorted | verifier-core/src/main/java/com/jetbrains/pluginverifier/results/presentation/HierarchicalProblemsDescription.kt:44 | sorting yields the names of the set, strictly ascending, each once |
| HierarchyDescription.AppendClause | verifier-core/src/main/java/com/jetbrains/pluginverifier/results/presentation/HierarchicalProblemsDescription.kt:42-45 | the appended clause is the specified clause for that kind and those names |
| HierarchyDescription.PresentableElementMightHaveBeenDeclaredInIdeSuperTypes | verifier-core/src/main/java/com/jetbrains/pluginverifier/results/presentation/HierarchicalProblemsDescription.kt:25-57 | the message is the specified sentence over the ancestors' IDE super-classes and super-interfaces |
| HierarchyDescription.MessageEmptyIff | verifier-core/src/main/java/com/jetbrains/pluginverifier/results/presentation/HierarchicalProblemsDescription.kt:34-38 | the message is empty iff both filtered sets are empty |
| HierarchyDescription.DisallowedKindIsIgnored | verifier-core/src/main/java/com/jetbrains/pluginverifier/results/presentation/HierarchicalProblemsDescription.kt:34-35 | a kind that may not declare the element does not affect the message |
| HierarchyDescription.MessageLayout | verifier-core/src/main/java/com/jetbrains/pluginverifier/results/presentation/HierarchicalProblemsDescription.kt:39-56 | the header, then the classes clause, then `" or "` and the interfaces clause; the `" or "` appears only when both are present |
| HierarchyDescription.ClauseNamesEach | verifier-core/src/main/java/com/jetbrains/pluginverifier/results/presentation/HierarchicalProblemsDescription.kt:42-45 | a clause names every class of its set |
| HierarchyDescription.ClausesNameEach | verifier-core/src/main/java/com/jetbrains/pluginverifier/results/presentation/HierarchicalProblemsDescription.kt:41-55 | the clauses name every super-class and every super-interface |
| HierarchyDescription.MessageNamesEverySuperType | verifier-core/src/main/java/com/jetbrains/pluginverifier/results/presentation/HierarchicalProblemsDescription.kt:25-57 | the message names every super-type of an allowed kind |
| IdePlugins.CompatibleVersionsAreAnInterval | intellij-plugin-structure/structure-intellij/src/main/java/com/jetbrains/plugin/structure/intellij/plugin/IdePluginImpl.kt:75-76 | the compatible builds form an interval: both bounds are inclusive, and every build between two compatible builds is compatible |
| IdePlugins.InvertedRangeIsNeverCompatible | intellij-plugin-structure/structure-intellij/src/main/java/com/jetbrains/plugin/structure/intellij/plugin/IdePluginImpl.kt:75-76 | a plugin whose until-build is below its since-build is compatible with no build |
| IdePlugins.FreshPluginIsUnrestricted | intellij-plugin-structure/structure-intellij/src/main/java/com/jetbrains/plugin/structure/intellij/plugin/IdePluginImpl.kt:15-76 | a fresh plugin is compatible with every build, prints as the unknown id; every nullable field is null, every flag false, and every collection empty: dependencies, extensions, defined and incompatible modules, actions, icons, optional and module descriptors, and the three container descriptors |
| IdePlugins.ToString | intellij-plugin-structure/structure-intellij/src/main/java/com/jetbrains/plugin/structure/intellij/plugin/IdePluginImpl.kt:78-79 | the id, else the name, else `<unknown plugin ID>`; with a version, exactly that followed by `:` and the version |
| IdePlugins.ContentDescriptor.MergeWith | intellij-plugin-structure/structure-intellij/src/main/java/com/jetbrains/plugin/structure/intellij/plugin/PluginCreator.kt:180-185 | each list of the merged container is this container's list followed by the other's |
| IdePlugins.MergeExtensions | intellij-plugin-structure/structure-intellij/src/main/java/com/jetbrains/plugin/structure/intellij/plugin/PluginCreator.kt:170-172 | the merged extensions have both key sets; each list keeps its own elements first and the other's after them |
| IdePlugins.MergeContent | intellij-plugin-structure/structure-intellij/src/main/java/com/jetbrains/plugin/structure/intellij/plugin/PluginCreator.kt:169-178 | merging changes only the extensions and the three containers, each merged as above |
| IdePlugins.MergeEmptyIsIdentity | intellij-plugin-structure/structure-intellij/src/main/java/com/jetbrains/plugin/structure/intellij/plugin/PluginCreator.kt:169-185 | merging a fresh plugin in changes nothing |
| PluginProblems.ResolutionErrorLevel | intellij-plugin-structure/structure-base/src/main/kotlin/com/jetbrains/plugin/structure/base/problems/PluginDescriptorResolutionError.kt:5-8 | every descriptor resolution error is an error |
| PluginProblems.LevelOf | intellij-plugin-structure/structure-base/src/main/kotlin/com/jetbrains/plugin/structure/base/problems/PluginDescriptorResolutionError.kt:5-8 | resolution errors are errors; every other problem has the level of its class |
| PluginProblems.WithLevels | intellij-plugin-structure/structure-intellij/src/main/java/com/jetbrains/plugin/structure/intellij/plugin/PluginCreator.kt:695-697 | registering kinds gives one problem per kind |
| PluginProblems.WithLevelsAt | intellij-plugin-structure/structure-intellij/src/main/java/com/jetbrains/plugin/structure/intellij/plugin/PluginCreator.kt:695-697 | the i-th registered problem is the i-th kind with its level |
| PluginProblems.Errors | intellij-plugin-structure/structure-intellij/src/main/java/com/jetbrains/plugin/structure/intellij/plugin/PluginCreator.kt:699 | the errors are exactly the error-level problems of the list |
| PluginProblems.HasErrorsIffErrorsNonEmpty | intellij-plugin-structure/structure-intellij/src/main/java/com/jetbrains/plugin/structure/intellij/plugin/PluginCreator.kt:699 | `hasErrors` holds iff the list of errors is non-empty |
| PluginProblems.NotFoundMessage | intellij-plugin-structure/structure-base/src/main/kotlin/com/jetbrains/plugin/structure/base/problems/PluginDescriptorResolutionError.kt:10-13 | the not-found message embeds the descriptor path |
| PluginProblems.PrintedOrder | intellij-plugin-structure/structure-base/src/main/kotlin/com/jetbrains/plugin/structure/base/problems/PluginDescriptorResolutionError.kt:23-39 | the two (path, file) pairs are printed with the smaller path first, and on equal paths the smaller file first |
| PluginProblems.PrintedOrderIsSymmetric | intellij-plugin-structure/structure-base/src/main/kotlin/com/jetbrains/plugin/structure/base/problems/PluginDescriptorResolutionError.kt:23-39 | swapping the two pairs does not change the printed order |
| PluginProblems.MultipleDescriptorsMessageIsSymmetric | intellij-plugin-structure/structure-base/src/main/kotlin/com/jetbrains/plugin/structure/base/problems/PluginDescriptorResolutionError.kt:15-43 | the multiple-descriptors message is the same whichever pair comes first |
| PluginValidation.PropertyLength | intellij-plugin-structure/structure-intellij/src/main/java/com/jetbrains/plugin/structure/intellij/plugin/PluginCreator.kt:790-794 | a too-long problem exactly when the length strictly exceeds the limit |
| PluginValidation.Newlines | intellij-plugin-structure/structure-intellij/src/main/java/com/jetbrains/plugin/structure/intellij/plugin/PluginCreator.kt:784-788 | a newline problem exactly when the trimmed value contains a line feed |
| PluginValidation.UrlProblems | intellij-plugin-structure/structure-intellij/src/main/java/com/jetbrains/plugin/structure/intellij/plugin/PluginCreator.kt:570-574 | a URL problem exactly when the URL is longer than 255 |
| PluginValidation.IdProblems | intellij-plugin-structure/structure-intellij/src/main/java/com/jetbrains/plugin/structure/intellij/plugin/PluginCreator.kt:701-716 | no id gives nothing; a blank id is not specified; the template id is reported as a default value |
| PluginValidation.IdProblemsOfPlainId | intellij-plugin-structure/structure-intellij/src/main/java/com/jetbrains/plugin/structure/intellij/plugin/PluginCreator.kt:710-713 | any other id gets exactly the length problem and then the newline problem, each iff it applies |
| PluginValidation.FirstContained | intellij-plugin-structure/structure-intellij/src/main/java/com/jetbrains/plugin/structure/intellij/plugin/PluginCreator.kt:725 | the first restricted word the name contains, ignoring case, and none iff it contains none |
| PluginValidation.NameProblems | intellij-plugin-structure/structure-intellij/src/main/java/com/jetbrains/plugin/structure/intellij/plugin/PluginCreator.kt:719-723 | a blank name is not specified; a template name is a default value |
| PluginValidation.TemplateWordProblems | intellij-plugin-structure/structure-intellij/src/main/java/com/jetbrains/plugin/structure/intellij/plugin/PluginCreator.kt:725-728 | at most one problem, present iff the name contains a restricted word, and naming the first restricted word in list order that the name contains |
| PluginValidation.NameProblemsTemplateWord | intellij-plugin-structure/structure-intellij/src/main/java/com/jetbrains/plugin/structure/intellij/plugin/PluginCreator.kt:724-728 | any other name gets the restricted-word problem, if any, at the head of its problems |
| PluginValidation.NameProblemsLengthAndNewlines | intellij-plugin-structure/structure-intellij/src/main/java/com/jetbrains/plugin/structure/intellij/plugin/PluginCreator.kt:729-730 | after the restricted words, such a name is checked for its length and for newlines |
| PluginValidation.VersionProblems | intellij-plugin-structure/structure-intellij/src/main/java/com/jetbrains/plugin/structure/intellij/plugin/PluginCreator.kt:576-585 | a missing version is reported only under strict validation; an empty one is not specified; any other version is checked against 64 |
| PluginValidation.DescriptionProblems | intellij-plugin-structure/structure-intellij/src/main/java/com/jetbrains/plugin/structure/intellij/plugin/PluginCreator.kt:735-743 | a missing description is reported only under strict validation; an empty one is not specified; any other is checked against 65535, then by the analysis of its HTML text |
| PluginValidation.ChangeNotesProblems | intellij-plugin-structure/structure-intellij/src/main/java/com/jetbrains/plugin/structure/intellij/plugin/PluginCreator.kt:770-782 | blank change notes pass; others are checked for the default phrases and the 65535 limit |
| PluginValidation.TemplateValue | intellij-plugin-structure/structure-intellij/src/main/java/com/jetbrains/plugin/structure/intellij/plugin/PluginCreator.kt:802-814 | a default-value problem exactly when the value equals the template |
| PluginValidation.OptionalLength | intellij-plugin-structure/structure-intellij/src/main/java/com/jetbrains/plugin/structure/intellij/plugin/PluginCreator.kt:810 | a length problem exactly when the value is present and longer than 255 |
| PluginValidation.VendorProblems | intellij-plugin-structure/structure-intellij/src/main/java/com/jetbrains/plugin/structure/intellij/plugin/PluginCreator.kt:796-800 | a missing vendor or vendor name is not specified |
| PluginValidation.VendorProblemsOfNamedVendor | intellij-plugin-structure/structure-intellij/src/main/java/com/jetbrains/plugin/structure/intellij/plugin/PluginCreator.kt:802-815 | a named vendor's problems are the name's template and length checks, then the url's, then the e-mail's; each template value is reported iff used, and nothing iff no template value and no length is too long |
| PluginValidation.SinceBuildProblems | intellij-plugin-structure/structure-intellij/src/main/java/com/jetbrains/plugin/structure/intellij/plugin/PluginCreator.kt:818-837 | a missing or unparsable since-build is reported; a parsed one is checked against the wildcard, the product code and the minimal baseline |
| PluginValidation.UntilBuildProblems | intellij-plugin-structure/structure-intellij/src/main/java/com/jetbrains/plugin/structure/intellij/plugin/PluginCreator.kt:839-853 | an unparsable until-build is invalid; a parsed one is checked for the product code and the baseline limits |
| PluginValidation.IdeaVersionProblems | intellij-plugin-structure/structure-intellij/src/main/java/com/jetbrains/plugin/structure/intellij/plugin/PluginCreator.kt:855-868 | a missing `idea-version` is not specified; otherwise the since-build, then a present until-build, is checked |
| PluginValidation.ProductCodeProblems | intellij-plugin-structure/structure-intellij/src/main/java/com/jetbrains/plugin/structure/intellij/plugin/PluginCreator.kt:528-534 | an empty code is not specified; otherwise a problem iff it is longer than 15 |
| PluginValidation.ReleaseDateProblems | intellij-plugin-structure/structure-intellij/src/main/java/com/jetbrains/plugin/structure/intellij/plugin/PluginCreator.kt:536-546 | an empty date is not specified; otherwise the wrong-format problem iff it is not a `yyyyMMdd` date |
| PluginValidation.ReleaseVersionProblems | intellij-plugin-structure/structure-intellij/src/main/java/com/jetbrains/plugin/structure/intellij/plugin/PluginCreator.kt:548-558 | an empty release version is not specified; otherwise not-a-number iff it is not an integer |
| PluginValidation.BooleanFlagProblems | intellij-plugin-structure/structure-intellij/src/main/java/com/jetbrains/plugin/structure/intellij/plugin/PluginCreator.kt:560-568 | a not-boolean problem exactly when the flag is present and neither `true` nor `false` |
| PluginValidation.ProductDescriptorProblems | intellij-plugin-structure/structure-intellij/src/main/java/com/jetbrains/plugin/structure/intellij/plugin/PluginCreator.kt:518-526 | no descriptor passes; otherwise the code, date, version and both flags are checked, in order |
| PluginValidation.DependencyProblem | intellij-plugin-structure/structure-intellij/src/main/java/com/jetbrains/plugin/structure/intellij/plugin/PluginCreator.kt:507-514 | the first rule that applies: a blank id or an id with a newline is invalid; then an optional dependency without a config file; then an explicit non-optional one |
| PluginValidation.DependencyProblems | intellij-plugin-structure/structure-intellij/src/main/java/com/jetbrains/plugin/structure/intellij/plugin/PluginCreator.kt:506-516 | at most one problem per dependency |
| PluginValidation.DependencyProblemsComeFromDependencies | intellij-plugin-structure/structure-intellij/src/main/java/com/jetbrains/plugin/structure/intellij/plugin/PluginCreator.kt:506-516 | every problem is some dependency's first rule, and there is none iff no dependency breaks a rule |
| PluginValidation.ModuleProblems | intellij-plugin-structure/structure-intellij/src/main/java/com/jetbrains/plugin/structure/intellij/plugin/PluginCreator.kt:501-503 | an invalid-module problem exactly when some module is empty |
| PluginValidation.LenientValidationOfEmptyBean | intellij-plugin-structure/structure-intellij/src/main/java/com/jetbrains/plugin/structure/intellij/plugin/PluginCreator.kt:469-504 | without strict validation, a bean with no properties has no problems |
| PluginValidation.StrictValidationRequiresProperties | intellij-plugin-structure/structure-intellij/src/main/java/com/jetbrains/plugin/structure/intellij/plugin/PluginCreator.kt:469-504 | under strict validation, a missing name, version, description, vendor, `idea-version` or since-build is reported |
| PluginValidation.DependencyIds | intellij-plugin-structure/structure-intellij/src/main/java/com/jetbrains/plugin/structure/intellij/plugin/PluginCreator.kt:589 | the ids of the dependencies, in order |
| PluginValidation.DuplicatedIds | intellij-plugin-structure/structure-intellij/src/main/java/com/jetbrains/plugin/structure/intellij/plugin/PluginCreator.kt:589-593 | exactly the ids that occur twice or more, each once |
| PluginValidation.ListenerProblems | intellij-plugin-structure/structure-intellij/src/main/java/com/jetbrains/plugin/structure/intellij/plugin/PluginCreator.kt:606-614 | listener problems only for a since-build below 193: one for application and one for project listeners, each iff that container has listeners |
| PluginValidation.DuplicateWarnings | intellij-plugin-structure/structure-intellij/src/main/java/com/jetbrains/plugin/structure/intellij/plugin/PluginCreator.kt:588-594 | a duplicated-dependency warning for an id iff the id occurs twice, and none repeated |
| PluginValidation.RangeProblems | intellij-plugin-structure/structure-intellij/src/main/java/com/jetbrains/plugin/structure/intellij/plugin/PluginCreator.kt:596-614 | no-module-dependencies iff the plugin is not v2 and has no module dependency; an inverted range iff since-build is greater than until-build |
| PluginValidation.DuplicatedDependenciesReported | intellij-plugin-structure/structure-intellij/src/main/java/com/jetbrains/plugin/structure/intellij/plugin/PluginCreator.kt:588-594 | `validatePlugin` warns about an id iff two dependencies share it |
| PluginValidation.DuplicatedDependenciesReportedOnce | intellij-plugin-structure/structure-intellij/src/main/java/com/jetbrains/plugin/structure/intellij/plugin/PluginCreator.kt:588-594 | each duplicated id is warned about once |
| PluginValidation.NoModuleDependenciesIff | intellij-plugin-structure/structure-intellij/src/main/java/com/jetbrains/plugin/structure/intellij/plugin/PluginCreator.kt:596-598 | `validatePlugin` reports no-module-dependencies iff the plugin is not v2 and has no module dependency |
| PluginValidation.InvertedRangeIff | intellij-plugin-structure/structure-intellij/src/main/java/com/jetbrains/plugin/structure/intellij/plugin/PluginCreator.kt:600-604 | `validatePlugin` reports an inverted range iff since-build is greater than until-build |
| PluginAssembly.LastIndexOf | intellij-plugin-structure/structure-intellij/src/main/java/com/jetbrains/plugin/structure/intellij/plugin/PluginCreator.kt:222 | the last position of the character, none iff it does not occur |
| PluginAssembly.UntilBuildText | intellij-plugin-structure/structure-intellij/src/main/java/com/jetbrains/plugin/structure/intellij/plugin/PluginCreator.kt:220-224 | an until-build ending in `.*` keeps everything up to the last `.` and appends `2147483647`; any other is kept |
| PluginAssembly.UntilBuildOf | intellij-plugin-structure/structure-intellij/src/main/java/com/jetbrains/plugin/structure/intellij/plugin/PluginCreator.kt:216-227 | a missing or empty until-build leaves the field unchanged; any other is parsed after the rewrite |
| PluginAssembly.ConfigFilePath | intellij-plugin-structure/structure-intellij/src/main/java/com/jetbrains/plugin/structure/intellij/plugin/PluginCreator.kt:241-245 | a config file gets `../` iff it matches `^intellij\..*` |
| PluginAssembly.DeclaredDependency | intellij-plugin-structure/structure-intellij/src/main/java/com/jetbrains/plugin/structure/intellij/plugin/PluginCreator.kt:235-239 | a bean with an id is a dependency, optional iff `optional` is true, a module iff its id has the module prefix |
| PluginAssembly.DeclaredDependencies | intellij-plugin-structure/structure-intellij/src/main/java/com/jetbrains/plugin/structure/intellij/plugin/PluginCreator.kt:233-248 | at most one dependency per bean |
| PluginAssembly.DeclaredDependenciesSound | intellij-plugin-structure/structure-intellij/src/main/java/com/jetbrains/plugin/structure/intellij/plugin/PluginCreator.kt:233-248 | every declared dependency comes from some bean |
| PluginAssembly.DeclaredDependenciesComplete | intellij-plugin-structure/structure-intellij/src/main/java/com/jetbrains/plugin/structure/intellij/plugin/PluginCreator.kt:233-248 | every bean with an id is declared |
| PluginAssembly.RecordedConfigFile | intellij-plugin-structure/structure-intellij/src/main/java/com/jetbrains/plugin/structure/intellij/plugin/PluginCreator.kt:241-245 | a config file is recorded iff the bean has an id, is optional and names a file; the path gets the prefix rule |
| PluginAssembly.RecordConfigFilesKeys | intellij-plugin-structure/structure-intellij/src/main/java/com/jetbrains/plugin/structure/intellij/plugin/PluginCreator.kt:241-245 | recording keeps every earlier key, and adds only dependencies of beans that record a file |
| PluginAssembly.V2DependenciesExact | intellij-plugin-structure/structure-intellij/src/main/java/com/jetbrains/plugin/structure/intellij/plugin/PluginCreator.kt:250-264 | the v2 dependencies are exactly the named modules, as modules, and the named plugins, none optional |
| PluginAssembly.ContentModuleConfigFile | intellij-plugin-structure/structure-intellij/src/main/java/com/jetbrains/plugin/structure/intellij/plugin/PluginCreator.kt:272 | a content module's file is `../` + the name with `/` made `.` + `.xml` |
| PluginAssembly.ContentModulesExact | intellij-plugin-structure/structure-intellij/src/main/java/com/jetbrains/plugin/structure/intellij/plugin/PluginCreator.kt:266-276 | the content modules are exactly the named ones, each with its file |
| PluginAssembly.IncompatibleModulesExact | intellij-plugin-structure/structure-intellij/src/main/java/com/jetbrains/plugin/structure/intellij/plugin/PluginCreator.kt:278-280 | the incompatible modules are exactly the declared ids with the module prefix |
| PluginAssembly.BooleanAttribute | intellij-plugin-structure/structure-intellij/src/main/java/com/jetbrains/plugin/structure/intellij/plugin/PluginCreator.kt:359-361 | a missing attribute gives the default; a present one is true iff it is `true` ignoring case |
| PluginAssembly.ExtractEPName | intellij-plugin-structure/structure-intellij/src/main/java/com/jetbrains/plugin/structure/intellij/plugin/PluginCreator.kt:411-423 | the `point` attribute when present, otherwise a name ending in `.` + the element name |
| PluginAssembly.ExtensionPointName | intellij-plugin-structure/structure-intellij/src/main/java/com/jetbrains/plugin/structure/intellij/plugin/PluginCreator.kt:352-357 | the qualified name when present, otherwise the plugin id and the name |
| PluginAssembly.ReadOs | intellij-plugin-structure/structure-intellij/src/main/java/com/jetbrains/plugin/structure/intellij/plugin/PluginCreator.kt:425-433 | an OS iff the attribute is one of the five known names |
| PluginAssembly.ReadServicePreloadMode | intellij-plugin-structure/structure-intellij/src/main/java/com/jetbrains/plugin/structure/intellij/plugin/PluginCreator.kt:363-371 | the preload mode is false unless the attribute is one of the four known values |
| PluginAssembly.ReadServiceClient | intellij-plugin-structure/structure-intellij/src/main/java/com/jetbrains/plugin/structure/intellij/plugin/PluginCreator.kt:373-383 | a client kind iff the attribute is one of the six known values |
| PluginAssembly.ServiceArea | intellij-plugin-structure/structure-intellij/src/main/java/com/jetbrains/plugin/structure/intellij/plugin/PluginCreator.kt:325-329 | the application, project and module service points map to their areas, and nothing else does |
| PluginAssembly.ReadServiceDescriptor | intellij-plugin-structure/structure-intellij/src/main/java/com/jetbrains/plugin/structure/intellij/plugin/PluginCreator.kt:385-409 | a service takes its interface, implementation and `overrides` from the element and its type from the area |
| PluginAssembly.AddExtensionExact | intellij-plugin-structure/structure-intellij/src/main/java/com/jetbrains/plugin/structure/intellij/plugin/PluginCreator.kt:325-330 | a service joins its area's container and nothing else changes; any other element is appended under its extension point, other points unchanged |
| PluginAssembly.WithExtensionsKeepsEarlierElements | intellij-plugin-structure/structure-intellij/src/main/java/com/jetbrains/plugin/structure/intellij/plugin/PluginCreator.kt:329 | reading extensions keeps every earlier point and its elements as a prefix |
| PluginAssembly.WithExtensionsFilesEachElement | intellij-plugin-structure/structure-intellij/src/main/java/com/jetbrains/plugin/structure/intellij/plugin/PluginCreator.kt:322-333 | every non-service element read ends up under its extension point |
| PluginAssembly.ExtensionPointOf | intellij-plugin-structure/structure-intellij/src/main/java/com/jetbrains/plugin/structure/intellij/plugin/PluginCreator.kt:337-347 | a named extension point of a known area is read with its name and `dynamic` flag; the application area iff no area or `IDEA_APPLICATION` |
| PluginAssembly.AddExtensionPointExact | intellij-plugin-structure/structure-intellij/src/main/java/com/jetbrains/plugin/structure/intellij/plugin/PluginCreator.kt:335-350 | an extension point read joins its area's container only; one not read changes nothing |
| PluginAssembly.ListenerProblemsOf | intellij-plugin-structure/structure-intellij/src/main/java/com/jetbrains/plugin/structure/intellij/plugin/PluginCreator.kt:443-448 | at most two problems per listener |
| PluginAssembly.ListenerProblemsOfExact | intellij-plugin-structure/structure-intellij/src/main/java/com/jetbrains/plugin/structure/intellij/plugin/PluginCreator.kt:443-448 | a missing class, and a missing topic, are each reported iff the attribute is missing |
| PluginAssembly.ListenerOfExact | intellij-plugin-structure/structure-intellij/src/main/java/com/jetbrains/plugin/structure/intellij/plugin/PluginCreator.kt:438-452 | a listener is read iff it has no problem, with its class, topic and type, and both modes default to true |
| PluginAssembly.ComponentOf | intellij-plugin-structure/structure-intellij/src/main/java/com/jetbrains/plugin/structure/intellij/plugin/PluginCreator.kt:459-464 | a component is read iff it has an implementation class, with its interface class when present |
| PluginAssembly.ListenersFrom | intellij-plugin-structure/structure-intellij/src/main/java/com/jetbrains/plugin/structure/intellij/plugin/PluginCreator.kt:435-455 | at most one descriptor per listener element |
| PluginAssembly.ListenersRecordedIffNoProblems | intellij-plugin-structure/structure-intellij/src/main/java/com/jetbrains/plugin/structure/intellij/plugin/PluginCreator.kt:435-455 | every listener is recorded iff none is reported |
| PluginAssembly.ListenersHaveType | intellij-plugin-structure/structure-intellij/src/main/java/com/jetbrains/plugin/structure/intellij/plugin/PluginCreator.kt:450-451 | every listener read carries the type of its container |
| PluginAssembly.ComponentsFrom | intellij-plugin-structure/structure-intellij/src/main/java/com/jetbrains/plugin/structure/intellij/plugin/PluginCreator.kt:457-467 | at most one component per element |
| PluginAssembly.ComponentsFromExact | intellij-plugin-structure/structure-intellij/src/main/java/com/jetbrains/plugin/structure/intellij/plugin/PluginCreator.kt:457-467 | the components are exactly those read from some element |
| PluginAssembly.DefinedModules | intellij-plugin-structure/structure-intellij/src/main/java/com/jetbrains/plugin/structure/intellij/plugin/PluginCreator.kt:212 | the defined modules are the bean's modules |
| PluginAssembly.IdOrParent | intellij-plugin-structure/structure-intellij/src/main/java/com/jetbrains/plugin/structure/intellij/plugin/PluginCreator.kt:111-112 | the plugin's own id, else the parent's |
| PluginAssembly.WithExtensionsSameInfo | intellij-plugin-structure/structure-intellij/src/main/java/com/jetbrains/plugin/structure/intellij/plugin/PluginCreator.kt:302-313 | reading extensions leaves the bean's fields alone |
| PluginAssembly.WithExtensionPointsSameInfo | intellij-plugin-structure/structure-intellij/src/main/java/com/jetbrains/plugin/structure/intellij/plugin/PluginCreator.kt:302-313 | reading extension points leaves the bean's fields alone |
| PluginAssembly.ReadersKeepBeanInfo | intellij-plugin-structure/structure-intellij/src/main/java/com/jetbrains/plugin/structure/intellij/plugin/PluginCreator.kt:302-313 | the element readers leave the bean's fields alone |
| PluginAssembly.PluginFromBeanIdentity | intellij-plugin-structure/structure-intellij/src/main/java/com/jetbrains/plugin/structure/intellij/plugin/PluginCreator.kt:207-314 | the assembled plugin's id is the trimmed id, else the trimmed name; it is v2 iff it has a package; it keeps earlier dependencies and has every declared and every v2 one |
| PluginAssembly.AddModuleDependenciesExtends | intellij-plugin-structure/structure-intellij/src/main/java/com/jetbrains/plugin/structure/intellij/plugin/PluginCreator.kt:150-156 | a module's dependencies are appended after the plugin's, all optional |
| PluginAssembly.AddModuleDependenciesIds | intellij-plugin-structure/structure-intellij/src/main/java/com/jetbrains/plugin/structure/intellij/plugin/PluginCreator.kt:150-156 | the ids afterwards are the union of both sets of ids |
| PluginAssembly.AddModuleDependenciesKeepsIdsDistinct | intellij-plugin-structure/structure-intellij/src/main/java/com/jetbrains/plugin/structure/intellij/plugin/PluginCreator.kt:150-156 | no id is added twice |
| PluginAssembly.PathAttributes | intellij-plugin-structure/structure-intellij/src/main/java/com/jetbrains/plugin/structure/intellij/plugin/PluginCreator.kt:641-643 | at most one theme path per extension element |
| PluginAssembly.AbsoluteThemePath | intellij-plugin-structure/structure-intellij/src/main/java/com/jetbrains/plugin/structure/intellij/plugin/PluginCreator.kt:648 | a theme path is made absolute by a leading `/`, added only when missing |
| PluginAssembly.ThemeProblems | intellij-plugin-structure/structure-intellij/src/main/java/com/jetbrains/plugin/structure/intellij/plugin/PluginCreator.kt:640-669 | at most one problem per theme |
| PluginAssembly.ThemeProblem | intellij-plugin-structure/structure-intellij/src/main/java/com/jetbrains/plugin/structure/intellij/plugin/PluginCreator.kt:649-666 | a theme read gives no problem; a missing one is unable-to-find; an unparsable or failed one is unable-to-read with its message |
| PluginAssembly.ThemeProblemsOutcome | intellij-plugin-structure/structure-intellij/src/main/java/com/jetbrains/plugin/structure/intellij/plugin/PluginCreator.kt:640-669 | reading stops early iff some theme cannot be parsed; there is no problem iff every theme is read |
| PluginCreators.CreationResultOf | intellij-plugin-structure/structure-intellij/src/main/java/com/jetbrains/plugin/structure/intellij/plugin/PluginCreator.kt:117-122 | a failure iff some problem is an error, carrying all problems; a success carries the plugin and every problem as a warning |
| PluginCreators.PluginCreator.constructor | intellij-plugin-structure/structure-intellij/src/main/java/com/jetbrains/plugin/structure/intellij/plugin/PluginCreator.kt:28-32 | a new creator holds a fresh plugin, no problems, no config files and no content modules |
| PluginCreators.PluginCreator.Invalid | intellij-plugin-structure/structure-intellij/src/main/java/com/jetbrains/plugin/structure/intellij/plugin/PluginCreator.kt:97-101 | an invalid creator requires an error, holds exactly that problem and fails with it |
| PluginCreators.PluginCreator.PluginCreationResult | intellij-plugin-structure/structure-intellij/src/main/java/com/jetbrains/plugin/structure/intellij/plugin/PluginCreator.kt:114-122 | the result is a success iff `isSuccess` |
| PluginCreators.PluginCreator.RegisterProblem | intellij-plugin-structure/structure-intellij/src/main/java/com/jetbrains/plugin/structure/intellij/plugin/PluginCreator.kt:695-697 | registering appends the problem and changes nothing else |
| PluginCreators.PluginCreator.RegisterAll | intellij-plugin-structure/structure-intellij/src/main/java/com/jetbrains/plugin/structure/intellij/plugin/PluginCreator.kt:695-697 | each kind is appended in turn, with its level |
| PluginCreators.PluginCreator.ValidatePluginBean | intellij-plugin-structure/structure-intellij/src/main/java/com/jetbrains/plugin/structure/intellij/plugin/PluginCreator.kt:469-504 | the bean's problems are appended and nothing else changes |
| PluginCreators.CheckBean | intellij-plugin-structure/structure-intellij/src/main/java/com/jetbrains/plugin/structure/intellij/plugin/PluginCreator.kt:469-504 | the checks run in order: properties, dependencies, modules |
| PluginCreators.ValidateDependency | intellij-plugin-structure/structure-intellij/src/main/java/com/jetbrains/plugin/structure/intellij/plugin/PluginCreator.kt:507-514 | the step gives the dependency's first broken rule |
| PluginCreators.ValidateDependencies | intellij-plugin-structure/structure-intellij/src/main/java/com/jetbrains/plugin/structure/intellij/plugin/PluginCreator.kt:506-516 | the loop gives the problems of the dependencies in order |
| PluginCreators.ReadDependencies | intellij-plugin-structure/structure-intellij/src/main/java/com/jetbrains/plugin/structure/intellij/plugin/PluginCreator.kt:233-248 | the `<depends>` loop declares the dependencies and records their config files |
| PluginCreators.ReadDependenciesV2 | intellij-plugin-structure/structure-intellij/src/main/java/com/jetbrains/plugin/structure/intellij/plugin/PluginCreator.kt:250-264 | the `<dependencies>` loops give the v2 dependencies, modules first |
| PluginCreators.ReadContentModules | intellij-plugin-structure/structure-intellij/src/main/java/com/jetbrains/plugin/structure/intellij/plugin/PluginCreator.kt:266-276 | the `<content>` loop gives the content modules |
| PluginCreators.PluginCreator.SetBeanInfo | intellij-plugin-structure/structure-intellij/src/main/java/com/jetbrains/plugin/structure/intellij/plugin/PluginCreator.kt:208-300 | the creator's state becomes the bean's fields on the plugin, with the recorded config files and content modules |
| PluginCreators.ReadActions | intellij-plugin-structure/structure-intellij/src/main/java/com/jetbrains/plugin/structure/intellij/plugin/PluginCreator.kt:316-320 | the actions become the earlier ones plus every child of every `<actions>` element |
| PluginCreators.ReadExtension | intellij-plugin-structure/structure-intellij/src/main/java/com/jetbrains/plugin/structure/intellij/plugin/PluginCreator.kt:325-330 | one extension element is filed as a service or under its extension point |
| PluginCreators.ReadExtensionGroup | intellij-plugin-structure/structure-intellij/src/main/java/com/jetbrains/plugin/structure/intellij/plugin/PluginCreator.kt:324-331 | the children of one `<extensions>` element are filed in order |
| PluginCreators.ReadExtensions | intellij-plugin-structure/structure-intellij/src/main/java/com/jetbrains/plugin/structure/intellij/plugin/PluginCreator.kt:322-333 | the children of every `<extensions>` element are filed in order |
| PluginCreators.ReadExtensionPointGroup | intellij-plugin-structure/structure-intellij/src/main/java/com/jetbrains/plugin/structure/intellij/plugin/PluginCreator.kt:336-348 | the extension points given are added in order |
| PluginCreators.ReadExtensionPoints | intellij-plugin-structure/structure-intellij/src/main/java/com/jetbrains/plugin/structure/intellij/plugin/PluginCreator.kt:335-350 | the children of every `<extensionPoints>` element are added in order |
| PluginCreators.ReadListener | intellij-plugin-structure/structure-intellij/src/main/java/com/jetbrains/plugin/structure/intellij/plugin/PluginCreator.kt:438-452 | one listener: its problems, and the descriptor read from it |
| PluginCreators.ReadListenerList | intellij-plugin-structure/structure-intellij/src/main/java/com/jetbrains/plugin/structure/intellij/plugin/PluginCreator.kt:437-453 | the listeners of one element: those read and the problems reported, in order |
| PluginCreators.ReadListeners | intellij-plugin-structure/structure-intellij/src/main/java/com/jetbrains/plugin/structure/intellij/plugin/PluginCreator.kt:435-455 | the listeners read join the container of the area, and the problems of all listeners are reported |
| PluginCreators.ReadComponentList | intellij-plugin-structure/structure-intellij/src/main/java/com/jetbrains/plugin/structure/intellij/plugin/PluginCreator.kt:459-465 | the components read from one root's `<component>` elements |
| PluginCreators.ReadComponents | intellij-plugin-structure/structure-intellij/src/main/java/com/jetbrains/plugin/structure/intellij/plugin/PluginCreator.kt:457-467 | the components read join the container of the area |
| PluginCreators.ReadPluginElements | intellij-plugin-structure/structure-intellij/src/main/java/com/jetbrains/plugin/structure/intellij/plugin/PluginCreator.kt:302-313 | the element readers run in order: actions, extensions, extension points, listeners, components; the application listener problems come before the project ones |
| PluginCreators.PluginCreator.ReadElements | intellij-plugin-structure/structure-intellij/src/main/java/com/jetbrains/plugin/structure/intellij/plugin/PluginCreator.kt:302-313 | the creator's plugin gets the elements, and the listener problems are registered |
| PluginCreators.PluginCreator.SetInfoFromBean | intellij-plugin-structure/structure-intellij/src/main/java/com/jetbrains/plugin/structure/intellij/plugin/PluginCreator.kt:207-314 | the bean's fields, then everything the element readers find |
| PluginCreators.ResolveThemes | intellij-plugin-structure/structure-intellij/src/main/java/com/jetbrains/plugin/structure/intellij/plugin/PluginCreator.kt:647-668 | the theme loop gives the problems up to the first unparsable theme, and whether it got past every theme |
| PluginCreators.PluginCreator.ReadPluginThemes | intellij-plugin-structure/structure-intellij/src/main/java/com/jetbrains/plugin/structure/intellij/plugin/PluginCreator.kt:640-669 | the theme problems are registered, and the reading completes iff no theme is unparsable |
| PluginCreators.CheckAssembledPlugin | intellij-plugin-structure/structure-intellij/src/main/java/com/jetbrains/plugin/structure/intellij/plugin/PluginCreator.kt:587-615 | the checks of an assembled plugin, in registration order |
| PluginCreators.PluginCreator.ValidatePlugin | intellij-plugin-structure/structure-intellij/src/main/java/com/jetbrains/plugin/structure/intellij/plugin/PluginCreator.kt:587-615 | the assembled plugin's problems are appended and nothing else changes |
| PluginCreators.PluginCreator.ResolveDocumentAndValidateBean | intellij-plugin-structure/structure-intellij/src/main/java/com/jetbrains/plugin/structure/intellij/plugin/PluginCreator.kt:617-638 | an XInclude or bean failure is registered and stops; so does a bean error; otherwise the bean is assembled, the themes read, and the plugin validated unless a theme is unparsable |
| PluginCreators.AssembledOnlyAppendsProblems | intellij-plugin-structure/structure-intellij/src/main/java/com/jetbrains/plugin/structure/intellij/plugin/PluginCreator.kt:629-637 | assembling only appends problems |
| PluginCreators.ResolvedOnlyAppendsProblems | intellij-plugin-structure/structure-intellij/src/main/java/com/jetbrains/plugin/structure/intellij/plugin/PluginCreator.kt:617-638 | resolving only appends problems; the earlier ones stay in place |
| PluginCreators.ResolvedKeepsErrors | intellij-plugin-structure/structure-intellij/src/main/java/com/jetbrains/plugin/structure/intellij/plugin/PluginCreator.kt:617-638 | a creator with an error still has one after resolving |
| PluginCreators.InvalidBeanIsNotAssembled | intellij-plugin-structure/structure-intellij/src/main/java/com/jetbrains/plugin/structure/intellij/plugin/PluginCreator.kt:625-628 | a bean that fails validation is never assembled, and the creation fails |
| PluginCreators.SuccessfulCreationIsAssembled | intellij-plugin-structure/structure-intellij/src/main/java/com/jetbrains/plugin/structure/intellij/plugin/PluginCreator.kt:617-638 | a successful creation carries the plugin assembled from the bean and its elements |
| PluginCreators.CreatePlugin | intellij-plugin-structure/structure-intellij/src/main/java/com/jetbrains/plugin/structure/intellij/plugin/PluginCreator.kt:76-90 | a fresh creator that has resolved its descriptor |
| PluginCreators.PluginCreator.AddOptionalDescriptor | intellij-plugin-structure/structure-intellij/src/main/java/com/jetbrains/plugin/structure/intellij/plugin/PluginCreator.kt:124-140 | a successful optional plugin is recorded and merged in; a failed one is reported with its errors only |
| PluginCreators.PluginCreator.AddModuleDescriptor | intellij-plugin-structure/structure-intellij/src/main/java/com/jetbrains/plugin/structure/intellij/plugin/PluginCreator.kt:142-167 | a successful v2 module adds its missing dependencies as optional, is recorded and merged in; a successful v1 module changes nothing; a failed one is reported with its errors only |
| PluginCreators.PluginCreator.RegisterOptionalDependenciesConfigurationFilesCycleProblem | intellij-plugin-structure/structure-intellij/src/main/java/com/jetbrains/plugin/structure/intellij/plugin/PluginCreator.kt:187-189 | the cycle is registered as one problem, and nothing else changes |
| PluginCreators.PluginCreator.SetIcons | intellij-plugin-structure/structure-intellij/src/main/java/com/jetbrains/plugin/structure/intellij/plugin/PluginCreator.kt:191-193 | only the plugin's icons change |
| PluginCreators.PluginCreator.SetPluginVersion | intellij-plugin-structure/structure-intellij/src/main/java/com/jetbrains/plugin/structure/intellij/plugin/PluginCreator.kt:199-201 | only the plugin's version changes |
| TeamcityValidator.MissingProperty | intellij-plugin-structure/structure-teamcity/src/main/kotlin/com/jetbrains/plugin/structure/teamcity/Validator.kt:9-17 | a property is reported as not specified iff it is null or blank |
| TeamcityValidator.ValidateTeamcityPluginBean | intellij-plugin-structure/structure-teamcity/src/main/kotlin/com/jetbrains/plugin/structure/teamcity/Validator.kt:7-19 | the three checks append the problems of name, display name and version |
| TeamcityValidator.TeamcityProblemsIff | intellij-plugin-structure/structure-teamcity/src/main/kotlin/com/jetbrains/plugin/structure/teamcity/Validator.kt:9-17 | each property is reported iff it is null or blank |
| TeamcityValidator.TeamcityProblemsBound | intellij-plugin-structure/structure-teamcity/src/main/kotlin/com/jetbrains/plugin/structure/teamcity/Validator.kt:7-19 | at most three problems, and none iff all three properties are given |
| TeamcityValidator.TeamcityProblemsOrdered | intellij-plugin-structure/structure-teamcity/src/main/kotlin/com/jetbrains/plugin/structure/teamcity/Validator.kt:7-19 | the problems come in the order name, display name, version, each at most once |
| CmdUtil.Put | verifier-cli/src/main/java/com/jetbrains/pluginverifier/utils/CmdUtil.kt:166 | the multimap gains the pattern under the key, and other keys keep their sets |
| CmdUtil.ParseLine | verifier-cli/src/main/java/com/jetbrains/pluginverifier/utils/CmdUtil.kt:153-154 | a line is skipped iff, once trimmed, it is empty or starts with `//` |
| CmdUtil.ParseTokens | verifier-cli/src/main/java/com/jetbrains/pluginverifier/utils/CmdUtil.kt:156-164 | a line is an entry iff it has exactly three tokens, otherwise it is malformed |
| CmdUtil.ParseLineEntry | verifier-cli/src/main/java/com/jetbrains/pluginverifier/utils/CmdUtil.kt:162-164 | an entry's id, version and pattern have no `:` and are trimmed, and the pattern has no `/` |
| CmdUtil.ParseLineRoundTrip | verifier-cli/src/main/java/com/jetbrains/pluginverifier/utils/CmdUtil.kt:156-166 | `id:version:pattern` parses back to its id and version, with `/` in the pattern made `.`; the version may be empty |
| CmdUtil.CollectFails | verifier-cli/src/main/java/com/jetbrains/pluginverifier/utils/CmdUtil.kt:158-160 | collecting the parsed lines fails iff some line is malformed |
| CmdUtil.CollectEntries | verifier-cli/src/main/java/com/jetbrains/pluginverifier/utils/CmdUtil.kt:162-166 | a pattern is ignored for a key iff some line is that entry, and no key has an empty set |
| CmdUtil.CollectSkip | verifier-cli/src/main/java/com/jetbrains/pluginverifier/utils/CmdUtil.kt:153-154 | a skipped line changes nothing wherever it stands |
| CmdUtil.IgnoredProblemsFails | verifier-cli/src/main/java/com/jetbrains/pluginverifier/utils/CmdUtil.kt:156-171 | the file fails to parse iff some line has other than three tokens |
| CmdUtil.IgnoredProblemsEntries | verifier-cli/src/main/java/com/jetbrains/pluginverifier/utils/CmdUtil.kt:162-166 | a pattern is ignored for an (id, version) iff some line of the file gives that entry |
| CmdUtil.IgnoredProblemsSkip | verifier-cli/src/main/java/com/jetbrains/pluginverifier/utils/CmdUtil.kt:153-154 | inserting an empty or comment line anywhere does not change the result |
| CmdUtil.ProblemsToIgnore | verifier-cli/src/main/java/com/jetbrains/pluginverifier/utils/CmdUtil.kt:141-174 | a missing file fails with the does-not-exist message; a malformed line fails with the unable-to-parse message; both messages end with the file name |
| CmdUtil.GetProblemsToIgnoreFromFile | verifier-cli/src/main/java/com/jetbrains/pluginverifier/utils/CmdUtil.kt:141-174 | the reading loop gives exactly the specified outcome, stopping at the first malformed line |
| CmdUtil.ExternalPrefixes | verifier-cli/src/main/java/com/jetbrains/pluginverifier/utils/CmdUtil.kt:138 | one prefix per prefix, in order, with `.` made `/` |
| CmdUtil.ExternalPrefixesShape | verifier-cli/src/main/java/com/jetbrains/pluginverifier/utils/CmdUtil.kt:138 | the converted prefixes contain no `.` and have the lengths of the originals |
| CmdUtil.ParseOpts | verifier-cli/src/main/java/com/jetbrains/pluginverifier/utils/CmdUtil.kt:129-139 | no ignore file gives an empty table; otherwise the options fail iff the file fails, with the file's message, and on success the table is the file's; the prefixes are converted and the ignored optional dependencies become a set |
| CmdUtil.ParseOptsReadsIgnoreFile | verifier-cli/src/main/java/com/jetbrains/pluginverifier/utils/CmdUtil.kt:129-139 | with an ignore file: a missing file fails with the does-not-exist message, the options fail iff a line is malformed, and a problem is ignored iff some line of the file gives it |
| CmdUtil.TakeVersionFromCmd | verifier-cli/src/main/java/com/jetbrains/pluginverifier/utils/CmdUtil.kt:83-94 | a null or blank version gives none; otherwise the parsed version, or a failure whose message is the incorrect-version message followed by the version |

## Left out

- XInclude resolution, extraction of the bean from XML, and the JSON reading of themes
  (`PluginCreator.kt` 640-693) are JDOM, Jackson and resource I/O. Their outcomes are
  parameters, and a theme's contents are not modelled (a theme read only counts as read, and `declaredThemes` is not a field of the plugin).
- `validateDescription`'s analysis of the HTML text (template phrases, the latin-symbols
  regular expression, `http://` links) needs Jsoup and Java regex semantics. It is a
  parameter of `ValidationEnv` that gives the problems it reports.
- In validation, `LocalDate` and `Integer` parsing, and `IdeVersion` parsing, are parameters
  (`isReleaseDate`, `isInteger`, `parseVersion`). `IdeVersion` is modelled as a product code
  with a list of components and their lexicographic order.
- BeanFields: `createIdeVersion` throws on a since-build it cannot parse (`PluginCreator.kt`
  218), and the exception leaves `createPlugin`. Here a failed `parseVersion` stores `None`
  instead. Assembly runs only without error-level problems, so this differs only when
  `Levels` puts `InvalidSinceBuild` below error.
- UntilBuildOf: likewise, a rewritten until-build that does not parse (`PluginCreator.kt` 226)
  gives `None` where the source throws.
- BeanTailFields: `LocalDate.parse` and `Integer.parseInt` of the product descriptor
  (`PluginCreator.kt` 283-292) are not performed. The release date and version are stored as
  the declared text, so a missing or malformed one is kept where the source throws. This
  differs only when `Levels` puts the matching problems below error.
- PropertyLength, Sorted and PrintedOrder: lengths and string order are per Unicode code
  point (Dafny's `char`), not per UTF-16 code unit as Kotlin's `String.length` and
  `compareTo` count them. A string with characters outside the Basic Multilingual Plane is
  shorter here, so it can pass a length limit that the source reports, and it can sort in a
  different place. The length checks of id, name, version, description, change notes, url,
  vendor and product code all use PropertyLength.
- The levels of the problem classes come from class definitions that are not part of this
  model. They are a parameter `Levels`; descriptor resolution errors are always errors.
- `MAX_NAME_LENGTH` is not defined in `PluginCreator.kt`; it is a field of `ValidationEnv`.
- `setThirdPartyDependencies`, `setOriginalFile` and `underlyingDocument` only store values
  that nothing in the model reads.
- `optionalDependenciesConfigFiles` is a `LinkedHashMap`. It is modelled as a map, so its
  insertion order is not kept.
- `equals(..., ignoreCase = true)` and `contains(..., ignoreCase = true)` fold ASCII letters
  only.
- The element readers of `setInfoFromBean` are modelled on `IdePlugin` values, so there is no
  aliasing. The listener problems of one reader are collected and then registered together,
  in the same order.
- Logging (`LOG.info`, `LOG.warn`) is left out.
- GetProblemsToIgnoreFromFile: `Pattern.compile` is not modelled. Patterns are kept as
  strings, so a line whose pattern is not a valid regular expression is accepted here,
  where the source fails the whole file.
- `File.exists` and reading the file's lines are a parameter (`None` for a missing file).
  The `HashMultimap` is a map from keys to sets of patterns.
- `getJdkDir`, `createIde` and `getExternalClassPath` touch the environment and the
  filesystem.
- TakeVersionFromCmd: `createIdeVersion` throwing is modelled as a parser that returns no
  version.
- Concurrency: the memo tables of `RepeatingResolver`, `CacheResolver` and `SoftJarResolver`
  are used sequentially.
- The orchestration of `CheckTrunkApiTask` is left out: repository calls, IDE loading and
  running the checks.
- SoftJarResolver.FindClass: an entry named `X.class.class` gives the key `X`, but the jar may
  have no `X.class` entry. The source then passes a null entry to `getInputStream` and throws
  a `NullPointerException`; here the read is the `entryContent` parameter, and no content
  gives no class.
- `evaluateNode` is left out: reading a class file's bytecode is modelled as the bytes read.
  The garbage collector clearing a soft reference is a `cleared` flag.
- The class hierarchy visitor is not part of this model. The ancestors it visits are given
  as a sequence.
- `pluralize` and `toFullJavaClassName` are not part of this model. They are stand-ins with
  the contracts stated above.
- The implementations of the fixed, composite, caching and empty class resolvers are not part
  of this model. Their behaviour is the behaviour asserted in `ResolverTest.kt`.
