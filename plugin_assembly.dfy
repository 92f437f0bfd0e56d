/**
 * The rules `PluginCreator.setInfoFromBean` and its readers follow when turning a validated
 * bean and the descriptor's root element into plugin fields: dependencies and their config
 * files, the until-build rewrite, content modules, incompatible modules, and what an
 * extension, extension point, listener or component element contributes.
 */
module PluginAssembly {
  import opened Wrappers
  import opened Strings
  import opened Xml
  import opened IdePlugins
  import opened PluginProblems
  import opened PluginBeans

  const ModulePrefix := "com.intellij.modules."
  const V2ModuleConfigPrefix := "intellij."
  /** `Integer.MAX_VALUE` as Kotlin prints it. */
  const IntegerMaxValue := "2147483647"

  /** A dependency is on a module exactly when its id starts with `com.intellij.modules.`. */
  predicate IsModuleId(id: string) {
    StartsWith(id, ModulePrefix)
  }

  // ---------------------------------------------------------------------------------------
  // The until-build

  /** `s.lastIndexOf(c)`, with `None` for -1. */
  function LastIndexOf(s: string, c: char): (r: Option<nat>)
    ensures r.Some? ==> r.value < |s| && s[r.value] == c && forall j :: r.value < j < |s| ==> s[j] != c
    ensures r.None? <==> c !in s
  {
    if |s| == 0 then None
    else if s[|s| - 1] == c then Some(|s| - 1)
    else
      var r := LastIndexOf(s[..|s| - 1], c);
      assert forall j :: 0 <= j < |s| - 1 ==> s[..|s| - 1][j] == s[j];
      r
  }

  /**
   * The until-build text `setInfoFromBean` parses: a wildcard `.*` at the end is replaced by
   * `Integer.MAX_VALUE`, keeping everything up to and including the last dot.
   */
  function UntilBuildText(untilBuild: string): (r: string)
    ensures EndsWith(untilBuild, ".*") ==> r == untilBuild[..|untilBuild| - 1] + IntegerMaxValue
    ensures !EndsWith(untilBuild, ".*") ==> r == untilBuild
  {
    if EndsWith(untilBuild, ".*") then
      var n := |untilBuild|;
      assert untilBuild[n - 2] == '.' && untilBuild[n - 1] == '*';
      var idx := LastIndexOf(untilBuild, '.').value;
      assert idx == n - 2;
      untilBuild[..idx + 1] + IntegerMaxValue
    else untilBuild
  }

  /**
   * The until-build `setInfoFromBean` leaves: the current one for an absent or empty
   * until-build, otherwise the parse of the rewritten text.
   */
  function UntilBuildOf(
    current: Option<IdeVersions.IdeVersion>, parseVersion: string -> Option<IdeVersions.IdeVersion>, untilBuild: Option<string>)
    : (r: Option<IdeVersions.IdeVersion>)
    ensures untilBuild.None? || untilBuild == Some("") ==> r == current
    ensures untilBuild.Some? && untilBuild.value != "" ==> r == parseVersion(UntilBuildText(untilBuild.value))
  {
    if untilBuild.Some? && untilBuild.value != "" then parseVersion(UntilBuildText(untilBuild.value)) else current
  }

  // ---------------------------------------------------------------------------------------
  // Dependencies

  /** The characters Java's `.` does not match: the line terminators. */
  predicate IsLineTerminator(c: char) {
    c == '\n' || c == '\r' || c == '\U{85}' || c == '\U{2028}' || c == '\U{2029}'
  }

  /** `v2ModulePrefix.matches(s)` for `^intellij\..*`: the prefix, then no line terminator. */
  predicate MatchesV2ModulePrefix(s: string) {
    StartsWith(s, V2ModuleConfigPrefix) && forall i :: |V2ModuleConfigPrefix| <= i < |s| ==> !IsLineTerminator(s[i])
  }

  /** The config-file path stored for an optional dependency: v2 module configs live one level up. */
  function ConfigFilePath(configFile: string): (r: string)
    ensures MatchesV2ModulePrefix(configFile) ==> r == "../" + configFile
    ensures !MatchesV2ModulePrefix(configFile) ==> r == configFile
    ensures StartsWith(r, "../") <==> MatchesV2ModulePrefix(configFile) || StartsWith(configFile, "../")
  {
    if MatchesV2ModulePrefix(configFile) then
      assert !StartsWith(configFile, "../") by {
        assert configFile[0] == 'i';
      }
      "../" + configFile
    else configFile
  }

  /** The dependency a `<depends>` bean gives: none without an id; optional only for `optional="true"`. */
  function DeclaredDependency(bean: PluginDependencyBean): (r: Option<PluginDependency>)
    ensures r.Some? <==> bean.dependencyId.Some?
    ensures r.Some? ==> r.value.id == bean.dependencyId.value
    ensures r.Some? ==> (r.value.isOptional <==> bean.optional == Some(true))
    ensures r.Some? ==> (r.value.isModule <==> IsModuleId(bean.dependencyId.value))
  {
    match bean.dependencyId
    case None => None
    case Some(id) => Some(PluginDependency(id, bean.optional == Some(true), IsModuleId(id)))
  }

  /** The dependencies of a list of `<depends>` beans, in order. */
  function DeclaredDependencies(beans: seq<PluginDependencyBean>): (r: seq<PluginDependency>)
    ensures |r| <= |beans|
    decreases |beans|
  {
    if |beans| == 0 then []
    else
      var last := DeclaredDependency(beans[|beans| - 1]);
      DeclaredDependencies(beans[..|beans| - 1]) + (if last.Some? then [last.value] else [])
  }

  /** Every declared dependency comes from one of the beans. */
  lemma {:induction false} DeclaredDependenciesSound(beans: seq<PluginDependencyBean>, d: PluginDependency)
    requires d in DeclaredDependencies(beans)
    ensures exists k :: 0 <= k < |beans| && DeclaredDependency(beans[k]) == Some(d)
    decreases |beans|
  {
    var init := beans[..|beans| - 1];
    if d in DeclaredDependencies(init) {
      DeclaredDependenciesSound(init, d);
      var k :| 0 <= k < |init| && DeclaredDependency(init[k]) == Some(d);
      assert beans[k] == init[k];
    } else {
      assert DeclaredDependency(beans[|beans| - 1]) == Some(d);
    }
  }

  /** The config file a `<depends>` bean records: only for an optional dependency with a config file. */
  function RecordedConfigFile(bean: PluginDependencyBean): (r: Option<(PluginDependency, string)>)
    ensures r.Some? <==> bean.dependencyId.Some? && bean.optional == Some(true) && bean.configFile.Some?
    ensures r.Some? ==> Some(r.value.0) == DeclaredDependency(bean) && r.value.1 == ConfigFilePath(bean.configFile.value)
  {
    match DeclaredDependency(bean)
    case None => None
    case Some(dependency) =>
      if dependency.isOptional && bean.configFile.Some? then Some((dependency, ConfigFilePath(bean.configFile.value)))
      else None
  }

  /** `optionalDependenciesConfigFiles` after the beans: a later bean overwrites an equal dependency's entry. */
  function RecordConfigFiles(files: map<PluginDependency, string>, beans: seq<PluginDependencyBean>)
    : map<PluginDependency, string>
    decreases |beans|
  {
    if |beans| == 0 then files
    else
      var before := RecordConfigFiles(files, beans[..|beans| - 1]);
      var recorded := RecordedConfigFile(beans[|beans| - 1]);
      if recorded.Some? then before[recorded.value.0 := recorded.value.1] else before
  }

  /**
   * Recording keeps every entry's key, adds only the optional dependencies with a config file,
   * and the last bean's entry is its own config file.
   */
  lemma {:induction false} RecordConfigFilesKeys(files: map<PluginDependency, string>, beans: seq<PluginDependencyBean>, d: PluginDependency)
    ensures var r := RecordConfigFiles(files, beans);
      && (d in files ==> d in r)
      && (d in r && d !in files ==> exists k :: 0 <= k < |beans| && RecordedConfigFile(beans[k]).Some? && RecordedConfigFile(beans[k]).value.0 == d)
    decreases |beans|
  {
    if |beans| > 0 {
      var init := beans[..|beans| - 1];
      RecordConfigFilesKeys(files, init, d);
      var before := RecordConfigFiles(files, init);
      if d in RecordConfigFiles(files, beans) && d !in files {
        if d in before {
          var k :| 0 <= k < |init| && RecordedConfigFile(init[k]).Some? && RecordedConfigFile(init[k]).value.0 == d;
          assert beans[k] == init[k];
        } else {
          assert RecordedConfigFile(beans[|beans| - 1]).value.0 == d;
        }
      }
    }
  }

  /** The dependencies of the v2 `<dependencies>` element: modules first, then plugins, none optional. */
  function V2Dependencies(bean: DependenciesV2Bean): seq<PluginDependency> {
    PresentNames(bean.modules, ModuleDependencyOf) + PresentNames(bean.plugins, PluginDependencyOf)
  }

  function ModuleDependencyOf(name: string): PluginDependency {
    PluginDependency(name, false, true)
  }

  function PluginDependencyOf(id: string): PluginDependency {
    PluginDependency(id, false, IsModuleId(id))
  }

  /**
   * The v2 dependencies are exactly the named modules, as modules, and the plugins with an
   * id, a module exactly when the id has the module prefix; none of them is optional.
   */
  lemma V2DependenciesExact(bean: DependenciesV2Bean, d: PluginDependency)
    ensures d in V2Dependencies(bean) <==>
      || (exists k :: 0 <= k < |bean.modules| && bean.modules[k] == Some(d.id) && d == ModuleDependencyOf(d.id))
      || (exists k :: 0 <= k < |bean.plugins| && bean.plugins[k] == Some(d.id) && d == PluginDependencyOf(d.id))
    ensures d in V2Dependencies(bean) ==> !d.isOptional
  {
    var modules := PresentNames(bean.modules, ModuleDependencyOf);
    var plugins := PresentNames(bean.plugins, PluginDependencyOf);
    PresentNamesExact(bean.modules, ModuleDependencyOf, d);
    PresentNamesExact(bean.plugins, PluginDependencyOf, d);
    if exists k :: 0 <= k < |bean.modules| && bean.modules[k] == Some(d.id) && d == ModuleDependencyOf(d.id) {
      var k :| 0 <= k < |bean.modules| && bean.modules[k] == Some(d.id) && d == ModuleDependencyOf(d.id);
      assert bean.modules[k].Some? && d == ModuleDependencyOf(bean.modules[k].value);
    }
    if exists k :: 0 <= k < |bean.plugins| && bean.plugins[k] == Some(d.id) && d == PluginDependencyOf(d.id) {
      var k :| 0 <= k < |bean.plugins| && bean.plugins[k] == Some(d.id) && d == PluginDependencyOf(d.id);
      assert bean.plugins[k].Some? && d == PluginDependencyOf(bean.plugins[k].value);
    }
  }

  /** The present names of a list, each mapped by `f`, in order. */
  function PresentNames<T>(names: seq<Option<string>>, f: string -> T): (r: seq<T>)
    ensures |r| <= |names|
    decreases |names|
  {
    if |names| == 0 then []
    else
      var last := names[|names| - 1];
      PresentNames(names[..|names| - 1], f) + (if last.Some? then [f(last.value)] else [])
  }

  /** A value is among the mapped names exactly when it is the image of a present name. */
  lemma {:induction false} PresentNamesExact<T>(names: seq<Option<string>>, f: string -> T, x: T)
    ensures x in PresentNames(names, f) <==> exists k :: 0 <= k < |names| && names[k].Some? && x == f(names[k].value)
    decreases |names|
  {
    if |names| > 0 {
      var init := names[..|names| - 1];
      var last := names[|names| - 1];
      PresentNamesExact(init, f, x);
      if exists k :: 0 <= k < |names| && names[k].Some? && x == f(names[k].value) {
        var k :| 0 <= k < |names| && names[k].Some? && x == f(names[k].value);
        if k < |names| - 1 {
          assert names[k] == init[k];
        }
      }
      if x in PresentNames(init, f) {
        var k :| 0 <= k < |init| && init[k].Some? && x == f(init[k].value);
        assert names[k] == init[k];
      }
    }
  }

  // ---------------------------------------------------------------------------------------
  // Content modules and incompatible modules

  /** `Module(name, configFile)` of `<content>`. */
  datatype ContentModule = ContentModule(name: string, configFile: string)

  /** The descriptor file of a content module: `../` + the name with `/` turned into `.` + `.xml`. */
  function ContentModuleConfigFile(name: string): (r: string)
    ensures StartsWith(r, "../") && EndsWith(r, ".xml")
    ensures r == "../" + ReplaceChar(name, '/', '.') + ".xml"
    ensures '/' !in r[3..|r| - 4]
  {
    var middle := ReplaceChar(name, '/', '.');
    var r := "../" + middle + ".xml";
    assert r[3..|r| - 4] == middle;
    assert r[|r| - 4..] == ".xml";
    r
  }

  /** The modules of all `<content>` elements, in order, each with its descriptor file. */
  function ContentModules(contents: seq<ContentBean>): seq<ContentModule> {
    PresentNames(ContentModuleNames(contents), ContentModuleOf)
  }

  /**
   * The content modules are exactly the named modules of the `<content>` elements, each with
   * its descriptor file.
   */
  lemma ContentModulesExact(contents: seq<ContentBean>, m: ContentModule)
    ensures m in ContentModules(contents) <==>
      m.configFile == ContentModuleConfigFile(m.name) && Some(m.name) in ContentModuleNames(contents)
  {
    var names := ContentModuleNames(contents);
    PresentNamesExact(names, ContentModuleOf, m);
    if m.configFile == ContentModuleConfigFile(m.name) && Some(m.name) in names {
      var k :| 0 <= k < |names| && names[k] == Some(m.name);
      assert names[k].Some? && m == ContentModuleOf(names[k].value);
    }
  }

  function ContentModuleOf(name: string): ContentModule {
    ContentModule(name, ContentModuleConfigFile(name))
  }

  /** `pluginContent.flatMap { it.modules }`: the module names of all `<content>` elements, in order. */
  function ContentModuleNames(contents: seq<ContentBean>): seq<Option<string>>
    decreases |contents|
  {
    if |contents| == 0 then [] else ContentModuleNames(contents[..|contents| - 1]) + contents[|contents| - 1].modules
  }

  /** `incompatibleModules.filter { it?.startsWith(modulePrefix) ?: false }`. */
  function IncompatibleModules(modules: seq<Option<string>>): seq<string>
    decreases |modules|
  {
    if |modules| == 0 then []
    else
      var last := modules[|modules| - 1];
      IncompatibleModules(modules[..|modules| - 1]) + (if last.Some? && IsModuleId(last.value) then [last.value] else [])
  }

  /** The incompatible modules kept are exactly the listed ids with the module prefix. */
  lemma {:induction false} IncompatibleModulesExact(modules: seq<Option<string>>, m: string)
    ensures m in IncompatibleModules(modules) <==> IsModuleId(m) && Some(m) in modules
    decreases |modules|
  {
    if |modules| > 0 {
      var init := modules[..|modules| - 1];
      IncompatibleModulesExact(init, m);
      assert modules == init + [modules[|modules| - 1]];
    }
  }

  // ---------------------------------------------------------------------------------------
  // Elements of the descriptor

  /** Kotlin's `String.toBoolean()`: `true` ignoring case; an absent attribute gives the default. */
  function BooleanAttribute(element: Element, attribute: string, default: bool): (r: bool)
    ensures element.AttributeValue(attribute).None? ==> r == default
    ensures element.AttributeValue(attribute).Some? ==> (r <==> EqualsIgnoreCase(element.AttributeValue(attribute).value, "true"))
  {
    match element.AttributeValue(attribute)
    case None => default
    case Some(value) => EqualsIgnoreCase(value, "true")
  }

  /**
   * `extractEPName`: the `point` attribute; else the parent's `defaultExtensionNs`, a dot and
   * the element name; else the namespace URI, a dot and the element name.
   */
  function ExtractEPName(element: Element, parent: Option<Element>): (r: string)
    ensures element.AttributeValue("point").Some? ==> r == element.AttributeValue("point").value
    ensures element.AttributeValue("point").None? ==> EndsWith(r, "." + element.name)
  {
    match element.AttributeValue("point")
    case Some(point) => point
    case None =>
      var ns := if parent.Some? && parent.value.AttributeValue("defaultExtensionNs").Some?
        then parent.value.AttributeValue("defaultExtensionNs").value
        else element.namespaceUri;
      var r := ns + "." + element.name;
      assert r[|r| - |"." + element.name|..] == "." + element.name;
      r
  }

  /**
   * `getExtensionPointName`: `qualifiedName`; else `<pluginId>.<name>` when both exist; else none.
   */
  function ExtensionPointName(extensionPoint: Element, pluginId: Option<string>): (r: Option<string>)
    ensures extensionPoint.AttributeValue("qualifiedName").Some? ==> r == extensionPoint.AttributeValue("qualifiedName")
    ensures extensionPoint.AttributeValue("qualifiedName").None? ==>
      (r.Some? <==> extensionPoint.AttributeValue("name").Some? && pluginId.Some?)
    ensures extensionPoint.AttributeValue("qualifiedName").None? && r.Some? ==>
      r.value == pluginId.value + "." + extensionPoint.AttributeValue("name").value
  {
    if extensionPoint.AttributeValue("qualifiedName").Some? then extensionPoint.AttributeValue("qualifiedName")
    else if extensionPoint.AttributeValue("name").Some? && pluginId.Some? then
      Some(pluginId.value + "." + extensionPoint.AttributeValue("name").value)
    else None
  }

  /** `readOs`: the five known names; anything else, or nothing, is no OS. */
  function ReadOs(element: Element): (r: Option<Os>)
    ensures r.Some? <==> element.AttributeValue("os") in {Some("mac"), Some("linux"), Some("windows"), Some("unix"), Some("freebsd")}
  {
    match element.AttributeValue("os")
    case Some("mac") => Some(Mac)
    case Some("linux") => Some(Linux)
    case Some("windows") => Some(Windows)
    case Some("unix") => Some(Unix)
    case Some("freebsd") => Some(FreeBsd)
    case _ => None
  }

  /** `readServicePreloadMode`: the four known values; anything else, or nothing, is `FALSE`. */
  function ReadServicePreloadMode(element: Element): (r: PreloadMode)
    ensures r.PreloadFalse? <==> element.AttributeValue("preload") !in {Some("true"), Some("await"), Some("notHeadless"), Some("notLightEdit")}
  {
    match element.AttributeValue("preload")
    case Some("true") => PreloadTrue
    case Some("await") => PreloadAwait
    case Some("notHeadless") => PreloadNotHeadless
    case Some("notLightEdit") => PreloadNotLightEdit
    case _ => PreloadFalse
  }

  /** `readServiceClient`: the six known values; anything else, or nothing, is no client. */
  function ReadServiceClient(element: Element): (r: Option<ClientKind>)
    ensures var known := {Some("all"), Some("local"), Some("guest"), Some("controller"), Some("owner"), Some("remote")};
      r.Some? <==> element.AttributeValue("client") in known
  {
    match element.AttributeValue("client")
    case Some("all") => Some(ClientAll)
    case Some("local") => Some(ClientLocal)
    case Some("guest") => Some(ClientGuest)
    case Some("controller") => Some(ClientController)
    case Some("owner") => Some(ClientOwner)
    case Some("remote") => Some(ClientRemote)
    case _ => None
  }

  /** The three containers of a plugin. */
  datatype Area = AppArea | ProjectArea | ModuleArea

  /** The container whose services an extension point declares, for the three service extension points. */
  function ServiceArea(epName: string): (r: Option<Area>)
    ensures r == Some(AppArea) <==> epName == "com.intellij.applicationService"
    ensures r == Some(ProjectArea) <==> epName == "com.intellij.projectService"
    ensures r == Some(ModuleArea) <==> epName == "com.intellij.moduleService"
  {
    if epName == "com.intellij.applicationService" then Some(AppArea)
    else if epName == "com.intellij.projectService" then Some(ProjectArea)
    else if epName == "com.intellij.moduleService" then Some(ModuleArea)
    else None
  }

  function ServiceTypeOf(area: Area): ServiceType {
    match area
    case AppArea => ApplicationService
    case ProjectArea => ProjectService
    case ModuleArea => ModuleService
  }

  /** `readServiceDescriptor`: the service's attributes; the OS is never read. */
  function ReadServiceDescriptor(element: Element, area: Area): (r: ServiceDescriptor)
    ensures r.serviceInterface == element.AttributeValue("serviceInterface")
    ensures r.serviceImplementation == element.AttributeValue("serviceImplementation")
    ensures r.serviceType == ServiceTypeOf(area)
    ensures r.overrides == BooleanAttribute(element, "overrides", false)
    ensures r.os.None?
  {
    ServiceDescriptor(
      element.AttributeValue("serviceInterface"),
      element.AttributeValue("serviceImplementation"),
      ServiceTypeOf(area),
      element.AttributeValue("testServiceImplementation"),
      element.AttributeValue("headlessImplementation"),
      BooleanAttribute(element, "overrides", false),
      element.AttributeValue("configurationSchemaKey"),
      ReadServicePreloadMode(element),
      ReadServiceClient(element),
      None)
  }

  function Container(plugin: IdePlugin, area: Area): ContentDescriptor {
    match area
    case AppArea => plugin.appContainerDescriptor
    case ProjectArea => plugin.projectContainerDescriptor
    case ModuleArea => plugin.moduleContainerDescriptor
  }

  function WithContainer(plugin: IdePlugin, area: Area, container: ContentDescriptor): IdePlugin {
    match area
    case AppArea => plugin.(appContainerDescriptor := container)
    case ProjectArea => plugin.(projectContainerDescriptor := container)
    case ModuleArea => plugin.(moduleContainerDescriptor := container)
  }

  /** The children of each root, root after root, each with its root. */
  function ChildEntries(roots: seq<Element>): seq<(Element, Element)>
    decreases |roots|
  {
    if |roots| == 0 then []
    else
      ChildEntries(roots[..|roots| - 1]) + ChildPairs(roots[|roots| - 1])
  }

  /** The children of one root, each with that root. */
  function ChildPairs(root: Element): (r: seq<(Element, Element)>)
    ensures |r| == |root.children|
    ensures forall k :: 0 <= k < |r| ==> r[k] == (root.children[k], root)
  {
    seq(|root.children|, k requires 0 <= k < |root.children| => (root.children[k], root))
  }

  /**
   * One step of `readExtensions`: a service element is added to its container's services;
   * any other element is appended to the list of its extension point.
   */
  function AddExtension(plugin: IdePlugin, element: Element, parent: Element): IdePlugin {
    var epName := ExtractEPName(element, Some(parent));
    match ServiceArea(epName)
    case Some(area) =>
      var container := Container(plugin, area);
      WithContainer(plugin, area, container.(services := container.services + [ReadServiceDescriptor(element, area)]))
    case None =>
      var existing := if epName in plugin.extensions then plugin.extensions[epName] else [];
      plugin.(extensions := plugin.extensions[epName := existing + [element]])
  }

  /**
   * One extension element: a service joins the services of its container and nothing else
   * changes; any other element is appended to its extension point's list, and no other
   * extension point's list changes.
   */
  lemma AddExtensionExact(plugin: IdePlugin, element: Element, parent: Element)
    ensures var r := AddExtension(plugin, element, parent);
      var epName := ExtractEPName(element, Some(parent));
      ServiceArea(epName).None? ==>
        && r == plugin.(extensions := r.extensions)
        && r.extensions.Keys == plugin.extensions.Keys + {epName}
        && r.extensions[epName] == (if epName in plugin.extensions then plugin.extensions[epName] else []) + [element]
        && forall ep :: ep in plugin.extensions && ep != epName ==> r.extensions[ep] == plugin.extensions[ep]
    ensures var r := AddExtension(plugin, element, parent);
      var epName := ExtractEPName(element, Some(parent));
      ServiceArea(epName).Some? ==>
        var area := ServiceArea(epName).value;
        && r.extensions == plugin.extensions && SameInfo(plugin, r)
        && Container(r, area).services == Container(plugin, area).services + [ReadServiceDescriptor(element, area)]
        && forall other :: other != area ==> Container(r, other) == Container(plugin, other)
  {
    var epName := ExtractEPName(element, Some(parent));
    if ServiceArea(epName).Some? {
      var area := ServiceArea(epName).value;
      var container := Container(plugin, area);
      WithContainerExact(plugin, area, container.(services := container.services + [ReadServiceDescriptor(element, area)]));
    }
  }

  /** `readExtensions` over its (element, parent) entries. */
  function WithExtensions(plugin: IdePlugin, entries: seq<(Element, Element)>): IdePlugin
    decreases |entries|
  {
    if |entries| == 0 then plugin
    else
      var last := entries[|entries| - 1];
      AddExtension(WithExtensions(plugin, entries[..|entries| - 1]), last.0, last.1)
  }

  lemma WithExtensionsAppend(plugin: IdePlugin, entries: seq<(Element, Element)>, entry: (Element, Element))
    ensures WithExtensions(plugin, entries + [entry]) == AddExtension(WithExtensions(plugin, entries), entry.0, entry.1)
  {
    assert (entries + [entry])[..|entries|] == entries;
  }

  /** Reading extensions never loses an element already registered for an extension point. */
  lemma {:induction false} WithExtensionsKeepsEarlierElements(plugin: IdePlugin, entries: seq<(Element, Element)>)
    ensures var r := WithExtensions(plugin, entries);
      && plugin.extensions.Keys <= r.extensions.Keys
      && forall ep :: ep in plugin.extensions ==> |plugin.extensions[ep]| <= |r.extensions[ep]| && r.extensions[ep][..|plugin.extensions[ep]|] == plugin.extensions[ep]
    decreases |entries|
  {
    if |entries| > 0 {
      var init := entries[..|entries| - 1];
      WithExtensionsKeepsEarlierElements(plugin, init);
      var before := WithExtensions(plugin, init);
      AddExtensionExact(before, entries[|entries| - 1].0, entries[|entries| - 1].1);
      var r := WithExtensions(plugin, entries);
      forall ep | ep in plugin.extensions
        ensures |plugin.extensions[ep]| <= |r.extensions[ep]| && r.extensions[ep][..|plugin.extensions[ep]|] == plugin.extensions[ep]
      {
        var n := |plugin.extensions[ep]|;
        assert before.extensions[ep][..n] == plugin.extensions[ep];
        assert |before.extensions[ep]| <= |r.extensions[ep]| && r.extensions[ep][..|before.extensions[ep]|] == before.extensions[ep];
        assert r.extensions[ep][..n] == before.extensions[ep][..n];
      }
    }
  }

  /** Every element that is not a service lands in the list of its extension point. */
  lemma {:induction false} WithExtensionsFilesEachElement(plugin: IdePlugin, entries: seq<(Element, Element)>, k: nat)
    requires k < |entries| && ServiceArea(ExtractEPName(entries[k].0, Some(entries[k].1))).None?
    ensures var epName := ExtractEPName(entries[k].0, Some(entries[k].1));
      epName in WithExtensions(plugin, entries).extensions && entries[k].0 in WithExtensions(plugin, entries).extensions[epName]
    decreases |entries|
  {
    var epName := ExtractEPName(entries[k].0, Some(entries[k].1));
    var init := entries[..|entries| - 1];
    var before := WithExtensions(plugin, init);
    var r := WithExtensions(plugin, entries);
    if k < |entries| - 1 {
      assert init[k] == entries[k];
      WithExtensionsFilesEachElement(plugin, init, k);
      WithExtensionsKeepsEarlierElements(before, [entries[|entries| - 1]]);
      assert WithExtensions(before, [entries[|entries| - 1]]) == r by {
        assert [entries[|entries| - 1]][..0] == [];
      }
      var n := |before.extensions[epName]|;
      assert r.extensions[epName][..n] == before.extensions[epName];
      var j :| 0 <= j < n && before.extensions[epName][j] == entries[k].0;
      assert r.extensions[epName][j] == entries[k].0;
    } else {
      AddExtensionExact(before, entries[k].0, entries[k].1);
      assert r.extensions[epName][|r.extensions[epName]| - 1] == entries[k].0;
    }
  }

  /** `readExtensionPoints` for one element: its name and container, or nothing. */
  function ExtensionPointOf(extensionPoint: Element, pluginId: Option<string>): (r: Option<(Area, ExtensionPoint)>)
    ensures ExtensionPointName(extensionPoint, pluginId).None? ==> r.None?
    ensures r.Some? ==> r.value.1.extensionPointName == ExtensionPointName(extensionPoint, pluginId).value
    ensures r.Some? ==> (r.value.0 == AppArea <==> extensionPoint.AttributeValue("area") in {None, Some("IDEA_APPLICATION")})
    ensures r.Some? ==> (r.value.1.isDynamic <==> BooleanAttribute(extensionPoint, "dynamic", false))
    ensures ExtensionPointName(extensionPoint, pluginId).Some? ==>
      (r.None? <==> extensionPoint.AttributeValue("area") !in {None, Some("IDEA_APPLICATION"), Some("IDEA_PROJECT"), Some("IDEA_MODULE")})
  {
    match ExtensionPointName(extensionPoint, pluginId)
    case None => None
    case Some(name) =>
      var area := match extensionPoint.AttributeValue("area")
        case None => Some(AppArea)
        case Some("IDEA_APPLICATION") => Some(AppArea)
        case Some("IDEA_PROJECT") => Some(ProjectArea)
        case Some("IDEA_MODULE") => Some(ModuleArea)
        case _ => None;
      if area.None? then None
      else Some((area.value, ExtensionPoint(name, BooleanAttribute(extensionPoint, "dynamic", false))))
  }

  /** `readExtensionPoints` over the children of the `<extensionPoints>` elements. */
  function WithExtensionPoints(plugin: IdePlugin, extensionPoints: seq<Element>, pluginId: Option<string>): IdePlugin
    decreases |extensionPoints|
  {
    if |extensionPoints| == 0 then plugin
    else
      AddExtensionPoint(WithExtensionPoints(plugin, extensionPoints[..|extensionPoints| - 1], pluginId),
        extensionPoints[|extensionPoints| - 1], pluginId)
  }

  /** One step of `readExtensionPoints`: a named extension point of a known area joins that container. */
  function AddExtensionPoint(plugin: IdePlugin, extensionPoint: Element, pluginId: Option<string>): IdePlugin {
    match ExtensionPointOf(extensionPoint, pluginId)
    case None => plugin
    case Some((area, ep)) =>
      var container := Container(plugin, area);
      WithContainer(plugin, area, container.(extensionPoints := container.extensionPoints + [ep]))
  }

  /** The listener type of a listeners element name (`applicationListeners` or `projectListeners`). */
  function ListenerTypeOf(listenersName: string): ListenerType {
    if listenersName == "projectListeners" then ProjectListener else ApplicationListener
  }

  /** The problems `readListeners` reports for one listener: a missing class, then a missing topic. */
  function ListenerProblemsOf(listener: Element): (r: seq<ProblemKind>)
    ensures |r| <= 2
  {
    (if listener.AttributeValue("class").None? then [ElementMissingAttribute("listener", "class")] else [])
      + (if listener.AttributeValue("topic").None? then [ElementMissingAttribute("listener", "topic")] else [])
  }

  /** A listener is reported for a missing class exactly when it has none, and likewise for the topic. */
  lemma ListenerProblemsOfExact(listener: Element)
    ensures ElementMissingAttribute("listener", "class") in ListenerProblemsOf(listener) <==> listener.AttributeValue("class").None?
    ensures ElementMissingAttribute("listener", "topic") in ListenerProblemsOf(listener) <==> listener.AttributeValue("topic").None?
  {
  }

  /** The listener `readListeners` records for one element, when it has both a class and a topic. */
  function ListenerOf(listener: Element, listenerType: ListenerType): (r: Option<ListenerDescriptor>) {
    var className := listener.AttributeValue("class");
    var topicName := listener.AttributeValue("topic");
    if className.Some? && topicName.Some? then
      Some(ListenerDescriptor(topicName.value, className.value, listenerType,
        BooleanAttribute(listener, "activeInTestMode", true),
        BooleanAttribute(listener, "activeInHeadlessMode", true),
        ReadOs(listener)))
    else
      None
  }

  /**
   * A listener is recorded exactly when it registers no problem, with its class, its topic,
   * its type and its two modes.
   */
  lemma ListenerOfExact(listener: Element, listenerType: ListenerType)
    ensures var r := ListenerOf(listener, listenerType);
      && (r.Some? <==> ListenerProblemsOf(listener) == [])
      && (r.Some? ==> r.value.className == listener.AttributeValue("class").value)
      && (r.Some? ==> r.value.topicName == listener.AttributeValue("topic").value)
      && (r.Some? ==> r.value.listenerType == listenerType)
      && (r.Some? ==> r.value.activeInTestMode == BooleanAttribute(listener, "activeInTestMode", true))
      && (r.Some? ==> r.value.activeInHeadlessMode == BooleanAttribute(listener, "activeInHeadlessMode", true))
  {
    ListenerProblemsOfExact(listener);
  }

  /** `readComponents` for one `<component>`: recorded only with an `<implementation-class>`. */
  function ComponentOf(component: Element): (r: Option<ComponentConfig>)
    ensures r.Some? <==> component.Child("implementation-class").Some?
    ensures r.Some? ==> r.value.implementationClass == component.Child("implementation-class").value.text
    ensures r.Some? ==> r.value.interfaceClass == (if component.Child("interface-class").Some? then Some(component.Child("interface-class").value.text) else None)
  {
    var interfaceClass := if component.Child("interface-class").Some? then Some(component.Child("interface-class").value.text) else None;
    match component.Child("implementation-class")
    case None => None
    case Some(implementation) => Some(ComponentConfig(interfaceClass, implementation.text))
  }

  /** The children of each root, root after root. */
  function ChildrenOf(roots: seq<Element>): seq<Element>
    decreases |roots|
  {
    if |roots| == 0 then [] else ChildrenOf(roots[..|roots| - 1]) + roots[|roots| - 1].children
  }

  /** An element is among the children of the roots exactly when it is a child of one of them. */
  lemma {:induction false} ChildrenOfExact(roots: seq<Element>, e: Element)
    ensures e in ChildrenOf(roots) <==> exists root :: root in roots && e in root.children
    decreases |roots|
  {
    if |roots| > 0 {
      var init := roots[..|roots| - 1];
      ChildrenOfExact(init, e);
      assert roots == init + [roots[|roots| - 1]];
    }
  }

  /** The children with a given name of each root, root after root. */
  function ChildrenNamedOf(roots: seq<Element>, childName: string): seq<Element>
    decreases |roots|
  {
    if |roots| == 0 then []
    else ChildrenNamedOf(roots[..|roots| - 1], childName) + roots[|roots| - 1].ChildrenNamed(childName)
  }

  /** The listeners `readListeners` records, in order. */
  function ListenersFrom(listeners: seq<Element>, listenerType: ListenerType): (r: seq<ListenerDescriptor>)
    ensures |r| <= |listeners|
    decreases |listeners|
  {
    if |listeners| == 0 then []
    else
      ListenersFrom(listeners[..|listeners| - 1], listenerType) + ListenerOf(listeners[|listeners| - 1], listenerType).ToSeq()
  }

  /** The problems `readListeners` registers, in order. */
  function ListenerProblemsFrom(listeners: seq<Element>): seq<ProblemKind>
    decreases |listeners|
  {
    if |listeners| == 0 then []
    else ListenerProblemsFrom(listeners[..|listeners| - 1]) + ListenerProblemsOf(listeners[|listeners| - 1])
  }

  /**
   * Every listener element is accounted for: the listeners register no problem exactly when
   * each of them is recorded.
   */
  lemma {:induction false} ListenersRecordedIffNoProblems(listeners: seq<Element>, listenerType: ListenerType)
    ensures ListenerProblemsFrom(listeners) == [] <==> |ListenersFrom(listeners, listenerType)| == |listeners|
    decreases |listeners|
  {
    if |listeners| > 0 {
      var init := listeners[..|listeners| - 1];
      var last := listeners[|listeners| - 1];
      ListenersRecordedIffNoProblems(init, listenerType);
      ListenerOfExact(last, listenerType);
      assert ListenerProblemsFrom(listeners) == ListenerProblemsFrom(init) + ListenerProblemsOf(last);
      assert |ListenersFrom(init, listenerType)| <= |init|;
    }
  }

  /** Every listener recorded from a listeners element has that element's listener type. */
  lemma {:induction false} ListenersHaveType(listeners: seq<Element>, listenerType: ListenerType, l: ListenerDescriptor)
    requires l in ListenersFrom(listeners, listenerType)
    ensures l.listenerType == listenerType
    decreases |listeners|
  {
    var init := listeners[..|listeners| - 1];
    ListenerOfExact(listeners[|listeners| - 1], listenerType);
    if l in ListenersFrom(init, listenerType) {
      ListenersHaveType(init, listenerType, l);
    }
  }

  /** The components `readComponents` records, in order. */
  function ComponentsFrom(components: seq<Element>): (r: seq<ComponentConfig>)
    ensures |r| <= |components|
    decreases |components|
  {
    if |components| == 0 then []
    else
      ComponentsFrom(components[..|components| - 1]) + ComponentOf(components[|components| - 1]).ToSeq()
  }

  /** The recorded components are exactly those of the elements with an implementation class. */
  lemma {:induction false} ComponentsFromExact(components: seq<Element>, c: ComponentConfig)
    ensures c in ComponentsFrom(components) <==> exists k :: 0 <= k < |components| && ComponentOf(components[k]) == Some(c)
    decreases |components|
  {
    if |components| > 0 {
      var init := components[..|components| - 1];
      var last := components[|components| - 1];
      ComponentsFromExact(init, c);
      assert ComponentsFrom(components) == ComponentsFrom(init) + ComponentOf(last).ToSeq();
      if exists k :: 0 <= k < |components| && ComponentOf(components[k]) == Some(c) {
        var k :| 0 <= k < |components| && ComponentOf(components[k]) == Some(c);
        if k < |init| {
          assert components[k] == init[k];
        }
      }
      if c in ComponentsFrom(init) {
        var k :| 0 <= k < |init| && ComponentOf(init[k]) == Some(c);
        assert components[k] == init[k];
      }
    }
  }

  /** Recording the components of two lists is recording those of the first, then those of the second. */
  lemma {:induction false} ComponentsFromAppend(a: seq<Element>, b: seq<Element>)
    ensures ComponentsFrom(a + b) == ComponentsFrom(a) + ComponentsFrom(b)
    decreases |b|
  {
    if |b| > 0 {
      var init := b[..|b| - 1];
      var last := b[|b| - 1];
      var recorded := ComponentOf(last).ToSeq();
      assert a + b == (a + init) + [last];
      assert b == init + [last];
      calc {
        ComponentsFrom(a + b);
        { ComponentsSnoc(a + init, last); }
        ComponentsFrom(a + init) + recorded;
        { ComponentsFromAppend(a, init); }
        (ComponentsFrom(a) + ComponentsFrom(init)) + recorded;
        { AppendAssociative(ComponentsFrom(a), ComponentsFrom(init), recorded); }
        ComponentsFrom(a) + (ComponentsFrom(init) + recorded);
        { ComponentsSnoc(init, last); }
        ComponentsFrom(a) + ComponentsFrom(b);
      }
    } else {
      assert a + b == a;
    }
  }

  /** Reading two lists of listeners records those of the first, then those of the second. */
  lemma {:induction false} ListenersFromAppend(a: seq<Element>, b: seq<Element>, listenerType: ListenerType)
    ensures ListenersFrom(a + b, listenerType) == ListenersFrom(a, listenerType) + ListenersFrom(b, listenerType)
    decreases |b|
  {
    if |b| > 0 {
      var init := b[..|b| - 1];
      var last := b[|b| - 1];
      var recorded := ListenerOf(last, listenerType).ToSeq();
      assert a + b == (a + init) + [last];
      assert b == init + [last];
      calc {
        ListenersFrom(a + b, listenerType);
        { ListenersSnoc(a + init, listenerType, last); }
        ListenersFrom(a + init, listenerType) + recorded;
        { ListenersFromAppend(a, init, listenerType); }
        (ListenersFrom(a, listenerType) + ListenersFrom(init, listenerType)) + recorded;
        { AppendAssociative(ListenersFrom(a, listenerType), ListenersFrom(init, listenerType), recorded); }
        ListenersFrom(a, listenerType) + (ListenersFrom(init, listenerType) + recorded);
        { ListenersSnoc(init, listenerType, last); }
        ListenersFrom(a, listenerType) + ListenersFrom(b, listenerType);
      }
    } else {
      assert a + b == a;
    }
  }

  /** Reading two lists of listeners reports the problems of the first, then those of the second. */
  lemma {:induction false} ListenerProblemsFromAppend(a: seq<Element>, b: seq<Element>)
    ensures ListenerProblemsFrom(a + b) == ListenerProblemsFrom(a) + ListenerProblemsFrom(b)
    decreases |b|
  {
    if |b| > 0 {
      var init := b[..|b| - 1];
      var last := b[|b| - 1];
      var reported := ListenerProblemsOf(last);
      assert a + b == (a + init) + [last];
      assert b == init + [last];
      calc {
        ListenerProblemsFrom(a + b);
        { ListenersSnoc(a + init, ApplicationListener, last); }
        ListenerProblemsFrom(a + init) + reported;
        { ListenerProblemsFromAppend(a, init); }
        (ListenerProblemsFrom(a) + ListenerProblemsFrom(init)) + reported;
        { AppendAssociative(ListenerProblemsFrom(a), ListenerProblemsFrom(init), reported); }
        ListenerProblemsFrom(a) + (ListenerProblemsFrom(init) + reported);
        { ListenersSnoc(init, ApplicationListener, last); }
        ListenerProblemsFrom(a) + ListenerProblemsFrom(b);
      }
    } else {
      assert a + b == a;
    }
  }

  /** Reading two lists of extensions is reading the first, then the second. */
  lemma {:induction false} WithExtensionsConcat(plugin: IdePlugin, a: seq<(Element, Element)>, b: seq<(Element, Element)>)
    ensures WithExtensions(plugin, a + b) == WithExtensions(WithExtensions(plugin, a), b)
    decreases |b|
  {
    if |b| > 0 {
      var init := b[..|b| - 1];
      var last := b[|b| - 1];
      assert a + b == (a + init) + [last];
      assert b == init + [last];
      calc {
        WithExtensions(plugin, a + b);
        { WithExtensionsAppend(plugin, a + init, last); }
        AddExtension(WithExtensions(plugin, a + init), last.0, last.1);
        { WithExtensionsConcat(plugin, a, init); }
        AddExtension(WithExtensions(WithExtensions(plugin, a), init), last.0, last.1);
        { WithExtensionsAppend(WithExtensions(plugin, a), init, last); }
        WithExtensions(WithExtensions(plugin, a), b);
      }
    } else {
      assert a + b == a;
    }
  }

  /** Reading two lists of extension points is reading the first, then the second. */
  lemma {:induction false} WithExtensionPointsConcat(plugin: IdePlugin, a: seq<Element>, b: seq<Element>, pluginId: Option<string>)
    ensures WithExtensionPoints(plugin, a + b, pluginId) == WithExtensionPoints(WithExtensionPoints(plugin, a, pluginId), b, pluginId)
    decreases |b|
  {
    if |b| > 0 {
      var init := b[..|b| - 1];
      var last := b[|b| - 1];
      assert a + b == (a + init) + [last];
      assert b == init + [last];
      calc {
        WithExtensionPoints(plugin, a + b, pluginId);
        { WithExtensionPointsSnoc(plugin, a + init, last, pluginId); }
        AddExtensionPoint(WithExtensionPoints(plugin, a + init, pluginId), last, pluginId);
        { WithExtensionPointsConcat(plugin, a, init, pluginId); }
        AddExtensionPoint(WithExtensionPoints(WithExtensionPoints(plugin, a, pluginId), init, pluginId), last, pluginId);
        { WithExtensionPointsSnoc(WithExtensionPoints(plugin, a, pluginId), init, last, pluginId); }
        WithExtensionPoints(WithExtensionPoints(plugin, a, pluginId), b, pluginId);
      }
    } else {
      assert a + b == a;
    }
  }

  // One more element for each reader: the readers' loops advance by these steps.

  lemma ChildrenOfSnoc(roots: seq<Element>, i: nat)
    requires i < |roots|
    ensures ChildrenOf(roots[..i + 1]) == ChildrenOf(roots[..i]) + roots[i].children
  {
    assert roots[..i + 1][..i] == roots[..i];
  }

  lemma ChildrenNamedOfSnoc(roots: seq<Element>, childName: string, i: nat)
    requires i < |roots|
    ensures ChildrenNamedOf(roots[..i + 1], childName) == ChildrenNamedOf(roots[..i], childName) + roots[i].ChildrenNamed(childName)
  {
    assert roots[..i + 1][..i] == roots[..i];
  }

  lemma ChildEntriesSnoc(roots: seq<Element>, i: nat)
    requires i < |roots|
    ensures ChildEntries(roots[..i + 1]) == ChildEntries(roots[..i]) + ChildPairs(roots[i])
  {
    assert roots[..i + 1][..i] == roots[..i];
  }

  lemma ListenersSnoc(listeners: seq<Element>, listenerType: ListenerType, listener: Element)
    ensures ListenersFrom(listeners + [listener], listenerType) == ListenersFrom(listeners, listenerType) + ListenerOf(listener, listenerType).ToSeq()
    ensures ListenerProblemsFrom(listeners + [listener]) == ListenerProblemsFrom(listeners) + ListenerProblemsOf(listener)
  {
    assert (listeners + [listener])[..|listeners|] == listeners;
  }

  /** The loop step of `readListeners`: one more listener of the list. */
  lemma ListenersStep(listeners: seq<Element>, listenerType: ListenerType, j: nat)
    requires j < |listeners|
    ensures ListenersFrom(listeners[..j + 1], listenerType) == ListenersFrom(listeners[..j], listenerType) + ListenerOf(listeners[j], listenerType).ToSeq()
    ensures ListenerProblemsFrom(listeners[..j + 1]) == ListenerProblemsFrom(listeners[..j]) + ListenerProblemsOf(listeners[j])
  {
    assert listeners[..j + 1][..j] == listeners[..j];
  }

  /** The loop step of `readComponents`: one more component element. */
  lemma ComponentsStep(components: seq<Element>, j: nat)
    requires j < |components|
    ensures ComponentsFrom(components[..j + 1]) == ComponentsFrom(components[..j]) + ComponentOf(components[j]).ToSeq()
  {
    assert components[..j + 1][..j] == components[..j];
  }

  lemma ComponentsSnoc(components: seq<Element>, component: Element)
    ensures ComponentsFrom(components + [component]) == ComponentsFrom(components) + ComponentOf(component).ToSeq()
  {
    assert (components + [component])[..|components|] == components;
  }

  lemma WithExtensionPointsSnoc(plugin: IdePlugin, extensionPoints: seq<Element>, extensionPoint: Element, pluginId: Option<string>)
    ensures WithExtensionPoints(plugin, extensionPoints + [extensionPoint], pluginId)
      == AddExtensionPoint(WithExtensionPoints(plugin, extensionPoints, pluginId), extensionPoint, pluginId)
  {
    assert (extensionPoints + [extensionPoint])[..|extensionPoints|] == extensionPoints;
  }

  function AddListeners(plugin: IdePlugin, area: Area, listeners: seq<ListenerDescriptor>): IdePlugin {
    var container := Container(plugin, area);
    WithContainer(plugin, area, container.(listeners := container.listeners + listeners))
  }

  function AddComponents(plugin: IdePlugin, area: Area, components: seq<ComponentConfig>): IdePlugin {
    var container := Container(plugin, area);
    WithContainer(plugin, area, container.(components := container.components + components))
  }

  /** The elements of the descriptor's `<listeners>` roots of one kind. */
  function ListenerElements(root: Element, listenersName: string): seq<Element> {
    ChildrenOf(root.ChildrenNamed(listenersName))
  }

  /** The `<component>` elements of the descriptor's roots of one components area. */
  function ComponentElements(root: Element, componentsArea: string): seq<Element> {
    ChildrenNamedOf(root.ChildrenNamed(componentsArea), "component")
  }

  /** The module aliases a bean declares with `<module value=...>`. */
  function DefinedModules(bean: PluginBean): (r: set<string>)
    ensures forall m :: m in r <==> m in bean.modules
  {
    set m | m in bean.modules
  }

  /**
   * Lines 208-300 of `setInfoFromBean`: the plugin's own fields from the bean. The
   * dependencies of `<depends>` come first, then the v2 module and plugin dependencies.
   */
  function InfoFromBean(plugin: IdePlugin, bean: PluginBean, parseVersion: string -> Option<IdeVersions.IdeVersion>): IdePlugin {
    var head := BeanFields(plugin, bean, parseVersion);
    var withDependencies := head.(dependencies := head.dependencies
      + (if bean.dependencies.Some? then DeclaredDependencies(bean.dependencies.value) else [])
      + (if bean.dependenciesV2.Some? then V2Dependencies(bean.dependenciesV2.value) else []));
    BeanTailFields(withDependencies, bean)
  }

  /** Lines 208-229 of `setInfoFromBean`: names, version, build range, class loader and format flags. */
  function BeanFields(plugin: IdePlugin, bean: PluginBean, parseVersion: string -> Option<IdeVersions.IdeVersion>): IdePlugin {
    var pluginName := if bean.name.Some? then Some(Trim(bean.name.value)) else None;
    var ideaVersion := bean.ideaVersion;
    plugin.(
      pluginName := pluginName,
      pluginId := if bean.id.Some? then Some(Trim(bean.id.value)) else pluginName,
      url := if bean.url.Some? then Some(Trim(bean.url.value)) else None,
      pluginVersion := if bean.pluginVersion.Some? then Some(Trim(bean.pluginVersion.value)) else None,
      definedModules := plugin.definedModules + DefinedModules(bean),
      useIdeClassLoader := bean.useIdeaClassLoader == Some(true),
      isImplementationDetail := bean.implementationDetail == Some(true),
      sinceBuild := if ideaVersion.None? then plugin.sinceBuild
        else if ideaVersion.value.sinceBuild.Some? then parseVersion(ideaVersion.value.sinceBuild.value) else None,
      untilBuild := if ideaVersion.None? then plugin.untilBuild
        else UntilBuildOf(plugin.untilBuild, parseVersion, ideaVersion.value.untilBuild),
      isV2 := bean.packageName.Some?)
  }

  /** Lines 279-300 of `setInfoFromBean`: incompatible modules, vendor, product descriptor and texts. */
  function BeanTailFields(plugin: IdePlugin, bean: PluginBean): IdePlugin {
    plugin.(
      incompatibleModules := plugin.incompatibleModules
        + (if bean.incompatibleModules.Some? then IncompatibleModules(bean.incompatibleModules.value) else []),
      vendor := if bean.vendor.None? then plugin.vendor
        else if bean.vendor.value.name.Some? then Some(TrimControl(bean.vendor.value.name.value)) else None,
      vendorUrl := if bean.vendor.None? then plugin.vendorUrl else bean.vendor.value.url,
      vendorEmail := if bean.vendor.None? then plugin.vendorEmail else bean.vendor.value.email,
      productDescriptor := if bean.productDescriptor.None? then plugin.productDescriptor
        else
          var d := bean.productDescriptor.value;
          Some(ProductDescriptor(d.code, d.releaseDate, d.releaseVersion, d.eap == Some("true"), d.optional == Some("true"))),
      changeNotes := bean.changeNotes,
      description := bean.description)
  }

  /** The creator's `pluginId`: the plugin's own, else its parent's. */
  function IdOrParent(plugin: IdePlugin, parentPluginId: Option<string>): (r: Option<string>)
    ensures plugin.pluginId.Some? ==> r == plugin.pluginId
    ensures plugin.pluginId.None? ==> r == parentPluginId
  {
    if plugin.pluginId.Some? then plugin.pluginId else parentPluginId
  }

  /**
   * `setInfoFromBean` as a whole: the bean's fields, then the actions, extensions, extension
   * points, listeners and components of the descriptor's root element, in that order.
   */
  function PluginFromBean(
    plugin: IdePlugin, bean: PluginBean, root: Element, parentPluginId: Option<string>,
    parseVersion: string -> Option<IdeVersions.IdeVersion>): IdePlugin
  {
    WithElements(InfoFromBean(plugin, bean, parseVersion), root, parentPluginId)
  }

  /** The element readers of `setInfoFromBean`, in their order. */
  function WithElements(info: IdePlugin, root: Element, parentPluginId: Option<string>): IdePlugin {
    var withActions := info.(actions := info.actions + ChildrenOf(root.ChildrenNamed("actions")));
    var withExtensions := WithExtensions(withActions, ChildEntries(root.ChildrenNamed("extensions")));
    var withPoints := WithExtensionPoints(withExtensions, ChildrenOf(root.ChildrenNamed("extensionPoints")), IdOrParent(withExtensions, parentPluginId));
    var withAppListeners := AddListeners(withPoints, AppArea, ListenersFrom(ListenerElements(root, "applicationListeners"), ApplicationListener));
    var withListeners := AddListeners(withAppListeners, ProjectArea, ListenersFrom(ListenerElements(root, "projectListeners"), ProjectListener));
    var withAppComponents := AddComponents(withListeners, AppArea, ComponentsFrom(ComponentElements(root, "application-components")));
    var withProjectComponents := AddComponents(withAppComponents, ProjectArea, ComponentsFrom(ComponentElements(root, "project-components")));
    AddComponents(withProjectComponents, ModuleArea, ComponentsFrom(ComponentElements(root, "module-components")))
  }

  /** The problems `setInfoFromBean` registers: those of the application, then the project listeners. */
  function ListenerProblemsOfRoot(root: Element): seq<ProblemKind> {
    ListenerProblemsFrom(ListenerElements(root, "applicationListeners"))
      + ListenerProblemsFrom(ListenerElements(root, "projectListeners"))
  }

  /** `b` differs from `a` at most in what the element readers fill in. */
  predicate SameInfo(a: IdePlugin, b: IdePlugin) {
    && a.pluginId == b.pluginId && a.pluginName == b.pluginName && a.pluginVersion == b.pluginVersion
    && a.sinceBuild == b.sinceBuild && a.untilBuild == b.untilBuild && a.productDescriptor == b.productDescriptor
    && a.vendor == b.vendor && a.vendorEmail == b.vendorEmail && a.vendorUrl == b.vendorUrl
    && a.description == b.description && a.changeNotes == b.changeNotes && a.url == b.url
    && a.useIdeClassLoader == b.useIdeClassLoader && a.isImplementationDetail == b.isImplementationDetail
    && a.isV2 == b.isV2 && a.definedModules == b.definedModules && a.dependencies == b.dependencies
    && a.incompatibleModules == b.incompatibleModules && a.icons == b.icons
    && a.optionalDescriptors == b.optionalDescriptors && a.modulesDescriptors == b.modulesDescriptors
  }

  /** Replacing one container changes that container and nothing else. */
  lemma WithContainerExact(plugin: IdePlugin, area: Area, container: ContentDescriptor)
    ensures var r := WithContainer(plugin, area, container);
      && Container(r, area) == container
      && (forall other :: other != area ==> Container(r, other) == Container(plugin, other))
      && SameInfo(plugin, r) && r.extensions == plugin.extensions && r.actions == plugin.actions
  {
  }

  /**
   * One extension point: one with a name and a known area joins that container's extension
   * points and nothing else changes; any other is ignored.
   */
  lemma AddExtensionPointExact(plugin: IdePlugin, extensionPoint: Element, pluginId: Option<string>)
    ensures var r := AddExtensionPoint(plugin, extensionPoint, pluginId);
      && (ExtensionPointOf(extensionPoint, pluginId).None? ==> r == plugin)
      && (ExtensionPointOf(extensionPoint, pluginId).Some? ==>
        var (area, ep) := ExtensionPointOf(extensionPoint, pluginId).value;
        && Container(r, area).extensionPoints == Container(plugin, area).extensionPoints + [ep]
        && (forall other :: other != area ==> Container(r, other) == Container(plugin, other))
        && SameInfo(plugin, r) && r.extensions == plugin.extensions && r.actions == plugin.actions)
  {
    match ExtensionPointOf(extensionPoint, pluginId)
    case None =>
    case Some((area, ep)) =>
      var container := Container(plugin, area);
      WithContainerExact(plugin, area, container.(extensionPoints := container.extensionPoints + [ep]));
  }

  lemma {:induction false} WithExtensionsSameInfo(plugin: IdePlugin, entries: seq<(Element, Element)>)
    ensures SameInfo(plugin, WithExtensions(plugin, entries))
    decreases |entries|
  {
    if |entries| > 0 {
      var before := WithExtensions(plugin, entries[..|entries| - 1]);
      var last := entries[|entries| - 1];
      WithExtensionsSameInfo(plugin, entries[..|entries| - 1]);
      var area := ServiceArea(ExtractEPName(last.0, Some(last.1)));
      if area.Some? {
        var container := Container(before, area.value);
        WithContainerExact(before, area.value, container.(services := container.services + [ReadServiceDescriptor(last.0, area.value)]));
      }
    }
  }

  lemma {:induction false} WithExtensionPointsSameInfo(plugin: IdePlugin, extensionPoints: seq<Element>, pluginId: Option<string>)
    ensures SameInfo(plugin, WithExtensionPoints(plugin, extensionPoints, pluginId))
    decreases |extensionPoints|
  {
    if |extensionPoints| > 0 {
      WithExtensionPointsSameInfo(plugin, extensionPoints[..|extensionPoints| - 1], pluginId);
      AddExtensionPointExact(WithExtensionPoints(plugin, extensionPoints[..|extensionPoints| - 1], pluginId),
        extensionPoints[|extensionPoints| - 1], pluginId);
    }
  }

  /** The element readers leave the fields taken from the bean as `InfoFromBean` set them. */
  lemma ReadersKeepBeanInfo(info: IdePlugin, root: Element, parentPluginId: Option<string>)
    ensures SameInfo(info, WithElements(info, root, parentPluginId))
  {
    var withActions := info.(actions := info.actions + ChildrenOf(root.ChildrenNamed("actions")));
    var withExtensions := WithExtensions(withActions, ChildEntries(root.ChildrenNamed("extensions")));
    WithExtensionsSameInfo(withActions, ChildEntries(root.ChildrenNamed("extensions")));
    WithExtensionPointsSameInfo(withExtensions, ChildrenOf(root.ChildrenNamed("extensionPoints")), IdOrParent(withExtensions, parentPluginId));
  }

  /**
   * What `setInfoFromBean` promises about identity and dependencies: the id is the trimmed
   * id, else the trimmed name; every `<depends>` with an id and every v2 dependency is
   * declared after the existing ones; the plugin is v2 exactly when it has a package.
   */
  lemma PluginFromBeanIdentity(
    plugin: IdePlugin, bean: PluginBean, root: Element, parentPluginId: Option<string>,
    parseVersion: string -> Option<IdeVersions.IdeVersion>)
    ensures var r := PluginFromBean(plugin, bean, root, parentPluginId, parseVersion);
      && (r.pluginId.None? <==> bean.id.None? && bean.name.None?)
      && (bean.id.Some? ==> r.pluginId == Some(Trim(bean.id.value)))
      && (bean.id.None? && bean.name.Some? ==> r.pluginId == Some(Trim(bean.name.value)))
      && (r.isV2 <==> bean.packageName.Some?)
      && |plugin.dependencies| <= |r.dependencies| && r.dependencies[..|plugin.dependencies|] == plugin.dependencies
      && (bean.dependencies.Some? ==> forall k :: 0 <= k < |bean.dependencies.value| && bean.dependencies.value[k].dependencyId.Some? ==>
            DeclaredDependency(bean.dependencies.value[k]).value in r.dependencies)
      && (bean.dependenciesV2.Some? ==> forall d :: d in V2Dependencies(bean.dependenciesV2.value) ==> d in r.dependencies)
  {
    ReadersKeepBeanInfo(InfoFromBean(plugin, bean, parseVersion), root, parentPluginId);
    var r := PluginFromBean(plugin, bean, root, parentPluginId, parseVersion);
    var declared := if bean.dependencies.Some? then DeclaredDependencies(bean.dependencies.value) else [];
    var v2 := if bean.dependenciesV2.Some? then V2Dependencies(bean.dependenciesV2.value) else [];
    assert r.dependencies == plugin.dependencies + declared + v2;
    assert r.dependencies[..|plugin.dependencies|] == plugin.dependencies;
    if bean.dependencies.Some? {
      forall k | 0 <= k < |bean.dependencies.value| && bean.dependencies.value[k].dependencyId.Some?
        ensures DeclaredDependency(bean.dependencies.value[k]).value in r.dependencies
      {
        DeclaredDependenciesComplete(bean.dependencies.value, k);
      }
    }
  }

  /** Every `<depends>` with an id gives a declared dependency. */
  lemma {:induction false} DeclaredDependenciesComplete(beans: seq<PluginDependencyBean>, k: nat)
    requires k < |beans| && beans[k].dependencyId.Some?
    ensures DeclaredDependency(beans[k]).value in DeclaredDependencies(beans)
    decreases |beans|
  {
    if k < |beans| - 1 {
      var init := beans[..|beans| - 1];
      assert init[k] == beans[k];
      DeclaredDependenciesComplete(init, k);
    }
  }

  // ---------------------------------------------------------------------------------------
  // Module descriptors

  /**
   * `addModuleDescriptor`'s dependency merge: each dependency of the module whose id the
   * plugin does not declare yet is appended, optional, with the module flag it had.
   */
  function AddModuleDependencies(dependencies: seq<PluginDependency>, moduleDependencies: seq<PluginDependency>)
    : seq<PluginDependency>
    decreases |moduleDependencies|
  {
    if |moduleDependencies| == 0 then dependencies
    else
      var before := AddModuleDependencies(dependencies, moduleDependencies[..|moduleDependencies| - 1]);
      var last := moduleDependencies[|moduleDependencies| - 1];
      if last.id in DependencyIdSet(before) then before
      else before + [PluginDependency(last.id, true, last.isModule)]
  }

  /** The merge keeps the plugin's own dependencies in front and appends only optional ones. */
  lemma {:induction false} AddModuleDependenciesExtends(dependencies: seq<PluginDependency>, moduleDependencies: seq<PluginDependency>)
    ensures var r := AddModuleDependencies(dependencies, moduleDependencies);
      && |dependencies| <= |r| && r[..|dependencies|] == dependencies
      && forall k :: |dependencies| <= k < |r| ==> r[k].isOptional
    decreases |moduleDependencies|
  {
    if |moduleDependencies| > 0 {
      var init := moduleDependencies[..|moduleDependencies| - 1];
      AddModuleDependenciesExtends(dependencies, init);
      var before := AddModuleDependencies(dependencies, init);
      var r := AddModuleDependencies(dependencies, moduleDependencies);
      assert r[..|dependencies|] == before[..|dependencies|];
    }
  }

  function DependencyIdSet(dependencies: seq<PluginDependency>): (r: set<string>)
    ensures forall id :: id in r <==> exists k :: 0 <= k < |dependencies| && dependencies[k].id == id
  {
    set k | 0 <= k < |dependencies| :: dependencies[k].id
  }

  /** No two dependencies share an id. */
  predicate DistinctIds(dependencies: seq<PluginDependency>) {
    forall a, b :: 0 <= a < b < |dependencies| ==> dependencies[a].id != dependencies[b].id
  }

  lemma IdSetOfAppend(dependencies: seq<PluginDependency>, d: PluginDependency)
    ensures DependencyIdSet(dependencies + [d]) == DependencyIdSet(dependencies) + {d.id}
  {
    var r := dependencies + [d];
    assert r[|dependencies|] == d;
    forall id | id in DependencyIdSet(r)
      ensures id in DependencyIdSet(dependencies) + {d.id}
    {
      var k :| 0 <= k < |r| && r[k].id == id;
      if k < |dependencies| {
        assert r[k] == dependencies[k];
      }
    }
    forall id | id in DependencyIdSet(dependencies)
      ensures id in DependencyIdSet(r)
    {
      var k :| 0 <= k < |dependencies| && dependencies[k].id == id;
      assert r[k] == dependencies[k];
    }
  }

  /** After the merge the plugin declares exactly the ids it declared and the module's ids. */
  lemma {:induction false} AddModuleDependenciesIds(dependencies: seq<PluginDependency>, moduleDependencies: seq<PluginDependency>)
    ensures var r := AddModuleDependencies(dependencies, moduleDependencies);
      DependencyIdSet(r) == DependencyIdSet(dependencies) + DependencyIdSet(moduleDependencies)
    decreases |moduleDependencies|
  {
    if |moduleDependencies| > 0 {
      var init := moduleDependencies[..|moduleDependencies| - 1];
      var last := moduleDependencies[|moduleDependencies| - 1];
      AddModuleDependenciesIds(dependencies, init);
      assert moduleDependencies == init + [last];
      IdSetOfAppend(init, last);
      var before := AddModuleDependencies(dependencies, init);
      if last.id !in DependencyIdSet(before) {
        IdSetOfAppend(before, PluginDependency(last.id, true, last.isModule));
      }
    }
  }

  /** A plugin whose dependency ids are distinct still has distinct ids after the merge. */
  lemma {:induction false} AddModuleDependenciesKeepsIdsDistinct(dependencies: seq<PluginDependency>, moduleDependencies: seq<PluginDependency>)
    requires DistinctIds(dependencies)
    ensures DistinctIds(AddModuleDependencies(dependencies, moduleDependencies))
    decreases |moduleDependencies|
  {
    if |moduleDependencies| > 0 {
      var init := moduleDependencies[..|moduleDependencies| - 1];
      var last := moduleDependencies[|moduleDependencies| - 1];
      AddModuleDependenciesKeepsIdsDistinct(dependencies, init);
      var before := AddModuleDependencies(dependencies, init);
      if last.id !in DependencyIdSet(before) {
        var r := before + [PluginDependency(last.id, true, last.isModule)];
        forall a, b | 0 <= a < b < |r|
          ensures r[a].id != r[b].id
        {
          if b == |before| {
            assert r[a] == before[a];
          } else {
            assert r[a] == before[a] && r[b] == before[b];
          }
        }
      }
    }
  }

  // ---------------------------------------------------------------------------------------
  // Themes

  const ThemeExtension := "com.intellij.themeProvider"

  /** How resolving one theme file turned out. */
  datatype ThemeOutcome =
    | ThemeRead
    | ThemeUnparsable(parseMessage: string)
    | ThemeNotFound
    | ThemeResolutionFailed(failureMessage: string)

  /** The `path` attributes of the theme provider extensions, in order. */
  function ThemePaths(plugin: IdePlugin): seq<string> {
    if ThemeExtension in plugin.extensions then PathAttributes(plugin.extensions[ThemeExtension]) else []
  }

  function PathAttributes(elements: seq<Element>): (r: seq<string>)
    ensures |r| <= |elements|
    decreases |elements|
  {
    if |elements| == 0 then []
    else
      var path := elements[|elements| - 1].AttributeValue("path");
      PathAttributes(elements[..|elements| - 1]) + (if path.Some? then [path.value] else [])
  }

  /** Theme paths are resolved from the plugin root: a leading `/` is added when missing. */
  function AbsoluteThemePath(themePath: string): (r: string)
    ensures StartsWith(r, "/")
    ensures StartsWith(themePath, "/") ==> r == themePath
    ensures !StartsWith(themePath, "/") ==> r[1..] == themePath
  {
    if StartsWith(themePath, "/") then themePath else "/" + themePath
  }

  /**
   * `readPluginThemes`: the problems of each theme in order, and whether reading went on to
   * the end; a theme that is found but cannot be parsed ends the reading.
   */
  function ThemeProblems(descriptorPath: string, themePaths: seq<string>, resolve: string -> ThemeOutcome)
    : (r: (seq<ProblemKind>, bool))
    ensures |r.0| <= |themePaths|
  {
    if |themePaths| == 0 then ([], true)
    else
      var themePath := themePaths[0];
      var outcome := resolve(AbsoluteThemePath(themePath));
      var problem := ThemeProblem(descriptorPath, themePath, outcome);
      if outcome.ThemeUnparsable? then (problem, false)
      else
        var rest := ThemeProblems(descriptorPath, themePaths[1..], resolve);
        (problem + rest.0, rest.1)
  }

  /** The problem one theme reports: none when it is read, otherwise the reason it could not be. */
  function ThemeProblem(descriptorPath: string, themePath: string, outcome: ThemeOutcome): (r: seq<ProblemKind>)
    ensures r == [] <==> outcome.ThemeRead?
    ensures outcome.ThemeNotFound? ==> r == [UnableToFindTheme(descriptorPath, themePath)]
    ensures outcome.ThemeUnparsable? ==> r == [UnableToReadTheme(descriptorPath, themePath, outcome.parseMessage)]
    ensures outcome.ThemeResolutionFailed? ==> r == [UnableToReadTheme(descriptorPath, themePath, outcome.failureMessage)]
  {
    match outcome
    case ThemeRead => []
    case ThemeUnparsable(message) => [UnableToReadTheme(descriptorPath, themePath, message)]
    case ThemeNotFound => [UnableToFindTheme(descriptorPath, themePath)]
    case ThemeResolutionFailed(message) => [UnableToReadTheme(descriptorPath, themePath, message)]
  }

  /** One more theme: its outcome decides whether the themes after it are looked at. */
  lemma ThemeProblemsStep(descriptorPath: string, themePaths: seq<string>, i: nat, resolve: string -> ThemeOutcome)
    requires i < |themePaths|
    ensures var here := ThemeProblems(descriptorPath, themePaths[i..], resolve);
      var outcome := resolve(AbsoluteThemePath(themePaths[i]));
      var problem := ThemeProblem(descriptorPath, themePaths[i], outcome);
      && (outcome.ThemeUnparsable? ==> here == (problem, false))
      && (!outcome.ThemeUnparsable? ==>
            var rest := ThemeProblems(descriptorPath, themePaths[i + 1..], resolve);
            here == (problem + rest.0, rest.1))
  {
    assert themePaths[i..][0] == themePaths[i] && themePaths[i..][1..] == themePaths[i + 1..];
  }

  /**
   * Reading stops early exactly when some theme cannot be parsed, and no problem is reported
   * exactly when every theme is read.
   */
  lemma {:induction false} ThemeProblemsOutcome(descriptorPath: string, themePaths: seq<string>, resolve: string -> ThemeOutcome)
    ensures var r := ThemeProblems(descriptorPath, themePaths, resolve);
      && (!r.1 <==> exists k :: 0 <= k < |themePaths| && resolve(AbsoluteThemePath(themePaths[k])).ThemeUnparsable?)
      && (r.0 == [] <==> forall k :: 0 <= k < |themePaths| ==> resolve(AbsoluteThemePath(themePaths[k])).ThemeRead?)
    decreases |themePaths|
  {
    if |themePaths| > 0 {
      ThemeProblemsOutcome(descriptorPath, themePaths[1..], resolve);
      assert forall k :: 1 <= k < |themePaths| ==> themePaths[k] == themePaths[1..][k - 1];
      assert forall k :: 0 <= k < |themePaths| - 1 ==> themePaths[1..][k] == themePaths[k + 1];
    }
  }
}
