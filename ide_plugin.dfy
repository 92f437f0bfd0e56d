/**
 * The plugin record that the descriptor reader fills in (`IdePluginImpl`), with its
 * dependencies, content descriptors and extension map, and the two operations the record
 * itself defines: `isCompatibleWithIde` and `toString`.
 */
module IdePlugins {
  import opened Wrappers
  import opened Strings
  import opened IdeVersions
  import opened Xml

  /** A declared dependency: a plugin or module id and its two flags. */
  datatype PluginDependency = PluginDependency(id: string, isOptional: bool, isModule: bool)

  datatype ServiceType = ApplicationService | ProjectService | ModuleService

  datatype PreloadMode = PreloadTrue | PreloadAwait | PreloadNotHeadless | PreloadNotLightEdit | PreloadFalse

  datatype ClientKind = ClientAll | ClientLocal | ClientGuest | ClientController | ClientOwner | ClientRemote

  datatype Os = Mac | Linux | Windows | Unix | FreeBsd

  datatype ServiceDescriptor = ServiceDescriptor(
    serviceInterface: Option<string>,
    serviceImplementation: Option<string>,
    serviceType: ServiceType,
    testServiceImplementation: Option<string>,
    headlessImplementation: Option<string>,
    overrides: bool,
    configurationSchemaKey: Option<string>,
    preload: PreloadMode,
    client: Option<ClientKind>,
    os: Option<Os>)

  datatype ListenerType = ApplicationListener | ProjectListener

  datatype ListenerDescriptor = ListenerDescriptor(
    topicName: string,
    className: string,
    listenerType: ListenerType,
    activeInTestMode: bool,
    activeInHeadlessMode: bool,
    os: Option<Os>)

  datatype ComponentConfig = ComponentConfig(interfaceClass: Option<string>, implementationClass: string)

  datatype ExtensionPoint = ExtensionPoint(extensionPointName: string, isDynamic: bool)

  /** `MutableIdePluginContentDescriptor`: what one container (application, project, module) declares. */
  datatype ContentDescriptor = ContentDescriptor(
    services: seq<ServiceDescriptor>,
    components: seq<ComponentConfig>,
    listeners: seq<ListenerDescriptor>,
    extensionPoints: seq<ExtensionPoint>)
  {
    /** `mergeWith`: the other descriptor's entries appended after this one's, list by list. */
    function MergeWith(other: ContentDescriptor): (r: ContentDescriptor)
      ensures |r.services| == |services| + |other.services|
      ensures r.services[..|services|] == services && r.services[|services|..] == other.services
      ensures |r.components| == |components| + |other.components|
      ensures r.components[..|components|] == components && r.components[|components|..] == other.components
      ensures |r.listeners| == |listeners| + |other.listeners|
      ensures r.listeners[..|listeners|] == listeners && r.listeners[|listeners|..] == other.listeners
      ensures |r.extensionPoints| == |extensionPoints| + |other.extensionPoints|
      ensures r.extensionPoints[..|extensionPoints|] == extensionPoints
      ensures r.extensionPoints[|extensionPoints|..] == other.extensionPoints
    {
      ContentDescriptor(
        services + other.services,
        components + other.components,
        listeners + other.listeners,
        extensionPoints + other.extensionPoints)
    }
  }

  const EmptyContent := ContentDescriptor([], [], [], [])

  /** The product descriptor as declared; parsing its date and version is not part of this model. */
  datatype ProductDescriptor = ProductDescriptor(
    code: Option<string>,
    releaseDate: Option<string>,
    releaseVersion: Option<string>,
    eap: bool,
    optional: bool)

  /** An icon file shipped with the plugin, carried as an opaque name. */
  datatype PluginIcon = PluginIcon(fileName: string)

  datatype OptionalPluginDescriptor = OptionalPluginDescriptor(
    dependency: PluginDependency,
    optionalPlugin: IdePlugin,
    configurationFilePath: string)

  datatype ModuleDescriptor = ModuleDescriptor(
    name: string,
    dependencies: seq<PluginDependency>,
    modulePlugin: IdePlugin,
    configurationFilePath: string)

  /** `IdePluginImpl`: the fields the reader assigns and the lists it extends. */
  datatype IdePlugin = IdePlugin(
    pluginId: Option<string>,
    pluginName: Option<string>,
    pluginVersion: Option<string>,
    sinceBuild: Option<IdeVersion>,
    untilBuild: Option<IdeVersion>,
    productDescriptor: Option<ProductDescriptor>,
    vendor: Option<string>,
    vendorEmail: Option<string>,
    vendorUrl: Option<string>,
    description: Option<string>,
    changeNotes: Option<string>,
    url: Option<string>,
    useIdeClassLoader: bool,
    isImplementationDetail: bool,
    isV2: bool,
    definedModules: set<string>,
    dependencies: seq<PluginDependency>,
    incompatibleModules: seq<string>,
    extensions: map<string, seq<Element>>,
    actions: seq<Element>,
    appContainerDescriptor: ContentDescriptor,
    projectContainerDescriptor: ContentDescriptor,
    moduleContainerDescriptor: ContentDescriptor,
    icons: seq<PluginIcon>,
    optionalDescriptors: seq<OptionalPluginDescriptor>,
    modulesDescriptors: seq<ModuleDescriptor>)

  /** A fresh `IdePluginImpl()`: every field at its declared initial value. */
  function NewIdePlugin(): IdePlugin {
    IdePlugin(None, None, None, None, None, None, None, None, None, None, None, None,
      false, false, false, {}, [], [], map[], [], EmptyContent, EmptyContent, EmptyContent, [], [], [])
  }

  /** `isCompatibleWithIde`: both build bounds are inclusive and an absent bound does not restrict. */
  predicate IsCompatibleWithIde(plugin: IdePlugin, ideVersion: IdeVersion) {
    && (plugin.sinceBuild.None? || LessEq(plugin.sinceBuild.value, ideVersion))
    && (plugin.untilBuild.None? || LessEq(ideVersion, plugin.untilBuild.value))
  }

  /** The compatible versions form an interval: a version between two compatible ones is compatible. */
  lemma CompatibleVersionsAreAnInterval(plugin: IdePlugin, low: IdeVersion, mid: IdeVersion, high: IdeVersion)
    requires IsCompatibleWithIde(plugin, low) && IsCompatibleWithIde(plugin, high)
    requires LessEq(low, mid) && LessEq(mid, high)
    ensures IsCompatibleWithIde(plugin, mid)
  {
    if plugin.sinceBuild.Some? {
      LessEqTransitive(plugin.sinceBuild.value, low, mid);
    }
    if plugin.untilBuild.Some? {
      LessEqTransitive(mid, high, plugin.untilBuild.value);
    }
  }

  /** A plugin whose since-build is past its until-build is compatible with no IDE at all. */
  lemma InvertedRangeIsNeverCompatible(plugin: IdePlugin, ideVersion: IdeVersion)
    requires plugin.sinceBuild.Some? && plugin.untilBuild.Some?
    requires Less(plugin.untilBuild.value, plugin.sinceBuild.value)
    ensures !IsCompatibleWithIde(plugin, ideVersion)
  {
    if IsCompatibleWithIde(plugin, ideVersion) {
      LessEqTransitive(plugin.sinceBuild.value, ideVersion, plugin.untilBuild.value);
    }
  }

  /** A fresh plugin has no bounds, so it is compatible with every IDE, and it prints as unknown. */
  lemma FreshPluginIsUnrestricted(ideVersion: IdeVersion)
    ensures IsCompatibleWithIde(NewIdePlugin(), ideVersion)
    ensures ToString(NewIdePlugin()) == UnknownPluginId
    ensures NewIdePlugin().dependencies == [] && NewIdePlugin().extensions == map[]
    ensures !NewIdePlugin().isV2 && !NewIdePlugin().useIdeClassLoader && !NewIdePlugin().isImplementationDetail
    ensures NewIdePlugin().icons == [] && NewIdePlugin().optionalDescriptors == []
    ensures var p := NewIdePlugin();
      && p.pluginId.None? && p.pluginName.None? && p.pluginVersion.None?
      && p.sinceBuild.None? && p.untilBuild.None? && p.productDescriptor.None?
      && p.vendor.None? && p.vendorEmail.None? && p.vendorUrl.None?
      && p.description.None? && p.changeNotes.None? && p.url.None?
    ensures var p := NewIdePlugin();
      && p.definedModules == {} && p.incompatibleModules == [] && p.actions == []
      && p.modulesDescriptors == []
    ensures var p := NewIdePlugin();
      && p.appContainerDescriptor == p.projectContainerDescriptor == p.moduleContainerDescriptor
      && p.appContainerDescriptor == ContentDescriptor([], [], [], [])
  {
  }

  const UnknownPluginId := "<unknown plugin ID>"

  /** `toString`: the id, else the name, else a placeholder, then `:version` when there is a version. */
  function ToString(plugin: IdePlugin): (r: string)
    ensures plugin.pluginId.Some? ==> StartsWith(r, plugin.pluginId.value)
    ensures plugin.pluginId.None? && plugin.pluginName.Some? ==> StartsWith(r, plugin.pluginName.value)
    ensures plugin.pluginId.None? && plugin.pluginName.None? ==> StartsWith(r, UnknownPluginId)
    ensures plugin.pluginVersion.Some? ==> EndsWith(r, ":" + plugin.pluginVersion.value)
    ensures plugin.pluginVersion.Some? ==>
      |r| == |plugin.pluginId.GetOr(plugin.pluginName.GetOr(UnknownPluginId))| + 1 + |plugin.pluginVersion.value|
    ensures plugin.pluginVersion.None? ==> r == plugin.pluginId.GetOr(plugin.pluginName.GetOr(UnknownPluginId))
  {
    var shown := plugin.pluginId.GetOr(plugin.pluginName.GetOr(UnknownPluginId));
    var suffix := if plugin.pluginVersion.Some? then ":" + plugin.pluginVersion.value else "";
    assert (shown + suffix)[..|shown|] == shown;
    assert (shown + suffix)[|shown + suffix| - |suffix|..] == suffix;
    shown + suffix
  }

  /** `mergeContent` on the extension maps: every extension point keeps its own elements first. */
  function MergeExtensions(mine: map<string, seq<Element>>, other: map<string, seq<Element>>)
    : (r: map<string, seq<Element>>)
    ensures r.Keys == mine.Keys + other.Keys
    ensures forall ep :: ep in mine ==> |r[ep]| >= |mine[ep]| && r[ep][..|mine[ep]|] == mine[ep]
    ensures forall ep :: ep in other && ep !in mine ==> r[ep] == other[ep]
    ensures forall ep :: ep in other && ep in mine ==> |r[ep]| >= |mine[ep]| && r[ep][|mine[ep]|..] == other[ep]
    ensures forall ep :: ep in mine && ep !in other ==> r[ep] == mine[ep]
  {
    map ep | ep in mine.Keys + other.Keys ::
      (if ep in mine then mine[ep] else []) + (if ep in other then other[ep] else [])
  }

  /** `mergeContent`: the other plugin's extensions and container contents appended to this plugin's. */
  function MergeContent(plugin: IdePlugin, toMerge: IdePlugin): (r: IdePlugin)
    ensures r.extensions == MergeExtensions(plugin.extensions, toMerge.extensions)
    ensures r.appContainerDescriptor == plugin.appContainerDescriptor.MergeWith(toMerge.appContainerDescriptor)
    ensures r.projectContainerDescriptor == plugin.projectContainerDescriptor.MergeWith(toMerge.projectContainerDescriptor)
    ensures r.moduleContainerDescriptor == plugin.moduleContainerDescriptor.MergeWith(toMerge.moduleContainerDescriptor)
    ensures r.(extensions := plugin.extensions, appContainerDescriptor := plugin.appContainerDescriptor,
               projectContainerDescriptor := plugin.projectContainerDescriptor,
               moduleContainerDescriptor := plugin.moduleContainerDescriptor) == plugin
  {
    plugin.(
      extensions := MergeExtensions(plugin.extensions, toMerge.extensions),
      appContainerDescriptor := plugin.appContainerDescriptor.MergeWith(toMerge.appContainerDescriptor),
      projectContainerDescriptor := plugin.projectContainerDescriptor.MergeWith(toMerge.projectContainerDescriptor),
      moduleContainerDescriptor := plugin.moduleContainerDescriptor.MergeWith(toMerge.moduleContainerDescriptor))
  }

  /** Merging a plugin that declares nothing changes nothing. */
  lemma MergeEmptyIsIdentity(plugin: IdePlugin)
    ensures MergeContent(plugin, NewIdePlugin()) == plugin
  {
    var r := MergeContent(plugin, NewIdePlugin());
    assert r.extensions == plugin.extensions;
    assert plugin.appContainerDescriptor.MergeWith(EmptyContent) == plugin.appContainerDescriptor;
    assert plugin.projectContainerDescriptor.MergeWith(EmptyContent) == plugin.projectContainerDescriptor;
    assert plugin.moduleContainerDescriptor.MergeWith(EmptyContent) == plugin.moduleContainerDescriptor;
  }
}
