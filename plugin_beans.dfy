/**
 * The plugin descriptor as the bean extractor delivers it (`PluginBean` and the beans it
 * holds). Extracting a bean from XML is not part of this model; an absent element or
 * attribute is `None`.
 */
module PluginBeans {
  import opened Wrappers

  datatype IdeaVersionBean = IdeaVersionBean(sinceBuild: Option<string>, untilBuild: Option<string>)

  datatype PluginVendorBean = PluginVendorBean(name: Option<string>, url: Option<string>, email: Option<string>)

  datatype ProductDescriptorBean = ProductDescriptorBean(
    code: Option<string>,
    releaseDate: Option<string>,
    releaseVersion: Option<string>,
    eap: Option<string>,
    optional: Option<string>)

  /** `<depends optional=".." config-file="..">id</depends>`. */
  datatype PluginDependencyBean = PluginDependencyBean(
    dependencyId: Option<string>,
    optional: Option<bool>,
    configFile: Option<string>)

  /** `<dependencies>` of the v2 model: `<module name=".."/>` and `<plugin id=".."/>` entries. */
  datatype DependenciesV2Bean = DependenciesV2Bean(
    modules: seq<Option<string>>,
    plugins: seq<Option<string>>)

  /** `<content>`: the names of its `<module name=".."/>` entries. */
  datatype ContentBean = ContentBean(modules: seq<Option<string>>)

  datatype PluginBean = PluginBean(
    name: Option<string>,
    id: Option<string>,
    url: Option<string>,
    pluginVersion: Option<string>,
    modules: seq<string>,
    useIdeaClassLoader: Option<bool>,
    implementationDetail: Option<bool>,
    ideaVersion: Option<IdeaVersionBean>,
    packageName: Option<string>,
    dependencies: Option<seq<PluginDependencyBean>>,
    dependenciesV2: Option<DependenciesV2Bean>,
    pluginContent: Option<seq<ContentBean>>,
    incompatibleModules: Option<seq<Option<string>>>,
    vendor: Option<PluginVendorBean>,
    productDescriptor: Option<ProductDescriptorBean>,
    changeNotes: Option<string>,
    description: Option<string>)
}
