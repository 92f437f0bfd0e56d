/**
 * `PluginCreator`: reads one plugin descriptor into an `IdePlugin`, collecting problems on the
 * way. The creator's state is its plugin, its problems, the config files of its optional
 * dependencies and its content modules; every method is specified by a function on that state.
 *
 * XInclude resolution, bean extraction and theme resolution happen outside this model: their
 * outcomes are parameters.
 */
module PluginCreators {
  import opened Wrappers
  import opened Strings
  import opened Xml
  import opened IdeVersions
  import opened IdePlugins
  import opened PluginProblems
  import opened PluginBeans
  import opened PluginValidation
  import opened PluginAssembly

  /** `PluginCreationResult`: a plugin with its warnings, or the problems that sank it. */
  datatype CreationResult =
    | CreationSuccess(plugin: IdePlugin, warnings: seq<PluginProblem>)
    | CreationFail(errorsAndWarnings: seq<PluginProblem>)

  /** The outcome of a step done outside the model (XInclude resolution, bean extraction). */
  datatype Outcome<T> = Done(value: T) | Failed(message: string)

  datatype CreatorState = CreatorState(
    plugin: IdePlugin,
    problems: seq<PluginProblem>,
    optionalDependenciesConfigFiles: map<PluginDependency, string>,
    contentModules: seq<ContentModule>)

  const InitialState := CreatorState(NewIdePlugin(), [], map[], [])

  /** `pluginCreationResult`: a failure exactly when some problem is an error. */
  function CreationResultOf(plugin: IdePlugin, problems: seq<PluginProblem>): (r: CreationResult)
    ensures r.CreationFail? <==> HasErrors(problems)
    ensures r.CreationFail? ==> r.errorsAndWarnings == problems && |Errors(problems)| > 0
    ensures r.CreationSuccess? ==> r.plugin == plugin && r.warnings == problems
    ensures r.CreationSuccess? ==> forall p :: p in r.warnings ==> p.level != Error
  {
    HasErrorsIffErrorsNonEmpty(problems);
    if HasErrors(problems) then CreationFail(problems) else CreationSuccess(plugin, problems)
  }

  /** What the bean half of `setInfoFromBean` does to a creator's state. */
  function BeanInfoStep(s: CreatorState, env: ValidationEnv, bean: PluginBean): CreatorState {
    CreatorState(
      InfoFromBean(s.plugin, bean, env.parseVersion),
      s.problems,
      if bean.dependencies.Some? then RecordConfigFiles(s.optionalDependenciesConfigFiles, bean.dependencies.value)
      else s.optionalDependenciesConfigFiles,
      s.contentModules + (if bean.pluginContent.Some? then ContentModules(bean.pluginContent.value) else []))
  }

  /** What the element readers of `setInfoFromBean` do to a creator's state. */
  function ElementsStep(s: CreatorState, parentPluginId: Option<string>, levels: Levels, root: Element): CreatorState {
    s.(plugin := WithElements(s.plugin, root, parentPluginId), problems := s.problems + WithLevels(levels, ListenerProblemsOfRoot(root)))
  }

  /** What `setInfoFromBean` does to a creator's state. */
  function InfoFromBeanStep(
    s: CreatorState, parentPluginId: Option<string>, env: ValidationEnv, levels: Levels, bean: PluginBean, root: Element)
    : CreatorState
  {
    ElementsStep(BeanInfoStep(s, env, bean), parentPluginId, levels, root)
  }

  /** One element of `readExtensions`, on the plugin being read. */
  method ReadExtension(plugin: IdePlugin, extensionElement: Element, extensionsRoot: Element) returns (r: IdePlugin)
    ensures r == AddExtension(plugin, extensionElement, extensionsRoot)
  {
    var epName := ExtractEPName(extensionElement, Some(extensionsRoot));
    if epName == "com.intellij.applicationService" {
      var container := plugin.appContainerDescriptor;
      r := plugin.(appContainerDescriptor := container.(services := container.services + [ReadServiceDescriptor(extensionElement, AppArea)]));
    } else if epName == "com.intellij.projectService" {
      var container := plugin.projectContainerDescriptor;
      r := plugin.(projectContainerDescriptor := container.(services := container.services + [ReadServiceDescriptor(extensionElement, ProjectArea)]));
    } else if epName == "com.intellij.moduleService" {
      var container := plugin.moduleContainerDescriptor;
      r := plugin.(moduleContainerDescriptor := container.(services := container.services + [ReadServiceDescriptor(extensionElement, ModuleArea)]));
    } else {
      var existing := if epName in plugin.extensions then plugin.extensions[epName] else [];
      r := plugin.(extensions := plugin.extensions[epName := existing + [extensionElement]]);
    }
  }

  /**
   * `resolveDocumentAndValidateBean`: an XInclude or bean failure is registered and ends the
   * creation; so does a bean-validation error; otherwise the bean is assembled, the themes are
   * read, and, unless a theme could not be parsed, the assembled plugin is validated.
   */
  function Resolved(
    s: CreatorState, descriptorPath: string, parentPluginId: Option<string>, env: ValidationEnv, levels: Levels,
    document: Outcome<Element>, extractBean: Element -> Outcome<PluginBean>, validateDescriptor: bool,
    resolveTheme: string -> ThemeOutcome)
    : CreatorState
  {
    match document
    case Failed(message) => s.(problems := s.problems + [NewProblem(levels, XIncludeResolutionErrors(descriptorPath, message))])
    case Done(root) =>
      match extractBean(root)
      case Failed(message) => s.(problems := s.problems + [NewProblem(levels, UnableToReadDescriptor(descriptorPath, message))])
      case Done(bean) =>
        var validated := s.(problems := s.problems + WithLevels(levels, BeanProblems(env, descriptorPath, bean, validateDescriptor)));
        if HasErrors(validated.problems) then validated
        else Assembled(validated, descriptorPath, parentPluginId, env, levels, bean, root, resolveTheme)
  }

  /**
   * The second half of `resolveDocumentAndValidateBean`, for a bean that passed validation: the
   * bean is assembled, the themes are read, and, unless a theme could not be parsed, the
   * assembled plugin is validated.
   */
  function Assembled(
    validated: CreatorState, descriptorPath: string, parentPluginId: Option<string>, env: ValidationEnv, levels: Levels,
    bean: PluginBean, root: Element, resolveTheme: string -> ThemeOutcome)
    : CreatorState
  {
    var assembled := InfoFromBeanStep(validated, parentPluginId, env, levels, bean, root);
    var themes := ThemeProblems(descriptorPath, ThemePaths(assembled.plugin), resolveTheme);
    var withThemes := assembled.(problems := assembled.problems + WithLevels(levels, themes.0));
    if !themes.1 then withThemes
    else withThemes.(problems := withThemes.problems + WithLevels(levels, AssembledPluginProblems(descriptorPath, withThemes.plugin)))
  }

  /** Assembling registers the listener problems, then the theme problems, then those of the assembled plugin, after the earlier ones. */
  lemma AssembledOnlyAppendsProblems(
    validated: CreatorState, descriptorPath: string, parentPluginId: Option<string>, env: ValidationEnv, levels: Levels,
    bean: PluginBean, root: Element, resolveTheme: string -> ThemeOutcome)
    ensures var r := Assembled(validated, descriptorPath, parentPluginId, env, levels, bean, root, resolveTheme);
      |validated.problems| <= |r.problems| && r.problems[..|validated.problems|] == validated.problems
  {
    var r := Assembled(validated, descriptorPath, parentPluginId, env, levels, bean, root, resolveTheme);
    var assembled := InfoFromBeanStep(validated, parentPluginId, env, levels, bean, root);
    var tail := WithLevels(levels, ListenerProblemsOfRoot(root));
    assert assembled.problems == validated.problems + tail;
    var themes := ThemeProblems(descriptorPath, ThemePaths(assembled.plugin), resolveTheme);
    var themeProblems := WithLevels(levels, themes.0);
    AppendAssociative(validated.problems, tail, themeProblems);
    tail := tail + themeProblems;
    if themes.1 {
      var withThemes := assembled.(problems := assembled.problems + themeProblems);
      var assembledProblems := WithLevels(levels, AssembledPluginProblems(descriptorPath, withThemes.plugin));
      AppendAssociative(validated.problems, tail, assembledProblems);
      tail := tail + assembledProblems;
    }
    assert r.problems == validated.problems + tail;
  }

  /** Problems are only ever appended: whatever was registered before stays, in place. */
  lemma ResolvedOnlyAppendsProblems(
    s: CreatorState, descriptorPath: string, parentPluginId: Option<string>, env: ValidationEnv, levels: Levels,
    document: Outcome<Element>, extractBean: Element -> Outcome<PluginBean>, validateDescriptor: bool,
    resolveTheme: string -> ThemeOutcome)
    ensures var r := Resolved(s, descriptorPath, parentPluginId, env, levels, document, extractBean, validateDescriptor, resolveTheme);
      |s.problems| <= |r.problems| && r.problems[..|s.problems|] == s.problems
  {
    var r := Resolved(s, descriptorPath, parentPluginId, env, levels, document, extractBean, validateDescriptor, resolveTheme);
    match document {
      case Failed(message) =>
      case Done(root) =>
        match extractBean(root) {
          case Failed(message) =>
          case Done(bean) =>
            var validated := s.(problems := s.problems + WithLevels(levels, BeanProblems(env, descriptorPath, bean, validateDescriptor)));
            assert validated.problems[..|s.problems|] == s.problems;
            if !HasErrors(validated.problems) {
              AssembledOnlyAppendsProblems(validated, descriptorPath, parentPluginId, env, levels, bean, root, resolveTheme);
              PrefixTransitive(s.problems, validated.problems, r.problems);
            }
        }
    }
  }

  /** A creator that already has an error still fails after resolving its descriptor. */
  lemma ResolvedKeepsErrors(
    s: CreatorState, descriptorPath: string, parentPluginId: Option<string>, env: ValidationEnv, levels: Levels,
    document: Outcome<Element>, extractBean: Element -> Outcome<PluginBean>, validateDescriptor: bool,
    resolveTheme: string -> ThemeOutcome)
    requires HasErrors(s.problems)
    ensures HasErrors(Resolved(s, descriptorPath, parentPluginId, env, levels, document, extractBean, validateDescriptor, resolveTheme).problems)
  {
    var r := Resolved(s, descriptorPath, parentPluginId, env, levels, document, extractBean, validateDescriptor, resolveTheme);
    ResolvedOnlyAppendsProblems(s, descriptorPath, parentPluginId, env, levels, document, extractBean, validateDescriptor, resolveTheme);
    var k :| 0 <= k < |s.problems| && s.problems[k].level == Error;
    assert r.problems[k] == s.problems[k];
  }

  /**
   * A bean that fails validation is never assembled: the plugin is left as it was, and the
   * creation fails.
   */
  lemma InvalidBeanIsNotAssembled(
    s: CreatorState, descriptorPath: string, parentPluginId: Option<string>, env: ValidationEnv, levels: Levels,
    root: Element, extractBean: Element -> Outcome<PluginBean>, validateDescriptor: bool,
    resolveTheme: string -> ThemeOutcome)
    requires extractBean(root).Done?
    requires HasErrors(s.problems + WithLevels(levels, BeanProblems(env, descriptorPath, extractBean(root).value, validateDescriptor)))
    ensures var r := Resolved(s, descriptorPath, parentPluginId, env, levels, Done(root), extractBean, validateDescriptor, resolveTheme);
      r.plugin == s.plugin && CreationResultOf(r.plugin, r.problems).CreationFail?
  {
  }

  /**
   * A successful creation from a resolved document and bean always carries the assembled
   * plugin: success implies the bean passed validation and was read in full.
   */
  lemma SuccessfulCreationIsAssembled(
    s: CreatorState, descriptorPath: string, parentPluginId: Option<string>, env: ValidationEnv, levels: Levels,
    root: Element, extractBean: Element -> Outcome<PluginBean>, validateDescriptor: bool,
    resolveTheme: string -> ThemeOutcome)
    requires extractBean(root).Done?
    requires CreationResultOf(
      Resolved(s, descriptorPath, parentPluginId, env, levels, Done(root), extractBean, validateDescriptor, resolveTheme).plugin,
      Resolved(s, descriptorPath, parentPluginId, env, levels, Done(root), extractBean, validateDescriptor, resolveTheme).problems).CreationSuccess?
    ensures var r := Resolved(s, descriptorPath, parentPluginId, env, levels, Done(root), extractBean, validateDescriptor, resolveTheme);
      r.plugin == PluginFromBean(s.plugin, extractBean(root).value, root, parentPluginId, env.parseVersion)
  {
    var bean := extractBean(root).value;
    var validated := s.problems + WithLevels(levels, BeanProblems(env, descriptorPath, bean, validateDescriptor));
    if HasErrors(validated) {
      InvalidBeanIsNotAssembled(s, descriptorPath, parentPluginId, env, levels, root, extractBean, validateDescriptor, resolveTheme);
    }
  }

  /** The inner loop of `readComponents`: the components of one root's `<component>` elements. */
  method ReadComponentList(named: seq<Element>) returns (components: seq<ComponentConfig>)
    ensures components == ComponentsFrom(named)
  {
    components := [];
    var j := 0;
    while j < |named|
      invariant 0 <= j <= |named|
      invariant components == ComponentsFrom(named[..j])
    {
      var component := named[j];
      ComponentsStep(named, j);
      var interfaceElement := component.Child("interface-class");
      var implementationElement := component.Child("implementation-class");
      var interfaceClass := if interfaceElement.Some? then Some(interfaceElement.value.text) else None;
      if implementationElement.Some? {
        components := components + [ComponentConfig(interfaceClass, implementationElement.value.text)];
      }
      j := j + 1;
    }
    assert named[..j] == named;
  }

  /**
   * One listener of `readListeners`: the problems it reports, a missing class, then a missing
   * topic; with both it is read.
   */
  method ReadListener(listener: Element, listenerType: ListenerType) returns (descriptor: Option<ListenerDescriptor>, reported: seq<ProblemKind>)
    ensures descriptor == ListenerOf(listener, listenerType)
    ensures reported == ListenerProblemsOf(listener)
  {
    var className := listener.AttributeValue("class");
    var topicName := listener.AttributeValue("topic");
    var isActiveInTestMode := BooleanAttribute(listener, "activeInTestMode", true);
    var isActiveInHeadlessMode := BooleanAttribute(listener, "activeInHeadlessMode", true);
    var os := ReadOs(listener);
    reported := [];
    if className.None? {
      reported := reported + [ElementMissingAttribute("listener", "class")];
    }
    if topicName.None? {
      reported := reported + [ElementMissingAttribute("listener", "topic")];
    }
    descriptor := None;
    if className.Some? && topicName.Some? {
      descriptor := Some(ListenerDescriptor(topicName.value, className.value, listenerType, isActiveInTestMode, isActiveInHeadlessMode, os));
    }
  }

  /**
   * The inner loop of `readListeners` over the listeners of one `<listeners>` element: the
   * listeners read and the problems reported, in order.
   */
  method ReadListenerList(listeners: seq<Element>, listenerType: ListenerType) returns (descriptors: seq<ListenerDescriptor>, reported: seq<ProblemKind>)
    ensures descriptors == ListenersFrom(listeners, listenerType)
    ensures reported == ListenerProblemsFrom(listeners)
  {
    descriptors := [];
    reported := [];
    var j := 0;
    while j < |listeners|
      invariant 0 <= j <= |listeners|
      invariant descriptors == ListenersFrom(listeners[..j], listenerType)
      invariant reported == ListenerProblemsFrom(listeners[..j])
    {
      ListenersStep(listeners, listenerType, j);
      var descriptor, problems := ReadListener(listeners[j], listenerType);
      descriptors := descriptors + descriptor.ToSeq();
      reported := reported + problems;
      j := j + 1;
    }
    assert listeners[..j] == listeners;
  }

  /**
   * The loop of `readPluginThemes`: the problems of the themes up to the first one that cannot
   * be parsed, and whether the loop got past every theme.
   */
  method ResolveThemes(descriptorPath: string, themePaths: seq<string>, resolveTheme: string -> ThemeOutcome)
    returns (reported: seq<ProblemKind>, completed: bool)
    ensures (reported, completed) == ThemeProblems(descriptorPath, themePaths, resolveTheme)
  {
    ghost var themes := ThemeProblems(descriptorPath, themePaths, resolveTheme);
    reported := [];
    var i := 0;
    while i < |themePaths|
      invariant 0 <= i <= |themePaths|
      invariant themes.0 == reported + ThemeProblems(descriptorPath, themePaths[i..], resolveTheme).0
      invariant themes.1 == ThemeProblems(descriptorPath, themePaths[i..], resolveTheme).1
    {
      var themePath := themePaths[i];
      ThemeProblemsStep(descriptorPath, themePaths, i, resolveTheme);
      var outcome := resolveTheme(AbsoluteThemePath(themePath));
      var problem := ThemeProblem(descriptorPath, themePath, outcome);
      if outcome.ThemeUnparsable? {
        return reported + problem, false;
      }
      ghost var rest := ThemeProblems(descriptorPath, themePaths[i + 1..], resolveTheme);
      AppendAssociative(reported, problem, rest.0);
      reported := reported + problem;
      i := i + 1;
    }
    assert themePaths[i..] == [];
    assert ThemeProblems(descriptorPath, themePaths[i..], resolveTheme) == ([], true);
    assert reported == themes.0 && themes.1;
    return reported, true;
  }

  /**
   * The `<depends>` loop of `setInfoFromBean`: every bean with an id is a dependency, and an
   * optional one with a config file records that file.
   */
  method ReadDependencies(dependencyBeans: seq<PluginDependencyBean>, files: map<PluginDependency, string>)
    returns (dependencies: seq<PluginDependency>, configFiles: map<PluginDependency, string>)
    ensures dependencies == DeclaredDependencies(dependencyBeans)
    ensures configFiles == RecordConfigFiles(files, dependencyBeans)
  {
    dependencies := [];
    configFiles := files;
    var i := 0;
    while i < |dependencyBeans|
      invariant 0 <= i <= |dependencyBeans|
      invariant dependencies == DeclaredDependencies(dependencyBeans[..i])
      invariant configFiles == RecordConfigFiles(files, dependencyBeans[..i])
    {
      var dependencyBean := dependencyBeans[i];
      assert dependencyBeans[..i + 1][..i] == dependencyBeans[..i];
      if dependencyBean.dependencyId.Some? {
        var isModule := StartsWith(dependencyBean.dependencyId.value, ModulePrefix);
        var isOptional := dependencyBean.optional == Some(true);
        var dependency := PluginDependency(dependencyBean.dependencyId.value, isOptional, isModule);
        dependencies := dependencies + [dependency];
        if dependency.isOptional && dependencyBean.configFile.Some? {
          configFiles := configFiles[dependency := ConfigFilePath(dependencyBean.configFile.value)];
        }
      }
      i := i + 1;
    }
    assert dependencyBeans[..i] == dependencyBeans;
  }

  /** The `<dependencies>` loops of `setInfoFromBean`: modules, then plugins. */
  method ReadDependenciesV2(bean: DependenciesV2Bean) returns (dependencies: seq<PluginDependency>)
    ensures dependencies == V2Dependencies(bean)
  {
    dependencies := [];
    var i := 0;
    while i < |bean.modules|
      invariant 0 <= i <= |bean.modules|
      invariant dependencies == PresentNames(bean.modules[..i], ModuleDependencyOf)
    {
      assert bean.modules[..i + 1][..i] == bean.modules[..i];
      if bean.modules[i].Some? {
        dependencies := dependencies + [PluginDependency(bean.modules[i].value, false, true)];
      }
      i := i + 1;
    }
    assert bean.modules[..i] == bean.modules;
    var plugins: seq<PluginDependency> := [];
    var j := 0;
    while j < |bean.plugins|
      invariant 0 <= j <= |bean.plugins|
      invariant plugins == PresentNames(bean.plugins[..j], PluginDependencyOf)
    {
      assert bean.plugins[..j + 1][..j] == bean.plugins[..j];
      if bean.plugins[j].Some? {
        var id := bean.plugins[j].value;
        plugins := plugins + [PluginDependency(id, false, StartsWith(id, ModulePrefix))];
      }
      j := j + 1;
    }
    assert bean.plugins[..j] == bean.plugins;
    dependencies := dependencies + plugins;
  }

  /** The `<content>` loop of `setInfoFromBean`. */
  method ReadContentModules(contents: seq<ContentBean>) returns (read: seq<ContentModule>)
    ensures read == ContentModules(contents)
  {
    var modules := ContentModuleNames(contents);
    read := [];
    var i := 0;
    while i < |modules|
      invariant 0 <= i <= |modules|
      invariant read == PresentNames(modules[..i], ContentModuleOf)
    {
      var name := modules[i];
      assert modules[..i + 1][..i] == modules[..i];
      if name.Some? {
        var configFile := "../" + ReplaceChar(name.value, '/', '.') + ".xml";
        read := read + [ContentModule(name.value, configFile)];
      }
      i := i + 1;
    }
    assert modules[..i] == modules;
  }

  /** `readActions`: the children of every `<actions>` element. */
  method ReadActions(plugin: IdePlugin, root: Element) returns (r: IdePlugin)
    ensures r == plugin.(actions := plugin.actions + ChildrenOf(root.ChildrenNamed("actions")))
  {
    var actionsRoots := root.ChildrenNamed("actions");
    var actions := plugin.actions;
    var i := 0;
    while i < |actionsRoots|
      invariant 0 <= i <= |actionsRoots|
      invariant actions == plugin.actions + ChildrenOf(actionsRoots[..i])
    {
      ChildrenOfSnoc(actionsRoots, i);
      actions := actions + actionsRoots[i].children;
      i := i + 1;
    }
    assert actionsRoots[..i] == actionsRoots;
    r := plugin.(actions := actions);
  }

  /** The inner loop of `readExtensions`: the children of one `<extensions>` element. */
  method ReadExtensionGroup(plugin: IdePlugin, extensionsRoot: Element) returns (r: IdePlugin)
    ensures r == WithExtensions(plugin, ChildPairs(extensionsRoot))
  {
    var pairs := ChildPairs(extensionsRoot);
    r := plugin;
    var j := 0;
    while j < |extensionsRoot.children|
      invariant 0 <= j <= |extensionsRoot.children|
      invariant r == WithExtensions(plugin, pairs[..j])
    {
      var extensionElement := extensionsRoot.children[j];
      assert pairs[..j + 1] == pairs[..j] + [(extensionElement, extensionsRoot)];
      WithExtensionsAppend(plugin, pairs[..j], (extensionElement, extensionsRoot));
      r := ReadExtension(r, extensionElement, extensionsRoot);
      j := j + 1;
    }
    assert pairs[..j] == pairs;
  }

  /** `readExtensions`: services go to their container, every other element to its extension point. */
  method ReadExtensions(plugin: IdePlugin, root: Element) returns (r: IdePlugin)
    ensures r == WithExtensions(plugin, ChildEntries(root.ChildrenNamed("extensions")))
  {
    var extensionsRoots := root.ChildrenNamed("extensions");
    r := plugin;
    var i := 0;
    while i < |extensionsRoots|
      invariant 0 <= i <= |extensionsRoots|
      invariant r == WithExtensions(plugin, ChildEntries(extensionsRoots[..i]))
    {
      ChildEntriesSnoc(extensionsRoots, i);
      WithExtensionsConcat(plugin, ChildEntries(extensionsRoots[..i]), ChildPairs(extensionsRoots[i]));
      r := ReadExtensionGroup(r, extensionsRoots[i]);
      i := i + 1;
    }
    assert extensionsRoots[..i] == extensionsRoots;
  }

  /** The inner loop of `readExtensionPoints`: the children of one `<extensionPoints>` element. */
  method ReadExtensionPointGroup(plugin: IdePlugin, extensionPoints: seq<Element>, pluginId: Option<string>) returns (r: IdePlugin)
    ensures r == WithExtensionPoints(plugin, extensionPoints, pluginId)
  {
    r := plugin;
    var j := 0;
    while j < |extensionPoints|
      invariant 0 <= j <= |extensionPoints|
      invariant r == WithExtensionPoints(plugin, extensionPoints[..j], pluginId)
    {
      var extensionPoint := extensionPoints[j];
      assert extensionPoints[..j + 1] == extensionPoints[..j] + [extensionPoint];
      WithExtensionPointsSnoc(plugin, extensionPoints[..j], extensionPoint, pluginId);
      var point := ExtensionPointOf(extensionPoint, pluginId);
      if point.Some? {
        var (area, ep) := point.value;
        var container := Container(r, area);
        r := WithContainer(r, area, container.(extensionPoints := container.extensionPoints + [ep]));
      }
      j := j + 1;
    }
    assert extensionPoints[..j] == extensionPoints;
  }

  /** `readExtensionPoints`: named extension points of a known area join that container. */
  method ReadExtensionPoints(plugin: IdePlugin, root: Element, pluginId: Option<string>) returns (r: IdePlugin)
    ensures r == WithExtensionPoints(plugin, ChildrenOf(root.ChildrenNamed("extensionPoints")), pluginId)
  {
    var extensionPointsRoots := root.ChildrenNamed("extensionPoints");
    r := plugin;
    var i := 0;
    while i < |extensionPointsRoots|
      invariant 0 <= i <= |extensionPointsRoots|
      invariant r == WithExtensionPoints(plugin, ChildrenOf(extensionPointsRoots[..i]), pluginId)
    {
      ChildrenOfSnoc(extensionPointsRoots, i);
      WithExtensionPointsConcat(plugin, ChildrenOf(extensionPointsRoots[..i]), extensionPointsRoots[i].children, pluginId);
      r := ReadExtensionPointGroup(r, extensionPointsRoots[i].children, pluginId);
      i := i + 1;
    }
    assert extensionPointsRoots[..i] == extensionPointsRoots;
  }

  /**
   * `readListeners`: a listener without a class or a topic is reported; one with both is
   * added to the container of `area`.
   */
  method ReadListeners(plugin: IdePlugin, root: Element, listenersName: string, area: Area)
    returns (r: IdePlugin, reported: seq<ProblemKind>)
    ensures var listeners := ListenerElements(root, listenersName);
      && r == AddListeners(plugin, area, ListenersFrom(listeners, ListenerTypeOf(listenersName)))
      && reported == ListenerProblemsFrom(listeners)
  {
    var listenersRoots := root.ChildrenNamed(listenersName);
    var listenerType := ListenerTypeOf(listenersName);
    var descriptors: seq<ListenerDescriptor> := [];
    reported := [];
    var i := 0;
    while i < |listenersRoots|
      invariant 0 <= i <= |listenersRoots|
      invariant descriptors == ListenersFrom(ChildrenOf(listenersRoots[..i]), listenerType)
      invariant reported == ListenerProblemsFrom(ChildrenOf(listenersRoots[..i]))
    {
      ghost var done := ChildrenOf(listenersRoots[..i]);
      var children := listenersRoots[i].children;
      var read, kinds := ReadListenerList(children, listenerType);
      ChildrenOfSnoc(listenersRoots, i);
      ListenersFromAppend(done, children, listenerType);
      ListenerProblemsFromAppend(done, children);
      descriptors := descriptors + read;
      reported := reported + kinds;
      i := i + 1;
    }
    assert listenersRoots[..i] == listenersRoots;
    r := AddListeners(plugin, area, descriptors);
  }

  /** `readComponents`: every `<component>` with an implementation class joins the container of `area`. */
  method ReadComponents(plugin: IdePlugin, root: Element, componentsArea: string, area: Area) returns (r: IdePlugin)
    ensures r == AddComponents(plugin, area, ComponentsFrom(ComponentElements(root, componentsArea)))
  {
    var componentsRoots := root.ChildrenNamed(componentsArea);
    var components: seq<ComponentConfig> := [];
    var i := 0;
    while i < |componentsRoots|
      invariant 0 <= i <= |componentsRoots|
      invariant components == ComponentsFrom(ChildrenNamedOf(componentsRoots[..i], "component"))
    {
      var named := componentsRoots[i].ChildrenNamed("component");
      var read := ReadComponentList(named);
      ChildrenNamedOfSnoc(componentsRoots, "component", i);
      ComponentsFromAppend(ChildrenNamedOf(componentsRoots[..i], "component"), named);
      components := components + read;
      i := i + 1;
    }
    assert componentsRoots[..i] == componentsRoots;
    r := AddComponents(plugin, area, components);
  }

  /** One step of `validateDependencies`: the first rule that applies to the dependency, if any. */
  method ValidateDependency(descriptorPath: string, dependencyBean: PluginDependencyBean) returns (problem: Option<ProblemKind>)
    ensures problem == DependencyProblem(descriptorPath, dependencyBean)
  {
    var dependencyId := dependencyBean.dependencyId;
    if IsNullOrBlank(dependencyId) || Contains(dependencyId.value, "\n") {
      problem := Some(InvalidDependencyId(descriptorPath, dependencyId));
    } else if dependencyBean.optional == Some(true) && dependencyBean.configFile.None? {
      problem := Some(OptionalDependencyConfigFileNotSpecified(dependencyId.value));
    } else if dependencyBean.optional == Some(false) {
      problem := Some(SuperfluousNonOptionalDependencyDeclaration(dependencyId.value));
    } else {
      problem := None;
    }
  }

  /** The checks of `validatePluginBean`: the properties, then the dependencies, then the modules. */
  method CheckBean(env: ValidationEnv, descriptorPath: string, bean: PluginBean, validateDescriptor: bool)
    returns (kinds: seq<ProblemKind>)
    ensures kinds == BeanProblems(env, descriptorPath, bean, validateDescriptor)
  {
    kinds := PropertyProblems(env, descriptorPath, bean, validateDescriptor);
    if bean.dependencies.Some? {
      var dependencyProblems := ValidateDependencies(descriptorPath, bean.dependencies.value);
      kinds := kinds + dependencyProblems;
    }
    kinds := kinds + ModuleProblems(descriptorPath, bean.modules);
  }

  /**
   * The element readers of `setInfoFromBean`, in order: actions, extensions, extension points,
   * listeners and components; the problems of the application listeners, then of the project
   * listeners.
   */
  method ReadPluginElements(plugin: IdePlugin, root: Element, parentPluginId: Option<string>)
    returns (r: IdePlugin, applicationProblems: seq<ProblemKind>, projectProblems: seq<ProblemKind>)
    ensures r == WithElements(plugin, root, parentPluginId)
    ensures applicationProblems + projectProblems == ListenerProblemsOfRoot(root)
  {
    r := ReadActions(plugin, root);
    r := ReadExtensions(r, root);
    r := ReadExtensionPoints(r, root, IdOrParent(r, parentPluginId));
    r, applicationProblems := ReadListeners(r, root, "applicationListeners", AppArea);
    r, projectProblems := ReadListeners(r, root, "projectListeners", ProjectArea);
    r := ReadComponents(r, root, "application-components", AppArea);
    r := ReadComponents(r, root, "project-components", ProjectArea);
    r := ReadComponents(r, root, "module-components", ModuleArea);
  }

  /** The checks of `validatePlugin` on an assembled plugin, in the order they are registered. */
  method CheckAssembledPlugin(descriptorPath: string, plugin: IdePlugin) returns (kinds: seq<ProblemKind>)
    ensures kinds == AssembledPluginProblems(descriptorPath, plugin)
  {
    var noModules: seq<ProblemKind> := [];
    if !plugin.isV2 && !HasModuleDependency(plugin.dependencies) {
      noModules := [NoModuleDependencies(descriptorPath)];
    }
    var sinceBuild := plugin.sinceBuild;
    var untilBuild := plugin.untilBuild;
    var inverted: seq<ProblemKind> := [];
    if sinceBuild.Some? && untilBuild.Some? && Less(untilBuild.value, sinceBuild.value) {
      inverted := [SinceBuildGreaterThanUntilBuild(descriptorPath, sinceBuild.value, untilBuild.value)];
    }
    var listeners: seq<ProblemKind> := [];
    if sinceBuild.Some? && Less(sinceBuild.value, Version193) {
      if plugin.appContainerDescriptor.listeners != [] {
        listeners := listeners + [ElementAvailableOnlySinceNewerVersion("applicationListeners", Version193, sinceBuild.value, untilBuild)];
      }
      if plugin.projectContainerDescriptor.listeners != [] {
        listeners := listeners + [ElementAvailableOnlySinceNewerVersion("projectListeners", Version193, sinceBuild.value, untilBuild)];
      }
    }
    assert listeners == ListenerProblems(plugin);
    kinds := DuplicateWarnings(plugin.dependencies) + (noModules + inverted + listeners);
  }

  /** `validateDependencies`: at most one problem per dependency, by the first rule that applies. */
  method ValidateDependencies(descriptorPath: string, dependencies: seq<PluginDependencyBean>) returns (problems: seq<ProblemKind>)
    ensures problems == DependencyProblems(descriptorPath, dependencies)
  {
    problems := [];
    var i := 0;
    while i < |dependencies|
      invariant 0 <= i <= |dependencies|
      invariant problems == DependencyProblems(descriptorPath, dependencies[..i])
    {
      assert dependencies[..i + 1][..i] == dependencies[..i];
      var problem := ValidateDependency(descriptorPath, dependencies[i]);
      problems := problems + problem.ToSeq();
      i := i + 1;
    }
    assert dependencies[..i] == dependencies;
  }

  class PluginCreator {
    const pluginFileName: string
    const descriptorPath: string
    /** The `pluginId` of the parent creator, which is complete before its children are created. */
    const parentPluginId: Option<string>
    const env: ValidationEnv
    const levels: Levels

    var plugin: IdePlugin
    var problems: seq<PluginProblem>
    var optionalDependenciesConfigFiles: map<PluginDependency, string>
    var contentModules: seq<ContentModule>

    function State(): CreatorState
      reads this
    {
      CreatorState(plugin, problems, optionalDependenciesConfigFiles, contentModules)
    }

    constructor(pluginFileName: string, descriptorPath: string, parentPluginId: Option<string>, env: ValidationEnv, levels: Levels)
      ensures this.pluginFileName == pluginFileName && this.descriptorPath == descriptorPath
      ensures this.parentPluginId == parentPluginId && this.env == env && this.levels == levels
      ensures State() == InitialState
    {
      this.pluginFileName := pluginFileName;
      this.descriptorPath := descriptorPath;
      this.parentPluginId := parentPluginId;
      this.env := env;
      this.levels := levels;
      plugin := NewIdePlugin();
      problems := [];
      optionalDependenciesConfigFiles := map[];
      contentModules := [];
    }

    /** `createInvalidPlugin`: a creator holding a single error, which therefore fails. */
    constructor Invalid(pluginFileName: string, descriptorPath: string, env: ValidationEnv, levels: Levels, singleProblem: PluginProblem)
      requires singleProblem.level == Error
      ensures this.pluginFileName == pluginFileName && this.descriptorPath == descriptorPath && parentPluginId.None?
      ensures State() == InitialState.(problems := [singleProblem])
      ensures PluginCreationResult() == CreationFail([singleProblem])
    {
      this.pluginFileName := pluginFileName;
      this.descriptorPath := descriptorPath;
      this.parentPluginId := None;
      this.env := env;
      this.levels := levels;
      plugin := NewIdePlugin();
      problems := [];
      optionalDependenciesConfigFiles := map[];
      contentModules := [];
      new;
      RegisterProblem(singleProblem);
      assert problems[0].level == Error;
    }

    /** `pluginId`: the plugin's own id, else the parent's. */
    function PluginId(): Option<string>
      reads this
    {
      IdOrParent(plugin, parentPluginId)
    }

    /** `isSuccess`. */
    predicate IsSuccess()
      reads this
    {
      !HasErrors(problems)
    }

    /** `pluginCreationResult`. */
    function PluginCreationResult(): (r: CreationResult)
      reads this
      ensures r.CreationSuccess? <==> IsSuccess()
    {
      CreationResultOf(plugin, problems)
    }

    method RegisterProblem(problem: PluginProblem)
      modifies this
      ensures State() == old(State()).(problems := old(problems) + [problem])
    {
      problems := problems + [problem];
    }

    /** Registers each kind in turn, with its level. */
    method RegisterAll(kinds: seq<ProblemKind>)
      modifies this
      ensures plugin == old(plugin) && optionalDependenciesConfigFiles == old(optionalDependenciesConfigFiles)
      ensures contentModules == old(contentModules)
      ensures problems == old(problems) + WithLevels(levels, kinds)
    {
      problems := problems + WithLevels(levels, kinds);
    }

    /** `validatePluginBean`: the property checks, then the dependencies, then the modules. */
    method ValidatePluginBean(bean: PluginBean, validateDescriptor: bool)
      modifies this
      ensures State() == old(State()).(problems := old(problems) + WithLevels(levels, BeanProblems(env, descriptorPath, bean, validateDescriptor)))
    {
      var kinds := CheckBean(env, descriptorPath, bean, validateDescriptor);
      RegisterAll(kinds);
    }

    /** Lines 208-300 of `setInfoFromBean`: the fields taken from the bean. */
    method SetBeanInfo(bean: PluginBean)
      modifies this
      ensures State() == BeanInfoStep(old(State()), env, bean)
    {
      var p := BeanFields(plugin, bean, env.parseVersion);
      var configFiles := optionalDependenciesConfigFiles;
      var declared: seq<PluginDependency> := [];
      if bean.dependencies.Some? {
        declared, configFiles := ReadDependencies(bean.dependencies.value, configFiles);
      }
      var v2: seq<PluginDependency> := [];
      if bean.dependenciesV2.Some? {
        v2 := ReadDependenciesV2(bean.dependenciesV2.value);
      }
      p := p.(dependencies := p.dependencies + declared + v2);
      var modules := contentModules;
      if bean.pluginContent.Some? {
        var read := ReadContentModules(bean.pluginContent.value);
        modules := modules + read;
      }
      plugin := BeanTailFields(p, bean);
      optionalDependenciesConfigFiles := configFiles;
      contentModules := modules;
    }

    /** Lines 302-313 of `setInfoFromBean`: actions, extensions, extension points, listeners, components. */
    method ReadElements(root: Element)
      modifies this
      ensures State() == ElementsStep(old(State()), parentPluginId, levels, root)
    {
      var p, applicationProblems, projectProblems := ReadPluginElements(plugin, root, parentPluginId);
      WithLevelsAppend(levels, applicationProblems, projectProblems);
      plugin := p;
      problems := problems + WithLevels(levels, applicationProblems + projectProblems);
    }

    /** `setInfoFromBean`: the bean's fields, then everything the element readers find. */
    method SetInfoFromBean(bean: PluginBean, root: Element)
      modifies this
      ensures State() == InfoFromBeanStep(old(State()), parentPluginId, env, levels, bean, root)
    {
      SetBeanInfo(bean);
      ReadElements(root);
    }

    /**
     * `readPluginThemes`: each theme path is resolved from the plugin root; a missing or
     * unresolvable theme is reported, and one that cannot be parsed is reported and ends the
     * reading, which then reports that it did not complete.
     */
    method ReadPluginThemes(resolveTheme: string -> ThemeOutcome) returns (completed: bool)
      modifies this
      ensures var themes := ThemeProblems(descriptorPath, ThemePaths(old(plugin)), resolveTheme);
        completed == themes.1 && State() == old(State()).(problems := old(problems) + WithLevels(levels, themes.0))
    {
      var reported;
      reported, completed := ResolveThemes(descriptorPath, ThemePaths(plugin), resolveTheme);
      RegisterAll(reported);
    }

    /**
     * `validatePlugin`: duplicated dependency ids, a v1 plugin without module dependencies, an
     * inverted build range, and listeners declared for builds before 193.
     */
    method ValidatePlugin()
      modifies this
      ensures State() == old(State()).(problems := old(problems) + WithLevels(levels, AssembledPluginProblems(descriptorPath, plugin)))
    {
      var kinds := CheckAssembledPlugin(descriptorPath, plugin);
      RegisterAll(kinds);
    }

    /** `resolveDocumentAndValidateBean`, with the outcomes of the steps outside the model as parameters. */
    method ResolveDocumentAndValidateBean(
      document: Outcome<Element>, extractBean: Element -> Outcome<PluginBean>, validateDescriptor: bool,
      resolveTheme: string -> ThemeOutcome)
      modifies this
      ensures State() == Resolved(old(State()), descriptorPath, parentPluginId, env, levels, document, extractBean, validateDescriptor, resolveTheme)
    {
      if document.Failed? {
        RegisterProblem(NewProblem(levels, XIncludeResolutionErrors(descriptorPath, document.message)));
        return;
      }
      var root := document.value;
      var bean := extractBean(root);
      if bean.Failed? {
        RegisterProblem(NewProblem(levels, UnableToReadDescriptor(descriptorPath, bean.message)));
        return;
      }
      ValidatePluginBean(bean.value, validateDescriptor);
      if HasErrors(problems) {
        return;
      }
      SetInfoFromBean(bean.value, root);
      var completed := ReadPluginThemes(resolveTheme);
      if !completed {
        return;
      }
      ValidatePlugin();
    }

    /** `addOptionalDescriptor`: a successful optional plugin is recorded and merged; a failed one is reported with its errors. */
    method AddOptionalDescriptor(pluginDependency: PluginDependency, configurationFile: string, optionalDependencyCreator: PluginCreator)
      modifies this
      ensures var result := old(optionalDependencyCreator.PluginCreationResult());
        && (result.CreationSuccess? ==> State() == old(State()).(plugin := MergeContent(
              old(plugin).(optionalDescriptors := old(plugin).optionalDescriptors + [OptionalPluginDescriptor(pluginDependency, result.plugin, configurationFile)]),
              result.plugin)))
        && (result.CreationFail? ==> State() == old(State()).(problems := old(problems) + [NewProblem(levels,
              OptionalDependencyDescriptorResolutionProblem(pluginDependency.id, configurationFile, Errors(result.errorsAndWarnings)))]))
    {
      var pluginCreationResult := optionalDependencyCreator.PluginCreationResult();
      if pluginCreationResult.CreationSuccess? {
        var optionalPlugin := pluginCreationResult.plugin;
        plugin := plugin.(optionalDescriptors := plugin.optionalDescriptors + [OptionalPluginDescriptor(pluginDependency, optionalPlugin, configurationFile)]);
        plugin := MergeContent(plugin, optionalPlugin);
      } else {
        var errors := Errors(pluginCreationResult.errorsAndWarnings);
        RegisterProblem(NewProblem(levels, OptionalDependencyDescriptorResolutionProblem(pluginDependency.id, configurationFile, errors)));
      }
    }

    /**
     * `addModuleDescriptor`: a successful v2 module adds the dependencies the plugin lacks,
     * optional, records the module and merges its content; a successful v1 module is ignored;
     * a failed one is reported with its errors.
     */
    method AddModuleDescriptor(moduleName: string, configurationFile: string, moduleCreator: PluginCreator)
      modifies this
      ensures var result := old(moduleCreator.PluginCreationResult());
        && (result.CreationSuccess? && result.plugin.isV2 ==> State() == old(State()).(plugin := MergeContent(
              old(plugin).(
                dependencies := AddModuleDependencies(old(plugin).dependencies, result.plugin.dependencies),
                modulesDescriptors := old(plugin).modulesDescriptors + [ModuleDescriptor(moduleName, result.plugin.dependencies, result.plugin, configurationFile)]),
              result.plugin)))
        && (result.CreationSuccess? && !result.plugin.isV2 ==> State() == old(State()))
        && (result.CreationFail? ==> State() == old(State()).(problems := old(problems) + [NewProblem(levels,
              ModuleDescriptorResolutionProblem(moduleName, configurationFile, Errors(result.errorsAndWarnings)))]))
    {
      var pluginCreationResult := moduleCreator.PluginCreationResult();
      if pluginCreationResult.CreationSuccess? {
        if pluginCreationResult.plugin.isV2 {
          var modulePlugin := pluginCreationResult.plugin;
          var dependencies := plugin.dependencies;
          var i := 0;
          while i < |modulePlugin.dependencies|
            invariant 0 <= i <= |modulePlugin.dependencies|
            invariant dependencies == AddModuleDependencies(old(plugin).dependencies, modulePlugin.dependencies[..i])
          {
            var pluginDependency := modulePlugin.dependencies[i];
            if pluginDependency.id !in DependencyIds(dependencies) {
              dependencies := dependencies + [PluginDependency(pluginDependency.id, true, pluginDependency.isModule)];
            }
            assert modulePlugin.dependencies[..i + 1][..i] == modulePlugin.dependencies[..i];
            i := i + 1;
          }
          assert modulePlugin.dependencies[..i] == modulePlugin.dependencies;
          plugin := plugin.(
            dependencies := dependencies,
            modulesDescriptors := plugin.modulesDescriptors + [ModuleDescriptor(moduleName, modulePlugin.dependencies, modulePlugin, configurationFile)]);
          plugin := MergeContent(plugin, modulePlugin);
        }
      } else {
        var errors := Errors(pluginCreationResult.errorsAndWarnings);
        RegisterProblem(NewProblem(levels, ModuleDescriptorResolutionProblem(moduleName, configurationFile, errors)));
      }
    }

    method RegisterOptionalDependenciesConfigurationFilesCycleProblem(configurationFileCycle: seq<string>)
      modifies this
      ensures State() == old(State()).(problems := old(problems) + [NewProblem(levels, OptionalDependencyDescriptorCycleProblem(descriptorPath, configurationFileCycle))])
    {
      RegisterProblem(NewProblem(levels, OptionalDependencyDescriptorCycleProblem(descriptorPath, configurationFileCycle)));
    }

    method SetIcons(icons: seq<PluginIcon>)
      modifies this
      ensures State() == old(State()).(plugin := old(plugin).(icons := icons))
    {
      plugin := plugin.(icons := icons);
    }

    method SetPluginVersion(pluginVersion: string)
      modifies this
      ensures State() == old(State()).(plugin := old(plugin).(pluginVersion := Some(pluginVersion)))
    {
      plugin := plugin.(pluginVersion := Some(pluginVersion));
    }
  }

  /** `createPlugin`: a fresh creator that has resolved its descriptor. */
  method CreatePlugin(
    pluginFileName: string, descriptorPath: string, parentPluginId: Option<string>, env: ValidationEnv, levels: Levels,
    validateDescriptor: bool, document: Outcome<Element>, extractBean: Element -> Outcome<PluginBean>,
    resolveTheme: string -> ThemeOutcome)
    returns (creator: PluginCreator)
    ensures fresh(creator)
    ensures creator.descriptorPath == descriptorPath && creator.parentPluginId == parentPluginId
    ensures creator.State() == Resolved(InitialState, descriptorPath, parentPluginId, env, levels, document, extractBean, validateDescriptor, resolveTheme)
  {
    creator := new PluginCreator(pluginFileName, descriptorPath, parentPluginId, env, levels);
    creator.ResolveDocumentAndValidateBean(document, extractBean, validateDescriptor, resolveTheme);
  }
}
