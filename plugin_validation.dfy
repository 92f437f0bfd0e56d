/**
 * The checks `PluginCreator` runs on a descriptor: the `validate*` functions on the bean
 * before the plugin is assembled, and `validatePlugin` on the assembled plugin. Each check is
 * the list of problem kinds it registers, in registration order.
 *
 * What the checks need from outside the model is collected in `ValidationEnv`: version
 * parsing (`IdeVersion.createIdeVersionIfValid`), the release-date and integer parsers, the
 * maximum name length, and the problems the HTML part of the description check reports.
 */
module PluginValidation {
  import opened Wrappers
  import opened Strings
  import opened IdeVersions
  import opened PluginProblems
  import opened PluginBeans
  import opened IdePlugins

  const MaxProductCodeLength: nat := 15
  const MaxVersionLength: nat := 64
  const MaxPropertyLength: nat := 255
  const MaxLongPropertyLength: nat := 65535

  const DefaultPluginId := "com.your.company.unique.plugin.id"
  const DefaultTemplateNames: seq<string> := ["Plugin display name here", "My Framework Support", "Template", "Demo"]
  const PluginNameRestrictedWords: seq<string> := [
    "plugin", "JetBrains", "IDEA", "PyCharm", "CLion", "AppCode", "DataGrip", "Fleet", "GoLand", "PhpStorm",
    "WebStorm", "Rider", "ReSharper", "TeamCity", "YouTrack", "RubyMine", "IntelliJ"]
  const DefaultChangeNotesPhrases: seq<string> := ["Add change notes here", "most HTML tags may be used"]
  const TemplateVendorName := "YourCompany"
  const TemplateVendorUrl := "https://www.yourcompany.com"
  const TemplateVendorEmail := "support@yourcompany.com"

  /** What the checks take from code outside the model. */
  datatype ValidationEnv = ValidationEnv(
    maxNameLength: nat,
    parseVersion: string -> Option<IdeVersion>,
    isReleaseDate: string -> bool,
    isInteger: string -> bool,
    descriptionTextProblems: string -> seq<ProblemKind>)

  /** `validatePropertyLength`: a problem only when the value is strictly longer than the limit. */
  function PropertyLength(path: string, propertyName: string, value: string, maxLength: nat): (r: seq<ProblemKind>)
    ensures r != [] <==> |value| > maxLength
    ensures r != [] ==> r == [TooLongPropertyValue(path, propertyName, |value|, maxLength)]
  {
    if |value| > maxLength then [TooLongPropertyValue(path, propertyName, |value|, maxLength)] else []
  }

  /** `validateNewlines`: a problem exactly when a line feed survives trimming. */
  function Newlines(path: string, propertyName: string, value: string): (r: seq<ProblemKind>)
    ensures r != [] <==> Contains(Trim(value), "\n")
    ensures r != [] ==> r == [ContainsNewlines(propertyName, path)]
  {
    if Contains(Trim(value), "\n") then [ContainsNewlines(propertyName, path)] else []
  }

  /** `validateBeanUrl`. */
  function UrlProblems(path: string, url: Option<string>): (r: seq<ProblemKind>)
    ensures r != [] <==> url.Some? && |url.value| > MaxPropertyLength
  {
    if url.Some? then PropertyLength(path, "plugin url", url.value, MaxPropertyLength) else []
  }

  /** `validateId`: nothing for an absent id, one problem for a blank or template id, else length and newlines. */
  function IdProblems(path: string, id: Option<string>): (r: seq<ProblemKind>)
    ensures id.None? ==> r == []
    ensures id.Some? && IsBlank(id.value) ==> r == [PropertyNotSpecified("id", None)]
    ensures id == Some(DefaultPluginId) ==> r == [PropertyWithDefaultValue(path, DefaultId, DefaultPluginId)]
  {
    assert !IsWhitespace(DefaultPluginId[0]);
    match id
    case None => []
    case Some(value) =>
      if IsBlank(value) then [PropertyNotSpecified("id", None)]
      else if value == DefaultPluginId then [PropertyWithDefaultValue(path, DefaultId, value)]
      else PropertyLength(path, "id", value, MaxPropertyLength) + Newlines(path, "id", value)
  }

  /** Any other id is reported too long, or holding a newline, exactly when it is. */
  lemma IdProblemsOfPlainId(path: string, id: Option<string>)
    requires id.Some? && !IsBlank(id.value) && id.value != DefaultPluginId
    ensures var r := IdProblems(path, id);
      && |r| <= 2
      && (TooLongPropertyValue(path, "id", |id.value|, MaxPropertyLength) in r <==> |id.value| > MaxPropertyLength)
      && (ContainsNewlines("id", path) in r <==> Contains(Trim(id.value), "\n"))
    ensures IdProblems(path, id) ==
      PropertyLength(path, "id", id.value, MaxPropertyLength) + Newlines(path, "id", id.value)
  {
    var l := PropertyLength(path, "id", id.value, MaxPropertyLength);
    var n := Newlines(path, "id", id.value);
    assert IdProblems(path, id) == l + n;
  }

  /** The position in `words` of the first word that `name` contains, ignoring case (`find`). */
  function FirstContained(words: seq<string>, name: string): (r: Option<nat>)
    ensures r.Some? ==> r.value < |words| && ContainsIgnoreCase(name, words[r.value])
    ensures r.Some? ==> forall j :: 0 <= j < r.value ==> !ContainsIgnoreCase(name, words[j])
    ensures r.None? <==> forall j :: 0 <= j < |words| ==> !ContainsIgnoreCase(name, words[j])
  {
    if |words| == 0 then None
    else if ContainsIgnoreCase(name, words[0]) then Some(0)
    else match FirstContained(words[1..], name)
      case None => None
      case Some(k) => Some(k + 1)
  }

  predicate IsTemplateName(name: string) {
    exists k :: 0 <= k < |DefaultTemplateNames| && EqualsIgnoreCase(DefaultTemplateNames[k], name)
  }

  /**
   * `validateName`: a blank name and a template name give one problem each; any other name is
   * checked for the first restricted word, its length and newlines, in that order.
   */
  function NameProblems(env: ValidationEnv, path: string, name: Option<string>): (r: seq<ProblemKind>)
    ensures IsNullOrBlank(name) ==> r == [PropertyNotSpecified("name", Some(path))]
    ensures !IsNullOrBlank(name) && IsTemplateName(name.value) ==> r == [PropertyWithDefaultValue(path, DefaultName, name.value)]
  {
    if IsNullOrBlank(name) then [PropertyNotSpecified("name", Some(path))]
    else if IsTemplateName(name.value) then [PropertyWithDefaultValue(path, DefaultName, name.value)]
    else
      TemplateWordProblems(path, name.value) + PropertyLength(path, "name", name.value, env.maxNameLength) + Newlines(path, "name", name.value)
  }

  /** The restricted-word check of `validateName`: only the first restricted word contained is reported. */
  function TemplateWordProblems(path: string, name: string): (r: seq<ProblemKind>)
    ensures |r| <= 1
    ensures forall w :: TemplateWordInPluginName(path, w) in r ==> w in PluginNameRestrictedWords && ContainsIgnoreCase(name, w)
    ensures r != [] <==> exists k :: 0 <= k < |PluginNameRestrictedWords| && ContainsIgnoreCase(name, PluginNameRestrictedWords[k])
    ensures r != [] ==>
      exists k :: && 0 <= k < |PluginNameRestrictedWords|
                  && ContainsIgnoreCase(name, PluginNameRestrictedWords[k])
                  && (forall j :: 0 <= j < k ==> !ContainsIgnoreCase(name, PluginNameRestrictedWords[j]))
                  && r == [TemplateWordInPluginName(path, PluginNameRestrictedWords[k])]
  {
    var found := FirstContained(PluginNameRestrictedWords, name);
    if found.Some? then [TemplateWordInPluginName(path, PluginNameRestrictedWords[found.value])] else []
  }

  /**
   * A plain name gets at most one restricted-word problem, naming a restricted word it
   * contains, and gets one exactly when it contains any; that problem comes first.
   */
  lemma NameProblemsTemplateWord(env: ValidationEnv, path: string, name: Option<string>)
    requires !IsNullOrBlank(name) && !IsTemplateName(name.value)
    ensures var r := NameProblems(env, path, name);
      && |r| <= 3
      && (forall w :: TemplateWordInPluginName(path, w) in r ==> w in PluginNameRestrictedWords && ContainsIgnoreCase(name.value, w))
      && ((exists w :: TemplateWordInPluginName(path, w) in r) <==>
            exists k :: 0 <= k < |PluginNameRestrictedWords| && ContainsIgnoreCase(name.value, PluginNameRestrictedWords[k]))
    ensures var r := NameProblems(env, path, name);
      var t := TemplateWordProblems(path, name.value);
      |t| <= |r| && r[..|t|] == t
  {
    var t := TemplateWordProblems(path, name.value);
    var l := PropertyLength(path, "name", name.value, env.maxNameLength);
    var n := Newlines(path, "name", name.value);
    var r := t + l + n;
    assert NameProblems(env, path, name) == r;
    assert forall w :: TemplateWordInPluginName(path, w) in r ==> TemplateWordInPluginName(path, w) in t;
    if t != [] {
      assert TemplateWordInPluginName(path, t[0].templateWord) in r;
    }
  }

  /** A plain name is too long, or holds a newline, exactly when the matching problem is reported. */
  lemma NameProblemsLengthAndNewlines(env: ValidationEnv, path: string, name: Option<string>)
    requires !IsNullOrBlank(name) && !IsTemplateName(name.value)
    ensures var r := NameProblems(env, path, name);
      && (TooLongPropertyValue(path, "name", |name.value|, env.maxNameLength) in r <==> |name.value| > env.maxNameLength)
      && (ContainsNewlines("name", path) in r <==> Contains(Trim(name.value), "\n"))
  {
    var t := TemplateWordProblems(path, name.value);
    var l := PropertyLength(path, "name", name.value, env.maxNameLength);
    var n := Newlines(path, "name", name.value);
    var r := t + l + n;
    assert NameProblems(env, path, name) == r;
    assert forall x :: x in r <==> x in t || x in l || x in n;
  }

  /** `validateVersion`: required when validating strictly or when present; at most 64 characters. */
  function VersionProblems(path: string, pluginVersion: Option<string>, validateDescriptor: bool): (r: seq<ProblemKind>)
    ensures !validateDescriptor && pluginVersion.None? ==> r == []
    ensures (validateDescriptor || pluginVersion.Some?) && IsNullOrEmpty(pluginVersion) ==>
      r == [PropertyNotSpecified("version", Some(path))]
    ensures pluginVersion.Some? && pluginVersion.value != "" ==>
      (r != [] <==> |pluginVersion.value| > MaxVersionLength)
  {
    if !validateDescriptor && pluginVersion.None? then []
    else if IsNullOrEmpty(pluginVersion) then [PropertyNotSpecified("version", Some(path))]
    else PropertyLength(path, "version", pluginVersion.value, MaxVersionLength)
  }

  /**
   * `validateDescription`: required when validating strictly or when present; an empty one
   * gives only `PropertyNotSpecified`; otherwise the length check comes first, then the
   * problems the HTML text analysis reports (given by the environment).
   */
  function DescriptionProblems(env: ValidationEnv, path: string, htmlDescription: Option<string>, validateDescriptor: bool)
    : (r: seq<ProblemKind>)
    ensures !validateDescriptor && htmlDescription.None? ==> r == []
    ensures (validateDescriptor || htmlDescription.Some?) && IsNullOrEmpty(htmlDescription) ==>
      r == [PropertyNotSpecified("description", Some(path))]
    ensures htmlDescription.Some? && htmlDescription.value != "" ==>
      r == PropertyLength(path, "description", htmlDescription.value, MaxLongPropertyLength)
        + env.descriptionTextProblems(htmlDescription.value)
  {
    if !validateDescriptor && htmlDescription.None? then []
    else if IsNullOrEmpty(htmlDescription) then [PropertyNotSpecified("description", Some(path))]
    else
      var d := htmlDescription.value;
      PropertyLength(path, "description", d, MaxLongPropertyLength) + env.descriptionTextProblems(d)
  }

  predicate HasDefaultChangeNotesPhrase(notes: string) {
    Contains(notes, DefaultChangeNotesPhrases[0]) || Contains(notes, DefaultChangeNotesPhrases[1])
  }

  /** `validateChangeNotes`: blank notes are fine; otherwise template phrases, then the length. */
  function ChangeNotesProblems(path: string, changeNotes: Option<string>): (r: seq<ProblemKind>)
    ensures IsNullOrBlank(changeNotes) ==> r == []
    ensures !IsNullOrBlank(changeNotes) ==>
      && |r| <= 2
      && (DefaultChangeNotes(path) in r <==> HasDefaultChangeNotesPhrase(changeNotes.value))
      && ((TooLongPropertyValue(path, "<change-notes>", |changeNotes.value|, MaxLongPropertyLength) in r)
          <==> |changeNotes.value| > MaxLongPropertyLength)
  {
    if IsNullOrBlank(changeNotes) then []
    else
      var notes := changeNotes.value;
      (if HasDefaultChangeNotesPhrase(notes) then [DefaultChangeNotes(path)] else [])
        + PropertyLength(path, "<change-notes>", notes, MaxLongPropertyLength)
  }

  /** A vendor property left at the plugin template's value. */
  function TemplateValue(path: string, property: DefaultProperty, value: Option<string>, template: string): (r: seq<ProblemKind>)
    ensures r != [] <==> value == Some(template)
    ensures r != [] ==> r == [PropertyWithDefaultValue(path, property, template)]
  {
    if value == Some(template) then [PropertyWithDefaultValue(path, property, template)] else []
  }

  function OptionalLength(path: string, propertyName: string, value: Option<string>): (r: seq<ProblemKind>)
    ensures r != [] <==> value.Some? && |value.value| > MaxPropertyLength
  {
    if value.Some? then PropertyLength(path, propertyName, value.value, MaxPropertyLength) else []
  }

  /**
   * `validateVendor`: a missing vendor or a blank vendor name gives one problem; otherwise
   * each of name, url and email is compared with the template's value and then length-checked.
   */
  function VendorProblems(path: string, vendor: Option<PluginVendorBean>): (r: seq<ProblemKind>)
    ensures vendor.None? || IsNullOrBlank(vendor.value.name) ==> r == [PropertyNotSpecified("vendor", Some(path))]
  {
    if vendor.None? || IsNullOrBlank(vendor.value.name) then [PropertyNotSpecified("vendor", Some(path))]
    else
      var v := vendor.value;
      TemplateValue(path, DefaultVendor, v.name, TemplateVendorName)
        + PropertyLength(path, "vendor", v.name.value, MaxPropertyLength)
        + TemplateValue(path, DefaultVendorUrl, v.url, TemplateVendorUrl)
        + OptionalLength(path, "vendor url", v.url)
        + TemplateValue(path, DefaultVendorEmail, v.email, TemplateVendorEmail)
        + OptionalLength(path, "vendor email", v.email)
  }

  /**
   * A named vendor: each template value is reported exactly when it is used, and nothing is
   * reported exactly when no value is a template value and none is too long. The checks run
   * name, url, email, each first against the template and then for its length.
   */
  lemma VendorProblemsOfNamedVendor(path: string, vendor: Option<PluginVendorBean>)
    requires vendor.Some? && !IsNullOrBlank(vendor.value.name)
    ensures var r := VendorProblems(path, vendor);
      && |r| <= 6
      && (PropertyWithDefaultValue(path, DefaultVendor, TemplateVendorName) in r <==> vendor.value.name == Some(TemplateVendorName))
      && (PropertyWithDefaultValue(path, DefaultVendorUrl, TemplateVendorUrl) in r <==> vendor.value.url == Some(TemplateVendorUrl))
      && (PropertyWithDefaultValue(path, DefaultVendorEmail, TemplateVendorEmail) in r <==> vendor.value.email == Some(TemplateVendorEmail))
      && (r == [] <==>
            && vendor.value.name != Some(TemplateVendorName) && |vendor.value.name.value| <= MaxPropertyLength
            && vendor.value.url != Some(TemplateVendorUrl) && (vendor.value.url.None? || |vendor.value.url.value| <= MaxPropertyLength)
            && vendor.value.email != Some(TemplateVendorEmail) && (vendor.value.email.None? || |vendor.value.email.value| <= MaxPropertyLength))
    ensures var v := vendor.value;
      VendorProblems(path, vendor) ==
        TemplateValue(path, DefaultVendor, v.name, TemplateVendorName)
        + PropertyLength(path, "vendor", v.name.value, MaxPropertyLength)
        + TemplateValue(path, DefaultVendorUrl, v.url, TemplateVendorUrl)
        + OptionalLength(path, "vendor url", v.url)
        + TemplateValue(path, DefaultVendorEmail, v.email, TemplateVendorEmail)
        + OptionalLength(path, "vendor email", v.email)
  {
  }

  /**
   * `validateSinceBuild`: a missing since-build, an unparseable one, a wildcard before branch
   * 130, a branch above 999 and a product-code prefix are each reported.
   */
  function SinceBuildProblems(env: ValidationEnv, path: string, sinceBuild: Option<string>): (r: seq<ProblemKind>)
    ensures sinceBuild.None? ==> r == [SinceBuildNotSpecified(path)]
    ensures sinceBuild.Some? && env.parseVersion(sinceBuild.value).None? ==> r == [InvalidSinceBuild(path, sinceBuild.value)]
    ensures sinceBuild.Some? && env.parseVersion(sinceBuild.value).Some? ==>
      var s := sinceBuild.value;
      var v := env.parseVersion(s).value;
      && |r| <= 3
      && (InvalidSinceBuild(path, s) in r <==> v.baselineVersion < 130 && EndsWith(s, ".*"))
      && (ErroneousSinceBuild(path, v) in r <==> v.baselineVersion > 999)
      && (ProductCodePrefixInBuild(path) in r <==> v.productCode != "")
  {
    match sinceBuild
    case None => [SinceBuildNotSpecified(path)]
    case Some(s) =>
      match env.parseVersion(s)
      case None => [InvalidSinceBuild(path, s)]
      case Some(v) =>
        (if v.baselineVersion < 130 && EndsWith(s, ".*") then [InvalidSinceBuild(path, s)] else [])
          + (if v.baselineVersion > 999 then [ErroneousSinceBuild(path, v)] else [])
          + (if v.productCode != "" then [ProductCodePrefixInBuild(path)] else [])
  }

  /**
   * `validateUntilBuild`: an unparseable until-build is invalid; a branch above 999 is
   * erroneous, one in 401..999 suspicious (never both); a product-code prefix is reported.
   */
  function UntilBuildProblems(env: ValidationEnv, path: string, untilBuild: string): (r: seq<ProblemKind>)
    ensures env.parseVersion(untilBuild).None? ==> r == [InvalidUntilBuild(path, untilBuild)]
    ensures env.parseVersion(untilBuild).Some? ==>
      var v := env.parseVersion(untilBuild).value;
      && |r| <= 2
      && (ErroneousUntilBuild(path, v) in r <==> v.baselineVersion > 999)
      && (SuspiciousUntilBuild(untilBuild) in r <==> 400 < v.baselineVersion <= 999)
      && (ProductCodePrefixInBuild(path) in r <==> v.productCode != "")
  {
    match env.parseVersion(untilBuild)
    case None => [InvalidUntilBuild(path, untilBuild)]
    case Some(v) =>
      (if v.baselineVersion > 999 then [ErroneousUntilBuild(path, v)]
       else if v.baselineVersion > 400 then [SuspiciousUntilBuild(untilBuild)]
       else [])
        + (if v.productCode != "" then [ProductCodePrefixInBuild(path)] else [])
  }

  /** `validateIdeaVersion`: `<idea-version>` is required; since-build always checked, until-build when present. */
  function IdeaVersionProblems(env: ValidationEnv, path: string, versionBean: Option<IdeaVersionBean>): (r: seq<ProblemKind>)
    ensures versionBean.None? ==> r == [PropertyNotSpecified("idea-version", Some(path))]
    ensures versionBean.Some? && versionBean.value.untilBuild.None? ==>
      r == SinceBuildProblems(env, path, versionBean.value.sinceBuild)
    ensures versionBean.Some? && versionBean.value.untilBuild.Some? ==>
      r == SinceBuildProblems(env, path, versionBean.value.sinceBuild) + UntilBuildProblems(env, path, versionBean.value.untilBuild.value)
  {
    match versionBean
    case None => [PropertyNotSpecified("idea-version", Some(path))]
    case Some(bean) =>
      SinceBuildProblems(env, path, bean.sinceBuild)
        + (if bean.untilBuild.Some? then UntilBuildProblems(env, path, bean.untilBuild.value) else [])
  }

  /** `validateProductCode`: required, at most 15 characters. */
  function ProductCodeProblems(path: string, code: Option<string>): (r: seq<ProblemKind>)
    ensures IsNullOrEmpty(code) ==> r == [PropertyNotSpecified("code", Some(path))]
    ensures !IsNullOrEmpty(code) ==> (r != [] <==> |code.value| > MaxProductCodeLength)
  {
    if IsNullOrEmpty(code) then [PropertyNotSpecified("code", Some(path))]
    else PropertyLength(path, "Product code", code.value, MaxProductCodeLength)
  }

  /** `validateReleaseDate`: required, and must parse as a `yyyyMMdd` date. */
  function ReleaseDateProblems(env: ValidationEnv, path: string, releaseDate: Option<string>): (r: seq<ProblemKind>)
    ensures IsNullOrEmpty(releaseDate) ==> r == [PropertyNotSpecified("release-date", Some(path))]
    ensures !IsNullOrEmpty(releaseDate) ==> (r != [] <==> !env.isReleaseDate(releaseDate.value))
    ensures !IsNullOrEmpty(releaseDate) && r != [] ==> r == [ReleaseDateWrongFormat]
  {
    if IsNullOrEmpty(releaseDate) then [PropertyNotSpecified("release-date", Some(path))]
    else if !env.isReleaseDate(releaseDate.value) then [ReleaseDateWrongFormat]
    else []
  }

  /** `validateReleaseVersion`: required, and must parse as an `Integer`. */
  function ReleaseVersionProblems(env: ValidationEnv, path: string, releaseVersion: Option<string>): (r: seq<ProblemKind>)
    ensures IsNullOrEmpty(releaseVersion) ==> r == [PropertyNotSpecified("release-version", Some(path))]
    ensures !IsNullOrEmpty(releaseVersion) ==> (r != [] <==> !env.isInteger(releaseVersion.value))
    ensures !IsNullOrEmpty(releaseVersion) && r != [] ==> r == [NotNumber("release-version", path)]
  {
    if IsNullOrEmpty(releaseVersion) then [PropertyNotSpecified("release-version", Some(path))]
    else if !env.isInteger(releaseVersion.value) then [NotNumber("release-version", path)]
    else []
  }

  /** `validateBooleanFlag`, applied only to a flag that is present: exactly `true` or `false`. */
  function BooleanFlagProblems(path: string, flag: Option<string>, flagName: string): (r: seq<ProblemKind>)
    ensures r != [] <==> flag.Some? && flag.value != "true" && flag.value != "false"
    ensures r != [] ==> r == [NotBoolean(flagName, path)]
  {
    if flag.Some? && flag.value != "true" && flag.value != "false" then [NotBoolean(flagName, path)] else []
  }

  /** `validateProductDescriptor`: nothing without a product descriptor; otherwise its five checks in order. */
  function ProductDescriptorProblems(env: ValidationEnv, path: string, descriptor: Option<ProductDescriptorBean>)
    : (r: seq<ProblemKind>)
    ensures descriptor.None? ==> r == []
    ensures descriptor.Some? ==> (r == ProductCodeProblems(path, descriptor.value.code)
      + ReleaseDateProblems(env, path, descriptor.value.releaseDate)
      + ReleaseVersionProblems(env, path, descriptor.value.releaseVersion)
      + BooleanFlagProblems(path, descriptor.value.eap, "eap")
      + BooleanFlagProblems(path, descriptor.value.optional, "optional"))
  {
    match descriptor
    case None => []
    case Some(d) =>
      ProductCodeProblems(path, d.code)
        + ReleaseDateProblems(env, path, d.releaseDate)
        + ReleaseVersionProblems(env, path, d.releaseVersion)
        + BooleanFlagProblems(path, d.eap, "eap")
        + BooleanFlagProblems(path, d.optional, "optional")
  }

  /**
   * The rule `validateDependencies` applies to one `<depends>`: at most one problem, the first
   * that applies of an invalid id, an optional dependency without a config file, and a
   * superfluous `optional="false"`.
   */
  function DependencyProblem(path: string, dependency: PluginDependencyBean): (r: Option<ProblemKind>)
    ensures IsNullOrBlank(dependency.dependencyId) || Contains(dependency.dependencyId.value, "\n") ==>
      r == Some(InvalidDependencyId(path, dependency.dependencyId))
    ensures !IsNullOrBlank(dependency.dependencyId) && !Contains(dependency.dependencyId.value, "\n") ==>
      var id := dependency.dependencyId.value;
      && (dependency.optional == Some(true) && dependency.configFile.None? ==> r == Some(OptionalDependencyConfigFileNotSpecified(id)))
      && (dependency.optional == Some(false) ==> r == Some(SuperfluousNonOptionalDependencyDeclaration(id)))
      && (r.None? <==> dependency.optional.None? || (dependency.optional == Some(true) && dependency.configFile.Some?))
  {
    if IsNullOrBlank(dependency.dependencyId) || Contains(dependency.dependencyId.value, "\n") then
      Some(InvalidDependencyId(path, dependency.dependencyId))
    else if dependency.optional == Some(true) && dependency.configFile.None? then
      Some(OptionalDependencyConfigFileNotSpecified(dependency.dependencyId.value))
    else if dependency.optional == Some(false) then
      Some(SuperfluousNonOptionalDependencyDeclaration(dependency.dependencyId.value))
    else
      assert dependency.optional.Some? ==> dependency.optional.value;
      None
  }

  /** `validateDependencies`: the problems of the dependencies, one dependency after another. */
  function DependencyProblems(path: string, dependencies: seq<PluginDependencyBean>): (r: seq<ProblemKind>)
    ensures |r| <= |dependencies|
    decreases |dependencies|
  {
    if |dependencies| == 0 then []
    else
      var last := dependencies[|dependencies| - 1];
      DependencyProblems(path, dependencies[..|dependencies| - 1])
        + DependencyProblem(path, last).ToSeq()
  }

  /** Every dependency problem comes from one dependency, by the rule above. */
  lemma {:induction false} DependencyProblemsComeFromDependencies(path: string, dependencies: seq<PluginDependencyBean>)
    ensures forall p :: p in DependencyProblems(path, dependencies) ==>
      exists k :: 0 <= k < |dependencies| && DependencyProblem(path, dependencies[k]) == Some(p)
    ensures (DependencyProblems(path, dependencies) == []) <==>
      forall k :: 0 <= k < |dependencies| ==> DependencyProblem(path, dependencies[k]).None?
    decreases |dependencies|
  {
    if |dependencies| > 0 {
      var n := |dependencies| - 1;
      var init := dependencies[..n];
      DependencyProblemsComeFromDependencies(path, init);
      forall p | p in DependencyProblems(path, dependencies)
        ensures exists k :: 0 <= k < |dependencies| && DependencyProblem(path, dependencies[k]) == Some(p)
      {
        if p in DependencyProblems(path, init) {
          var k :| 0 <= k < |init| && DependencyProblem(path, init[k]) == Some(p);
          assert dependencies[k] == init[k];
        } else {
          assert DependencyProblem(path, dependencies[n]) == Some(p);
        }
      }
      if DependencyProblems(path, dependencies) == [] {
        forall k | 0 <= k < |dependencies|
          ensures DependencyProblem(path, dependencies[k]).None?
        {
          if k < n {
            assert dependencies[k] == init[k];
          }
        }
      }
      if forall k :: 0 <= k < |dependencies| ==> DependencyProblem(path, dependencies[k]).None? {
        forall k | 0 <= k < |init|
          ensures DependencyProblem(path, init[k]).None?
        {
          assert init[k] == dependencies[k];
        }
      }
    }
  }

  /** The `modules` check of `validatePluginBean`: an empty module name is an invalid module bean. */
  function ModuleProblems(path: string, modules: seq<string>): (r: seq<ProblemKind>)
    ensures r != [] <==> "" in modules
    ensures r != [] ==> r == [InvalidModuleBean(path)]
  {
    if "" in modules then [InvalidModuleBean(path)] else []
  }

  /**
   * `validatePluginBean`: each property check runs when validating strictly or when the
   * property is present; dependencies are checked when declared; modules always.
   */
  function BeanProblems(env: ValidationEnv, path: string, bean: PluginBean, validateDescriptor: bool): seq<ProblemKind> {
    PropertyProblems(env, path, bean, validateDescriptor)
      + (if bean.dependencies.Some? then DependencyProblems(path, bean.dependencies.value) else [])
      + ModuleProblems(path, bean.modules)
  }

  /** The property checks of `validatePluginBean`, each run when validating strictly or when the property is present. */
  function PropertyProblems(env: ValidationEnv, path: string, bean: PluginBean, validateDescriptor: bool): seq<ProblemKind> {
    (if validateDescriptor || bean.url.Some? then UrlProblems(path, bean.url) else [])
      + (if validateDescriptor || bean.id.Some? then IdProblems(path, bean.id) else [])
      + (if validateDescriptor || bean.name.Some? then NameProblems(env, path, bean.name) else [])
      + (if validateDescriptor || bean.pluginVersion.Some? then VersionProblems(path, bean.pluginVersion, validateDescriptor) else [])
      + (if validateDescriptor || bean.description.Some? then DescriptionProblems(env, path, bean.description, validateDescriptor) else [])
      + (if validateDescriptor || bean.changeNotes.Some? then ChangeNotesProblems(path, bean.changeNotes) else [])
      + (if validateDescriptor || bean.vendor.Some? then VendorProblems(path, bean.vendor) else [])
      + (if validateDescriptor || bean.ideaVersion.Some? then IdeaVersionProblems(env, path, bean.ideaVersion) else [])
      + (if validateDescriptor || bean.productDescriptor.Some? then ProductDescriptorProblems(env, path, bean.productDescriptor) else [])
  }

  /** A bean that declares nothing passes lenient validation. */
  lemma LenientValidationOfEmptyBean(env: ValidationEnv, path: string, bean: PluginBean)
    requires bean.url.None? && bean.id.None? && bean.name.None? && bean.pluginVersion.None?
    requires bean.description.None? && bean.changeNotes.None? && bean.vendor.None?
    requires bean.ideaVersion.None? && bean.productDescriptor.None? && bean.dependencies.None?
    requires "" !in bean.modules
    ensures BeanProblems(env, path, bean, false) == []
  {
  }

  /** Strict validation reports each missing required property. */
  lemma StrictValidationRequiresProperties(env: ValidationEnv, path: string, bean: PluginBean)
    ensures bean.name.None? ==> PropertyNotSpecified("name", Some(path)) in BeanProblems(env, path, bean, true)
    ensures bean.pluginVersion.None? ==> PropertyNotSpecified("version", Some(path)) in BeanProblems(env, path, bean, true)
    ensures bean.description.None? ==> PropertyNotSpecified("description", Some(path)) in BeanProblems(env, path, bean, true)
    ensures bean.vendor.None? ==> PropertyNotSpecified("vendor", Some(path)) in BeanProblems(env, path, bean, true)
    ensures bean.ideaVersion.None? ==> PropertyNotSpecified("idea-version", Some(path)) in BeanProblems(env, path, bean, true)
    ensures bean.ideaVersion.Some? && bean.ideaVersion.value.sinceBuild.None? ==>
      SinceBuildNotSpecified(path) in BeanProblems(env, path, bean, true)
  {
  }

  // ---------------------------------------------------------------------------------------
  // validatePlugin

  function DependencyIds(dependencies: seq<PluginDependency>): (r: seq<string>)
    ensures |r| == |dependencies| && forall k :: 0 <= k < |r| ==> r[k] == dependencies[k].id
  {
    seq(|dependencies|, k requires 0 <= k < |dependencies| => dependencies[k].id)
  }

  predicate OccursTwice(ids: seq<string>, x: string) {
    exists i, j :: 0 <= i < j < |ids| && ids[i] == x && ids[j] == x
  }

  /** The position of the first occurrence of `x`. */
  function FirstIndex(ids: seq<string>, x: string): (r: nat)
    requires x in ids
    ensures r < |ids| && ids[r] == x && x !in ids[..r]
    ensures forall j :: 0 <= j < r ==> ids[j] != x
  {
    if ids[0] == x then 0
    else
      var k := FirstIndex(ids[1..], x);
      assert ids[..k + 1] == [ids[0]] + ids[1..][..k];
      k + 1
  }

  /** The ids from position `k` on that occur first there and again later, in order. */
  function DuplicatesFrom(ids: seq<string>, k: nat): (r: seq<string>)
    requires k <= |ids|
    ensures forall x :: x in r <==> exists i :: k <= i < |ids| && ids[i] == x && x !in ids[..i] && x in ids[i + 1..]
    ensures forall a, b :: 0 <= a < b < |r| ==> r[a] != r[b]
    decreases |ids| - k
  {
    if k == |ids| then []
    else
      var rest := DuplicatesFrom(ids, k + 1);
      var x := ids[k];
      if x !in ids[..k] && x in ids[k + 1..] then
        forall y | y in rest
          ensures y != x
        {
          var i :| k + 1 <= i < |ids| && ids[i] == y && y !in ids[..i] && y in ids[i + 1..];
          assert ids[..i][k] == x;
        }
        var r := [x] + rest;
        forall a, b | 0 <= a < b < |r|
          ensures r[a] != r[b]
        {
          assert r[b] == rest[b - 1] && rest[b - 1] in rest;
          if a > 0 {
            assert r[a] == rest[a - 1];
          }
        }
        r
      else rest
  }

  /**
   * The ids reported by `validatePlugin`'s `groupingBy`/`eachCount`/`filterValues { it > 1 }`:
   * every id that occurs at least twice, each exactly once.
   */
  function DuplicatedIds(ids: seq<string>): (r: seq<string>)
    ensures forall x :: x in r <==> OccursTwice(ids, x)
    ensures forall a, b :: 0 <= a < b < |r| ==> r[a] != r[b]
  {
    var r := DuplicatesFrom(ids, 0);
    forall x
      ensures x in r <==> OccursTwice(ids, x)
    {
      if x in r {
        var i :| 0 <= i < |ids| && ids[i] == x && x !in ids[..i] && x in ids[i + 1..];
        var j :| 0 <= j < |ids[i + 1..]| && ids[i + 1..][j] == x;
        assert ids[i + 1 + j] == x;
      }
      if OccursTwice(ids, x) {
        var i, j :| 0 <= i < j < |ids| && ids[i] == x && ids[j] == x;
        var f := FirstIndex(ids, x);
        assert f <= i;
        assert ids[f + 1..][j - f - 1] == x;
      }
    }
    r
  }

  /** `plugin.dependencies.count { it.isModule } == 0`. */
  predicate HasModuleDependency(dependencies: seq<PluginDependency>) {
    exists k :: 0 <= k < |dependencies| && dependencies[k].isModule
  }

  /** The listener checks of `validatePlugin`: listener elements need branch 193. */
  function ListenerProblems(plugin: IdePlugin): (r: seq<ProblemKind>)
    ensures r != [] ==> plugin.sinceBuild.Some? && Less(plugin.sinceBuild.value, Version193)
    ensures |r| <= 2
    ensures plugin.sinceBuild.Some? && Less(plugin.sinceBuild.value, Version193) ==>
      && ((ElementAvailableOnlySinceNewerVersion("applicationListeners", Version193, plugin.sinceBuild.value, plugin.untilBuild) in r)
          <==> plugin.appContainerDescriptor.listeners != [])
      && ((ElementAvailableOnlySinceNewerVersion("projectListeners", Version193, plugin.sinceBuild.value, plugin.untilBuild) in r)
          <==> plugin.projectContainerDescriptor.listeners != [])
  {
    if plugin.sinceBuild.Some? && Less(plugin.sinceBuild.value, Version193) then
      var since := plugin.sinceBuild.value;
      (if plugin.appContainerDescriptor.listeners != [] then
         [ElementAvailableOnlySinceNewerVersion("applicationListeners", Version193, since, plugin.untilBuild)]
       else [])
        + (if plugin.projectContainerDescriptor.listeners != [] then
             [ElementAvailableOnlySinceNewerVersion("projectListeners", Version193, since, plugin.untilBuild)]
           else [])
    else []
  }

  /** The `DuplicatedDependencyWarning`s of `validatePlugin`, one per duplicated id. */
  function DuplicateWarnings(dependencies: seq<PluginDependency>): (r: seq<ProblemKind>)
    ensures forall id :: DuplicatedDependencyWarning(id) in r <==> OccursTwice(DependencyIds(dependencies), id)
    ensures forall a, b :: 0 <= a < b < |r| ==> r[a] != r[b]
    ensures forall p :: p in r ==> p.DuplicatedDependencyWarning?
  {
    var duplicates := DuplicatedIds(DependencyIds(dependencies));
    var r := seq(|duplicates|, k requires 0 <= k < |duplicates| => DuplicatedDependencyWarning(duplicates[k]));
    forall id | DuplicatedDependencyWarning(id) in r
      ensures OccursTwice(DependencyIds(dependencies), id)
    {
      var k :| 0 <= k < |r| && r[k] == DuplicatedDependencyWarning(id);
      assert duplicates[k] == id;
    }
    forall id | OccursTwice(DependencyIds(dependencies), id)
      ensures DuplicatedDependencyWarning(id) in r
    {
      var k :| 0 <= k < |duplicates| && duplicates[k] == id;
      assert r[k] == DuplicatedDependencyWarning(id);
    }
    r
  }

  /** The checks of `validatePlugin` after the duplicate warnings. */
  function RangeProblems(path: string, plugin: IdePlugin): (r: seq<ProblemKind>)
    ensures forall p :: p in r ==> !p.DuplicatedDependencyWarning?
    ensures NoModuleDependencies(path) in r <==> !plugin.isV2 && !HasModuleDependency(plugin.dependencies)
    ensures plugin.sinceBuild.Some? && plugin.untilBuild.Some? ==>
      ((SinceBuildGreaterThanUntilBuild(path, plugin.sinceBuild.value, plugin.untilBuild.value) in r)
      <==> Less(plugin.untilBuild.value, plugin.sinceBuild.value))
  {
    (if !plugin.isV2 && !HasModuleDependency(plugin.dependencies) then [NoModuleDependencies(path)] else [])
      + (if plugin.sinceBuild.Some? && plugin.untilBuild.Some? && Less(plugin.untilBuild.value, plugin.sinceBuild.value)
         then [SinceBuildGreaterThanUntilBuild(path, plugin.sinceBuild.value, plugin.untilBuild.value)]
         else [])
      + ListenerProblems(plugin)
  }

  /** `validatePlugin`: duplicated dependencies, missing module dependency, inverted range, early listeners. */
  function AssembledPluginProblems(path: string, plugin: IdePlugin): seq<ProblemKind> {
    DuplicateWarnings(plugin.dependencies) + RangeProblems(path, plugin)
  }

  /** A dependency id is reported as duplicated exactly when it is declared twice. */
  lemma DuplicatedDependenciesReported(path: string, plugin: IdePlugin, id: string)
    ensures DuplicatedDependencyWarning(id) in AssembledPluginProblems(path, plugin)
      <==> OccursTwice(DependencyIds(plugin.dependencies), id)
  {
    var warnings := DuplicateWarnings(plugin.dependencies);
    var rest := RangeProblems(path, plugin);
    assert DuplicatedDependencyWarning(id) !in rest;
    assert DuplicatedDependencyWarning(id) in warnings + rest <==> DuplicatedDependencyWarning(id) in warnings;
  }

  /** No duplicated dependency is reported twice. */
  lemma DuplicatedDependenciesReportedOnce(path: string, plugin: IdePlugin)
    ensures var r := AssembledPluginProblems(path, plugin);
      forall a, b :: 0 <= a < b < |r| && r[a].DuplicatedDependencyWarning? ==> r[a] != r[b]
  {
    DistinctWarningsFirst(DuplicateWarnings(plugin.dependencies), RangeProblems(path, plugin));
  }

  /** Distinct warnings followed by problems of other kinds: no warning appears twice. */
  lemma DistinctWarningsFirst(warnings: seq<ProblemKind>, rest: seq<ProblemKind>)
    requires forall a, b :: 0 <= a < b < |warnings| ==> warnings[a] != warnings[b]
    requires forall p :: p in rest ==> !p.DuplicatedDependencyWarning?
    ensures var r := warnings + rest;
      forall a, b :: 0 <= a < b < |r| && r[a].DuplicatedDependencyWarning? ==> r[a] != r[b]
  {
    var r := warnings + rest;
    forall a, b | 0 <= a < b < |r| && r[a].DuplicatedDependencyWarning?
      ensures r[a] != r[b]
    {
      if b < |warnings| {
        assert r[a] == warnings[a] && r[b] == warnings[b];
      } else {
        assert r[b] == rest[b - |warnings|] && rest[b - |warnings|] in rest;
      }
    }
  }

  /** `NoModuleDependencies` is reported exactly for a v1 plugin without a module dependency. */
  lemma NoModuleDependenciesIff(path: string, plugin: IdePlugin)
    ensures NoModuleDependencies(path) in AssembledPluginProblems(path, plugin)
      <==> !plugin.isV2 && !HasModuleDependency(plugin.dependencies)
  {
    assert NoModuleDependencies(path) !in DuplicateWarnings(plugin.dependencies);
  }

  /** An inverted build range is reported exactly when both bounds are set and since > until. */
  lemma InvertedRangeIff(path: string, plugin: IdePlugin)
    requires plugin.sinceBuild.Some? && plugin.untilBuild.Some?
    ensures SinceBuildGreaterThanUntilBuild(path, plugin.sinceBuild.value, plugin.untilBuild.value) in AssembledPluginProblems(path, plugin)
      <==> Less(plugin.untilBuild.value, plugin.sinceBuild.value)
  {
    var p := SinceBuildGreaterThanUntilBuild(path, plugin.sinceBuild.value, plugin.untilBuild.value);
    assert p !in DuplicateWarnings(plugin.dependencies);
  }
}
