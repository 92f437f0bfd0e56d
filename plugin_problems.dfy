/**
 * The problems the descriptor reader registers, their levels, and the two descriptor
 * resolution errors (`PluginDescriptorIsNotFound`, `MultiplePluginDescriptors`) with their
 * messages.
 *
 * The problem classes other than the descriptor resolution errors are not part of this
 * model, so neither are their levels: a `Levels` function, given by the caller, says which
 * of them is an error, a warning or an unacceptable warning.
 */
module PluginProblems {
  import opened Wrappers
  import opened Strings
  import opened IdeVersions

  datatype Level = Error | Warning | UnacceptableWarning

  /** `PropertyWithDefaultValue.DefaultProperty`. */
  datatype DefaultProperty = DefaultId | DefaultName | DefaultDescription | DefaultVendor | DefaultVendorUrl | DefaultVendorEmail

  /** `PluginDescriptorResolutionError` and its two subclasses. */
  datatype DescriptorResolutionError =
    | PluginDescriptorIsNotFound(descriptorPath: string)
    | MultiplePluginDescriptors(
        firstDescriptorPath: string, firstDescriptorContainingFileName: string,
        secondDescriptorPath: string, secondDescriptorContainingFileName: string)

  /** What went wrong; a `PluginProblem` is one of these with its level. */
  datatype ProblemKind =
    | PropertyNotSpecified(propertyName: string, specifiedIn: Option<string>)
    | PropertyWithDefaultValue(descriptorPath: string, property: DefaultProperty, value: string)
    | TemplateWordInPluginName(descriptorPath: string, templateWord: string)
    | TooLongPropertyValue(descriptorPath: string, propertyName: string, length: nat, maxLength: nat)
    | ContainsNewlines(propertyName: string, descriptorPath: string)
    | ShortOrNonLatinDescription
    | HttpLinkInDescription(link: string)
    | DefaultChangeNotes(descriptorPath: string)
    | SinceBuildNotSpecified(descriptorPath: string)
    | InvalidSinceBuild(descriptorPath: string, sinceBuild: string)
    | ErroneousSinceBuild(descriptorPath: string, sinceBuildVersion: IdeVersion)
    | ProductCodePrefixInBuild(descriptorPath: string)
    | InvalidUntilBuild(descriptorPath: string, untilBuild: string)
    | ErroneousUntilBuild(descriptorPath: string, untilBuildVersion: IdeVersion)
    | SuspiciousUntilBuild(untilBuild: string)
    | ReleaseDateWrongFormat
    | NotNumber(propertyName: string, descriptorPath: string)
    | NotBoolean(propertyName: string, descriptorPath: string)
    | InvalidDependencyId(descriptorPath: string, invalidId: Option<string>)
    | OptionalDependencyConfigFileNotSpecified(dependencyId: string)
    | SuperfluousNonOptionalDependencyDeclaration(dependencyId: string)
    | InvalidModuleBean(descriptorPath: string)
    | DuplicatedDependencyWarning(dependencyId: string)
    | NoModuleDependencies(descriptorPath: string)
    | SinceBuildGreaterThanUntilBuild(descriptorPath: string, since: IdeVersion, until: IdeVersion)
    | ElementAvailableOnlySinceNewerVersion(elementName: string, availableSince: IdeVersion, since: IdeVersion, untilIfAny: Option<IdeVersion>)
    | ElementMissingAttribute(elementName: string, attributeName: string)
    | OptionalDependencyDescriptorResolutionProblem(dependencyId: string, configurationFile: string, errors: seq<PluginProblem>)
    | ModuleDescriptorResolutionProblem(moduleName: string, configurationFile: string, errors: seq<PluginProblem>)
    | OptionalDependencyDescriptorCycleProblem(descriptorPath: string, configurationFileCycle: seq<string>)
    | XIncludeResolutionErrors(descriptorPath: string, message: string)
    | UnableToReadDescriptor(descriptorPath: string, message: string)
    | UnableToFindTheme(descriptorPath: string, themePath: string)
    | UnableToReadTheme(descriptorPath: string, themePath: string, message: string)
    | DescriptorResolution(error: DescriptorResolutionError)

  /** `PluginProblem`: what went wrong and how serious it is. */
  datatype PluginProblem = PluginProblem(kind: ProblemKind, level: Level)

  /** The levels of the problem classes whose definitions are not part of this model. */
  type Levels = ProblemKind -> Level

  /** `PluginDescriptorResolutionError.level`: every descriptor resolution error is an error. */
  function ResolutionErrorLevel(error: DescriptorResolutionError): (r: Level)
    ensures r == Error
  {
    Error
  }

  /** The level of a problem: fixed for descriptor resolution errors, given for the rest. */
  function LevelOf(levels: Levels, kind: ProblemKind): (r: Level)
    ensures kind.DescriptorResolution? ==> r == Error
    ensures !kind.DescriptorResolution? ==> r == levels(kind)
  {
    match kind
    case DescriptorResolution(error) => ResolutionErrorLevel(error)
    case _ => levels(kind)
  }

  function NewProblem(levels: Levels, kind: ProblemKind): PluginProblem {
    PluginProblem(kind, LevelOf(levels, kind))
  }

  /** Registering in two steps: `(a + b) + c` is `a + (b + c)`. */
  lemma AppendAssociative<T>(a: seq<T>, b: seq<T>, c: seq<T>)
    ensures a + b + c == a + (b + c)
  {
  }

  /** The problems registered for a list of kinds, in the same order. */
  function WithLevels(levels: Levels, kinds: seq<ProblemKind>): (r: seq<PluginProblem>)
    ensures |r| == |kinds|
    decreases |kinds|
  {
    if |kinds| == 0 then []
    else WithLevels(levels, kinds[..|kinds| - 1]) + [NewProblem(levels, kinds[|kinds| - 1])]
  }

  /** Each kind is registered as one problem with that kind's level, in place. */
  lemma {:induction false} WithLevelsAt(levels: Levels, kinds: seq<ProblemKind>, i: nat)
    requires i < |kinds|
    ensures WithLevels(levels, kinds)[i] == NewProblem(levels, kinds[i])
    decreases |kinds|
  {
    if i < |kinds| - 1 {
      WithLevelsAt(levels, kinds[..|kinds| - 1], i);
    }
  }

  /** Registering one kind registers one problem, with that kind's level. */
  lemma WithLevelsOne(levels: Levels, kind: ProblemKind)
    ensures WithLevels(levels, [kind]) == [NewProblem(levels, kind)]
  {
    assert [kind][..0] == [];
  }

  /** Registering two lists of kinds is registering the first, then the second. */
  lemma {:induction false} WithLevelsAppend(levels: Levels, a: seq<ProblemKind>, b: seq<ProblemKind>)
    ensures WithLevels(levels, a + b) == WithLevels(levels, a) + WithLevels(levels, b)
    decreases |b|
  {
    if |b| == 0 {
      assert a + b == a;
    } else {
      var init := b[..|b| - 1];
      var last := NewProblem(levels, b[|b| - 1]);
      assert (a + b)[..|a + b| - 1] == a + init;
      assert b[..|b| - 1] == init;
      calc {
        WithLevels(levels, a + b);
        WithLevels(levels, a + init) + [last];
        { WithLevelsAppend(levels, a, init); }
        (WithLevels(levels, a) + WithLevels(levels, init)) + [last];
        { AppendAssociative(WithLevels(levels, a), WithLevels(levels, init), [last]); }
        WithLevels(levels, a) + (WithLevels(levels, init) + [last]);
        WithLevels(levels, a) + WithLevels(levels, b);
      }
    }
  }

  /** Registering one more kind after a list of kinds registers the longer list. */
  lemma WithLevelsSnoc(levels: Levels, before: seq<PluginProblem>, kinds: seq<ProblemKind>, kind: ProblemKind)
    ensures before + WithLevels(levels, kinds) + [NewProblem(levels, kind)] == before + WithLevels(levels, kinds + [kind])
  {
    WithLevelsAppend(levels, kinds, [kind]);
    WithLevelsOne(levels, kind);
  }


  /** Problems kept in place by two steps are kept in place by both together. */
  lemma PrefixTransitive<T>(a: seq<T>, b: seq<T>, c: seq<T>)
    requires |a| <= |b| && b[..|a|] == a
    requires |b| <= |c| && c[..|b|] == b
    ensures |a| <= |c| && c[..|a|] == a
  {
    assert c[..|a|] == c[..|b|][..|a|];
  }

  /** The problems of a list that are errors, in their order (`filter { it.level == ERROR }`). */
  function Errors(problems: seq<PluginProblem>): (r: seq<PluginProblem>)
    ensures forall k :: 0 <= k < |r| ==> r[k].level == Error
    ensures forall p :: p in problems && p.level == Error ==> p in r
    ensures forall p :: p in r ==> p in problems
  {
    if |problems| == 0 then []
    else
      var tail := Errors(problems[1..]);
      assert forall p :: p in problems ==> p == problems[0] || p in problems[1..];
      if problems[0].level == Error then [problems[0]] + tail else tail
  }

  /** `hasErrors()`: some problem has level ERROR. */
  predicate HasErrors(problems: seq<PluginProblem>) {
    exists k :: 0 <= k < |problems| && problems[k].level == Error
  }

  /** A list has errors exactly when filtering its errors leaves something. */
  lemma HasErrorsIffErrorsNonEmpty(problems: seq<PluginProblem>)
    ensures HasErrors(problems) <==> |Errors(problems)| > 0
  {
    if HasErrors(problems) {
      var k :| 0 <= k < |problems| && problems[k].level == Error;
      assert problems[k] in Errors(problems);
    }
    if |Errors(problems)| > 0 {
      assert Errors(problems)[0] in problems;
    }
  }

  /** `PluginDescriptorIsNotFound.message`. */
  function NotFoundMessage(descriptorPath: string): (r: string)
    ensures Contains(r, descriptorPath)
  {
    ContainsInfix("Plugin descriptor '", descriptorPath, "' is not found");
    "Plugin descriptor '" + descriptorPath + "' is not found"
  }

  /**
   * The comparison in `MultiplePluginDescriptors.message`: the first (path, file) pair goes
   * first when its path is smaller, or when the paths are equal and its file name is not larger.
   */
  predicate FirstIsLess(path1: string, file1: string, path2: string, file2: string) {
    LexLess(path1, path2) || (path1 == path2 && LexLessEq(file1, file2))
  }

  /**
   * The two (path, file) pairs of `MultiplePluginDescriptors` in the order the message prints
   * them: the smaller path first, on equal paths the smaller file name first.
   */
  function PrintedOrder(path1: string, file1: string, path2: string, file2: string)
    : (r: (string, string, string, string))
    ensures {(r.0, r.1), (r.2, r.3)} == {(path1, file1), (path2, file2)}
    ensures LexLessEq(r.0, r.2)
    ensures r.0 == r.2 ==> LexLessEq(r.1, r.3)
  {
    LexTotal(path1, path2);
    LexTotal(file1, file2);
    if FirstIsLess(path1, file1, path2, file2) then (path1, file1, path2, file2)
    else (path2, file2, path1, file1)
  }

  /** `MultiplePluginDescriptors.message`. */
  function MultipleDescriptorsMessage(path1: string, file1: string, path2: string, file2: string): string {
    var ordered := PrintedOrder(path1, file1, path2, file2);
    "Found multiple plugin descriptors '" + ordered.0 + "' from '" + ordered.1
      + "' and '" + ordered.2 + "' from '" + ordered.3 + "'"
  }

  /** `message` of a descriptor resolution error. */
  function ResolutionErrorMessage(error: DescriptorResolutionError): string {
    match error
    case PluginDescriptorIsNotFound(path) => NotFoundMessage(path)
    case MultiplePluginDescriptors(path1, file1, path2, file2) => MultipleDescriptorsMessage(path1, file1, path2, file2)
  }

  /** Swapping the two descriptors does not change the printed order. */
  lemma PrintedOrderIsSymmetric(path1: string, file1: string, path2: string, file2: string)
    ensures PrintedOrder(path1, file1, path2, file2) == PrintedOrder(path2, file2, path1, file1)
  {
    LexTotal(path1, path2);
    LexTotal(file1, file2);
    var forward := FirstIsLess(path1, file1, path2, file2);
    var backward := FirstIsLess(path2, file2, path1, file1);
    if forward && backward {
      if path1 == path2 {
        LexAntisymmetric(file1, file2);
      } else {
        LexLessAsymmetric(path1, path2);
      }
    }
    if !forward && !backward {
      if path1 != path2 {
        assert LexLessEq(path1, path2) || LexLessEq(path2, path1);
      }
    }
  }

  /** The message of `MultiplePluginDescriptors` does not depend on which descriptor came first. */
  lemma MultipleDescriptorsMessageIsSymmetric(path1: string, file1: string, path2: string, file2: string)
    ensures ResolutionErrorMessage(MultiplePluginDescriptors(path1, file1, path2, file2))
         == ResolutionErrorMessage(MultiplePluginDescriptors(path2, file2, path1, file1))
  {
    PrintedOrderIsSymmetric(path1, file1, path2, file2);
  }
}
