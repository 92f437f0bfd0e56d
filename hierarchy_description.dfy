/**
 * `HierarchicalProblemsDescription`: the sentence appended to a problem description that
 * names the IDE super classes and super interfaces in which a missing method or field might
 * have been declared.
 *
 * Walking the class hierarchy is not part of this model: the walk is given as the sequence
 * of ancestors it enters, the owner class itself not among them.
 */
module HierarchyDescription {
  import opened Strings
  import opened IdeVersions

  /** A class the hierarchy walk enters. */
  datatype AncestorNode = AncestorNode(name: string, isIdeClass: bool, isInterface: bool)

  /** The names of the IDE classes (not interfaces) among the ancestors. */
  function IdeSuperClasses(ancestors: seq<AncestorNode>): set<string> {
    set a | a in ancestors && a.isIdeClass && !a.isInterface :: a.name
  }

  /** The names of the IDE interfaces among the ancestors. */
  function IdeSuperInterfaces(ancestors: seq<AncestorNode>): set<string> {
    set a | a in ancestors && a.isIdeClass && a.isInterface :: a.name
  }

  /**
   * `findIdeSuperClassesAndInterfaces`: every ancestor is entered; the IDE ones are added by
   * name to the interfaces or to the classes, and a name seen twice is kept once.
   */
  method FindIdeSuperClassesAndInterfaces(ancestors: seq<AncestorNode>)
    returns (ideSuperClasses: set<string>, ideSuperInterfaces: set<string>)
    ensures ideSuperClasses == IdeSuperClasses(ancestors)
    ensures ideSuperInterfaces == IdeSuperInterfaces(ancestors)
  {
    ideSuperClasses, ideSuperInterfaces := {}, {};
    var i := 0;
    while i < |ancestors|
      invariant 0 <= i <= |ancestors|
      invariant ideSuperClasses == IdeSuperClasses(ancestors[..i])
      invariant ideSuperInterfaces == IdeSuperInterfaces(ancestors[..i])
    {
      var parent := ancestors[i];
      assert ancestors[..i + 1] == ancestors[..i] + [parent];
      if parent.isIdeClass {
        if parent.isInterface {
          ideSuperInterfaces := ideSuperInterfaces + {parent.name};
        } else {
          ideSuperClasses := ideSuperClasses + {parent.name};
        }
      }
      i := i + 1;
    }
    assert ancestors[..i] == ancestors;
  }

  /** Only IDE classes are collected, each into exactly one of the two sets by its kind. */
  lemma CollectedAreIdeAncestors(ancestors: seq<AncestorNode>, name: string)
    ensures name in IdeSuperClasses(ancestors) <==>
      exists k :: 0 <= k < |ancestors| && ancestors[k].name == name && ancestors[k].isIdeClass && !ancestors[k].isInterface
    ensures name in IdeSuperInterfaces(ancestors) <==>
      exists k :: 0 <= k < |ancestors| && ancestors[k].name == name && ancestors[k].isIdeClass && ancestors[k].isInterface
  {
    if name in IdeSuperClasses(ancestors) {
      var a :| a in ancestors && a.isIdeClass && !a.isInterface && a.name == name;
      var k :| 0 <= k < |ancestors| && ancestors[k] == a;
    }
    if name in IdeSuperInterfaces(ancestors) {
      var a :| a in ancestors && a.isIdeClass && a.isInterface && a.name == name;
      var k :| 0 <= k < |ancestors| && ancestors[k] == a;
    }
  }

  /**
   * `pluralize`, whose definition is not part of this model: the word itself for one, and
   * the English plural (`classes`, `interfaces`) otherwise.
   */
  function Pluralize(word: string, count: nat): (r: string)
    ensures count == 1 ==> r == word
    ensures count != 1 ==> StartsWith(r, word) && |r| > |word|
  {
    if count == 1 then word
    else if EndsWith(word, "s") then word + "es"
    else word + "s"
  }

  /** `toFullJavaClassName`, whose definition is not part of this model: `a/b/C` becomes `a.b.C`. */
  function ToFullJavaClassName(binaryName: string): (r: string)
    ensures |r| == |binaryName| && '/' !in r
  {
    ReplaceChar(binaryName, '/', '.')
  }

  /** `joinToString(transform = toFullJavaClassName)`: the converted names separated by `", "`. */
  function JoinClassNames(names: seq<string>): string {
    if |names| == 0 then ""
    else if |names| == 1 then ToFullJavaClassName(names[0])
    else ToFullJavaClassName(names[0]) + ", " + JoinClassNames(names[1..])
  }

  /** Every joined name can be read back in the joined string. */
  lemma {:induction false} JoinMentionsEach(names: seq<string>, k: nat)
    requires k < |names|
    ensures Contains(JoinClassNames(names), ToFullJavaClassName(names[k]))
  {
    var first := ToFullJavaClassName(names[0]);
    if |names| == 1 {
      ContainsInfix([], first, []);
      assert [] + first + [] == first;
    } else if k == 0 {
      ContainsInfix([], first, ", " + JoinClassNames(names[1..]));
      assert [] + first + (", " + JoinClassNames(names[1..])) == JoinClassNames(names);
    } else {
      JoinMentionsEach(names[1..], k - 1);
      ContainsWithin(first + ", ", JoinClassNames(names[1..]), [], ToFullJavaClassName(names[k]));
      assert first + ", " + JoinClassNames(names[1..]) + [] == JoinClassNames(names);
    }
  }

  /** `" ("`, the sorted converted names, `")"`: the list that closes a clause. */
  ghost function NameList(names: set<string>): string {
    " (" + JoinClassNames(SortedSet(names)) + ")"
  }

  /** One clause, `in the super class(es) belonging to <ide> (<names>)`. */
  ghost function Clause(kind: string, names: set<string>, ideVersion: IdeVersion): string {
    "in the super " + Pluralize(kind, |names|) + " belonging to " + Presentation(ideVersion) + NameList(names)
  }

  function Header(elementType: string): string {
    " The " + elementType + " might have been declared "
  }

  /**
   * The message for given sets of IDE super classes and interfaces: nothing when neither is
   * allowed or found; otherwise the header, the classes clause, `" or "` when both clauses
   * are there, and the interfaces clause.
   */
  ghost function Message(elementType: string, allSuperClasses: set<string>, allSuperInterfaces: set<string>,
                         ideVersion: IdeVersion, canBeDeclaredInSuperClass: bool, canBeDeclaredInSuperInterface: bool)
    : string
  {
    var superClasses := if canBeDeclaredInSuperClass then allSuperClasses else {};
    var superInterfaces := if canBeDeclaredInSuperInterface then allSuperInterfaces else {};
    if superClasses == {} && superInterfaces == {} then ""
    else Header(elementType) + Clauses(superClasses, superInterfaces, ideVersion)
  }

  /** The clauses after the header: classes, `" or "` when both are there, interfaces. */
  ghost function Clauses(superClasses: set<string>, superInterfaces: set<string>, ideVersion: IdeVersion): string {
    OptionalClause("class", superClasses, ideVersion)
    + (if superClasses != {} && superInterfaces != {} then " or " else "")
    + OptionalClause("interface", superInterfaces, ideVersion)
  }

  /** A clause when there are names to list, nothing otherwise. */
  ghost function OptionalClause(kind: string, names: set<string>, ideVersion: IdeVersion): string {
    if names != {} then Clause(kind, names, ideVersion) else ""
  }

  /** `superClasses.sorted()`: the names in their natural order, each once. */
  method Sorted(names: set<string>) returns (r: seq<string>)
    ensures r == SortedSet(names)
    ensures StrictlySorted(r) && forall y :: y in r <==> y in names
  {
    r := [];
    var rest := names;
    while rest != {}
      invariant rest <= names
      invariant StrictlySorted(r)
      invariant forall y :: y in r <==> y in names && y !in rest
      decreases |rest|
    {
      var x :| x in rest;
      r := InsertSorted(r, x);
      rest := rest - {x};
    }
    StrictlySortedUnique(r, SortedSet(names));
  }

  /** One clause, as the string builder receives it. */
  method AppendClause(kind: string, names: set<string>, ideVersion: IdeVersion) returns (clause: string)
    ensures clause == Clause(kind, names, ideVersion)
  {
    var sorted := Sorted(names);
    clause := "in the super " + Pluralize(kind, |names|) + " belonging to " + Presentation(ideVersion);
    clause := clause + (" (" + JoinClassNames(sorted) + ")");
  }

  /** `presentableElementMightHaveBeenDeclaredInIdeSuperTypes`, appending to a string builder. */
  method PresentableElementMightHaveBeenDeclaredInIdeSuperTypes(
    elementType: string, ancestors: seq<AncestorNode>, ideVersion: IdeVersion,
    canBeDeclaredInSuperClass: bool, canBeDeclaredInSuperInterface: bool)
    returns (message: string)
    ensures message == Message(elementType, IdeSuperClasses(ancestors), IdeSuperInterfaces(ancestors),
                               ideVersion, canBeDeclaredInSuperClass, canBeDeclaredInSuperInterface)
  {
    var allSuperClasses, allSuperInterfaces := FindIdeSuperClassesAndInterfaces(ancestors);
    var superClasses := if canBeDeclaredInSuperClass then allSuperClasses else {};
    var superInterfaces := if canBeDeclaredInSuperInterface then allSuperInterfaces else {};
    if superClasses == {} && superInterfaces == {} {
      return "";
    }
    var classesPart, separator, interfacesPart := "", "", "";
    if superClasses != {} {
      classesPart := AppendClause("class", superClasses, ideVersion);
    }
    if superInterfaces != {} {
      if superClasses != {} {
        separator := " or ";
      }
      interfacesPart := AppendClause("interface", superInterfaces, ideVersion);
    }
    assert classesPart + separator + interfacesPart == Clauses(superClasses, superInterfaces, ideVersion);
    message := Header(elementType) + (classesPart + separator + interfacesPart);
  }

  /** The message is empty exactly when no allowed IDE super type was found. */
  lemma MessageEmptyIff(elementType: string, classes: set<string>, interfaces: set<string>,
                        ideVersion: IdeVersion, allowClasses: bool, allowInterfaces: bool)
    ensures Message(elementType, classes, interfaces, ideVersion, allowClasses, allowInterfaces) == ""
      <==> (!allowClasses || classes == {}) && (!allowInterfaces || interfaces == {})
  {
    var m := Message(elementType, classes, interfaces, ideVersion, allowClasses, allowInterfaces);
    if (allowClasses && classes != {}) || (allowInterfaces && interfaces != {}) {
      assert m[0] == ' ';
    }
  }

  /** Classes that may not declare the element leave no trace in the message; likewise interfaces. */
  lemma DisallowedKindIsIgnored(elementType: string, classes: set<string>, otherClasses: set<string>,
                                interfaces: set<string>, otherInterfaces: set<string>,
                                ideVersion: IdeVersion, allowClasses: bool, allowInterfaces: bool)
    ensures !allowClasses ==>
      Message(elementType, classes, interfaces, ideVersion, allowClasses, allowInterfaces)
        == Message(elementType, otherClasses, interfaces, ideVersion, allowClasses, allowInterfaces)
    ensures !allowInterfaces ==>
      Message(elementType, classes, interfaces, ideVersion, allowClasses, allowInterfaces)
        == Message(elementType, classes, otherInterfaces, ideVersion, allowClasses, allowInterfaces)
  {
  }

  /**
   * The layout: the classes clause comes first, and the two clauses are joined by `" or "`
   * exactly when both are there.
   */
  lemma MessageLayout(elementType: string, classes: set<string>, interfaces: set<string>, ideVersion: IdeVersion)
    ensures classes != {} && interfaces != {} ==>
      Message(elementType, classes, interfaces, ideVersion, true, true)
        == Header(elementType) + (Clause("class", classes, ideVersion) + " or " + Clause("interface", interfaces, ideVersion))
    ensures classes != {} && interfaces == {} ==>
      Message(elementType, classes, interfaces, ideVersion, true, true)
        == Header(elementType) + Clause("class", classes, ideVersion)
    ensures classes == {} && interfaces != {} ==>
      Message(elementType, classes, interfaces, ideVersion, true, true)
        == Header(elementType) + Clause("interface", interfaces, ideVersion)
  {
    if classes != {} && interfaces == {} {
      assert Clauses(classes, interfaces, ideVersion) == Clause("class", classes, ideVersion) + "" + "";
    }
    if classes == {} && interfaces != {} {
      assert Clauses(classes, interfaces, ideVersion) == "" + "" + Clause("interface", interfaces, ideVersion);
    }
  }

  /** A clause names each of its classes. */
  lemma ClauseNamesEach(kind: string, names: set<string>, ideVersion: IdeVersion, name: string)
    requires name in names
    ensures Contains(Clause(kind, names, ideVersion), ToFullJavaClassName(name))
  {
    var sorted := SortedSet(names);
    assert name in sorted;
    var k :| 0 <= k < |sorted| && sorted[k] == name;
    JoinMentionsEach(sorted, k);
    ContainsWithin(" (", JoinClassNames(sorted), ")", ToFullJavaClassName(name));
    var lead := "in the super " + Pluralize(kind, |names|) + " belonging to " + Presentation(ideVersion);
    ContainsRight(lead, NameList(names), ToFullJavaClassName(name));
  }

  /** The clauses name every class and interface they list. */
  lemma ClausesNameEach(superClasses: set<string>, superInterfaces: set<string>, ideVersion: IdeVersion, name: string)
    requires name in superClasses || name in superInterfaces
    ensures Contains(Clauses(superClasses, superInterfaces, ideVersion), ToFullJavaClassName(name))
  {
    var classPart := OptionalClause("class", superClasses, ideVersion);
    var separator := if superClasses != {} && superInterfaces != {} then " or " else "";
    var interfacePart := OptionalClause("interface", superInterfaces, ideVersion);
    assert Clauses(superClasses, superInterfaces, ideVersion) == classPart + separator + interfacePart;
    if name in superClasses {
      ClauseNamesEach("class", superClasses, ideVersion, name);
      ContainsLeft(classPart, separator, ToFullJavaClassName(name));
      ContainsLeft(classPart + separator, interfacePart, ToFullJavaClassName(name));
    } else {
      ClauseNamesEach("interface", superInterfaces, ideVersion, name);
      ContainsRight(classPart + separator, interfacePart, ToFullJavaClassName(name));
    }
  }

  /** Every allowed IDE super class and super interface is named in the message. */
  lemma MessageNamesEverySuperType(elementType: string, classes: set<string>, interfaces: set<string>,
                                   ideVersion: IdeVersion, allowClasses: bool, allowInterfaces: bool, name: string)
    requires (allowClasses && name in classes) || (allowInterfaces && name in interfaces)
    ensures Contains(Message(elementType, classes, interfaces, ideVersion, allowClasses, allowInterfaces),
                     ToFullJavaClassName(name))
  {
    var superClasses := if allowClasses then classes else {};
    var superInterfaces := if allowInterfaces then interfaces else {};
    var clauses := Clauses(superClasses, superInterfaces, ideVersion);
    ClausesNameEach(superClasses, superInterfaces, ideVersion, name);
    ContainsRight(Header(elementType), clauses, ToFullJavaClassName(name));
  }
}
