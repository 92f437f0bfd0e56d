/**
 * The class-path resolver family: a resolver with a fixed table of classes, a composite
 * that searches its children in class-path order, the empty resolver, and a cache in
 * front of any of them. Class names use `/` between packages (`some/package/Same`).
 *
 * The implementations of these resolvers are not part of this model; their behaviour is the
 * one that `ResolverTest.kt` asserts, stated for all inputs.
 */
module ClassResolvers {
  import opened Wrappers
  import opened Strings

  /** A parsed class; `nodeId` tells apart two nodes that carry the same name. */
  datatype ClassNode = ClassNode(name: string, nodeId: nat)

  /** Where a class was read from (a jar, a directory); compared by identity in the source. */
  datatype FileOrigin = FileOrigin(originId: nat)

  datatype ResolutionResult = Found(value: ClassNode, fileOrigin: FileOrigin) | NotFound

  datatype Resolver =
    | EmptyResolver
    | FixedClassesResolver(classes: map<string, ClassNode>, fileOrigin: FileOrigin)
    | CompositeResolver(resolvers: seq<Resolver>)

  /**
   * `FixedClassesResolver.create(nodes, fileOrigin)`: the nodes keyed by their names; of two
   * nodes with the same name the later one is kept.
   */
  function CreateFixed(nodes: seq<ClassNode>, fileOrigin: FileOrigin): (r: Resolver)
    ensures r.FixedClassesResolver? && r.fileOrigin == fileOrigin
    ensures r.classes.Keys == set k | 0 <= k < |nodes| :: nodes[k].name
    ensures forall n :: n in r.classes ==> r.classes[n].name == n && r.classes[n] in nodes
    ensures |nodes| > 0 ==> r.classes[nodes[|nodes| - 1].name] == nodes[|nodes| - 1]
  {
    if |nodes| == 0 then FixedClassesResolver(map[], fileOrigin)
    else
      var init := CreateFixed(nodes[..|nodes| - 1], fileOrigin);
      var last := nodes[|nodes| - 1];
      assert forall k :: 0 <= k < |nodes| - 1 ==> nodes[..|nodes| - 1][k] == nodes[k];
      FixedClassesResolver(init.classes[last.name := last], fileOrigin)
  }

  /** The first `Found` of a list of results, in list order. */
  function FirstFound(results: seq<ResolutionResult>): (r: ResolutionResult)
    ensures r.Found? <==> exists k :: 0 <= k < |results| && results[k].Found?
    ensures r.Found? ==>
      exists k :: 0 <= k < |results| && results[k] == r && forall j :: 0 <= j < k ==> results[j].NotFound?
  {
    if |results| == 0 then NotFound
    else if results[0].Found? then results[0]
    else
      var r := FirstFound(results[1..]);
      assert forall k :: 1 <= k < |results| ==> results[1..][k - 1] == results[k];
      assert r.Found? ==>
        exists k :: 1 <= k < |results| && results[k] == r && forall j :: 0 <= j < k ==> results[j].NotFound? by {
        if r.Found? {
          var k :| 0 <= k < |results[1..]| && results[1..][k] == r
            && forall j :: 0 <= j < k ==> results[1..][j].NotFound?;
          assert results[k + 1] == r;
        }
      }
      r
  }

  /** `resolveClass`: a composite asks its children in order and the first one that finds the class wins. */
  function ResolveClass(resolver: Resolver, className: string): ResolutionResult {
    match resolver
    case EmptyResolver => NotFound
    case FixedClassesResolver(classes, fileOrigin) =>
      if className in classes then Found(classes[className], fileOrigin) else NotFound
    case CompositeResolver(resolvers) =>
      FirstFound(seq(|resolvers|, k requires 0 <= k < |resolvers| => ResolveClass(resolvers[k], className)))
  }

  /** `allClasses`: a composite has the union of its children's classes. */
  function AllClasses(resolver: Resolver): set<string> {
    match resolver
    case EmptyResolver => {}
    case FixedClassesResolver(classes, _) => classes.Keys
    case CompositeResolver(resolvers) =>
      set k, n | 0 <= k < |resolvers| && n in AllClasses(resolvers[k]) :: n
  }

  /**
   * The packages one class name contributes: every prefix that ends just before a `/`, or
   * the root package `""` when the name has no `/`.
   */
  function ClassPackages(className: string): (r: set<string>)
    ensures '/' !in className ==> r == {""}
    ensures '/' in className ==> "" !in r || className[0] == '/'
    ensures forall p :: p in r && p != "" ==> |p| < |className| && className[..|p|] == p && className[|p|] == '/'
  {
    if '/' in className then set k | 0 <= k < |className| && className[k] == '/' :: className[..k]
    else {""}
  }

  /** `allPackages`: the packages of all classes the resolver has. */
  function AllPackages(resolver: Resolver): set<string> {
    set n, p | n in AllClasses(resolver) && p in ClassPackages(n) :: p
  }

  /** `containsPackage`. */
  predicate ContainsPackage(resolver: Resolver, packageName: string) {
    packageName in AllPackages(resolver)
  }

  /** Every table of a fixed resolver, however deep in composites, is keyed by class name. */
  predicate WellFormed(resolver: Resolver) {
    match resolver
    case EmptyResolver => true
    case FixedClassesResolver(classes, _) => forall n :: n in classes ==> classes[n].name == n
    case CompositeResolver(resolvers) => forall k :: 0 <= k < |resolvers| ==> WellFormed(resolvers[k])
  }

  /**
   * A resolver finds a class exactly when the class is among its classes, and what it finds
   * carries the requested name.
   */
  lemma {:induction false} FoundIffInAllClasses(resolver: Resolver, className: string)
    requires WellFormed(resolver)
    ensures ResolveClass(resolver, className).Found? <==> className in AllClasses(resolver)
    ensures ResolveClass(resolver, className).Found? ==> ResolveClass(resolver, className).value.name == className
  {
    match resolver
    case EmptyResolver =>
    case FixedClassesResolver(_, _) =>
    case CompositeResolver(resolvers) =>
      var results := seq(|resolvers|, k requires 0 <= k < |resolvers| => ResolveClass(resolvers[k], className));
      forall k | 0 <= k < |resolvers|
        ensures results[k].Found? <==> className in AllClasses(resolvers[k])
        ensures results[k].Found? ==> results[k].value.name == className
      {
        FoundIffInAllClasses(resolvers[k], className);
      }
      if ResolveClass(resolver, className).Found? {
        var k :| 0 <= k < |results| && results[k] == FirstFound(results);
        assert className in AllClasses(resolvers[k]);
      }
      if className in AllClasses(resolver) {
        var k :| 0 <= k < |resolvers| && className in AllClasses(resolvers[k]);
        assert results[k].Found?;
      }
  }

  /**
   * Class-path order: the composite answers what child `k` answers when child `k` finds the
   * class and no earlier child does.
   */
  lemma CompositeFirstMatchWins(resolvers: seq<Resolver>, className: string, k: nat)
    requires k < |resolvers| && ResolveClass(resolvers[k], className).Found?
    requires forall j :: 0 <= j < k ==> ResolveClass(resolvers[j], className).NotFound?
    ensures ResolveClass(CompositeResolver(resolvers), className) == ResolveClass(resolvers[k], className)
  {
    var results := seq(|resolvers|, i requires 0 <= i < |resolvers| => ResolveClass(resolvers[i], className));
    var r := FirstFound(results);
    assert results[k].Found?;
    var i :| 0 <= i < |results| && results[i] == r && forall j :: 0 <= j < i ==> results[j].NotFound?;
    assert i == k;
  }

  /** A composite's classes are exactly the classes of its children taken together. */
  lemma CompositeClassesAreUnion(resolvers: seq<Resolver>, className: string)
    ensures className in AllClasses(CompositeResolver(resolvers))
      <==> exists k :: 0 <= k < |resolvers| && className in AllClasses(resolvers[k])
  {
  }

  /**
   * A package is in `allPackages` exactly when it is a proper `/`-prefix of some class name,
   * or it is the root package and some class has no `/` in its name.
   */
  lemma PackagesAreSlashPrefixes(resolver: Resolver, packageName: string)
    ensures ContainsPackage(resolver, packageName) <==>
      exists n :: n in AllClasses(resolver) &&
        ((packageName == "" && '/' !in n) ||
         (|packageName| < |n| && n[..|packageName|] == packageName && n[|packageName|] == '/'))
  {
    if ContainsPackage(resolver, packageName) {
      var n :| n in AllClasses(resolver) && packageName in ClassPackages(n);
      if '/' !in n {
        assert packageName == "";
      } else if packageName == "" {
        assert n[0] == '/';
        assert n[..0] == packageName;
      }
    }
    if exists n :: n in AllClasses(resolver) &&
        ((packageName == "" && '/' !in n) ||
         (|packageName| < |n| && n[..|packageName|] == packageName && n[|packageName|] == '/')) {
      var n :| n in AllClasses(resolver) &&
        ((packageName == "" && '/' !in n) ||
         (|packageName| < |n| && n[..|packageName|] == packageName && n[|packageName|] == '/'));
      if '/' in n {
        var k := |packageName|;
        assert n[k] == '/' && n[..k] == packageName;
      }
      assert packageName in ClassPackages(n);
    }
  }

  /** A cache over the empty resolver finds nothing and has no classes and no packages. */
  lemma EmptyCacheHasNothing(className: string)
    ensures ResolveClass(EmptyResolver, className) == NotFound
    ensures AllClasses(EmptyResolver) == {} && AllPackages(EmptyResolver) == {}
  {
  }

  /**
   * A fixed resolver with one class: exactly one class, found with its own node and origin,
   * in the root package when its name has no `/`.
   */
  lemma OneClassResolver(node: ClassNode, fileOrigin: FileOrigin)
    requires '/' !in node.name
    ensures AllClasses(CreateFixed([node], fileOrigin)) == {node.name}
    ensures ResolveClass(CreateFixed([node], fileOrigin), node.name) == Found(node, fileOrigin)
    ensures AllPackages(CreateFixed([node], fileOrigin)) == {""}
    ensures ContainsPackage(CreateFixed([node], fileOrigin), "")
  {
    var r := CreateFixed([node], fileOrigin);
    assert r.classes.Keys == {node.name};
    assert "" in ClassPackages(node.name);
  }

  /**
   * `CacheResolver`: remembers what its delegate answered for every class name asked; the
   * delegate's classes and packages are passed through.
   */
  class CacheResolver {
    const delegate: Resolver
    var cache: map<string, ResolutionResult>

    ghost predicate Valid()
      reads this
    {
      forall n :: n in cache ==> cache[n] == ResolveClass(delegate, n)
    }

    constructor (delegate: Resolver)
      ensures Valid() && this.delegate == delegate && cache == map[]
    {
      this.delegate := delegate;
      cache := map[];
    }

    /** A cached answer is the delegate's answer, so caching never changes what is resolved. */
    method Resolve(className: string) returns (r: ResolutionResult)
      requires Valid()
      modifies this
      ensures Valid()
      ensures r == ResolveClass(delegate, className)
      ensures cache == old(cache)[className := r]
    {
      if className in cache {
        r := cache[className];
      } else {
        r := ResolveClass(delegate, className);
        cache := cache[className := r];
      }
    }

    function Classes(): (r: set<string>)
      ensures r == AllClasses(delegate)
    {
      AllClasses(delegate)
    }

    function Packages(): (r: set<string>)
      ensures r == AllPackages(delegate)
    {
      AllPackages(delegate)
    }
  }

  /** The class-path of the composite scenario: `some/package/Same` is in both children. */
  lemma CompositeSearchOrderIsClassPath(
    same1: ClassNode, class1: ClassNode, same2: ClassNode, class2: ClassNode,
    origin1: FileOrigin, origin2: FileOrigin)
    requires same1.name == "some/package/Same" && same2.name == "some/package/Same"
    requires class1.name == "some/package/Some1" && class2.name == "some/package/Some2"
    ensures var composite := CompositeResolver([CreateFixed([class1, same1], origin1), CreateFixed([class2, same2], origin2)]);
      && ResolveClass(composite, class1.name) == Found(class1, origin1)
      && ResolveClass(composite, class2.name) == Found(class2, origin2)
      && ResolveClass(composite, same1.name) == Found(same1, origin1)
  {
    var first, second := CreateFixed([class1, same1], origin1), CreateFixed([class2, same2], origin2);
    assert first.classes[class1.name] == class1 && first.classes[same1.name] == same1;
    assert second.classes[class2.name] == class2;
    CompositeFirstMatchWins([first, second], class1.name, 0);
    CompositeFirstMatchWins([first, second], same1.name, 0);
    CompositeFirstMatchWins([first, second], class2.name, 1);
  }

  /** Each class of the composite scenario lies in `some/package`, and so in `some` too. */
  lemma ScenarioClassPackages(n: string)
    requires n in {"some/package/Same", "some/package/Some1", "some/package/Some2"}
    ensures ClassPackages(n) == {"some", "some/package"}
  {
    assert n[4] == '/' && n[12] == '/';
    assert n[..4] == "some" && n[..12] == "some/package";
    forall k | 0 <= k < |n| && n[k] == '/' ensures k == 4 || k == 12 {
    }
  }

  /** The composite scenario's classes: the shared name once, and each child's own class; its packages are `some` and `some/package`. */
  lemma CompositeScenarioAllClasses(
    same1: ClassNode, class1: ClassNode, same2: ClassNode, class2: ClassNode,
    origin1: FileOrigin, origin2: FileOrigin)
    requires same1.name == "some/package/Same" && same2.name == "some/package/Same"
    requires class1.name == "some/package/Some1" && class2.name == "some/package/Some2"
    ensures var composite := CompositeResolver([CreateFixed([class1, same1], origin1), CreateFixed([class2, same2], origin2)]);
      AllClasses(composite) == {"some/package/Same", "some/package/Some1", "some/package/Some2"}
    ensures var composite := CompositeResolver([CreateFixed([class1, same1], origin1), CreateFixed([class2, same2], origin2)]);
      AllPackages(composite) == {"some", "some/package"}
  {
    var first, second := CreateFixed([class1, same1], origin1), CreateFixed([class2, same2], origin2);
    assert first.classes.Keys == {class1.name, same1.name};
    assert second.classes.Keys == {class2.name, same2.name};
    var composite := CompositeResolver([first, second]);
    assert AllClasses(first) == first.classes.Keys && AllClasses(second) == second.classes.Keys;
    forall n ensures n in AllClasses(composite) <==> n in first.classes.Keys + second.classes.Keys {
      CompositeClassesAreUnion([first, second], n);
      assert [first, second][0] == first && [first, second][1] == second;
    }
    var names := {"some/package/Same", "some/package/Some1", "some/package/Some2"};
    assert AllClasses(composite) == names;
    forall n | n in names ensures ClassPackages(n) == {"some", "some/package"} {
      ScenarioClassPackages(n);
    }
    assert "some/package/Same" in AllClasses(composite);
  }
}
