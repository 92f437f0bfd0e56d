/**
 * `SoftJarResolver`: the classes of one jar file, keyed by class name. The key set is read
 * from the jar's entry names when the resolver is built and never changes; a class file is
 * read from the jar the first time it is asked for and kept behind a soft reference.
 *
 * The jar is given as its list of entry names. Reading and parsing a class file, and the
 * garbage collector clearing a soft reference, are outside the model: each lookup receives
 * what reading the entry would give (`None` for an `IOException`) and whether the collector
 * has cleared the cached reference.
 */
module SoftJar {
  import opened Wrappers
  import opened Strings

  /** A parsed class file; `bytes` stands for the entry's content. */
  datatype ClassFile = ClassFile(className: string, bytes: seq<int>)

  /** A cache value: Java's `null` (never read) or a `SoftReference` to what was read. */
  datatype CacheSlot = NotRead | SoftReference(referent: Option<ClassFile>)

  const ClassSuffix := ".class"

  /** A string that ends with `sub` contains it. */
  lemma EndsWithContains(s: string, sub: string)
    requires EndsWith(s, sub)
    ensures Contains(s, sub)
  {
    var head := s[..|s| - |sub|];
    assert s == head + sub + [];
    ContainsInfix(head, sub, []);
  }

  /** Cutting a string before the first occurrence of `sub` leaves no occurrence of `sub`. */
  lemma PrefixBeforeFirstOccurrence(s: string, sub: string, i: nat)
    requires |sub| > 0 && i <= |s| && forall j: nat :: j < i ==> !OccursAt(s, sub, j)
    ensures !Contains(s[..i], sub)
  {
    var head := s[..i];
    forall j: nat
      ensures !OccursAt(head, sub, j)
    {
      if j + |sub| <= i {
        assert !OccursAt(s, sub, j);
        assert head[j..j + |sub|] == s[j..j + |sub|];
      }
    }
    ContainsIffOccurs(head, sub);
  }

  /**
   * The key an entry name contributes (`preloadClassMap`): entries ending in `.class` give
   * the name cut before the FIRST occurrence of `.class`; other entries give none.
   */
  function ClassKey(entryName: string): (r: Option<string>)
    ensures r.Some? <==> EndsWith(entryName, ClassSuffix)
    ensures r.Some? ==> StartsWith(entryName, r.value + ClassSuffix) && !Contains(r.value, ClassSuffix)
  {
    if EndsWith(entryName, ClassSuffix) then
      EndsWithContains(entryName, ClassSuffix);
      var cut := IndexOf(entryName, ClassSuffix).value;
      PrefixBeforeFirstOccurrence(entryName, ClassSuffix, cut);
      var key := entryName[..cut];
      assert (key + ClassSuffix) == entryName[..cut + |ClassSuffix|];
      Some(key)
    else None
  }

  /** The key set of a jar: one key per entry ending in `.class`. */
  ghost function ClassKeys(entryNames: seq<string>): set<string> {
    set k | 0 <= k < |entryNames| && ClassKey(entryNames[k]).Some? :: ClassKey(entryNames[k]).value
  }

  /** One more entry adds its key, if it has one. */
  lemma ClassKeysSnoc(entryNames: seq<string>, entryName: string)
    ensures ClassKeys(entryNames + [entryName])
      == ClassKeys(entryNames) + (if ClassKey(entryName).Some? then {ClassKey(entryName).value} else {})
  {
    var longer := entryNames + [entryName];
    assert forall k :: 0 <= k < |entryNames| ==> longer[k] == entryNames[k];
    assert longer[|entryNames|] == entryName;
  }

  /** The loop of `preloadClassMap`: a `null` slot for each key. */
  method PreloadClassMap(entryNames: seq<string>) returns (cache: map<string, CacheSlot>)
    ensures cache.Keys == ClassKeys(entryNames)
    ensures forall n :: n in cache ==> cache[n] == NotRead
  {
    cache := map[];
    var i := 0;
    while i < |entryNames|
      invariant 0 <= i <= |entryNames|
      invariant cache.Keys == ClassKeys(entryNames[..i])
      invariant forall n :: n in cache ==> cache[n] == NotRead
    {
      var name := entryNames[i];
      assert entryNames[..i + 1] == entryNames[..i] + [name];
      ClassKeysSnoc(entryNames[..i], name);
      if EndsWith(name, ClassSuffix) {
        cache := cache[ClassKey(name).value := NotRead];
      }
      i := i + 1;
    }
    assert entryNames[..i] == entryNames;
  }

  /** In `<key>.class`, `.class` does not start inside `key` when `key` does not contain it. */
  lemma NoOccurrenceInsideKey(key: string, j: nat)
    requires !Contains(key, ClassSuffix) && j < |key|
    ensures !OccursAt(key + ClassSuffix, ClassSuffix, j)
  {
    if j + |ClassSuffix| <= |key| {
      NoOccurrenceWithinKey(key, j);
    } else if j + |ClassSuffix| <= |key + ClassSuffix| {
      NoOccurrenceAcrossKeyEnd(key, j);
    }
  }

  /** A `.class` that would lie wholly inside `key` would be one `key` contains. */
  lemma NoOccurrenceWithinKey(key: string, j: nat)
    requires !Contains(key, ClassSuffix) && j + |ClassSuffix| <= |key|
    ensures !OccursAt(key + ClassSuffix, ClassSuffix, j)
  {
    ContainsIffOccurs(key, ClassSuffix);
    assert !OccursAt(key, ClassSuffix, j);
    assert (key + ClassSuffix)[j..j + |ClassSuffix|] == key[j..j + |ClassSuffix|];
  }

  /** A `.class` starting in `key` and ending in the suffix would put the suffix's `.` on a letter. */
  lemma NoOccurrenceAcrossKeyEnd(key: string, j: nat)
    requires j < |key| < j + |ClassSuffix|
    ensures !OccursAt(key + ClassSuffix, ClassSuffix, j)
  {
    var name := key + ClassSuffix;
    var window := name[j..j + |ClassSuffix|];
    assert window[|key| - j] == name[|key|] == '.';
    assert ClassSuffix[|key| - j] != '.';
  }

  /** An entry named exactly `<key>.class`, with no other `.class` in it, contributes `<key>`. */
  lemma PlainClassEntry(key: string)
    requires !Contains(key, ClassSuffix)
    ensures ClassKey(key + ClassSuffix) == Some(key)
  {
    var name := key + ClassSuffix;
    assert name[|name| - |ClassSuffix|..] == ClassSuffix;
    EndsWithContains(name, ClassSuffix);
    forall j: nat | j < |key|
      ensures !OccursAt(name, ClassSuffix, j)
    {
      NoOccurrenceInsideKey(key, j);
    }
    assert OccursAt(name, ClassSuffix, |key|);
  }

  class SoftJarResolver {
    /** `myMoniker`: the jar file's name. */
    const moniker: string
    /** The class names found when the resolver was built. */
    ghost const classNames: set<string>
    /** `myClassesCache`. */
    var classesCache: map<string, CacheSlot>

    /** The keys never change, and a cached class file is the class of its key. */
    ghost predicate Valid()
      reads this
    {
      && classesCache.Keys == classNames
      && forall n :: n in classesCache && classesCache[n].SoftReference? && classesCache[n].referent.Some? ==>
           classesCache[n].referent.value.className == n
    }

    /** The constructor and `preloadClassMap`: one key per `.class` entry, no class read yet. */
    constructor (jarName: string, entryNames: seq<string>)
      ensures Valid()
      ensures moniker == jarName && classNames == ClassKeys(entryNames)
      ensures forall n :: n in classesCache ==> classesCache[n] == NotRead
    {
      moniker := jarName;
      classNames := ClassKeys(entryNames);
      var cache := PreloadClassMap(entryNames);
      classesCache := cache;
    }

    /** `getAllClasses`. */
    function AllClasses(): (r: set<string>)
      requires Valid()
      reads this
      ensures r == classNames
    {
      classesCache.Keys
    }

    /** `isEmpty`. */
    predicate IsEmpty()
      requires Valid()
      reads this
      ensures IsEmpty() <==> classNames == {}
    {
      |classesCache| == 0
    }

    /** `getClassLocation`: this resolver when it has the class, `null` otherwise. */
    function ClassLocation(className: string): (r: Option<SoftJarResolver>)
      requires Valid()
      reads this
      ensures r.Some? <==> className in classNames
      ensures r.Some? ==> r.value == this
    {
      if className in classesCache then Some(this) else None
    }

    /**
     * `findClass`. `cleared` says whether the collector has cleared the cached reference;
     * `entryContent` is what reading `<className>.class` from the jar gives (`None` when it
     * fails with an `IOException`, which `findClass` turns into `null`).
     */
    method FindClass(className: string, cleared: bool, entryContent: Option<seq<int>>) returns (r: Option<ClassFile>)
      requires Valid()
      modifies this
      ensures Valid()
      ensures r.Some? ==> r.value.className == className
      ensures className !in classNames ==> r.None? && classesCache == old(classesCache)
      ensures (className in classNames && old(classesCache[className]).SoftReference?
        && old(classesCache[className]).referent.Some? && !cleared) ==>
          r == old(classesCache[className]).referent && classesCache == old(classesCache)
      ensures (className in classNames && (old(classesCache[className]).NotRead?
        || old(classesCache[className]).referent.None? || cleared)) ==>
          && r == (if entryContent.Some? then Some(ClassFile(className, entryContent.value)) else None)
          && classesCache == old(classesCache)[className := SoftReference(r)]
    {
      if className !in classesCache {
        return None;
      }
      var reference := classesCache[className];
      var classFile := if reference.NotRead? || cleared then None else reference.referent;
      if classFile.None? {
        classFile := if entryContent.Some? then Some(ClassFile(className, entryContent.value)) else None;
        classesCache := classesCache[className := SoftReference(classFile)];
      }
      r := classFile;
    }
  }
}
