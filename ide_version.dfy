/**
 * IDE build numbers. The `IdeVersion` class itself is not part of this model; what the
 * modelled code needs of it is a product code, a baseline version (the first component),
 * a total order and a printed form, and those are given here. Components are compared
 * one by one and a version that is a prefix of another comes first.
 */
module IdeVersions {
  import opened Strings

  datatype IdeVersion = IdeVersion(productCode: string, baselineVersion: nat, rest: seq<nat>) {

    function Components(): seq<nat> {
      [baselineVersion] + rest
    }
  }

  predicate ComponentsLessEq(a: seq<nat>, b: seq<nat>)
    decreases |a|
  {
    |a| == 0 || (|b| > 0 && (a[0] < b[0] || (a[0] == b[0] && ComponentsLessEq(a[1..], b[1..]))))
  }

  /** `a <= b` on IDE versions. */
  predicate LessEq(a: IdeVersion, b: IdeVersion) {
    ComponentsLessEq(a.Components(), b.Components())
  }

  /** `a < b` on IDE versions. */
  predicate Less(a: IdeVersion, b: IdeVersion) {
    !LessEq(b, a)
  }

  lemma {:induction false} ComponentsTotal(a: seq<nat>, b: seq<nat>)
    ensures ComponentsLessEq(a, b) || ComponentsLessEq(b, a)
    decreases |a|
  {
    if |a| > 0 && |b| > 0 && a[0] == b[0] {
      ComponentsTotal(a[1..], b[1..]);
    }
  }

  lemma {:induction false} ComponentsTransitive(a: seq<nat>, b: seq<nat>, c: seq<nat>)
    requires ComponentsLessEq(a, b) && ComponentsLessEq(b, c)
    ensures ComponentsLessEq(a, c)
    decreases |a|
  {
    if |a| > 0 && a[0] == b[0] && b[0] == c[0] {
      ComponentsTransitive(a[1..], b[1..], c[1..]);
    }
  }

  lemma {:induction false} ComponentsReflexive(a: seq<nat>)
    ensures ComponentsLessEq(a, a)
    decreases |a|
  {
    if |a| > 0 {
      ComponentsReflexive(a[1..]);
    }
  }

  /** The order on versions is total, so `Less` is exactly "`LessEq` and not the other way". */
  lemma LessEqTotal(a: IdeVersion, b: IdeVersion)
    ensures LessEq(a, b) || LessEq(b, a)
    ensures Less(a, b) ==> LessEq(a, b)
  {
    ComponentsTotal(a.Components(), b.Components());
  }

  lemma LessEqTransitive(a: IdeVersion, b: IdeVersion, c: IdeVersion)
    requires LessEq(a, b) && LessEq(b, c)
    ensures LessEq(a, c)
  {
    ComponentsTransitive(a.Components(), b.Components(), c.Components());
  }

  lemma LessEqReflexive(a: IdeVersion)
    ensures LessEq(a, a)
  {
    ComponentsReflexive(a.Components());
  }

  /** `IdeVersion.createIdeVersion("193")`. */
  const Version193: IdeVersion := IdeVersion("", 193, [])

  function JoinNumbers(ns: seq<nat>): string
    requires |ns| >= 1
  {
    if |ns| == 1 then NatToString(ns[0]) else NatToString(ns[0]) + "." + JoinNumbers(ns[1..])
  }

  /** The printed form of a version, `IU-193.5233` or `193.5233`. */
  function Presentation(v: IdeVersion): string {
    (if v.productCode == "" then "" else v.productCode + "-") + JoinNumbers(v.Components())
  }
}
