/**
 * `validateTeamcityPluginBean`: the three required properties of a TeamCity plugin descriptor.
 * Each one that is missing or blank is reported as not specified, in the order name,
 * display name, version.
 */
module TeamcityValidator {
  import opened Wrappers
  import opened Strings
  import opened PluginProblems

  /** The fields of `TeamcityPluginBean` that the validator reads. */
  datatype TeamcityPluginBean = TeamcityPluginBean(name: Option<string>, displayName: Option<string>, version: Option<string>)

  /** The problem for one required property: one when it is null or blank, none otherwise. */
  function MissingProperty(propertyName: string, value: Option<string>): (r: seq<ProblemKind>)
    ensures r != [] <==> IsNullOrBlank(value)
    ensures r != [] ==> r == [PropertyNotSpecified(propertyName, None)]
  {
    if IsNullOrBlank(value) then [PropertyNotSpecified(propertyName, None)] else []
  }

  /** What the validator reports for a bean. */
  function TeamcityProblems(bean: TeamcityPluginBean): seq<ProblemKind> {
    MissingProperty("name", bean.name)
      + MissingProperty("display-name", bean.displayName)
      + MissingProperty("version", bean.version)
  }

  /** `validateTeamcityPluginBean`: three checks, each appending to the list of problems. */
  method ValidateTeamcityPluginBean(bean: TeamcityPluginBean) returns (problems: seq<ProblemKind>)
    ensures problems == TeamcityProblems(bean)
  {
    problems := [];
    if IsNullOrBlank(bean.name) {
      problems := problems + [PropertyNotSpecified("name", None)];
    }
    if IsNullOrBlank(bean.displayName) {
      problems := problems + [PropertyNotSpecified("display-name", None)];
    }
    if IsNullOrBlank(bean.version) {
      problems := problems + [PropertyNotSpecified("version", None)];
    }
  }

  /** Each property is reported exactly when it is null or blank. */
  lemma TeamcityProblemsIff(bean: TeamcityPluginBean)
    ensures PropertyNotSpecified("name", None) in TeamcityProblems(bean) <==> IsNullOrBlank(bean.name)
    ensures PropertyNotSpecified("display-name", None) in TeamcityProblems(bean) <==> IsNullOrBlank(bean.displayName)
    ensures PropertyNotSpecified("version", None) in TeamcityProblems(bean) <==> IsNullOrBlank(bean.version)
  {
    var n := MissingProperty("name", bean.name);
    var d := MissingProperty("display-name", bean.displayName);
    var v := MissingProperty("version", bean.version);
    assert TeamcityProblems(bean) == n + d + v;
    assert forall p :: p in n + d + v <==> p in n || p in d || p in v;
    assert "name" != "display-name" && "name" != "version" && "display-name" != "version" by {
      assert |"name"| == 4 && |"display-name"| == 12 && |"version"| == 7;
    }
  }

  /** At most three problems, and none exactly when all three properties are given. */
  lemma TeamcityProblemsBound(bean: TeamcityPluginBean)
    ensures |TeamcityProblems(bean)| <= 3
    ensures TeamcityProblems(bean) == [] <==>
      !IsNullOrBlank(bean.name) && !IsNullOrBlank(bean.displayName) && !IsNullOrBlank(bean.version)
  {
  }

  /** The position of a property in the validator's order. */
  function PropertyRank(propertyName: string): nat {
    if propertyName == "name" then 0 else if propertyName == "display-name" then 1 else 2
  }

  /** The problems come in the order name, display name, version, each at most once. */
  lemma TeamcityProblemsOrdered(bean: TeamcityPluginBean)
    ensures var r := TeamcityProblems(bean);
      forall i, j :: 0 <= i < j < |r| ==> PropertyRank(r[i].propertyName) < PropertyRank(r[j].propertyName)
  {
    var n := MissingProperty("name", bean.name);
    var d := MissingProperty("display-name", bean.displayName);
    var v := MissingProperty("version", bean.version);
    assert "name" != "display-name" && "name" != "version" && "display-name" != "version" by {
      assert |"name"| == 4 && |"display-name"| == 12 && |"version"| == 7;
    }
    var r := n + d + v;
    assert TeamcityProblems(bean) == r;
    forall i, j | 0 <= i < j < |r|
      ensures PropertyRank(r[i].propertyName) < PropertyRank(r[j].propertyName)
    {
      if i < |n| {
        assert r[i] == n[0] && j >= |n|;
        if j < |n| + |d| { assert r[j] == d[0]; } else { assert r[j] == v[j - |n| - |d|]; }
      } else {
        assert i < |n| + |d| && r[i] == d[0];
        assert j >= |n| + |d| && r[j] == v[0];
      }
    }
  }
}
