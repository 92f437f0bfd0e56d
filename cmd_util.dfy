/**
 * The command-line options of the verifier that the core reads: the file of problems to
 * ignore, the external class prefixes and the IDE version given on the command line.
 *
 * A line of the ignore file reads `<plugin id>:<plugin version>:<pattern>`; blank lines and
 * lines starting with `//` are comments. The file becomes a multimap from (id, version) to
 * the patterns, here a map to sets. A line with any other number of fields fails the whole
 * file. The contents of the file (its lines, or nothing when it does not exist) are a
 * parameter of the model.
 */
module CmdUtil {
  import opened Wrappers
  import opened Strings
  import opened IdeVersions

  /** `Multimap<Pair<String, String>, Pattern>`, with each pattern kept as its source string. */
  type Multimap = map<(string, string), set<string>>

  /** `m.put(key, value)`. */
  function Put(m: Multimap, key: (string, string), value: string): (r: Multimap)
    ensures r.Keys == m.Keys + {key}
    ensures r[key] == (if key in m then m[key] else {}) + {value}
    ensures forall k :: k in m && k != key ==> r[k] == m[k]
  {
    m[key := (if key in m then m[key] else {}) + {value}]
  }

  /** What one line of the ignore file contributes. */
  datatype LineParse =
    | Skip
    | Entry(key: (string, string), pattern: string)
    | Malformed(line: string)

  /** A string that `trim { it <= ' ' }` leaves as it is. */
  predicate Trimmed(s: string) {
    s == "" || (!IsSpaceOrControl(s[0]) && !IsSpaceOrControl(s[|s| - 1]))
  }

  /** The body of the reading loop for one line. */
  function ParseLine(line: string): (r: LineParse)
    ensures r.Skip? <==> TrimControl(line) == "" || StartsWith(TrimControl(line), "//")
  {
    var s := TrimControl(line);
    if s == "" || StartsWith(s, "//") then Skip else ParseTokens(s, DropTrailingEmpty(Split(s, ':')))
  }

  /** A trimmed line that is not a comment: exactly three fields, or the line is malformed. */
  function ParseTokens(s: string, tokens: seq<string>): (r: LineParse)
    ensures r.Skip? == false
    ensures r.Entry? <==> |tokens| == 3
  {
    if |tokens| != 3 then Malformed(s)
    else Entry((TrimControl(tokens[0]), TrimControl(tokens[1])), ReplaceChar(TrimControl(tokens[2]), '/', '.'))
  }

  lemma TrimControlTrimmed(s: string)
    ensures Trimmed(TrimControl(s))
  {
  }

  lemma TrimmedTrimControl(s: string)
    requires Trimmed(s)
    ensures TrimControl(s) == s
  {
    if s != "" {
      assert DropLeading(s, IsSpaceOrControl) == s;
    }
  }

  /** An accepted line yields trimmed fields without `:`, and a pattern without `/`. */
  lemma ParseLineEntry(line: string)
    requires ParseLine(line).Entry?
    ensures var e := ParseLine(line);
      && ':' !in e.key.0 && ':' !in e.key.1 && ':' !in e.pattern && '/' !in e.pattern
      && Trimmed(e.key.0) && Trimmed(e.key.1)
  {
    var s := TrimControl(line);
    var tokens := DropTrailingEmpty(Split(s, ':'));
    TokensHaveNoSeparator(s);
    TrimmedField(tokens[0]);
    TrimmedField(tokens[1]);
    TrimmedField(tokens[2]);
    NormalizedPattern(TrimControl(tokens[2]));
  }

  lemma TokensHaveNoSeparator(s: string)
    ensures var tokens := DropTrailingEmpty(Split(s, ':'));
      forall k :: 0 <= k < |tokens| ==> ':' !in tokens[k]
  {
    var pieces := Split(s, ':');
    var tokens := DropTrailingEmpty(pieces);
    forall k | 0 <= k < |tokens| ensures ':' !in tokens[k] {
      assert tokens[k] == pieces[k];
    }
  }

  /** Trimming a field keeps it free of `:` and leaves it trimmed. */
  lemma TrimmedField(token: string)
    ensures ':' in TrimControl(token) ==> ':' in token
    ensures Trimmed(TrimControl(token))
  {
    var d := DropLeading(token, IsSpaceOrControl);
    var t := DropTrailing(d, IsSpaceOrControl);
    assert t == TrimControl(token);
    if ':' in t {
      var i :| 0 <= i < |t| && t[i] == ':';
      assert d[i] == ':';
      assert token[|token| - |d| + i] == ':';
    }
    if t != "" {
      assert t[0] == d[0];
    }
  }

  lemma NormalizedPattern(t: string)
    ensures ':' !in t ==> ':' !in ReplaceChar(t, '/', '.')
    ensures '/' !in ReplaceChar(t, '/', '.')
  {
    var p := ReplaceChar(t, '/', '.');
    assert forall k :: 0 <= k < |p| ==> p[k] != '/';
    if ':' !in t {
      assert forall k :: 0 <= k < |p| ==> p[k] != ':' by {
        assert forall k :: 0 <= k < |t| ==> t[k] != ':';
      }
    }
  }

  /** Writing a line from three fields and reading it back gives the fields. The version may be empty. */
  lemma ParseLineRoundTrip(id: string, version: string, pattern: string)
    requires ':' !in id && ':' !in version && ':' !in pattern
    requires Trimmed(id) && Trimmed(version) && Trimmed(pattern)
    requires pattern != "" && !StartsWith(id, "//")
    ensures ParseLine(id + ":" + version + ":" + pattern) == Entry((id, version), ReplaceChar(pattern, '/', '.'))
  {
    var line := id + ":" + version + ":" + pattern;
    JoinedLineIsTrimmed(id, version, pattern);
    TrimmedTrimControl(line);
    JoinedLineIsNoComment(id, version, pattern);
    JoinedLineSplits(id, version, pattern);
    TrimmedTrimControl(id);
    TrimmedTrimControl(version);
    TrimmedTrimControl(pattern);
  }

  lemma JoinedLineIsTrimmed(id: string, version: string, pattern: string)
    requires Trimmed(id) && Trimmed(pattern) && pattern != ""
    ensures Trimmed(id + ":" + version + ":" + pattern)
  {
    var line := id + ":" + version + ":" + pattern;
    assert line[|line| - 1] == pattern[|pattern| - 1];
    if id == "" {
      assert line[0] == ':';
    } else {
      assert line[0] == id[0];
    }
  }

  lemma JoinedLineIsNoComment(id: string, version: string, pattern: string)
    requires !StartsWith(id, "//")
    ensures !StartsWith(id + ":" + version + ":" + pattern, "//")
  {
    var line := id + ":" + version + ":" + pattern;
    if |id| >= 2 {
      assert line[..2] == id[..2];
    } else {
      assert line[|id|] == ':';
    }
  }

  lemma JoinedLineSplits(id: string, version: string, pattern: string)
    requires ':' !in id && ':' !in version && ':' !in pattern && pattern != ""
    ensures DropTrailingEmpty(Split(id + ":" + version + ":" + pattern, ':')) == [id, version, pattern]
  {
    var pieces := [id, version, pattern];
    assert Join(pieces, ':') == id + ":" + version + ":" + pattern by {
      assert Join(pieces[1..], ':') == version + [':'] + pattern by {
        assert pieces[1..][1..] == [pattern];
      }
    }
    SplitJoin(pieces, ':');
  }

  /** `f` applied to each element, in order. */
  function MapSeq<A, B>(f: A -> B, xs: seq<A>): (r: seq<B>)
    ensures |r| == |xs|
    ensures forall k :: 0 <= k < |xs| ==> r[k] == f(xs[k])
  {
    if |xs| == 0 then [] else MapSeq(f, xs[..|xs| - 1]) + [f(xs[|xs| - 1])]
  }

  lemma MapSeqAppend<A, B>(f: A -> B, a: seq<A>, b: seq<A>)
    ensures MapSeq(f, a + b) == MapSeq(f, a) + MapSeq(f, b)
  {
    var r := MapSeq(f, a + b);
    assert forall k :: 0 <= k < |a| ==> r[k] == MapSeq(f, a)[k] by {
      assert forall k :: 0 <= k < |a| ==> (a + b)[k] == a[k];
    }
    assert forall k :: |a| <= k < |r| ==> r[k] == MapSeq(f, b)[k - |a|] by {
      assert forall k :: |a| <= k < |r| ==> (a + b)[k] == b[k - |a|];
    }
  }

  /** Each line of the file parsed on its own. */
  function Parses(lines: seq<string>): (r: seq<LineParse>)
    ensures |r| == |lines|
    ensures forall k :: 0 <= k < |lines| ==> r[k] == ParseLine(lines[k])
  {
    MapSeq(ParseLine, lines)
  }

  /** The multimap filled from the parsed lines in order, or nothing once a line is malformed. */
  function Collect(parsed: seq<LineParse>): Option<Multimap>
    decreases |parsed|
  {
    if |parsed| == 0 then Some(map[])
    else
      match Collect(parsed[..|parsed| - 1])
      case None => None
      case Some(m) =>
        match parsed[|parsed| - 1]
        case Skip => Some(m)
        case Malformed(_) => None
        case Entry(key, pattern) => Some(Put(m, key, pattern))
  }

  /** What the reading loop of `getProblemsToIgnoreFromFile` leaves in the multimap. */
  function IgnoredProblems(lines: seq<string>): Option<Multimap> {
    Collect(Parses(lines))
  }

  /** Once a line is malformed, no further lines make the file readable. */
  lemma {:induction false} CollectFailureStays(parsed: seq<LineParse>, i: nat)
    requires i <= |parsed|
    requires Collect(parsed[..i]) == None
    ensures Collect(parsed) == None
    decreases |parsed| - i
  {
    if i < |parsed| {
      assert parsed[..i + 1][..i] == parsed[..i];
      CollectFailureStays(parsed, i + 1);
    } else {
      assert parsed[..i] == parsed;
    }
  }

  lemma {:induction false} CollectFails(parsed: seq<LineParse>)
    ensures Collect(parsed) == None <==> exists i :: 0 <= i < |parsed| && parsed[i].Malformed?
    decreases |parsed|
  {
    if |parsed| > 0 {
      var init := parsed[..|parsed| - 1];
      CollectFails(init);
      if exists i :: 0 <= i < |init| && init[i].Malformed? {
        var i :| 0 <= i < |init| && init[i].Malformed?;
        assert parsed[i] == init[i];
      }
      if exists i :: 0 <= i < |parsed| && parsed[i].Malformed? {
        var i :| 0 <= i < |parsed| && parsed[i].Malformed?;
        if i < |init| {
          assert init[i] == parsed[i];
        }
      }
    }
  }

  lemma {:induction false} CollectEntries(parsed: seq<LineParse>, m: Multimap)
    requires Collect(parsed) == Some(m)
    ensures forall i :: 0 <= i < |parsed| && parsed[i].Entry? ==> parsed[i].key in m && parsed[i].pattern in m[parsed[i].key]
    ensures forall key, pattern :: key in m && pattern in m[key] ==>
      exists i :: 0 <= i < |parsed| && parsed[i] == Entry(key, pattern)
    ensures forall key :: key in m ==> m[key] != {}
    decreases |parsed|
  {
    if |parsed| > 0 {
      var init := parsed[..|parsed| - 1];
      var m0 := Collect(init).value;
      CollectEntries(init, m0);
      forall i | 0 <= i < |parsed| && parsed[i].Entry?
        ensures parsed[i].key in m && parsed[i].pattern in m[parsed[i].key]
      {
        if i < |init| {
          assert init[i] == parsed[i];
        }
      }
      forall key, pattern | key in m && pattern in m[key]
        ensures exists i :: 0 <= i < |parsed| && parsed[i] == Entry(key, pattern)
      {
        if key in m0 && pattern in m0[key] {
          var i :| 0 <= i < |init| && init[i] == Entry(key, pattern);
          assert parsed[i] == init[i];
        } else {
          assert parsed[|parsed| - 1] == Entry(key, pattern);
        }
      }
    }
  }

  lemma {:induction false} CollectSkip(a: seq<LineParse>, b: seq<LineParse>)
    ensures Collect(a + [Skip] + b) == Collect(a + b)
    decreases |b|
  {
    if |b| == 0 {
      assert a + [Skip] + b == a + [Skip];
      assert (a + [Skip])[..|a|] == a;
      assert a + b == a;
    } else {
      var init := b[..|b| - 1];
      CollectSkip(a, init);
      assert (a + [Skip] + b)[..|a + [Skip] + b| - 1] == a + [Skip] + init;
      assert (a + b)[..|a + b| - 1] == a + init;
    }
  }

  /** The file fails exactly when one of its lines is malformed. */
  lemma IgnoredProblemsFails(lines: seq<string>)
    ensures IgnoredProblems(lines) == None <==> exists i :: 0 <= i < |lines| && ParseLine(lines[i]).Malformed?
  {
    var parsed := Parses(lines);
    CollectFails(parsed);
    if exists i :: 0 <= i < |lines| && ParseLine(lines[i]).Malformed? {
      var i :| 0 <= i < |lines| && ParseLine(lines[i]).Malformed?;
      assert parsed[i].Malformed?;
    }
  }

  /**
   * A readable file maps each (id, version) to exactly the patterns of the accepted lines
   * with that id and version, and has no key without a pattern.
   */
  lemma IgnoredProblemsEntries(lines: seq<string>, m: Multimap)
    requires IgnoredProblems(lines) == Some(m)
    ensures forall i :: 0 <= i < |lines| && ParseLine(lines[i]).Entry? ==>
      ParseLine(lines[i]).key in m && ParseLine(lines[i]).pattern in m[ParseLine(lines[i]).key]
    ensures forall key, pattern :: key in m && pattern in m[key] ==>
      exists i :: 0 <= i < |lines| && ParseLine(lines[i]) == Entry(key, pattern)
    ensures forall key :: key in m ==> m[key] != {}
  {
    var parsed := Parses(lines);
    CollectEntries(parsed, m);
    forall key, pattern | key in m && pattern in m[key]
      ensures exists i :: 0 <= i < |lines| && ParseLine(lines[i]) == Entry(key, pattern)
    {
      var i :| 0 <= i < |parsed| && parsed[i] == Entry(key, pattern);
      assert ParseLine(lines[i]) == parsed[i];
    }
  }

  /** A blank line or a comment can be inserted anywhere without changing what is read. */
  lemma IgnoredProblemsSkip(before: seq<string>, comment: string, after: seq<string>)
    requires ParseLine(comment).Skip?
    ensures IgnoredProblems(before + [comment] + after) == IgnoredProblems(before + after)
  {
    MapSeqAppend(ParseLine, before + [comment], after);
    MapSeqAppend(ParseLine, before, [comment]);
    MapSeqAppend(ParseLine, before, after);
    CollectSkip(Parses(before), Parses(after));
  }

  /** `getProblemsToIgnoreFromFile`, with the lines of the file or nothing when it does not exist. */
  function ProblemsToIgnore(fileName: string, file: Option<seq<string>>): (r: Result<Multimap>)
    ensures file.None? ==> r == Failure("Ignored problems file doesn't exist " + fileName)
    ensures r.Failure? ==> EndsWith(r.error, fileName)
  {
    if file.None? then Failure("Ignored problems file doesn't exist " + fileName)
    else
      match IgnoredProblems(file.value)
      case Some(m) => Success(m)
      case None => Failure("Unable to parse ignored problems file " + fileName)
  }

  /** The reading loop of `getProblemsToIgnoreFromFile`, filling the multimap line by line. */
  method GetProblemsToIgnoreFromFile(fileName: string, file: Option<seq<string>>) returns (r: Result<Multimap>)
    ensures r == ProblemsToIgnore(fileName, file)
  {
    if file.None? {
      return Failure("Ignored problems file doesn't exist " + fileName);
    }
    var lines := file.value;
    ghost var parsed := Parses(lines);
    var m: Multimap := map[];
    var i := 0;
    while i < |lines|
      invariant 0 <= i <= |lines|
      invariant Collect(parsed[..i]) == Some(m)
    {
      assert parsed[..i + 1][..i] == parsed[..i];
      match ParseLine(lines[i]) {
        case Skip =>
        case Malformed(_) =>
          CollectFailureStays(parsed, i + 1);
          return Failure("Unable to parse ignored problems file " + fileName);
        case Entry(key, pattern) =>
          m := Put(m, key, pattern);
      }
      i := i + 1;
    }
    assert parsed[..i] == parsed;
    return Success(m);
  }
  /** The options of `CmdOpts` that the model reads. */
  datatype CmdOpts = CmdOpts(
    ignoreProblemsFile: Option<string>,
    externalClassesPrefixes: seq<string>,
    ignoreMissingOptionalDependencies: seq<string>,
    actualIdeVersion: Option<string>)

  /** `VOptions`: the verifier options built from the command line. */
  datatype VOptions = VOptions(
    externalClassesPrefixes: seq<string>,
    optionalDependenciesIdsToIgnore: set<string>,
    problemsToIgnore: Multimap)

  /** The external class prefixes as package paths: `.` becomes `/`, in the given order. */
  function ExternalPrefixes(prefixes: seq<string>): (r: seq<string>)
    ensures |r| == |prefixes|
    ensures forall k :: 0 <= k < |r| ==> r[k] == ReplaceChar(prefixes[k], '.', '/')
  {
    MapSeq(prefix => ReplaceChar(prefix, '.', '/'), prefixes)
  }

  /** A converted prefix has no dots and keeps every other character in place. */
  lemma ExternalPrefixesShape(prefixes: seq<string>, k: nat)
    requires k < |prefixes|
    ensures var p := ExternalPrefixes(prefixes)[k];
      && |p| == |prefixes[k]| && '.' !in p
      && forall j :: 0 <= j < |p| && prefixes[k][j] != '.' ==> p[j] == prefixes[k][j]
  {
    var p := ExternalPrefixes(prefixes)[k];
    assert forall j :: 0 <= j < |p| ==> p[j] != '.';
  }

  /** `parseOpts`: the ignore file is read only when one is named, and its failure is the result. */
  function ParseOpts(opts: CmdOpts, files: string -> Option<seq<string>>): (r: Result<VOptions>)
    ensures opts.ignoreProblemsFile.None? ==> r.Success? && r.value.problemsToIgnore == map[]
    ensures opts.ignoreProblemsFile.Some? ==>
      (r.Failure? <==> ProblemsToIgnore(opts.ignoreProblemsFile.value, files(opts.ignoreProblemsFile.value)).Failure?)
    ensures r.Success? ==>
      && r.value.externalClassesPrefixes == ExternalPrefixes(opts.externalClassesPrefixes)
      && r.value.optionalDependenciesIdsToIgnore == set id | id in opts.ignoreMissingOptionalDependencies
    ensures opts.ignoreProblemsFile.Some? && r.Success? ==>
      r.value.problemsToIgnore == ProblemsToIgnore(opts.ignoreProblemsFile.value, files(opts.ignoreProblemsFile.value)).value
    ensures r.Failure? ==>
      && opts.ignoreProblemsFile.Some?
      && r.error == ProblemsToIgnore(opts.ignoreProblemsFile.value, files(opts.ignoreProblemsFile.value)).error
  {
    var problems :=
      if opts.ignoreProblemsFile.None? then Success(map[])
      else ProblemsToIgnore(opts.ignoreProblemsFile.value, files(opts.ignoreProblemsFile.value));
    match problems
    case Failure(e) => Failure(e)
    case Success(m) =>
      var ignored := set id | id in opts.ignoreMissingOptionalDependencies;
      Success(VOptions(ExternalPrefixes(opts.externalClassesPrefixes), ignored, m))
  }

  /**
   * With an ignore file named: a missing file fails with the does-not-exist message, a file
   * fails iff one of its lines is malformed, and otherwise a problem is ignored iff some line
   * of the file gives it.
   */
  lemma ParseOptsReadsIgnoreFile(opts: CmdOpts, files: string -> Option<seq<string>>)
    requires opts.ignoreProblemsFile.Some?
    ensures var f := opts.ignoreProblemsFile.value;
      files(f).None? ==> ParseOpts(opts, files) == Failure("Ignored problems file doesn't exist " + f)
    ensures var f := opts.ignoreProblemsFile.value;
      files(f).Some? ==>
        (ParseOpts(opts, files).Failure? <==>
          exists i :: 0 <= i < |files(f).value| && ParseLine(files(f).value[i]).Malformed?)
    ensures var f := opts.ignoreProblemsFile.value;
      var r := ParseOpts(opts, files);
      r.Success? ==>
        forall key, pattern ::
          (key in r.value.problemsToIgnore && pattern in r.value.problemsToIgnore[key]) <==>
          exists i :: 0 <= i < |files(f).value| && ParseLine(files(f).value[i]) == Entry(key, pattern)
  {
    var f := opts.ignoreProblemsFile.value;
    if files(f).Some? {
      var lines := files(f).value;
      IgnoredProblemsFails(lines);
      var r := ParseOpts(opts, files);
      if r.Success? {
        IgnoredProblemsEntries(lines, r.value.problemsToIgnore);
      }
    }
  }

  const IncorrectVersionMessage := "Incorrect update IDE-version has been specified "

  /**
   * `takeVersionFromCmd`: no version when the option is null or blank, otherwise the parsed
   * version, or a failure naming the option when it does not parse.
   */
  function TakeVersionFromCmd(opts: CmdOpts, createIdeVersion: string -> Option<IdeVersion>): (r: Result<Option<IdeVersion>>)
    ensures r == Success(None) <==> IsNullOrBlank(opts.actualIdeVersion)
    ensures r.Success? && r.value.Some? ==> createIdeVersion(opts.actualIdeVersion.value) == r.value
    ensures r.Failure? <==> !IsNullOrBlank(opts.actualIdeVersion) && createIdeVersion(opts.actualIdeVersion.value).None?
    ensures r.Failure? ==> r.error == IncorrectVersionMessage + opts.actualIdeVersion.value
  {
    if !IsNullOrBlank(opts.actualIdeVersion) then
      match createIdeVersion(opts.actualIdeVersion.value)
      case Some(v) => Success(Some(v))
      case None => Failure(IncorrectVersionMessage + opts.actualIdeVersion.value)
    else Success(None)
  }
}
