/**
  One pinned requirement line, `name==version[ # comment]`: how it is cut
  into a name and a raw version, and how `_version_resolver` turns the pair
  into the manifest entry (comment stripping and the two extras rules).
 */
module Requirements {
  import opened Wrappers
  import opened Text

  /** The value a dependency table holds for one package. */
  datatype Dep =
    | Plain(version: string)                            // "1.2.0"
    | WithExtras(extras: seq<string>, version: string)  // {extras = [...], version = "1.2.0"}
    | WithSource(version: string, source: string)       // {version = "^2.0.0", source = "pytorch-cpu"}

  /** The ways a migration run stops without finishing. */
  datatype MigrationError =
    | PackageNotFound                     // no package directory: reported and the run returns
    | MalformedRequirement(line: string)  // a kept line does not split on `==` into two parts
    | MissingPytorchVersion               // torch detected but no pytorch version given
    | TemplateUnreadable(path: string)    // a template file could not be opened

  const ServerInfra := "python-server-infra"
  const ApiAnalytics := "api-analytics"
  const RetrainLogger := "retrain-python-logger"
  const Starlette := "starlette"


  /** A text in which the one-character pattern `"#"` does not occur holds no `'#'`. */
  lemma NoHashChar(s: string)
    requires !Contains(s, "#")
    ensures '#' !in s
  {
    forall k | 0 <= k < |s|
      ensures s[k] != '#'
    {
      assert s[k..k + 1] == [s[k]];
      assert !OccursAt(s, "#", k);
    }
  }

  /** `version.split("#")[0].strip()`: the raw version cut at its first `#`, without surrounding whitespace. */
  function CleanVersion(raw: string): (v: string)
    ensures '#' !in v
    ensures v == [] || (!IsSpace(v[0]) && !IsSpace(v[|v| - 1]))
  {
    var head := Split(raw, "#")[0];
    var v := Strip(head);
    FirstPiece(raw, "#");
    NoHashChar(head);
    StripKeepsOut(head, '#');
    v
  }

  /**
    Whatever position `cut` marks the first `#` of the raw version (or its
    end, when there is none), the resolved version is the text before it,
    stripped.
   */
  lemma CleanVersionCutsAtFirstHash(raw: string, cut: nat)
    requires cut <= |raw|
    requires '#' !in raw[..cut]
    requires cut == |raw| || raw[cut] == '#'
    ensures CleanVersion(raw) == Strip(raw[..cut])
  {
    var head := Split(raw, "#")[0];
    FirstPiece(raw, "#");
    NoHashChar(head);
    assert |head| < |raw| ==> raw[|head|] == raw[|head|..|head| + 1][0] == '#';
    assert forall k :: 0 <= k < cut ==> raw[k] == raw[..cut][k] != '#';
    assert forall k :: 0 <= k < |head| ==> raw[k] == head[k] != '#';
    assert head == raw[..cut];
  }

  /** Python's `name.startswith(prefix) and "[tag]" in name`. */
  predicate MatchesExtras(name: string, prefix: string, tag: string) {
    StartsWith(name, prefix) && Contains(name, "[" + tag + "]")
  }

  /**
    One `if` of `_version_resolver`: a name that starts with `prefix` and
    holds `[tag]` is renamed to the bare prefix, and its version wrapped with
    the tag; any other entry passes through.
   */
  function ApplyExtras(entry: (string, Dep), prefix: string, tag: string): (r: (string, Dep))
    ensures r.1.version == entry.1.version
    ensures r.0 == prefix || r == entry
    ensures r != entry ==> MatchesExtras(entry.0, prefix, tag) && r.1 == WithExtras([tag], entry.1.version)
    ensures MatchesExtras(entry.0, prefix, tag) ==> r == (prefix, WithExtras([tag], entry.1.version))
  {
    if MatchesExtras(entry.0, prefix, tag) then (prefix, WithExtras([tag], entry.1.version)) else entry
  }

  /**
    `_version_resolver(package_name, version)`: the version is cleaned, then
    the `python-server-infra` rule and the `retrain-python-logger` rule are
    applied one after the other.
   */
  function ResolveVersion(name: string, rawVersion: string): (r: (string, Dep))
    ensures r.1.version == CleanVersion(rawVersion)
  {
    var entry := (name, Plain(CleanVersion(rawVersion)));
    ApplyExtras(ApplyExtras(entry, ServerInfra, ApiAnalytics), RetrainLogger, Starlette)
  }

  /**
    At most one rule applies: a name recognised by a rule becomes the bare
    prefix with an `{extras, version}` value, and every other name passes
    through with its plain, cleaned version.
   */
  lemma ResolveVersionCases(name: string, rawVersion: string)
    ensures MatchesExtras(name, ServerInfra, ApiAnalytics) ==>
      ResolveVersion(name, rawVersion) == (ServerInfra, WithExtras([ApiAnalytics], CleanVersion(rawVersion)))
    ensures MatchesExtras(name, RetrainLogger, Starlette) ==>
      ResolveVersion(name, rawVersion) == (RetrainLogger, WithExtras([Starlette], CleanVersion(rawVersion)))
    ensures !MatchesExtras(name, ServerInfra, ApiAnalytics) && !MatchesExtras(name, RetrainLogger, Starlette) ==>
      ResolveVersion(name, rawVersion) == (name, Plain(CleanVersion(rawVersion)))
  {
    assert !StartsWith(ServerInfra, RetrainLogger) by {
      assert ServerInfra[0] != RetrainLogger[0];
    }
    assert StartsWith(name, ServerInfra) ==> !StartsWith(name, RetrainLogger) by {
      if StartsWith(name, ServerInfra) {
        assert name[0] == ServerInfra[0] != RetrainLogger[0];
      }
    }
  }

  /** `package, version = requirement.split("==")`: the line must fall into exactly two pieces. */
  function SplitPin(line: string): (r: Result<(string, string), MigrationError>)
    ensures r.Failure? ==> r.error == MalformedRequirement(line)
    ensures r.Success? ==> r.value.0 + "==" + r.value.1 == line
    ensures r.Success? ==> !Contains(r.value.0, "==") && !Contains(r.value.1, "==")
  {
    var parts := Split(line, "==");
    JoinSplit(line, "==");
    SplitPiecesFree(line, "==");
    assert |parts| == 2 ==> parts[1..] == [parts[1]];
    if |parts| == 2 then Success((parts[0], parts[1])) else Failure(MalformedRequirement(line))
  }

  /**
    A line splits into a pin exactly when `==` occurs in it and does not occur
    again after its first occurrence; the name is the text before that
    occurrence and the raw version the text after it.
   */
  lemma SplitPinAtOnlySeparator(line: string)
    ensures SplitPin(line).Success? <==>
      IndexOf(line, "==").Some? && !Contains(line[IndexOf(line, "==").value + 2..], "==")
    ensures SplitPin(line).Success? ==>
      var i := IndexOf(line, "==").value;
      SplitPin(line).value == (line[..i], line[i + 2..])
  {
    var parts := Split(line, "==");
    IndexOfFinds(line, "==");
    match IndexOf(line, "==")
    case None =>
      assert parts == [line];
    case Some(i) =>
      var rest := line[i + 2..];
      var tail := Split(rest, "==");
      assert parts == [line[..i]] + tail;
      assert |parts| == 2 <==> |tail| == 1;
      IndexOfFinds(rest, "==");
      assert |tail| == 1 <==> IndexOf(rest, "==").None?;
  }

  /** The name a line resolves to is one of the two bare extras prefixes, or the line begins with it. */
  lemma ParsedNameOrigin(line: string)
    requires ParseRequirement(line).Success?
    ensures var name := ParseRequirement(line).value.0;
      name == ServerInfra || name == RetrainLogger || StartsWith(line, name)
  {
    var pin := SplitPin(line).value;
    ResolvedNameOrigin(pin.0, pin.1);
    NameBeforeSeparator(line, pin.0, pin.1);
  }

  /** The resolved name is the given name or one of the two bare extras prefixes. */
  lemma ResolvedNameOrigin(name: string, rawVersion: string)
    ensures var r := ResolveVersion(name, rawVersion).0;
      r == ServerInfra || r == RetrainLogger || r == name
  {
    var entry := (name, Plain(CleanVersion(rawVersion)));
    var first := ApplyExtras(entry, ServerInfra, ApiAnalytics);
    ApplyExtrasName(entry, ServerInfra, ApiAnalytics);
    ApplyExtrasName(first, RetrainLogger, Starlette);
  }

  /** A rule keeps the name or renames it to the rule's prefix. */
  lemma ApplyExtrasName(entry: (string, Dep), prefix: string, tag: string)
    ensures ApplyExtras(entry, prefix, tag).0 == prefix || ApplyExtras(entry, prefix, tag).0 == entry.0
  {
  }

  lemma NameBeforeSeparator(line: string, name: string, version: string)
    requires name + "==" + version == line
    ensures StartsWith(line, name)
  {
    assert line == name + ("==" + version);
    assert line[..|name|] == name;
  }

  /** A kept requirement line read as its manifest entry: split on `==`, then resolved. */
  function ParseRequirement(line: string): (r: Result<(string, Dep), MigrationError>)
    ensures r.Failure? ==> r.error == MalformedRequirement(line)
    ensures r.Success? ==> SplitPin(line).Success? && r.value.1.version == CleanVersion(SplitPin(line).value.1)
  {
    var pin :- SplitPin(line);
    Success(ResolveVersion(pin.0, pin.1))
  }
}
