/**
  The in-memory part of `migrate_requirements_to_pyproject`: the loop over
  the production lines, the loop over the development lines and the
  registry list, which together build the `tool.poetry` table.

  Each loop is a method proved equal to a left fold over the lines
  (`Production`, `Development`); the properties of the manifest are lemmas
  about those folds.
 */
module Manifest {
  import opened Wrappers
  import opened Text
  import opened Requirements

  /** An entry of the manifest's `source` list: a package registry. */
  datatype Source = Source(name: string, url: string, default: bool, secondary: bool)

  const RetrainSource := Source("retrain", "https://europe-west4-python.pkg.dev/retrain-utils/retrain-pypi/simple/", false, true)
  const PytorchCpuSource := Source("pytorch-cpu", "https://download.pytorch.org/whl/cpu", false, true)

  /** The `tool.poetry` table the run writes. */
  datatype Poetry = Poetry(
    name: string,
    version: string,
    description: string,
    authors: seq<string>,
    dependencies: map<string, Dep>,
    devDependencies: map<string, Dep>,
    source: seq<Source>)

  /** The caller-supplied values the manifest is built from. */
  datatype Settings = Settings(
    projectVersion: string,
    pythonVersion: string,
    description: string,
    pytorchVersion: Option<string>)

  /** The production table and the `uses_pytorch` flag after some prefix of the production lines. */
  datatype ProdState = ProdState(deps: map<string, Dep>, usesPytorch: bool)

  const PythonKey := "python"
  const TorchKey := "torch"
  const Authors := ["retrain.ai"]

  function PythonDep(pythonVersion: string): Dep { Plain("^" + pythonVersion) }
  function TorchDep(pytorchVersion: string): Dep { WithSource("^" + pytorchVersion, "pytorch-cpu") }

  /** `not requirement or requirement[0] == "#"`: a line the production loop skips. */
  predicate IsBlankOrComment(line: string) { line == [] || line[0] == '#' }

  /** A line the development loop skips: blank, a comment, or a `keyring` line. */
  predicate IsSkippedDev(line: string) { IsBlankOrComment(line) || StartsWith(line, "keyring") }

  /** A package name that makes the project a pytorch project. */
  predicate IsTorchName(name: string) {
    StartsWith(name, "torch") || StartsWith(name, "sentence-transformers") || StartsWith(name, "sentence_transformers")
  }

  /** `not pytorch_version`: no version was given, or the empty one. */
  predicate MissingVersion(v: Option<string>) { v.None? || v.value == "" }

  /**
    What one pass of a loop does with its line: skip it, or store the entry
    the line parses to (the parse may be the error that stops the run).
   */
  datatype Pass = Skip | Parsed(pin: Result<(string, Dep), MigrationError>)

  /**
    The pass over `line` of the production loop (`development` false), which
    skips blank and comment lines, or of the development loop, which also
    skips `keyring` lines.
   */
  function PassOf(line: string, development: bool): Pass {
    if (if development then IsSkippedDev(line) else IsBlankOrComment(line)) then Skip
    else Parsed(ParseRequirement(line))
  }

  /** The passes of a loop over `lines`, one per line, in order. */
  function Passes(lines: seq<string>, development: bool): (ps: seq<Pass>)
    ensures |ps| == |lines| && forall k | 0 <= k < |lines| :: ps[k] == PassOf(lines[k], development)
  {
    seq(|lines|, k requires 0 <= k < |lines| => PassOf(lines[k], development))
  }

  lemma PassesPrefix(lines: seq<string>, n: nat, development: bool)
    requires n <= |lines|
    ensures Passes(lines[..n], development) == Passes(lines, development)[..n]
  {
    assert forall k | 0 <= k < n :: lines[..n][k] == lines[k];
  }

  lemma PassesAppend(a: seq<string>, b: seq<string>, development: bool)
    ensures Passes(a + b, development) == Passes(a, development) + Passes(b, development)
  {
    assert forall k | 0 <= k < |a| :: (a + b)[k] == a[k];
    assert forall k | |a| <= k < |a| + |b| :: (a + b)[k] == b[k - |a|];
  }

  /** A pass that stores an entry under `name`. */
  predicate Stores(p: Pass, name: string) {
    p.Parsed? && p.pin.Success? && p.pin.value.0 == name
  }

  /** A pass that stores an entry for a pytorch package. */
  predicate StoresTorch(p: Pass) {
    p.Parsed? && p.pin.Success? && IsTorchName(p.pin.value.0)
  }

  /** A production line that is kept, well formed and names a pytorch package. */
  predicate TorchLine(line: string) {
    StoresTorch(PassOf(line, false))
  }

  /** A well-formed line whose entry is stored under `name`. */
  predicate PinNamed(line: string, name: string) {
    ParseRequirement(line).Success? && ParseRequirement(line).value.0 == name
  }

  // ---------------------------------------------------------------------------
  // The production loop
  // ---------------------------------------------------------------------------

  /** One pass of the production loop. */
  function ProdStep(st: ProdState, p: Pass, pytorchVersion: Option<string>): Result<ProdState, MigrationError>
  {
    match p
    case Skip => Success(st)
    case Parsed(parsed) =>
      var pin :- parsed;
      var deps := st.deps[pin.0 := pin.1];
      if !IsTorchName(pin.0) then Success(ProdState(deps, st.usesPytorch))
      else if MissingVersion(pytorchVersion) then Failure(MissingPytorchVersion)
      else Success(ProdState(deps[TorchKey := TorchDep(pytorchVersion.value)], true))
  }

  /**
    The production table after the passes `ps`, starting from
    `{python: "^" + pythonVersion}`. It always holds `python`, and once
    pytorch is detected a version was given and `torch` holds the forced
    pytorch-cpu entry.
   */
  function ProductionOf(ps: seq<Pass>, pythonVersion: string, pytorchVersion: Option<string>): (r: Result<ProdState, MigrationError>)
    ensures r.Success? ==> PythonKey in r.value.deps
    ensures r.Success? && r.value.usesPytorch ==>
      !MissingVersion(pytorchVersion) && TorchKey in r.value.deps && r.value.deps[TorchKey] == TorchDep(pytorchVersion.value)
    decreases |ps|
  {
    if ps == [] then Success(ProdState(map[PythonKey := PythonDep(pythonVersion)], false))
    else
      var st :- ProductionOf(ps[..|ps| - 1], pythonVersion, pytorchVersion);
      assert IsTorchName(TorchKey);
      ProdStep(st, ps[|ps| - 1], pytorchVersion)
  }

  /** The passes up to and including `ps[i]`: the state after the earlier passes, stepped by `ps[i]`. */
  lemma ProductionOfStep(ps: seq<Pass>, i: nat, pythonVersion: string, pytorchVersion: Option<string>)
    requires i < |ps|
    ensures ProductionOf(ps[..i + 1], pythonVersion, pytorchVersion) ==
      match ProductionOf(ps[..i], pythonVersion, pytorchVersion)
      case Failure(e) => Failure(e)
      case Success(st) => ProdStep(st, ps[i], pytorchVersion)
  {
    assert ps[..i + 1][..i] == ps[..i];
  }

  lemma {:induction false} ProductionOfFailureSticks(ps: seq<Pass>, n: nat, pythonVersion: string, pytorchVersion: Option<string>)
    requires n <= |ps|
    requires ProductionOf(ps[..n], pythonVersion, pytorchVersion).Failure?
    ensures ProductionOf(ps, pythonVersion, pytorchVersion) == ProductionOf(ps[..n], pythonVersion, pytorchVersion)
    decreases |ps| - n
  {
    if n == |ps| {
      assert ps[..n] == ps;
    } else {
      assert ps[..n + 1][..n] == ps[..n];
      ProductionOfFailureSticks(ps, n + 1, pythonVersion, pytorchVersion);
    }
  }

  lemma {:induction false} ProductionOfSkip(pre: seq<Pass>, post: seq<Pass>, pythonVersion: string, pytorchVersion: Option<string>)
    ensures ProductionOf(pre + [Skip] + post, pythonVersion, pytorchVersion) == ProductionOf(pre + post, pythonVersion, pytorchVersion)
    decreases |post|
  {
    var a, b := pre + [Skip] + post, pre + post;
    if post == [] {
      assert a[..|a| - 1] == pre && b == pre;
    } else {
      var init := post[..|post| - 1];
      ProductionOfSkip(pre, init, pythonVersion, pytorchVersion);
      assert a[..|a| - 1] == pre + [Skip] + init;
      assert b[..|b| - 1] == pre + init;
      assert a[|a| - 1] == b[|b| - 1];
    }
  }

  lemma {:induction false} ProductionOfLastWins(ps: seq<Pass>, j: nat, pythonVersion: string, pytorchVersion: Option<string>)
    requires j < |ps| && ps[j].Parsed? && ps[j].pin.Success? && ps[j].pin.value.0 != TorchKey
    requires forall k | j < k < |ps| :: !Stores(ps[k], ps[j].pin.value.0)
    requires ProductionOf(ps, pythonVersion, pytorchVersion).Success?
    ensures var pin := ps[j].pin.value;
      var deps := ProductionOf(ps, pythonVersion, pytorchVersion).value.deps;
      pin.0 in deps && deps[pin.0] == pin.1
    decreases |ps|
  {
    var init := ps[..|ps| - 1];
    if j < |init| {
      assert init[j] == ps[j];
      assert forall k | j < k < |init| :: init[k] == ps[k];
      ProductionOfLastWins(init, j, pythonVersion, pytorchVersion);
    }
  }

  lemma {:induction false} ProductionOfPythonDefault(ps: seq<Pass>, pythonVersion: string, pytorchVersion: Option<string>)
    requires forall k | 0 <= k < |ps| :: !Stores(ps[k], PythonKey)
    requires ProductionOf(ps, pythonVersion, pytorchVersion).Success?
    ensures ProductionOf(ps, pythonVersion, pytorchVersion).value.deps[PythonKey] == PythonDep(pythonVersion)
    decreases |ps|
  {
    if ps != [] {
      var init := ps[..|ps| - 1];
      assert forall k | 0 <= k < |init| :: init[k] == ps[k];
      ProductionOfPythonDefault(init, pythonVersion, pytorchVersion);
    }
  }

  lemma {:induction false} ProductionOfDetects(ps: seq<Pass>, pythonVersion: string, pytorchVersion: Option<string>)
    requires ProductionOf(ps, pythonVersion, pytorchVersion).Success?
    ensures ProductionOf(ps, pythonVersion, pytorchVersion).value.usesPytorch <==> exists k | 0 <= k < |ps| :: StoresTorch(ps[k])
    decreases |ps|
  {
    if ps != [] {
      var init := ps[..|ps| - 1];
      ProductionOfDetects(init, pythonVersion, pytorchVersion);
      if exists k | 0 <= k < |ps| :: StoresTorch(ps[k]) {
        var k :| 0 <= k < |ps| && StoresTorch(ps[k]);
        if k < |init| {
          assert init[k] == ps[k];
        }
      }
      if exists k | 0 <= k < |init| :: StoresTorch(init[k]) {
        var k :| 0 <= k < |init| && StoresTorch(init[k]);
        assert ps[k] == init[k];
      }
    }
  }
  /** Every name in the production table is `python`, a name some pass stores, or `torch` once some pass stored a pytorch name. */
  lemma {:induction false} ProductionOfNames(ps: seq<Pass>, pythonVersion: string, pytorchVersion: Option<string>, name: string)
    requires ProductionOf(ps, pythonVersion, pytorchVersion).Success?
    requires name in ProductionOf(ps, pythonVersion, pytorchVersion).value.deps
    ensures || name == PythonKey
            || (exists k | 0 <= k < |ps| :: Stores(ps[k], name))
            || (name == TorchKey && exists k | 0 <= k < |ps| :: StoresTorch(ps[k]))
    decreases |ps|
  {
    if ps != [] {
      var init := ps[..|ps| - 1];
      var last := ps[|ps| - 1];
      if !Stores(last, name) && !(name == TorchKey && StoresTorch(last)) {
        ProductionOfNames(init, pythonVersion, pytorchVersion, name);
        if exists k | 0 <= k < |init| :: Stores(init[k], name) {
          var k :| 0 <= k < |init| && Stores(init[k], name);
          assert ps[k] == init[k];
        }
        if name == TorchKey && exists k | 0 <= k < |init| :: StoresTorch(init[k]) {
          var k :| 0 <= k < |init| && StoresTorch(init[k]);
          assert ps[k] == init[k];
        }
      }
    }
  }


  /**
    The production table after the production loop has run over `lines`.
    It always holds `python`, and once pytorch is detected a version was
    given and `torch` holds the forced pytorch-cpu entry at that version.
   */
  function Production(lines: seq<string>, pythonVersion: string, pytorchVersion: Option<string>): (r: Result<ProdState, MigrationError>)
    ensures r.Success? ==> PythonKey in r.value.deps
    ensures r.Success? && r.value.usesPytorch ==>
      !MissingVersion(pytorchVersion) && TorchKey in r.value.deps && r.value.deps[TorchKey] == TorchDep(pytorchVersion.value)
  {
    ProductionOf(Passes(lines, false), pythonVersion, pytorchVersion)
  }

  /** Once the production loop has raised an error, the lines after it change nothing. */
  lemma ProductionFailureSticks(lines: seq<string>, n: nat, pythonVersion: string, pytorchVersion: Option<string>)
    requires n <= |lines|
    requires Production(lines[..n], pythonVersion, pytorchVersion).Failure?
    ensures Production(lines, pythonVersion, pytorchVersion) == Production(lines[..n], pythonVersion, pytorchVersion)
  {
    PassesPrefix(lines, n, false);
    ProductionOfFailureSticks(Passes(lines, false), n, pythonVersion, pytorchVersion);
  }

  /** The run stops at the first line whose pass raises an error, with that error. */
  lemma ProductionStopsAt(lines: seq<string>, k: nat, pythonVersion: string, pytorchVersion: Option<string>)
    requires k < |lines|
    requires Production(lines[..k], pythonVersion, pytorchVersion).Success?
    requires ProdStep(Production(lines[..k], pythonVersion, pytorchVersion).value, PassOf(lines[k], false), pytorchVersion).Failure?
    ensures Production(lines, pythonVersion, pytorchVersion)
         == ProdStep(Production(lines[..k], pythonVersion, pytorchVersion).value, PassOf(lines[k], false), pytorchVersion)
  {
    var ps := Passes(lines, false);
    PassesPrefix(lines, k, false);
    PassesPrefix(lines, k + 1, false);
    assert ps[..k + 1][..k] == ps[..k];
    ProductionOfFailureSticks(ps, k + 1, pythonVersion, pytorchVersion);
  }

  /** A kept production line that does not split on `==` into two parts fails the run, unless an earlier line already did. */
  lemma ProductionMalformedLineFails(lines: seq<string>, k: nat, pythonVersion: string, pytorchVersion: Option<string>)
    requires k < |lines| && !IsBlankOrComment(lines[k]) && SplitPin(lines[k]).Failure?
    requires Production(lines[..k], pythonVersion, pytorchVersion).Success?
    ensures Production(lines, pythonVersion, pytorchVersion) == Failure(MalformedRequirement(lines[k]))
  {
    ProductionStopsAt(lines, k, pythonVersion, pytorchVersion);
  }

  /** Without a pytorch version, the first pytorch line fails the run with `MissingPytorchVersion`. */
  lemma ProductionMissingPytorchVersionFails(lines: seq<string>, k: nat, pythonVersion: string, pytorchVersion: Option<string>)
    requires k < |lines| && TorchLine(lines[k]) && MissingVersion(pytorchVersion)
    requires Production(lines[..k], pythonVersion, pytorchVersion).Success?
    ensures Production(lines, pythonVersion, pytorchVersion) == Failure(MissingPytorchVersion)
  {
    ProductionStopsAt(lines, k, pythonVersion, pytorchVersion);
  }

  /** A blank or comment line, wherever it stands, changes nothing in the production run. */
  lemma ProductionIgnoresSkipped(pre: seq<string>, line: string, post: seq<string>, pythonVersion: string, pytorchVersion: Option<string>)
    requires IsBlankOrComment(line)
    ensures Production(pre + [line] + post, pythonVersion, pytorchVersion) == Production(pre + post, pythonVersion, pytorchVersion)
  {
    PassesAppend(pre + [line], post, false);
    PassesAppend(pre, [line], false);
    PassesAppend(pre, post, false);
    assert Passes([line], false) == [Skip];
    ProductionOfSkip(Passes(pre, false), Passes(post, false), pythonVersion, pytorchVersion);
  }

  /**
    Later lines win: the entry of a kept production line stays in the table
    when no later kept line resolves to the same name (the forced `torch`
    entry aside).
   */
  lemma ProductionLastWins(lines: seq<string>, j: nat, pythonVersion: string, pytorchVersion: Option<string>)
    requires j < |lines| && !IsBlankOrComment(lines[j]) && ParseRequirement(lines[j]).Success?
    requires ParseRequirement(lines[j]).value.0 != TorchKey
    requires forall k | j < k < |lines| :: !IsBlankOrComment(lines[k]) ==> !PinNamed(lines[k], ParseRequirement(lines[j]).value.0)
    requires Production(lines, pythonVersion, pytorchVersion).Success?
    ensures var pin := ParseRequirement(lines[j]).value;
      var deps := Production(lines, pythonVersion, pytorchVersion).value.deps;
      pin.0 in deps && deps[pin.0] == pin.1
  {
    var ps := Passes(lines, false);
    var name := ParseRequirement(lines[j]).value.0;
    assert ps[j] == Parsed(ParseRequirement(lines[j]));
    forall k | j < k < |ps|
      ensures !Stores(ps[k], name)
    {
      assert ps[k] == PassOf(lines[k], false);
    }
    ProductionOfLastWins(ps, j, pythonVersion, pytorchVersion);
  }

  /** `python` keeps its `"^" + pythonVersion` entry unless a kept production line resolves to `python`. */
  lemma ProductionPythonDefault(lines: seq<string>, pythonVersion: string, pytorchVersion: Option<string>)
    requires forall k | 0 <= k < |lines| :: !IsBlankOrComment(lines[k]) ==> !PinNamed(lines[k], PythonKey)
    requires Production(lines, pythonVersion, pytorchVersion).Success?
    ensures Production(lines, pythonVersion, pytorchVersion).value.deps[PythonKey] == PythonDep(pythonVersion)
  {
    var ps := Passes(lines, false);
    forall k | 0 <= k < |ps|
      ensures !Stores(ps[k], PythonKey)
    {
      assert ps[k] == PassOf(lines[k], false);
    }
    ProductionOfPythonDefault(ps, pythonVersion, pytorchVersion);
  }

  /** Pytorch is detected exactly when some production line is a kept, well-formed pytorch line. */
  lemma ProductionDetectsTorch(lines: seq<string>, pythonVersion: string, pytorchVersion: Option<string>)
    requires Production(lines, pythonVersion, pytorchVersion).Success?
    ensures Production(lines, pythonVersion, pytorchVersion).value.usesPytorch <==>
      exists k | 0 <= k < |lines| :: TorchLine(lines[k])
  {
    var ps := Passes(lines, false);
    ProductionOfDetects(ps, pythonVersion, pytorchVersion);
    if exists k | 0 <= k < |ps| :: StoresTorch(ps[k]) {
      var k :| 0 <= k < |ps| && StoresTorch(ps[k]);
      assert TorchLine(lines[k]);
    }
    if exists k | 0 <= k < |lines| :: TorchLine(lines[k]) {
      var k :| 0 <= k < |lines| && TorchLine(lines[k]);
      assert StoresTorch(ps[k]);
    }
  }
  /**
    Every name in the production table is `python`, the resolved name of a
    kept well-formed line, or the forced `torch` of a project with a pytorch
    line: the loop adds no other key.
   */
  lemma ProductionNamesFromLines(lines: seq<string>, pythonVersion: string, pytorchVersion: Option<string>, name: string)
    requires Production(lines, pythonVersion, pytorchVersion).Success?
    requires name in Production(lines, pythonVersion, pytorchVersion).value.deps
    ensures || name == PythonKey
            || (exists k | 0 <= k < |lines| :: !IsBlankOrComment(lines[k]) && PinNamed(lines[k], name))
            || (name == TorchKey && exists k | 0 <= k < |lines| :: TorchLine(lines[k]))
  {
    var ps := Passes(lines, false);
    ProductionOfNames(ps, pythonVersion, pytorchVersion, name);
    if exists k | 0 <= k < |ps| :: Stores(ps[k], name) {
      var k :| 0 <= k < |ps| && Stores(ps[k], name);
      assert ps[k] == PassOf(lines[k], false);
    } else if name == TorchKey && exists k | 0 <= k < |ps| :: StoresTorch(ps[k]) {
      var k :| 0 <= k < |ps| && StoresTorch(ps[k]);
      assert TorchLine(lines[k]);
    }
  }

  /** Without a pytorch line the production table has no `torch` entry: a line named `torch` is itself a pytorch line. */
  lemma NoTorchWithoutTorchLine(lines: seq<string>, pythonVersion: string, pytorchVersion: Option<string>)
    requires Production(lines, pythonVersion, pytorchVersion).Success?
    requires forall k | 0 <= k < |lines| :: !TorchLine(lines[k])
    ensures TorchKey !in Production(lines, pythonVersion, pytorchVersion).value.deps
  {
    if TorchKey in Production(lines, pythonVersion, pytorchVersion).value.deps {
      ProductionNamesFromLines(lines, pythonVersion, pytorchVersion, TorchKey);
    }
  }


  /** The production loop of migration.py, over a local table that each kept line updates. */
  method BuildProduction(lines: seq<string>, pythonVersion: string, pytorchVersion: Option<string>)
    returns (r: Result<ProdState, MigrationError>)
    ensures r == Production(lines, pythonVersion, pytorchVersion)
  {
    ghost var ps := Passes(lines, false);
    var deps := map[PythonKey := PythonDep(pythonVersion)];
    var usesPytorch := false;
    for i := 0 to |lines|
      invariant ProductionOf(ps[..i], pythonVersion, pytorchVersion) == Success(ProdState(deps, usesPytorch))
    {
      var line := lines[i];
      ProductionOfStep(ps, i, pythonVersion, pytorchVersion);
      if line != [] && line[0] != '#' {
        var pin := ParseRequirement(line);
        assert ps[i] == Parsed(pin);
        if pin.Failure? {
          ProductionOfFailureSticks(ps, i + 1, pythonVersion, pytorchVersion);
          return Failure(pin.error);
        }
        var name := pin.value.0;
        deps := deps[name := pin.value.1];
        if IsTorchName(name) {
          usesPytorch := true;
          if MissingVersion(pytorchVersion) {
            ProductionOfFailureSticks(ps, i + 1, pythonVersion, pytorchVersion);
            return Failure(MissingPytorchVersion);
          }
          deps := deps[TorchKey := TorchDep(pytorchVersion.value)];
        }
      } else {
        assert ps[i] == Skip;
      }
    }
    assert ps[..|lines|] == ps;
    return Success(ProdState(deps, usesPytorch));
  }

  // ---------------------------------------------------------------------------
  // The development loop
  // ---------------------------------------------------------------------------

  /** One pass of the development loop, against the finished production table `prod`. */
  function DevStep(dev: map<string, Dep>, prod: map<string, Dep>, p: Pass): Result<map<string, Dep>, MigrationError>
  {
    match p
    case Skip => Success(dev)
    case Parsed(parsed) =>
      var pin :- parsed;
      if pin.0 in prod then Success(dev) else Success(dev[pin.0 := pin.1])
  }

  /** The development table after the passes `ps`; none of its names is in the production table. */
  function DevelopmentOf(ps: seq<Pass>, prod: map<string, Dep>): (r: Result<map<string, Dep>, MigrationError>)
    ensures r.Success? ==> r.value.Keys !! prod.Keys
    decreases |ps|
  {
    if ps == [] then Success(map[])
    else
      var dev :- DevelopmentOf(ps[..|ps| - 1], prod);
      DevStep(dev, prod, ps[|ps| - 1])
  }

  /** The passes up to and including `ps[i]`: the table after the earlier passes, stepped by `ps[i]`. */
  lemma DevelopmentOfStep(ps: seq<Pass>, i: nat, prod: map<string, Dep>)
    requires i < |ps|
    ensures var before := DevelopmentOf(ps[..i], prod);
      DevelopmentOf(ps[..i + 1], prod) == if before.Failure? then before else DevStep(before.value, prod, ps[i])
  {
    assert ps[..i + 1][..i] == ps[..i];
  }

  lemma {:induction false} DevelopmentOfFailureSticks(ps: seq<Pass>, n: nat, prod: map<string, Dep>)
    requires n <= |ps|
    requires DevelopmentOf(ps[..n], prod).Failure?
    ensures DevelopmentOf(ps, prod) == DevelopmentOf(ps[..n], prod)
    decreases |ps| - n
  {
    if n == |ps| {
      assert ps[..n] == ps;
    } else {
      assert ps[..n + 1][..n] == ps[..n];
      DevelopmentOfFailureSticks(ps, n + 1, prod);
    }
  }

  lemma {:induction false} DevelopmentOfSkip(pre: seq<Pass>, post: seq<Pass>, prod: map<string, Dep>)
    ensures DevelopmentOf(pre + [Skip] + post, prod) == DevelopmentOf(pre + post, prod)
    decreases |post|
  {
    var a, b := pre + [Skip] + post, pre + post;
    if post == [] {
      assert a[..|a| - 1] == pre && b == pre;
    } else {
      var init := post[..|post| - 1];
      DevelopmentOfSkip(pre, init, prod);
      assert a[..|a| - 1] == pre + [Skip] + init;
      assert b[..|b| - 1] == pre + init;
      assert a[|a| - 1] == b[|b| - 1];
    }
  }

  lemma {:induction false} DevelopmentOfLastWins(ps: seq<Pass>, j: nat, prod: map<string, Dep>)
    requires j < |ps| && ps[j].Parsed? && ps[j].pin.Success? && ps[j].pin.value.0 !in prod
    requires forall k | j < k < |ps| :: !Stores(ps[k], ps[j].pin.value.0)
    requires DevelopmentOf(ps, prod).Success?
    ensures var pin := ps[j].pin.value;
      var dev := DevelopmentOf(ps, prod).value;
      pin.0 in dev && dev[pin.0] == pin.1
    decreases |ps|
  {
    var init := ps[..|ps| - 1];
    if j < |init| {
      assert init[j] == ps[j];
      assert forall k | j < k < |init| :: init[k] == ps[k];
      DevelopmentOfLastWins(init, j, prod);
    }
  }

  lemma {:induction false} DevelopmentOfNames(ps: seq<Pass>, prod: map<string, Dep>, name: string)
    requires DevelopmentOf(ps, prod).Success? && name in DevelopmentOf(ps, prod).value
    ensures exists k | 0 <= k < |ps| :: Stores(ps[k], name)
    decreases |ps|
  {
    var init := ps[..|ps| - 1];
    if !Stores(ps[|ps| - 1], name) {
      DevelopmentOfNames(init, prod, name);
      var k :| 0 <= k < |init| && Stores(init[k], name);
      assert ps[k] == init[k];
    }
  }

  /** The development table after the development loop has run over `lines`. None of its names is in the production table. */
  function Development(lines: seq<string>, prod: map<string, Dep>): (r: Result<map<string, Dep>, MigrationError>)
    ensures r.Success? ==> r.value.Keys !! prod.Keys
  {
    DevelopmentOf(Passes(lines, true), prod)
  }

  /** The name a kept development line adds cannot start with `keyring`: the line would have started with it. */
  lemma KeptDevNameIsNotKeyring(line: string)
    ensures !IsSkippedDev(line) && ParseRequirement(line).Success? ==> !StartsWith(ParseRequirement(line).value.0, "keyring")
  {
    if !IsSkippedDev(line) && ParseRequirement(line).Success? {
      ParsedNameOrigin(line);
      NotKeyringName(line, ParseRequirement(line).value.0);
    }
  }

  /** A name that is an extras prefix or begins a line not starting with `keyring` does not start with `keyring` either. */
  lemma NotKeyringName(line: string, name: string)
    requires !StartsWith(line, "keyring")
    requires name == ServerInfra || name == RetrainLogger || StartsWith(line, name)
    ensures !StartsWith(name, "keyring")
  {
    StartsWithTransitive(line, name, "keyring");
    if !StartsWith(line, name) {
      assert name[0] != 'k';
    }
  }

  /** Once the development loop has raised an error, the lines after it change nothing. */
  lemma DevelopmentFailureSticks(lines: seq<string>, n: nat, prod: map<string, Dep>)
    requires n <= |lines|
    requires Development(lines[..n], prod).Failure?
    ensures Development(lines, prod) == Development(lines[..n], prod)
  {
    PassesPrefix(lines, n, true);
    DevelopmentOfFailureSticks(Passes(lines, true), n, prod);
  }

  /** A kept development line that does not split on `==` into two parts fails the run, unless an earlier line already did. */
  lemma DevelopmentMalformedLineFails(lines: seq<string>, k: nat, prod: map<string, Dep>)
    requires k < |lines| && !IsSkippedDev(lines[k]) && SplitPin(lines[k]).Failure?
    requires Development(lines[..k], prod).Success?
    ensures Development(lines, prod) == Failure(MalformedRequirement(lines[k]))
  {
    var ps := Passes(lines, true);
    PassesPrefix(lines, k, true);
    PassesPrefix(lines, k + 1, true);
    assert ps[..k + 1][..k] == ps[..k];
    assert ps[k] == Parsed(Failure(MalformedRequirement(lines[k])));
    DevelopmentOfFailureSticks(ps, k + 1, prod);
  }

  /** A blank, comment or `keyring` line, wherever it stands, changes nothing in the development run. */
  lemma DevelopmentIgnoresSkipped(pre: seq<string>, line: string, post: seq<string>, prod: map<string, Dep>)
    requires IsSkippedDev(line)
    ensures Development(pre + [line] + post, prod) == Development(pre + post, prod)
  {
    PassesAppend(pre + [line], post, true);
    PassesAppend(pre, [line], true);
    PassesAppend(pre, post, true);
    assert Passes([line], true) == [Skip];
    DevelopmentOfSkip(Passes(pre, true), Passes(post, true), prod);
  }

  /**
    Later lines win: the entry of a kept development line whose name is not
    a production name stays in the table when no later kept line resolves
    to the same name.
   */
  lemma DevelopmentLastWins(lines: seq<string>, j: nat, prod: map<string, Dep>)
    requires j < |lines| && !IsSkippedDev(lines[j]) && ParseRequirement(lines[j]).Success?
    requires ParseRequirement(lines[j]).value.0 !in prod
    requires forall k | j < k < |lines| :: !IsSkippedDev(lines[k]) ==> !PinNamed(lines[k], ParseRequirement(lines[j]).value.0)
    requires Development(lines, prod).Success?
    ensures var pin := ParseRequirement(lines[j]).value;
      var dev := Development(lines, prod).value;
      pin.0 in dev && dev[pin.0] == pin.1
  {
    var ps := Passes(lines, true);
    var name := ParseRequirement(lines[j]).value.0;
    assert ps[j] == Parsed(ParseRequirement(lines[j]));
    forall k | j < k < |ps|
      ensures !Stores(ps[k], name)
    {
      assert ps[k] == PassOf(lines[k], true);
    }
    DevelopmentOfLastWins(ps, j, prod);
  }

  /** Every name in the development table comes from a kept, well-formed development line. */
  lemma DevelopmentNamesFromLines(lines: seq<string>, prod: map<string, Dep>, name: string)
    requires Development(lines, prod).Success? && name in Development(lines, prod).value
    ensures exists k | 0 <= k < |lines| :: !IsSkippedDev(lines[k]) && PinNamed(lines[k], name)
  {
    var ps := Passes(lines, true);
    DevelopmentOfNames(ps, prod, name);
    var k :| 0 <= k < |ps| && Stores(ps[k], name);
    assert ps[k] == PassOf(lines[k], true);
  }

  /** No name in the development table starts with `keyring`. */
  lemma DevelopmentNoKeyring(lines: seq<string>, prod: map<string, Dep>)
    requires Development(lines, prod).Success?
    ensures forall name | name in Development(lines, prod).value :: !StartsWith(name, "keyring")
  {
    forall name | name in Development(lines, prod).value
      ensures !StartsWith(name, "keyring")
    {
      DevelopmentNamesFromLines(lines, prod, name);
      var k :| 0 <= k < |lines| && !IsSkippedDev(lines[k]) && PinNamed(lines[k], name);
      KeptDevNameIsNotKeyring(lines[k]);
    }
  }

  /** The development loop of migration.py, over a local table that each kept line not already in production updates. */
  method BuildDevelopment(lines: seq<string>, prod: map<string, Dep>) returns (r: Result<map<string, Dep>, MigrationError>)
    ensures r == Development(lines, prod)
  {
    ghost var ps := Passes(lines, true);
    var dev := map[];
    for i := 0 to |lines|
      invariant DevelopmentOf(ps[..i], prod) == Success(dev)
    {
      var line := lines[i];
      DevelopmentOfStep(ps, i, prod);
      if line != [] && line[0] != '#' && !StartsWith(line, "keyring") {
        var pin := ParseRequirement(line);
        assert ps[i] == Parsed(pin);
        if pin.Failure? {
          DevelopmentOfFailureSticks(ps, i + 1, prod);
          return Failure(pin.error);
        }
        if pin.value.0 !in prod {
          dev := dev[pin.value.0 := pin.value.1];
        }
      } else {
        assert ps[i] == Skip;
      }
    }
    assert ps[..|lines|] == ps;
    return Success(dev);
  }

  /** The `source` list: the `retrain` registry, then `pytorch-cpu` exactly when pytorch was detected. */
  function Sources(usesPytorch: bool): (s: seq<Source>)
    ensures 1 <= |s| <= 2 && s[0] == RetrainSource
    ensures |s| == 2 <==> usesPytorch
    ensures usesPytorch ==> s[1] == PytorchCpuSource
  {
    if usesPytorch then [RetrainSource, PytorchCpuSource] else [RetrainSource]
  }

  /** The `tool.poetry` table a run builds, or the error that stops it. */
  function Pyproject(packageName: string, settings: Settings, prodLines: seq<string>, devLines: seq<string>): (r: Result<Poetry, MigrationError>)
    ensures r.Success? ==>
      && r.value.name == packageName && r.value.version == settings.projectVersion
      && r.value.description == settings.description && r.value.authors == Authors
    ensures Production(prodLines, settings.pythonVersion, settings.pytorchVersion).Failure? ==>
      r == Failure(Production(prodLines, settings.pythonVersion, settings.pytorchVersion).error)
  {
    var prod :- Production(prodLines, settings.pythonVersion, settings.pytorchVersion);
    var dev :- Development(devLines, prod.deps);
    Success(Poetry(packageName, settings.projectVersion, settings.description, Authors, prod.deps, dev, Sources(prod.usesPytorch)))
  }

  /**
    What every manifest the run builds satisfies: `python` is a production
    name; no development name is a production name (not `python`, not a
    forced `torch`) or starts with `keyring`; the registry list starts with
    `retrain` and has the `pytorch-cpu` entry exactly when a production line
    names a pytorch package, in which case `torch` holds the pytorch-cpu
    entry at the given version.
   */
  lemma PyprojectProperties(packageName: string, settings: Settings, prodLines: seq<string>, devLines: seq<string>)
    requires Pyproject(packageName, settings, prodLines, devLines).Success?
    ensures var m := Pyproject(packageName, settings, prodLines, devLines).value;
      && m.name == packageName && m.version == settings.projectVersion
      && m.description == settings.description && m.authors == Authors
      && PythonKey in m.dependencies
      && m.devDependencies.Keys !! m.dependencies.Keys
      && (forall name | name in m.devDependencies :: !StartsWith(name, "keyring"))
      && 1 <= |m.source| <= 2 && m.source[0] == RetrainSource
      && (|m.source| == 2 <==> exists k | 0 <= k < |prodLines| :: TorchLine(prodLines[k]))
      && (|m.source| == 2 ==> m.source[1] == PytorchCpuSource)
      && ((exists k | 0 <= k < |prodLines| :: TorchLine(prodLines[k])) ==>
            !MissingVersion(settings.pytorchVersion) &&
            m.dependencies[TorchKey] == TorchDep(settings.pytorchVersion.value))
      && (!(exists k | 0 <= k < |prodLines| :: TorchLine(prodLines[k])) ==> TorchKey !in m.dependencies)
  {
    var prod := Production(prodLines, settings.pythonVersion, settings.pytorchVersion).value;
    ProductionDetectsTorch(prodLines, settings.pythonVersion, settings.pytorchVersion);
    if !(exists k | 0 <= k < |prodLines| :: TorchLine(prodLines[k])) {
      NoTorchWithoutTorchLine(prodLines, settings.pythonVersion, settings.pytorchVersion);
    }
    DevelopmentNoKeyring(devLines, prod.deps);
  }

  /** A project with a pytorch line and no pytorch version gets no manifest. */
  lemma PyprojectNeedsPytorchVersion(packageName: string, settings: Settings, prodLines: seq<string>, devLines: seq<string>)
    requires MissingVersion(settings.pytorchVersion)
    requires exists k | 0 <= k < |prodLines| :: TorchLine(prodLines[k])
    ensures Pyproject(packageName, settings, prodLines, devLines).Failure?
  {
    if Production(prodLines, settings.pythonVersion, settings.pytorchVersion).Success? {
      ProductionDetectsTorch(prodLines, settings.pythonVersion, settings.pytorchVersion);
    }
  }

  /** How migration.py fills the table: the two loops, then the registry list, which starts with `retrain` and is appended to. */
  method BuildPyproject(packageName: string, settings: Settings, prodLines: seq<string>, devLines: seq<string>)
    returns (r: Result<Poetry, MigrationError>)
    ensures r == Pyproject(packageName, settings, prodLines, devLines)
  {
    var prod := BuildProduction(prodLines, settings.pythonVersion, settings.pytorchVersion);
    if prod.Failure? {
      return Failure(prod.error);
    }
    var dev := BuildDevelopment(devLines, prod.value.deps);
    if dev.Failure? {
      return Failure(dev.error);
    }
    var source := [RetrainSource];
    if prod.value.usesPytorch {
      source := source + [PytorchCpuSource];
    }
    assert source == Sources(prod.value.usesPytorch);
    return Success(Poetry(packageName, settings.projectVersion, settings.description, Authors,
                          prod.value.deps, dev.value, source));
  }
}
