/**
  A whole `migrate_requirements_to_pyproject` run. What it reads from disk
  is given as values (`Inputs`); what it does to disk, or prints in dry-run
  mode, is recorded as a sequence of effects. Stages run in order: locate the
  package, build the manifest, write it and delete the requirement files,
  write the Dockerfile, write the CI workflow. Nothing is undone when a later
  stage fails.
 */
module Pipeline {
  import opened Wrappers
  import opened Requirements
  import opened Manifest
  import opened Templates
  import opened Locator

  /** The run's parameters. */
  datatype Config = Config(
    pyprojectFile: string,
    settings: Settings,
    dockerfileTemplatePath: string,
    testsTemplatePath: string,
    dryRun: bool)

  /**
    What the run reads: the project root's listing, the lines of
    `requirements.prod.txt` and `requirements.txt`, the two template files
    (`None` when one cannot be opened) and whether the project has
    `.github/workflows/run-tests.yml`.
   */
  datatype Inputs = Inputs(
    entries: seq<Entry>,
    prodLines: seq<string>,
    devLines: seq<string>,
    dockerfileTemplate: Option<string>,
    testsTemplate: Option<string>,
    hasTestsWorkflow: bool)

  /** The files a run touches. */
  datatype Target =
    | PyprojectTarget(path: string)
    | ProdRequirementsTarget
    | DevRequirementsTarget
    | DockerfileTarget
    | TestsWorkflowTarget

  datatype Content = ManifestContent(manifest: Poetry) | TextContent(text: string)

  /** A write or deletion on disk, or a preview printed instead of a write. */
  datatype Effect =
    | Write(target: Target, content: Content)
    | Show(target: Target, content: Content)
    | Delete(target: Target)

  /** The effects of a run, in order, and the error that stopped it, if any. */
  datatype Run = Run(effects: seq<Effect>, error: Option<MigrationError>)

  /** A commit run writes the content; a dry run shows it. */
  function Emit(dryRun: bool, target: Target, content: Content): Effect {
    if dryRun then Show(target, content) else Write(target, content)
  }

  /** The manifest stage's effects: written, then the two requirement files deleted; or only shown. */
  function ManifestEffects(config: Config, manifest: Poetry): seq<Effect> {
    [Emit(config.dryRun, PyprojectTarget(config.pyprojectFile), ManifestContent(manifest))]
      + (if config.dryRun then [] else [Delete(ProdRequirementsTarget), Delete(DevRequirementsTarget)])
  }

  /** What a run does, given its parameters and what it reads. */
  function Migration(config: Config, inputs: Inputs): (run: Run)
    ensures run.error.None? ==>
      && FirstPackage(inputs.entries).Some? && inputs.dockerfileTemplate.Some?
      && 2 <= |run.effects| && run.effects[0].target == PyprojectTarget(config.pyprojectFile)
      && var docker := Dockerfile(inputs.dockerfileTemplate.value, FirstPackage(inputs.entries).value, config.settings.pythonVersion);
         Emit(config.dryRun, DockerfileTarget, TextContent(docker)) in run.effects
  {
    var package := FirstPackage(inputs.entries);
    if package.None? || package.value == "" then Run([], Some(PackageNotFound))
    else match Pyproject(package.value, config.settings, inputs.prodLines, inputs.devLines)
      case Failure(e) => Run([], Some(e))
      case Success(manifest) => Publish(config, inputs, package.value, manifest)
  }

  /** The stages after the manifest is built: the manifest, the Dockerfile, the CI workflow. */
  function Publish(config: Config, inputs: Inputs, packageName: string, manifest: Poetry): Run {
    var written := ManifestEffects(config, manifest);
    match inputs.dockerfileTemplate
    case None => Run(written, Some(TemplateUnreadable(config.dockerfileTemplatePath)))
    case Some(template) =>
      var docker := Dockerfile(template, packageName, config.settings.pythonVersion);
      var written := written + [Emit(config.dryRun, DockerfileTarget, TextContent(docker))];
      if !inputs.hasTestsWorkflow then Run(written, None)
      else match inputs.testsTemplate
        case None => Run(written, Some(TemplateUnreadable(config.testsTemplatePath)))
        case Some(tests) =>
          var action := TestsAction(true, tests, config.settings.pythonVersion).value;
          Run(written + [Emit(config.dryRun, TestsWorkflowTarget, TextContent(action))], None)
  }

  /** The run of migration.py, stage by stage, the Dockerfile text reassigned once per tag. */
  method Migrate(config: Config, inputs: Inputs) returns (run: Run)
    ensures run == Migration(config, inputs)
  {
    var package := FindPackageName(inputs.entries);
    if package.None? || package.value == "" {
      return Run([], Some(PackageNotFound));
    }
    var manifest := BuildPyproject(package.value, config.settings, inputs.prodLines, inputs.devLines);
    if manifest.Failure? {
      return Run([], Some(manifest.error));
    }
    assert Migration(config, inputs) == Publish(config, inputs, package.value, manifest.value);
    var effects := [Emit(config.dryRun, PyprojectTarget(config.pyprojectFile), ManifestContent(manifest.value))];
    if !config.dryRun {
      effects := effects + [Delete(ProdRequirementsTarget), Delete(DevRequirementsTarget)];
    }
    assert effects == ManifestEffects(config, manifest.value);
    if inputs.dockerfileTemplate.None? {
      return Run(effects, Some(TemplateUnreadable(config.dockerfileTemplatePath)));
    }
    var dockerFile := inputs.dockerfileTemplate.value;
    dockerFile := Text.Replace(dockerFile, ModuleNameTag, package.value);
    dockerFile := Text.Replace(dockerFile, PythonVersionTag, config.settings.pythonVersion);
    assert dockerFile == Dockerfile(inputs.dockerfileTemplate.value, package.value, config.settings.pythonVersion);
    effects := effects + [Emit(config.dryRun, DockerfileTarget, TextContent(dockerFile))];
    if inputs.hasTestsWorkflow {
      if inputs.testsTemplate.None? {
        return Run(effects, Some(TemplateUnreadable(config.testsTemplatePath)));
      }
      var testsAction := Text.Replace(inputs.testsTemplate.value, PythonVersionTag, config.settings.pythonVersion);
      assert testsAction == TestsAction(true, inputs.testsTemplate.value, config.settings.pythonVersion).value;
      effects := effects + [Emit(config.dryRun, TestsWorkflowTarget, TextContent(testsAction))];
    }
    return Run(effects, None);
  }

  /** The (target, content) pairs a list of effects writes, in order. */
  function Written(effects: seq<Effect>): seq<(Target, Content)>
    decreases |effects|
  {
    if effects == [] then []
    else (if effects[0].Write? then [(effects[0].target, effects[0].content)] else []) + Written(effects[1..])
  }

  /** The (target, content) pairs a list of effects shows, in order. */
  function Shown(effects: seq<Effect>): seq<(Target, Content)>
    decreases |effects|
  {
    if effects == [] then []
    else (if effects[0].Show? then [(effects[0].target, effects[0].content)] else []) + Shown(effects[1..])
  }

  lemma {:induction false} WrittenAppend(a: seq<Effect>, b: seq<Effect>)
    ensures Written(a + b) == Written(a) + Written(b)
    decreases |a|
  {
    if a == [] {
      assert a + b == b;
    } else {
      var ab := a + b;
      assert ab[0] == a[0];
      assert ab[1..] == a[1..] + b;
      WrittenAppend(a[1..], b);
    }
  }

  lemma {:induction false} ShownAppend(a: seq<Effect>, b: seq<Effect>)
    ensures Shown(a + b) == Shown(a) + Shown(b)
    decreases |a|
  {
    if a == [] {
      assert a + b == b;
    } else {
      var ab := a + b;
      assert ab[0] == a[0];
      assert ab[1..] == a[1..] + b;
      ShownAppend(a[1..], b);
    }
  }

  /** A run stopped by a missing package directory, a malformed line or a missing pytorch version leaves the disk as it was. */
  lemma FailsBeforeAnyEffect(config: Config, inputs: Inputs)
    requires Migration(config, inputs).error.Some?
    requires !Migration(config, inputs).error.value.TemplateUnreadable?
    ensures Migration(config, inputs).effects == []
  {
  }

  /** A dry run writes and deletes nothing: every effect is a preview. */
  lemma DryRunOnlyShows(config: Config, inputs: Inputs)
    requires config.dryRun
    ensures forall e | e in Migration(config, inputs).effects :: e.Show?
    ensures Written(Migration(config, inputs).effects) == []
  {
    var package := FirstPackage(inputs.entries);
    if package.Some? && package.value != "" {
      var manifest := Pyproject(package.value, config.settings, inputs.prodLines, inputs.devLines);
      if manifest.Success? {
        PublishOnlyShows(config, inputs, package.value, manifest.value);
      }
    }
    NoWrites(Migration(config, inputs).effects);
  }

  /** In a dry run every effect of the publishing stages is a preview. */
  lemma PublishOnlyShows(config: Config, inputs: Inputs, packageName: string, manifest: Poetry)
    requires config.dryRun
    ensures forall e | e in Publish(config, inputs, packageName, manifest).effects :: e.Show?
  {
  }

  lemma {:induction false} NoWrites(effects: seq<Effect>)
    requires forall e | e in effects :: e.Show?
    ensures Written(effects) == []
    decreases |effects|
  {
    if effects != [] {
      assert effects[0] in effects;
      assert forall e | e in effects[1..] :: e in effects;
      NoWrites(effects[1..]);
    }
  }

  /** The publishing stages of a dry run preview exactly what they write in commit mode, and stop the same way. */
  lemma PublishDryMatchesCommit(config: Config, inputs: Inputs, packageName: string, manifest: Poetry)
    ensures var dry := Publish(config.(dryRun := true), inputs, packageName, manifest);
      var commit := Publish(config.(dryRun := false), inputs, packageName, manifest);
      Shown(dry.effects) == Written(commit.effects) && dry.error == commit.error
  {
    var dm := ManifestEffects(config.(dryRun := true), manifest);
    var cm := ManifestEffects(config.(dryRun := false), manifest);
    var pair := (PyprojectTarget(config.pyprojectFile), ManifestContent(manifest));
    assert Shown(dm) == Written(cm) == [pair] by {
      assert dm == [Show(pair.0, pair.1)];
      assert Shown(dm) == [pair] + Shown([]);
      assert cm == [Write(pair.0, pair.1), Delete(ProdRequirementsTarget), Delete(DevRequirementsTarget)];
      assert cm[1..][1..][1..] == [];
      assert Written(cm[1..][1..]) == [] + Written(cm[1..][1..][1..]);
      assert Written(cm[1..]) == [] + Written(cm[1..][1..]);
      assert Written(cm) == [pair] + Written(cm[1..]);
    }
    if inputs.dockerfileTemplate.Some? {
      var docker := Dockerfile(inputs.dockerfileTemplate.value, packageName, config.settings.pythonVersion);
      var de, ce := [Show(DockerfileTarget, TextContent(docker))], [Write(DockerfileTarget, TextContent(docker))];
      ShownAppend(dm, de);
      WrittenAppend(cm, ce);
      assert Shown(de) == Written(ce) == [(DockerfileTarget, TextContent(docker))] by {
        assert Shown(de) == [(DockerfileTarget, TextContent(docker))] + Shown([]);
        assert Written(ce) == [(DockerfileTarget, TextContent(docker))] + Written([]);
      }
      if inputs.hasTestsWorkflow && inputs.testsTemplate.Some? {
        var action := TestsAction(true, inputs.testsTemplate.value, config.settings.pythonVersion).value;
        var dt, ct := [Show(TestsWorkflowTarget, TextContent(action))], [Write(TestsWorkflowTarget, TextContent(action))];
        ShownAppend(dm + de, dt);
        WrittenAppend(cm + ce, ct);
        assert Shown(dt) == [(TestsWorkflowTarget, TextContent(action))] + Shown([]);
        assert Written(ct) == [(TestsWorkflowTarget, TextContent(action))] + Written([]);
      }
    }
  }

  /** A dry run previews exactly the contents, in order, that the same run in commit mode writes, and stops the same way. */
  lemma DryRunShowsWhatCommitWrites(config: Config, inputs: Inputs)
    ensures var dry := Migration(config.(dryRun := true), inputs);
      var commit := Migration(config.(dryRun := false), inputs);
      Shown(dry.effects) == Written(commit.effects) && dry.error == commit.error
  {
    var package := FirstPackage(inputs.entries);
    if package.Some? && package.value != "" {
      var manifest := Pyproject(package.value, config.settings, inputs.prodLines, inputs.devLines);
      if manifest.Success? {
        PublishDryMatchesCommit(config, inputs, package.value, manifest.value);
      }
    }
  }

  /**
    No rollback: in commit mode, a Dockerfile template that cannot be read
    stops the run after the manifest was written and both requirement files
    were deleted.
   */
  lemma NoRollbackAfterDeletion(config: Config, inputs: Inputs)
    requires !config.dryRun && inputs.dockerfileTemplate.None?
    requires Migration(config, inputs).error != Some(PackageNotFound)
    requires Pyproject(FirstPackage(inputs.entries).value, config.settings, inputs.prodLines, inputs.devLines).Success?
    ensures Migration(config, inputs).error == Some(TemplateUnreadable(config.dockerfileTemplatePath))
    ensures Delete(ProdRequirementsTarget) in Migration(config, inputs).effects
    ensures Delete(DevRequirementsTarget) in Migration(config, inputs).effects
  {
  }

  /** Without `.github/workflows/run-tests.yml` the CI workflow is neither written nor shown. */
  lemma WorkflowSkippedWhenAbsent(config: Config, inputs: Inputs)
    requires !inputs.hasTestsWorkflow
    ensures forall e | e in Migration(config, inputs).effects :: e.target != TestsWorkflowTarget
  {
    var package := FirstPackage(inputs.entries);
    if package.Some? && package.value != "" {
      var manifest := Pyproject(package.value, config.settings, inputs.prodLines, inputs.devLines);
      if manifest.Success? {
        PublishSkipsWorkflow(config, inputs, package.value, manifest.value);
      }
    }
  }

  /** The publishing stages touch the CI workflow only when the project has a workflow file. */
  lemma PublishSkipsWorkflow(config: Config, inputs: Inputs, packageName: string, manifest: Poetry)
    requires !inputs.hasTestsWorkflow
    ensures forall e | e in Publish(config, inputs, packageName, manifest).effects :: e.target != TestsWorkflowTarget
  {
  }
}
