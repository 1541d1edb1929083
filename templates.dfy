/**
  The two template substitutions of a migration run: the Dockerfile gets the
  package name and the python version, the CI workflow only the python
  version, and only when the project already has a workflow file.
 */
module Templates {
  import opened Wrappers
  import opened Text

  const ModuleNameTag := "<<MODULE_NAME>>"
  const PythonVersionTag := "<<PYTHON_VERSION>>"

  /**
    The Dockerfile text: every `<<MODULE_NAME>>` of the template replaced by
    the package name, then every `<<PYTHON_VERSION>>` of that by the python
    version. Each replacement puts the value between the pieces the template
    splits into at the tag. A template without either tag is returned as it is.
   */
  function Dockerfile(template: string, packageName: string, pythonVersion: string): (text: string)
    ensures text == Join(Split(Join(Split(template, ModuleNameTag), packageName), PythonVersionTag), pythonVersion)
    ensures !Contains(template, ModuleNameTag) && !Contains(template, PythonVersionTag) ==> text == template
  {
    var withName := Replace(template, ModuleNameTag, packageName);
    ReplaceIsJoinOfSplit(template, ModuleNameTag, packageName);
    ReplaceIsJoinOfSplit(withName, PythonVersionTag, pythonVersion);
    ReplaceAbsent(template, ModuleNameTag, packageName);
    ReplaceAbsent(withName, PythonVersionTag, pythonVersion);
    Replace(withName, PythonVersionTag, pythonVersion)
  }

  /**
    The CI workflow text, when the project has `.github/workflows/run-tests.yml`:
    every `<<PYTHON_VERSION>>` of the template replaced by the python
    version and nothing else; `None` (the step is skipped) when it has not.
   */
  function TestsAction(hasWorkflow: bool, template: string, pythonVersion: string): (text: Option<string>)
    ensures text.Some? <==> hasWorkflow
    ensures text.Some? ==> text.value == Join(Split(template, PythonVersionTag), pythonVersion)
    ensures text.Some? && !Contains(template, PythonVersionTag) ==> text.value == template
  {
    ReplaceIsJoinOfSplit(template, PythonVersionTag, pythonVersion);
    ReplaceAbsent(template, PythonVersionTag, pythonVersion);
    if hasWorkflow then Some(Replace(template, PythonVersionTag, pythonVersion)) else None
  }

  /** The Dockerfile grows by the length difference of value and tag for every tag replaced. */
  lemma DockerfileLength(template: string, packageName: string, pythonVersion: string)
    ensures var withName := Replace(template, ModuleNameTag, packageName);
      |Dockerfile(template, packageName, pythonVersion)|
        == |template|
         + (|Split(template, ModuleNameTag)| - 1) * (|packageName| - |ModuleNameTag|)
         + (|Split(withName, PythonVersionTag)| - 1) * (|pythonVersion| - |PythonVersionTag|)
  {
    ReplaceLength(template, ModuleNameTag, packageName);
    ReplaceLength(Replace(template, ModuleNameTag, packageName), PythonVersionTag, pythonVersion);
  }
}
