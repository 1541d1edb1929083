# Poetry migration, modelled in Dafny

`migration.py` turns a Python project that pins its dependencies in
`requirements.prod.txt` and `requirements.txt` into a Poetry project. One
run locates the package directory, reads the pinned lines
(`name==version[ # comment]`), builds the `tool.poetry` table, writes
`pyproject.toml` and deletes the two requirement files, then writes a
Dockerfile and, when the project has `.github/workflows/run-tests.yml`, a
CI workflow from two templates. In dry-run mode every write is replaced by
a preview and nothing is deleted.

The model has one module per part of the script:

- `Text`: the Python `str` operations the script relies on (`startswith`,
  `in`, `split(sep)`, `replace`, `strip`). `Join` (Python's `sep.join`) is
  not called by the script; it is the reference that `split` and
  `replace` are stated against.
- `Requirements`: a pinned line split on `==`, and `_version_resolver`
  (comment stripping and the two extras rules).
- `Manifest`: the production loop, the development loop and the registry
  list. Each loop is a method proved equal to a left fold over the lines,
  and the properties of the manifest are lemmas about those folds.
- `Templates`: the Dockerfile and CI workflow substitutions.
- `Locator`: `_find_package_name` over the root directory's listing.
- `Pipeline`: a whole run. What it reads from disk is a value, and what it
  does to disk (write, preview, delete) is a sequence of effects.

Two details of the code the model keeps exactly as written:

- A line is accepted only when `split("==")` gives exactly two pieces, not
  whenever it has a first `==`. `Requirements.SplitPinAtOnlySeparator`
  states the resulting condition.
- The extras rule tests `startswith(prefix)` on the raw name, brackets
  included, and not on a name with its bracketed suffix removed.

## Model

| member | source | states |
|---|---|---|
| Text.StartsWith | python/python-poetry-migration/migration.py:95-97 | definition of `s.startswith(prefix)`: `s` is at least as long as `prefix` and begins with exactly its characters |
| Text.StartsWithIsPrefix | python/python-poetry-migration/migration.py:95-97 | `s.startswith(prefix)` holds exactly when `s` is `prefix` followed by some text |
| Text.Contains | python/python-poetry-migration/migration.py:32 | definition of `pat in s`: `pat` occurs in `s` at some index |
| Text.ContainsIsInfix | python/python-poetry-migration/migration.py:32 | `pat in s` holds exactly when `s` is some text, then `pat`, then some text |
| Text.Split | python/python-poetry-migration/migration.py:90 | `str.split(sep)` always gives at least one piece |
| Text.SplitPiecesFree | python/python-poetry-migration/migration.py:90 | no piece of a split contains the separator |
| Text.JoinSplit | python/python-poetry-migration/migration.py:90 | joining the pieces of a split with the separator gives back the original text |
| Text.FirstPiece | python/python-poetry-migration/migration.py:29 | the first piece of a split is the prefix before the first separator, or the whole text when there is none; no occurrence of the separator, not even one overlapping the piece, starts inside it |
| Text.Replace | python/python-poetry-migration/migration.py:159-160 | `str.replace` with a non-empty pattern: a replacement as long as the pattern leaves the length unchanged |
| Text.ReplaceIsJoinOfSplit | python/python-poetry-migration/migration.py:159-160 | `str.replace` puts the replacement between the pieces the text splits into at the pattern |
| Text.ReplaceAbsent | python/python-poetry-migration/migration.py:159-160 | a text without the pattern is returned unchanged |
| Text.ReplaceBySelf | python/python-poetry-migration/migration.py:159-160 | replacing a pattern by itself changes nothing |
| Text.ReplaceLength | python/python-poetry-migration/migration.py:159-160 | the result grows by the length difference of replacement and pattern, once per occurrence |
| Text.IsSpace | python/python-poetry-migration/migration.py:29 | the characters `str.isspace()` accepts, which `strip()` removes: U+0009-U+000D, U+001C-U+0020, U+0085, U+00A0, U+1680, U+2000-U+200A, U+2028, U+2029, U+202F, U+205F, U+3000 |
| Text.TrimStart | python/python-poetry-migration/migration.py:29 | the result is a suffix of the input, what was removed is all whitespace, and the result does not start with whitespace |
| Text.TrimEnd | python/python-poetry-migration/migration.py:29 | the result is a prefix of the input, what was removed is all whitespace, and the result does not end with whitespace |
| Text.Strip | python/python-poetry-migration/migration.py:29 | `str.strip()`: the result occurs in the input with only whitespace around it, and neither of its ends is whitespace |
| Text.StripKeepsOut | python/python-poetry-migration/migration.py:29 | stripping never introduces a character that the input did not hold |
| Requirements.CleanVersion | python/python-poetry-migration/migration.py:29 | the cleaned version holds no `#` and has no surrounding whitespace |
| Requirements.CleanVersionCutsAtFirstHash | python/python-poetry-migration/migration.py:29 | the cleaned version is the raw version before its first `#` (or all of it), stripped |
| Requirements.ApplyExtras | python/python-poetry-migration/migration.py:32-37 | one extras rule keeps the version; an entry whose name starts with the prefix and holds `[tag]` becomes the bare prefix with value `{extras: [tag], version}`; any other entry is unchanged |
| Requirements.ResolveVersion | python/python-poetry-migration/migration.py:28-39 | whichever rule applies, the resolved version is the cleaned raw version |
| Requirements.ResolveVersionCases | python/python-poetry-migration/migration.py:32-37 | `python-server-infra…[api-analytics]…` and `retrain-python-logger…[starlette]…` names become the bare prefix with an `{extras, version}` value; every other name keeps its plain version; at most one rule applies |
| Requirements.SplitPin | python/python-poetry-migration/migration.py:90 | a malformed line is an error carrying that line; otherwise name + `==` + version is the line, and neither part contains `==` |
| Requirements.SplitPinAtOnlySeparator | python/python-poetry-migration/migration.py:90 | a line is accepted exactly when `==` occurs in it and not again after its first occurrence; name and version are the text before and after it |
| Requirements.ParsedNameOrigin | python/python-poetry-migration/migration.py:90-91 | a resolved name is one of the two extras prefixes or a prefix of its line |
| Requirements.ParseRequirement | python/python-poetry-migration/migration.py:90-91 | a kept line that does not split in two raises with that line; a parsed entry's version is the cleaned text after `==` |
| Manifest.Production | python/python-poetry-migration/migration.py:84-107 | the production table always holds `python`; once pytorch is detected a version was given and `torch` holds the pytorch-cpu entry at `^` + that version |
| Manifest.ProductionFailureSticks | python/python-poetry-migration/migration.py:88-102 | once the production loop raises, the remaining lines change nothing |
| Manifest.ProductionStopsAt | python/python-poetry-migration/migration.py:88-102 | the first failing line decides the loop's error |
| Manifest.ProductionMalformedLineFails | python/python-poetry-migration/migration.py:89-90 | the first kept production line that does not split into two pieces stops the run with that line |
| Manifest.ProductionMissingPytorchVersionFails | python/python-poetry-migration/migration.py:94-102 | the first pytorch line, with no pytorch version given, stops the run |
| Manifest.ProductionIgnoresSkipped | python/python-poetry-migration/migration.py:89 | a blank or comment line can be removed without changing the result |
| Manifest.ProductionLastWins | python/python-poetry-migration/migration.py:92 | a name other than `torch` maps to the value of the last line that names it |
| Manifest.ProductionPythonDefault | python/python-poetry-migration/migration.py:87 | without a line named `python`, `python` maps to `^` + the python version |
| Manifest.ProductionDetectsTorch | python/python-poetry-migration/migration.py:94-99 | pytorch is detected exactly when some kept production line names a `torch`, `sentence-transformers` or `sentence_transformers` package |
| Manifest.ProductionOfNames | python/python-poetry-migration/migration.py:84-107 | every name the production fold holds is `python`, a name some pass stores, or `torch` after some pass stored a pytorch name |
| Manifest.ProductionNamesFromLines | python/python-poetry-migration/migration.py:84-107 | every production name is `python`, the resolved name of a kept well-formed line, or the forced `torch` of a project with a pytorch line |
| Manifest.NoTorchWithoutTorchLine | python/python-poetry-migration/migration.py:94-107 | without a pytorch line the production table has no `torch` entry |
| Manifest.BuildProduction | python/python-poetry-migration/migration.py:84-107 | the production loop, with its early exits, computes `Production` |
| Manifest.Development | python/python-poetry-migration/migration.py:110-115 | no development name is a production name |
| Manifest.KeptDevNameIsNotKeyring | python/python-poetry-migration/migration.py:111-113 | a kept development line never resolves to a name starting with `keyring` |
| Manifest.DevelopmentFailureSticks | python/python-poetry-migration/migration.py:110-113 | once the development loop raises, the remaining lines change nothing |
| Manifest.DevelopmentMalformedLineFails | python/python-poetry-migration/migration.py:111-112 | the first kept development line that does not split into two pieces stops the run with that line |
| Manifest.DevelopmentIgnoresSkipped | python/python-poetry-migration/migration.py:111 | a blank, comment or `keyring` line can be removed without changing the result |
| Manifest.DevelopmentLastWins | python/python-poetry-migration/migration.py:114-115 | a name not in production maps to the value of the last development line that names it |
| Manifest.DevelopmentNoKeyring | python/python-poetry-migration/migration.py:110-115 | no development name starts with `keyring` |
| Manifest.DevelopmentNamesFromLines | python/python-poetry-migration/migration.py:110-115 | every development name comes from a kept, well-formed line |
| Manifest.BuildDevelopment | python/python-poetry-migration/migration.py:110-115 | the development loop, with its early exit, computes `Development` |
| Manifest.Sources | python/python-poetry-migration/migration.py:118-135 | the registry list starts with `retrain` and has the `pytorch-cpu` entry second exactly when pytorch was detected |
| Manifest.Pyproject | python/python-poetry-migration/migration.py:71-135 | a built manifest carries the given name, version, description and `retrain.ai` as author; an error of the production loop is the run's error, before any development line is read |
| Manifest.PyprojectProperties | python/python-poetry-migration/migration.py:71-135 | the manifest carries the given name, version, description and `retrain.ai` as author; `python` is in production; development and production names are disjoint; no `keyring` development name; `pytorch-cpu` is listed, and `torch` is a production name forced to the pytorch-cpu entry, exactly when a production line names a pytorch package |
| Manifest.PyprojectNeedsPytorchVersion | python/python-poetry-migration/migration.py:94-102 | a project with a pytorch line and no pytorch version gets no manifest |
| Manifest.BuildPyproject | python/python-poetry-migration/migration.py:71-135 | the two loops and the appended registry list compute `Pyproject` |
| Templates.Dockerfile | python/python-poetry-migration/migration.py:156-160 | the Dockerfile is the template with every module-name tag, then every python-version tag, replaced; a template without tags is unchanged |
| Templates.DockerfileLength | python/python-poetry-migration/migration.py:159-160 | the Dockerfile's length is the template's plus the length difference per replaced tag |
| Templates.TestsAction | python/python-poetry-migration/migration.py:172-177 | a workflow text exists exactly when the project has a workflow file; it is the template with every python-version tag replaced |
| Locator.FirstPackage | python/python-poetry-migration/migration.py:17-25 | none exactly when no entry has `__init__.py` outside `tests` and `setup`; otherwise the name of the first such entry |
| Locator.FindPackageName | python/python-poetry-migration/migration.py:17-25 | the scan with its early return computes `FirstPackage` |
| Pipeline.Migration | python/python-poetry-migration/migration.py:42-187 | a run that completes found a package and the Dockerfile template, emitted the manifest first, and emitted the Dockerfile built from that template |
| Pipeline.Migrate | python/python-poetry-migration/migration.py:42-187 | the run, stage by stage, produces the effects and the error of `Migration` |
| Pipeline.FailsBeforeAnyEffect | python/python-poetry-migration/migration.py:57-115 | a missing package, a malformed line or a missing pytorch version stops the run before anything is written, shown or deleted |
| Pipeline.PublishOnlyShows | python/python-poetry-migration/migration.py:137-187 | in a dry run every effect after the manifest is built is a preview |
| Pipeline.DryRunOnlyShows | python/python-poetry-migration/migration.py:137-187 | a dry run writes and deletes nothing |
| Pipeline.PublishDryMatchesCommit | python/python-poetry-migration/migration.py:137-187 | after the manifest is built, a dry run shows exactly what a commit run writes, in order, and stops the same way |
| Pipeline.DryRunShowsWhatCommitWrites | python/python-poetry-migration/migration.py:42-187 | a dry run shows exactly what the same run in commit mode writes, in order, and stops with the same error |
| Pipeline.NoRollbackAfterDeletion | python/python-poetry-migration/migration.py:143-158 | in commit mode an unreadable Dockerfile template stops the run after both requirement files were deleted |
| Pipeline.PublishSkipsWorkflow | python/python-poetry-migration/migration.py:172-187 | without a workflow file, the stages after the manifest never touch the CI workflow |
| Pipeline.WorkflowSkippedWhenAbsent | python/python-poetry-migration/migration.py:172-187 | without a workflow file in the project, the CI workflow is neither written nor shown |

## Left out

- TOML serialisation (`toml.dumps`): the manifest is the `Poetry` value, not its text.
- Key order of the dependency tables: Python dicts keep insertion order, which only affects the order of lines in the written file; the tables are Dafny maps.
- File I/O is left out. Reading the files and `splitlines` are inputs (lines, template texts, the directory listing); writing and deleting are recorded as effects.
- `_find_requirements_files` (11-14): joining two fixed file names to the root is path arithmetic with no behaviour to prove.
- Failures other than a template that cannot be opened (missing requirement files, permission errors, a failed write) are left out. So is what happens on disk after them.
- The progress and preview messages printed by the run are left out; only which content is previewed is modelled.
- The command-line entry point (190-210) and its defaults are left out: the model takes every parameter as given.
- Text.Replace: modelled for a non-empty pattern only; the script replaces two fixed non-empty tags, so Python's behaviour for an empty pattern is not needed.
