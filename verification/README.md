# ado-automation: a verified model of the pure core

The repository is a set of single-purpose Python scripts that drive the
Azure DevOps and GitHub REST APIs. This project models the decision and
transformation logic inside three of them as pure Dafny functions. Everything
that talks to the outside world (HTTP, pandas, YAML, git) becomes a parameter.

- **Adding topics to GitHub repositories** (`github_repo_add_topics.py`,
  module `RepoTopics`). Each CSV row gives an owner, a repository and a
  `;`-separated topics cell. The script splits the cell and skips rows with
  no topics. Otherwise it fetches the repository's current topics, skips
  when every new topic is already there, and PUTs the duplicate-free union
  otherwise. GitHub is a `Server` value: the GET response per repository
  and the PUT status per request. The model records the API calls in the
  order the script issues them.
- **CSV input validation** (`read_csv_file` in both GitHub scripts, module
  `CsvInput`). Missing or blank paths are rejected and other paths are
  stripped. Then the required columns are checked, and pandas failures are
  mapped onto the `CSVFileError` classes. `pd.read_csv` is a parameter
  `load: string -> LoadOutcome`. A cell is `Missing` (NaN) or
  `Present(text)`, and f-strings render a missing cell as `"nan"`.
- **Repointing pipeline YAML at GitHub** (`ado_pipeline_source_update.py`,
  modules `PipelineYaml` and `PipelineOrg`). The loaded document is a `Value`
  tree. `update_yaml_content` is all-or-nothing: if the loop raises, the file
  is not dumped. The organization walk picks the `.yml` items of each
  repository, rewrites them in the clone, and names the branch and the
  pull-request refs.
- **Attaching a code-security configuration** (the attach script, module
  `SecurityConfig`). It checks the PAT, reads the `Repo` column in row
  order, and then looks up the configuration, which is not implemented and
  always raises.

Python's `str.strip`, `str.split(';')`, `';'.join`, `endswith` and
`os.path.join` are modelled in `Text` and `PipelineOrg`. `Wrappers` holds
`Option`/`Result`/`Outcome`, and `Seqs` holds duplicate removal and the
subsequence order.

The three scripts have no retry or back-off logic: every request is made
once, and its status alone decides what happens next.

## Model

| member | source | states |
|---|---|---|
| Text.Strip | python/github/github_repo_add_topics.py:63-66 | `str.strip()`: the result is the part of the input between a whitespace-only prefix and a whitespace-only suffix; it is empty exactly when the input is all whitespace, and otherwise starts and ends with a non-space character |
| Text.StripIdempotent | python/github/github_repo_add_topics.py:66 | stripping an already stripped path changes nothing |
| Text.Split | python/github/github_repo_add_topics.py:97 | `str.split(sep)` gives at least one piece and no piece contains the separator |
| Text.JoinSplit | python/github/github_repo_add_topics.py:97 | joining the pieces of a split with the separator gives back the input |
| Text.SplitJoin | python/github/github_repo_add_topics.py:97 | splitting a join of separator-free pieces gives back the pieces |
| RepoTopics.SplitTopics | python/github/github_repo_add_topics.py:87-97 | a missing (None/NaN) or empty cell gives no topics and any other cell gives at least one; no topic contains `;` |
| RepoTopics.SplitTopicsJoins | python/github/github_repo_add_topics.py:94-97 | a present topics cell, empty or not, is exactly the `;`-join of the topics it splits into |
| RepoTopics.SplitTopicsOfJoin | python/github/github_repo_add_topics.py:94-97 | a `;`-free topic list written as one cell splits back into the same list |
| Seqs.Dedup | python/github/github_repo_add_topics.py:173 | the merged list has no duplicates and holds exactly the elements of its input |
| RepoTopics.Decide | python/github/github_repo_add_topics.py:160-178 | skip when nothing is provided; skip iff every new topic is already current; otherwise PUT a duplicate-free list whose elements are exactly current ∪ new, so no current topic is removed |
| RepoTopics.GetCurrentRepoTopics | python/github/github_repo_add_topics.py:119-133 | succeeds iff the GET status is 200, with the response's `names` (empty when absent); any other status is a fetch error carrying that status |
| RepoTopics.UpdateRepoTopics | python/github/github_repo_add_topics.py:135-148 | passes iff the PUT status is 200; any other status is an update error carrying that status |
| RepoTopics.AddTopicsToRepo | python/github/github_repo_add_topics.py:119-178 | the run is skipped for lack of topics iff there are none, and then makes no call; otherwise the first call fetches this repository's topics; a non-200 fetch is a fetch error carrying its status; at most one PUT, issued iff some new topic is missing, carrying the union; a non-200 PUT is an update error |
| RepoTopics.FirstFailure | python/github/github_repo_add_topics.py:186-190 | names a row only if that row raises and no row before it does; names none only if no row raises |
| RepoTopics.ProcessRows | python/github/github_repo_add_topics.py:186-190 | rows are handled in file order; the run fails iff some row raises; without failure the calls are the rows' calls concatenated in order; otherwise the run stops at the first failing row with that row's error, and no later row is touched |
| RepoTopics.ProcessCsv | python/github/github_repo_add_topics.py:180-190 | with the corrected CSV reader: a CSV error issues no API call and surfaces unchanged; after a successful read the run fails iff some row raises; without failure the calls are the rows' calls in file order; on failure the run stops at the first raising row with that row's topic error and the calls made up to and including it |
| CsvInput.ReadCsvFile | python/github/github_repo_add_topics.py:57-85 | the no-path error iff the path is None or all whitespace; otherwise the stripped path is loaded; success iff it loads with every required column; a missing column is reported as the columns error, not wrapped; a missing file, an empty file, a parse error and any other pandas failure each map to their own error class, and only from that failure |
| CsvInput.ReadCsvFileAsWritten | python/github/github_repo_add_topics.py:33-55 | as written, a TypeError is raised iff the stripped path is missing, empty or unparsable, because those error constructors fail |
| CsvInput.AsWrittenDiffersOnlyInConstructedErrors | python/github/github_repo_attach-code-security-config.py:32-84 | the code as written and the corrected reading agree everywhere except on those three errors, where a TypeError replaces the CSV error |
| CsvInput.MissingFileRaisesTypeError | python/github/github_repo_add_topics.py:76-77 | a path naming no file raises a TypeError as written, where CSVFileNotFoundError carrying the stripped path was meant |
| PipelineYaml.RewriteEntryEffect | python/ado/ado_pipeline_source_update.py:70-73 | one loop pass repoints a `git` entry (type, name and endpoint set, other keys kept), leaves any other entry alone, and never yields a `git` entry |
| PipelineYaml.RewriteEntries | python/ado/ado_pipeline_source_update.py:69-73 | entry count and order are kept; each `git` entry gets `type: github`, the repo name and the endpoint, with its other keys kept; every other entry (including one with no `type`) is unchanged; no `git` entry remains |
| PipelineYaml.UpdateYamlContent | python/ado/ado_pipeline_source_update.py:64-78 | the rewrite fails (file left alone) exactly when Python would raise in the loop; a document without `resources` or `repositories` is unchanged; nothing outside `resources.repositories` changes; repository lists keep their length, repoint `git` entries and leave the others alone |
| PipelineYaml.RewriteEntriesWithoutGit | python/ado/ado_pipeline_source_update.py:70 | a list with no `git` entry is left as it is |
| PipelineYaml.UpdateIdempotent | python/ado/ado_pipeline_source_update.py:69-73 | rewriting an already rewritten document succeeds and changes nothing |
| PipelineYaml.FileAfterUpdateIdempotent | python/ado/ado_pipeline_source_update.py:64-78 | the file-level effect is idempotent whether or not the rewrite raised |
| PipelineOrg.GetYamlFiles | python/ado/ado_pipeline_source_update.py:46-54 | a failed listing gives no files; otherwise exactly the listed `.yml` items, in listing order |
| PipelineOrg.YamlItems | python/ado/ado_pipeline_source_update.py:51 | every kept item ends in `.yml`, every listed `.yml` item is kept, nothing else appears, and listing order is kept (subsequence) |
| PipelineOrg.YamlItemsAppend | python/ado/ado_pipeline_source_update.py:51 | the filter distributes over concatenation, so it is exactly the per-item selection |
| PipelineOrg.YmlIsNotYaml | python/ado/ado_pipeline_source_update.py:51 | a path ending in `.yml` does not end in `.yaml` |
| PipelineOrg.YamlItemsExcludeDotYaml | python/ado/ado_pipeline_source_update.py:51 | `.yaml` files are never selected |
| PipelineOrg.BranchName | python/ado/ado_pipeline_source_update.py:116 | the branch is the project name followed by `-source-fix` |
| PipelineOrg.ProjectOfBranchName | python/ado/ado_pipeline_source_update.py:116 | the project can be recovered from its branch, so distinct projects get distinct branches |
| PipelineOrg.PullRequestFor | python/ado/ado_pipeline_source_update.py:91-93 | the source ref is `refs/heads/` followed by the branch; the target ref is always `refs/heads/master` |
| PipelineOrg.PullRequestNamesBranch | python/ado/ado_pipeline_source_update.py:91-93 | the pull request's source ref names the project's fix branch |
| PipelineOrg.PosixJoin | python/ado/ado_pipeline_source_update.py:118 | `os.path.join` as written: an absolute item path replaces the clone directory; a relative one is appended to it |
| PipelineOrg.AsWrittenJoinLeavesClone | python/ado/ado_pipeline_source_update.py:118 | for a clone at `/tmp/clone`, the item `/azure-pipelines.yml` resolves outside the clone |
| PipelineOrg.ClonePath | python/ado/ado_pipeline_source_update.py:118 | the corrected path always lies inside the clone directory and names the item path without its leading slashes |
| PipelineOrg.ClonePathAgreesOnRelativePaths | python/ado/ado_pipeline_source_update.py:118 | on relative item paths the corrected join and `os.path.join` agree |
| PipelineOrg.RewriteClone | python/ado/ado_pipeline_source_update.py:117-118 | for any way of locating an item path's file (`os.path.join` as written, or the corrected in-clone path) and an idempotent per-file rewrite: the clone keeps its file set; each file located for a `.yml` item ends up rewritten once, even when named twice; other files are untouched |
| PipelineOrg.AsWrittenRewriteMissesClone | python/ado/ado_pipeline_source_update.py:117-118 | as written, when every item path is rooted and does not spell out the clone directory, the loop leaves every file of the clone unchanged |
| PipelineOrg.ProcessRepo | python/ado/ado_pipeline_source_update.py:110-123 | with the corrected in-clone path: rewrite, push and pull request happen iff the listing has a `.yml` item and the clone succeeded; "no pipelines" iff the listing failed or has no `.yml` item; an updated repo uses the project's fix branch and its pull request, and each clone file a `.yml` item names is rewritten as `update_yaml_content` does |
| PipelineOrg.ProcessOrganization | python/ado/ado_pipeline_source_update.py:104-123 | one result per repository of every project, in visiting order, each computed with its own project's name |
| SecurityConfig.GetPat | python/github/github_repo_attach-code-security-config.py:8-18 | fails iff `GITHUB_PAT` is unset or empty; otherwise yields that non-empty token |
| SecurityConfig.GetRepoNames | python/github/github_repo_attach-code-security-config.py:56-94 | with the corrected CSV reader: success iff the CSV with a `Repo` column reads; the names are that column in row order, one per row; CSV errors surface unchanged |
| SecurityConfig.GetCodeSecurityConfigId | python/github/github_repo_attach-code-security-config.py:96-108 | the lookup always fails with not-implemented |
| SecurityConfig.Run | python/github/github_repo_attach-code-security-config.py:110-142 | with the corrected CSV reader: the script never completes; the PAT error comes first iff the PAT is missing, then the CSV error iff the CSV fails, else not-implemented |

## Left out

- HTTP traffic and JSON decoding. GitHub responses are the `Server` parameter. The Azure DevOps project, repository and item listings are inputs. A failed project or repository listing, which the script logs and treats as empty, is an empty input list. URL construction is not modelled.
- pandas parsing. `pd.read_csv` is the `load` parameter. Numeric or boolean cells are not modelled (cells are text or NaN), and `split_topics` on a non-string cell would raise in Python.
- YAML parsing and dumping. `safe_dump` re-serialises a file (sorted keys, comments dropped) even when nothing changed. The model treats the document as unchanged in that case. Non-string mapping keys are not modelled.
- Git clone, checkout, commit and push, and temporary directories. A clone is an input that is either present or absent. Push and pull-request failures are only logged by the script, so the model records the intended branch and pull-request refs without their success.
- Base64 encoding of the PAT, `.env` loading, argparse usage errors (they exit before the script's error handler), and logging and printing.
- The add-topics script reads `GITHUB_PAT` without checking it. An unset variable becomes the text `None` in the Authorization header. This is an authentication detail of the HTTP layer and is not modelled.
- The repository-inventory scripts (`github_repo_information.py` in both places, `ado_repo_information.py`, `repo_information.py`). They are linear enumeration into a spreadsheet. The width mismatch between their rows and columns (team columns appended even when teams are off) is not modelled.
- PyYAML values beyond null, booleans, integers, strings, lists and string-keyed mappings: floats, timestamps, and anchors and aliases are not modelled. With an alias, the in-place assignments of the rewrite loop could also change a mapping reached from outside `resources.repositories`; the model's "nothing else changes" holds only for documents without aliases.
- RepoTopics.ProcessCsv: models the corrected program. As written, a missing, empty or unparsable CSV raises TypeError while the CSV error is being built (see Findings), where the model reports the CSV error; `CsvInput.AsWrittenDiffersOnlyInConstructedErrors` states exactly where the two differ.
- SecurityConfig.GetRepoNames: models the corrected program. As written, a missing, empty or unparsable CSV raises TypeError instead of the CSV error it returns; `CsvInput.AsWrittenDiffersOnlyInConstructedErrors` states exactly where the two differ.
- SecurityConfig.Run: models the corrected program. As written, the three CSV failures above end the script with a TypeError rather than the CSV error; the PAT check and the not-implemented lookup are the same either way.
- PipelineOrg.ProcessRepo: models the corrected program, locating each item's file with `ClonePath`. As written, line 118 uses `os.path.join`, which for rooted item paths opens files outside the clone; `PipelineOrg.AsWrittenRewriteMissesClone` states that outcome for the clone.
- RepoTopics.Decide: Python builds the PUT list as `list(set(...))`, whose order is unspecified. The model keeps first occurrences, and the contract states only the list's elements and the absence of duplicates, not an order.

## Findings

| source | as written | input that shows it | evidently intended | confidence | as-written member | corrected member |
|---|---|---|---|---|---|---|
| python/github/github_repo_add_topics.py:33-55 | `CSVFileNotFoundError`, `CSVFileEmptyError` and `CSVFileParseError` call `super().__init__(message)` with one argument, but the base `__init__` takes `csv_path` and `message`, so building them raises TypeError | a path naming no file, e.g. `repos.csv` | raise the matching CSV error carrying the stripped path | high; not executed | CsvInput.ReadCsvFileAsWritten, CsvInput.MissingFileRaisesTypeError | CsvInput.ReadCsvFile |
| python/github/github_repo_attach-code-security-config.py:32-54 | the same three constructors, with the same one-argument call | a path naming no file, e.g. `repos.csv` | raise the matching CSV error carrying the stripped path | high; not executed | CsvInput.ReadCsvFileAsWritten, CsvInput.AsWrittenDiffersOnlyInConstructedErrors | CsvInput.ReadCsvFile |
| python/ado/ado_pipeline_source_update.py:118 | `os.path.join(working_tree_dir, item['path'])`; Azure DevOps item paths start with `/`, so the join drops the clone directory and opens a file outside the clone | clone `/tmp/clone`, item `/azure-pipelines.yml` | open the pipeline file inside the clone | medium (assumes rooted item paths); not executed | PipelineOrg.PosixJoin, PipelineOrg.AsWrittenJoinLeavesClone, PipelineOrg.AsWrittenRewriteMissesClone | PipelineOrg.ClonePath |
