/** `process_organization` of the pipeline-source script: for every
    repository of every project, find its `.yml` files, clone it, rewrite
    each pipeline file, push a branch and open a pull request. Listings,
    clones, pushes and the pull-request POST are parameters or recorded
    effects; their failures are only logged by the script. */
module PipelineOrg {
  import opened Wrappers
  import opened Text
  import opened Seqs
  import opened PipelineYaml

  /** An entry of the Azure DevOps items listing. */
  datatype Item = Item(path: string, objectId: string)

  const PipelineSuffix: string := ".yml"

  predicate IsPipelineFile(item: Item) {
    EndsWith(item.path, PipelineSuffix)
  }

  /** The list comprehension of `get_yaml_files`: the items whose path ends in `.yml`, in listing order. */
  function YamlItems(items: seq<Item>): (r: seq<Item>)
    ensures forall k :: 0 <= k < |r| ==> IsPipelineFile(r[k])
    ensures forall i :: 0 <= i < |items| && IsPipelineFile(items[i]) ==> items[i] in r
    ensures forall x :: x in r ==> x in items
    ensures IsSubsequence(r, items)
  {
    if items == [] then []
    else
      var rest := YamlItems(items[1..]);
      assert forall i :: 1 <= i < |items| ==> items[i] == items[1..][i - 1];
      if IsPipelineFile(items[0]) then [items[0]] + rest else rest
  }

  /** A path ending in `.yml` does not end in `.yaml`. */
  lemma YmlIsNotYaml(path: string)
    requires EndsWith(path, PipelineSuffix)
    ensures !EndsWith(path, ".yaml")
  {
    assert path[|path| - 4] == '.';
  }

  /** `.yaml` files are not picked up as pipelines. */
  lemma YamlItemsExcludeDotYaml(items: seq<Item>)
    ensures forall k :: 0 <= k < |YamlItems(items)| ==> !EndsWith(YamlItems(items)[k].path, ".yaml")
  {
    var r := YamlItems(items);
    forall k | 0 <= k < |r|
      ensures !EndsWith(r[k].path, ".yaml")
    {
      YmlIsNotYaml(r[k].path);
    }
  }

  /** The filter distributes over concatenation, so with the one-item case
      it determines the result exactly. */
  lemma {:induction false} YamlItemsAppend(a: seq<Item>, b: seq<Item>)
    ensures YamlItems(a + b) == YamlItems(a) + YamlItems(b)
  {
    if a != [] {
      assert (a + b)[0] == a[0];
      assert (a + b)[1..] == a[1..] + b;
      YamlItemsAppend(a[1..], b);
      if IsPipelineFile(a[0]) {
        calc {
          YamlItems(a + b);
          [a[0]] + YamlItems(a[1..] + b);
          [a[0]] + (YamlItems(a[1..]) + YamlItems(b));
          ([a[0]] + YamlItems(a[1..])) + YamlItems(b);
        }
      }
    } else {
      assert a + b == b;
    }
  }

  /** `get_yaml_files`: a failed listing request is logged and yields no files. */
  function GetYamlFiles(listing: Option<seq<Item>>): (r: seq<Item>)
    ensures listing.None? ==> r == []
    ensures forall k :: 0 <= k < |r| ==> IsPipelineFile(r[k])
    ensures listing.Some? ==> IsSubsequence(r, listing.value)
    ensures listing.Some? ==> forall i :: 0 <= i < |listing.value| && IsPipelineFile(listing.value[i]) ==> listing.value[i] in r
  {
    match listing
    case None => []
    case Some(items) => YamlItems(items)
  }

  const BranchSuffix: string := "-source-fix"
  const HeadsPrefix: string := "refs/heads/"
  const TargetRef: string := "refs/heads/master"

  /** The branch every fixed repository of a project is pushed to. */
  function BranchName(projectName: string): (b: string)
    ensures StartsWith(b, projectName) && EndsWith(b, BranchSuffix)
    ensures |b| == |projectName| + |BranchSuffix|
  {
    projectName + BranchSuffix
  }

  /** Recovers the project from a branch name. */
  function ProjectOfBranch(branch: string): Option<string> {
    if EndsWith(branch, BranchSuffix) then Some(branch[..|branch| - |BranchSuffix|]) else None
  }

  /** Branch names determine their project, so projects never share a branch. */
  lemma ProjectOfBranchName(projectName: string)
    ensures ProjectOfBranch(BranchName(projectName)) == Some(projectName)
  {
    var b := BranchName(projectName);
    assert b[..|b| - |BranchSuffix|] == projectName;
  }

  /** The refs of the `create_pull_request` payload. */
  datatype PullRequest = PullRequest(sourceRef: string, targetRef: string)

  function PullRequestFor(branch: string): (pr: PullRequest)
    ensures StartsWith(pr.sourceRef, HeadsPrefix) && pr.sourceRef[|HeadsPrefix|..] == branch
    ensures pr.targetRef == TargetRef
  {
    PullRequest(HeadsPrefix + branch, TargetRef)
  }

  /** Recovers the branch from a `refs/heads/...` ref. */
  function BranchOfRef(ref: string): Option<string> {
    if StartsWith(ref, HeadsPrefix) then Some(ref[|HeadsPrefix|..]) else None
  }

  lemma PullRequestNamesBranch(projectName: string)
    ensures var pr := PullRequestFor(BranchName(projectName));
      BranchOfRef(pr.sourceRef).Some? && ProjectOfBranch(BranchOfRef(pr.sourceRef).value) == Some(projectName)
  {
    ProjectOfBranchName(projectName);
  }

  /** `os.path.join(a, b)` on POSIX: an absolute `b` discards `a`. */
  function PosixJoin(a: string, b: string): (r: string)
    ensures StartsWith(b, "/") ==> r == b
    ensures !StartsWith(b, "/") ==> StartsWith(r, a) && EndsWith(r, b)
  {
    if |b| > 0 && b[0] == '/' then b
    else if a == [] || a[|a| - 1] == '/' then a + b
    else a + "/" + b
  }

  /** As written, the script opens `os.path.join(working_tree_dir, item['path'])`;
      Azure DevOps item paths start with `/`, so the clone directory is
      dropped and the file opened lies outside the clone. */
  lemma AsWrittenJoinLeavesClone()
    ensures PosixJoin("/tmp/clone", "/azure-pipelines.yml") == "/azure-pipelines.yml"
    ensures !StartsWith(PosixJoin("/tmp/clone", "/azure-pipelines.yml"), "/tmp/clone/")
  {
    var joined := PosixJoin("/tmp/clone", "/azure-pipelines.yml");
    assert joined[1] == 'a';
    assert joined[..11][1] != "/tmp/clone/"[1];
  }

  /** `p` without its leading slashes. */
  function TrimLeadingSlashes(p: string): (r: string)
    ensures |r| <= |p| && r == p[|p| - |r|..]
    ensures forall k :: 0 <= k < |p| - |r| ==> p[k] == '/'
    ensures r == [] || r[0] != '/'
  {
    if |p| > 0 && p[0] == '/' then TrimLeadingSlashes(p[1..]) else p
  }

  /** The file of the clone an item path names: always inside the working tree. */
  function ClonePath(dir: string, itemPath: string): (r: string)
    ensures StartsWith(r, dir + "/")
    ensures r[|dir| + 1..] == TrimLeadingSlashes(itemPath)
  {
    dir + "/" + TrimLeadingSlashes(itemPath)
  }

  /** On a relative item path the corrected join agrees with `os.path.join`. */
  lemma ClonePathAgreesOnRelativePaths(dir: string, itemPath: string)
    requires dir != [] && dir[|dir| - 1] != '/'
    requires itemPath == [] || itemPath[0] != '/'
    ensures ClonePath(dir, itemPath) == PosixJoin(dir, itemPath)
  {
    assert TrimLeadingSlashes(itemPath) == itemPath;
    assert !(|itemPath| > 0 && itemPath[0] == '/');
  }

  /** A local clone: its working-tree directory and the documents of its files. */
  datatype Clone = Clone(dir: string, files: map<string, Value>)

  /** Line 118 as written: the file opened for an item path is `os.path.join(dir, path)`. */
  function AsWrittenJoin(dir: string): string -> string {
    path => PosixJoin(dir, path)
  }

  /** The corrected location of an item path inside the clone. */
  function InClone(dir: string): string -> string {
    path => ClonePath(dir, path)
  }

  /** The file is the one `locate` names for one of the pipeline items. */
  predicate Targeted(file: string, ymls: seq<Item>, locate: string -> string) {
    exists i :: 0 <= i < |ymls| && locate(ymls[i].path) == file
  }

  lemma TargetedCons(ymls: seq<Item>, locate: string -> string)
    requires ymls != []
    ensures forall f :: Targeted(f, ymls, locate) <==> f == locate(ymls[0].path) || Targeted(f, ymls[1..], locate)
  {
    forall f
      ensures Targeted(f, ymls, locate) <==> f == locate(ymls[0].path) || Targeted(f, ymls[1..], locate)
    {
      if Targeted(f, ymls[1..], locate) {
        var i :| 0 <= i < |ymls[1..]| && locate(ymls[1..][i].path) == f;
        assert locate(ymls[i + 1].path) == f;
      }
      if Targeted(f, ymls, locate) && f != locate(ymls[0].path) {
        var i :| 0 <= i < |ymls| && locate(ymls[i].path) == f;
        assert ymls[1..][i - 1] == ymls[i];
      }
    }
  }

  /** The `update_yaml_content` calls on every pipeline file of a clone:
      `locate` gives the file opened for an item path and `fix` the rewrite
      of one file's document. A path that is not a file of the clone fails
      to open and is skipped. Because the rewrite is idempotent, a file named
      by several items ends up rewritten once. */
  function RewriteClone(files: map<string, Value>, ymls: seq<Item>, locate: string -> string, fix: Value -> Value): (r: map<string, Value>)
    requires forall v :: fix(fix(v)) == fix(v)
    ensures r.Keys == files.Keys
    ensures forall f :: f in files && Targeted(f, ymls, locate) ==> r[f] == fix(files[f])
    ensures forall f :: f in files && !Targeted(f, ymls, locate) ==> r[f] == files[f]
    decreases |ymls|
  {
    if ymls == [] then files
    else
      var p := locate(ymls[0].path);
      var files' := if p in files then files[p := fix(files[p])] else files;
      var r := RewriteClone(files', ymls[1..], locate, fix);
      TargetedCons(ymls, locate);
      assert forall f :: f in files ==> r[f] == (if Targeted(f, ymls, locate) then fix(files[f]) else files[f]) by {
        forall f | f in files
          ensures r[f] == (if Targeted(f, ymls, locate) then fix(files[f]) else files[f])
        {
          if f == p {
            assert files'[f] == fix(files[f]);
          } else {
            assert files'[f] == files[f];
          }
        }
      }
      r
  }

  /** As written, with rooted item paths that do not spell out the clone
      directory, no file of the clone is opened: the clone is left as it was. */
  lemma AsWrittenRewriteMissesClone(files: map<string, Value>, dir: string, ymls: seq<Item>, fix: Value -> Value)
    requires forall v :: fix(fix(v)) == fix(v)
    requires forall i :: 0 <= i < |ymls| ==> StartsWith(ymls[i].path, "/") && !StartsWith(ymls[i].path, dir + "/")
    requires forall f :: f in files ==> StartsWith(f, dir + "/")
    ensures RewriteClone(files, ymls, AsWrittenJoin(dir), fix) == files
  {
    // `os.path.join` returns a rooted item path itself, which is no file of the clone
    forall f | f in files
      ensures !Targeted(f, ymls, AsWrittenJoin(dir))
    {
    }
  }

  datatype RepoInfo = RepoInfo(id: string, name: string, listing: Option<seq<Item>>, clone: Option<Clone>)

  datatype Project = Project(id: string, name: string, repos: seq<RepoInfo>)

  /** What happened to one repository. */
  datatype RepoResult =
    | NoYamlPipelines(repoName: string)
    | CloneFailed(repoName: string)
    | Updated(repoName: string, branch: string, files: map<string, Value>, pullRequest: PullRequest)

  /** The body of the inner loop of `process_organization`. */
  function ProcessRepo(projectName: string, repo: RepoInfo, endpoint: Value): (r: RepoResult)
    ensures r.repoName == repo.name
    ensures r.Updated? <==>
      && repo.listing.Some?
      && (exists i :: 0 <= i < |repo.listing.value| && IsPipelineFile(repo.listing.value[i]))
      && repo.clone.Some?
    ensures r.NoYamlPipelines? <==>
      repo.listing.None? || forall i :: 0 <= i < |repo.listing.value| ==> !IsPipelineFile(repo.listing.value[i])
    ensures r.Updated? ==>
      && r.branch == BranchName(projectName)
      && r.pullRequest == PullRequestFor(r.branch)
      && r.files.Keys == repo.clone.value.files.Keys
    // each pipeline file of the clone is rewritten as update_yaml_content does, every other file is untouched
    ensures r.Updated? ==> forall f :: f in repo.clone.value.files ==>
      r.files[f] == (if Targeted(f, YamlItems(repo.listing.value), InClone(repo.clone.value.dir))
                     then FileAfterUpdate(repo.clone.value.files[f], repo.name, endpoint)
                     else repo.clone.value.files[f])
  {
    var ymls := GetYamlFiles(repo.listing);
    assert repo.listing.Some? && ymls == [] ==>
      forall i :: 0 <= i < |repo.listing.value| ==> !IsPipelineFile(repo.listing.value[i]);
    if ymls == [] then NoYamlPipelines(repo.name)
    else
      assert ymls[0] in repo.listing.value;
      var i :| 0 <= i < |repo.listing.value| && repo.listing.value[i] == ymls[0];
      assert IsPipelineFile(repo.listing.value[i]);
      match repo.clone
      case None => CloneFailed(repo.name)
      case Some(clone) =>
        var branch := BranchName(projectName);
        FileAfterUpdateIdempotentEverywhere(repo.name, endpoint);
        var files := RewriteClone(clone.files, ymls, InClone(clone.dir), doc => FileAfterUpdate(doc, repo.name, endpoint));
        Updated(repo.name, branch, files, PullRequestFor(branch))
  }

  /** Every repository of every project, with its project's name, in visiting order. */
  function AllRepos(projects: seq<Project>): seq<(string, RepoInfo)> {
    if projects == [] then []
    else (seq(|projects[0].repos|, i requires 0 <= i < |projects[0].repos| => (projects[0].name, projects[0].repos[i])))
         + AllRepos(projects[1..])
  }

  /** `process_organization`: one result per repository, in visiting order. */
  function ProcessOrganization(projects: seq<Project>, endpoint: Value): (r: seq<RepoResult>)
    ensures |r| == |AllRepos(projects)|
    ensures forall i :: 0 <= i < |r| ==> r[i] == ProcessRepo(AllRepos(projects)[i].0, AllRepos(projects)[i].1, endpoint)
  {
    if projects == [] then []
    else
      var p := projects[0];
      seq(|p.repos|, i requires 0 <= i < |p.repos| => ProcessRepo(p.name, p.repos[i], endpoint))
      + ProcessOrganization(projects[1..], endpoint)
  }
}
