/** `update_yaml_content`: in a loaded pipeline document, every entry of
    `resources.repositories` whose `type` is `git` is repointed at GitHub.
    Loading and dumping YAML are left out; the document is a `Value`. */
module PipelineYaml {
  import opened Wrappers

  /** The kinds of YAML value `yaml.safe_load` returns that the model covers:
      no floats, timestamps or aliases, and string keys only. */
  datatype Value =
    | Null
    | Bool(b: bool)
    | Int(i: int)
    | Str(s: string)
    | List(items: seq<Value>)
    | Dict(entries: map<string, Value>)

  /** `GITHUB_CONNECTION_NAME` as written into the YAML: `None` when unset. */
  function EndpointValue(connection: Option<string>): Value {
    match connection
    case None => Null
    case Some(name) => Str(name)
  }

  /** `repo.get('type', '') == 'git'` on a mapping entry. */
  predicate IsGitEntry(e: Value) {
    e.Dict? && "type" in e.entries && e.entries["type"] == Str("git")
  }

  /** `e'` is `e` repointed at GitHub: `type`, `name` and `endpoint` set,
      every other key kept with its value. */
  predicate RepointedFrom(e: Value, e': Value, repoName: string, endpoint: Value) {
    && e.Dict? && e'.Dict?
    && e'.entries.Keys == e.entries.Keys + {"type", "name", "endpoint"}
    && e'.entries["type"] == Str("github")
    && e'.entries["name"] == Str(repoName)
    && e'.entries["endpoint"] == endpoint
    && forall k :: k in e.entries && k != "type" && k != "name" && k != "endpoint" ==> e'.entries[k] == e.entries[k]
  }

  /** The assignments of the loop body, applied to one entry. */
  function RewriteEntry(e: Value, repoName: string, endpoint: Value): Value {
    if IsGitEntry(e) then Dict(e.entries["type" := Str("github")]["name" := Str(repoName)]["endpoint" := endpoint])
    else e
  }

  /** One pass of the loop body repoints a `git` entry, leaves any other
      entry alone, and never yields a `git` entry. */
  lemma RewriteEntryEffect(e: Value, repoName: string, endpoint: Value)
    ensures IsGitEntry(e) ==> RepointedFrom(e, RewriteEntry(e, repoName, endpoint), repoName, endpoint)
    ensures !IsGitEntry(e) ==> RewriteEntry(e, repoName, endpoint) == e
    ensures !IsGitEntry(RewriteEntry(e, repoName, endpoint))
  {
    if IsGitEntry(e) {
      var e' := RewriteEntry(e, repoName, endpoint);
      assert e'.entries["type"] == Str("github");
    }
  }

  /** The loop over a list of entries. */
  function RewriteEntries(items: seq<Value>, repoName: string, endpoint: Value): (r: seq<Value>)
    ensures |r| == |items|
    ensures forall i :: 0 <= i < |items| && IsGitEntry(items[i]) ==> RepointedFrom(items[i], r[i], repoName, endpoint)
    ensures forall i :: 0 <= i < |items| && !IsGitEntry(items[i]) ==> r[i] == items[i]
    ensures forall i :: 0 <= i < |r| ==> !IsGitEntry(r[i])
  {
    if items == [] then []
    else
      var head := RewriteEntry(items[0], repoName, endpoint);
      var tail := RewriteEntries(items[1..], repoName, endpoint);
      RewriteEntryEffect(items[0], repoName, endpoint);
      assert forall i :: 1 <= i < |items| ==> items[i] == items[1..][i - 1] && ([head] + tail)[i] == tail[i - 1];
      [head] + tail
  }

  /** Whether Python can run the loop over `repos` without raising:
      `.get` exists only on mappings, iterating a mapping or a string yields
      strings, and None, booleans and integers are not iterable. */
  predicate LoopRuns(repos: Value) {
    match repos
    case List(items) => forall i :: 0 <= i < |items| ==> items[i].Dict?
    case Dict(m) => m == map[]
    case Str(s) => s == []
    case _ => false
  }

  /** The `resources.repositories` value of a document, when there is one. */
  function RepositoriesOf(doc: Value): Option<Value> {
    if doc.Dict? && "resources" in doc.entries && doc.entries["resources"].Dict?
       && "repositories" in doc.entries["resources"].entries
    then Some(doc.entries["resources"].entries["repositories"])
    else None
  }

  /** Whether the script's loop raises on `doc` (so the file is not rewritten):
      the document or its `resources` is not a mapping, or its repositories
      cannot be walked. */
  predicate Raises(doc: Value) {
    || !doc.Dict?
    || ("resources" in doc.entries && !doc.entries["resources"].Dict?)
    || (RepositoriesOf(doc).Some? && !LoopRuns(RepositoriesOf(doc).value))
  }

  /** `doc'` differs from `doc` at most in the value of `resources.repositories`. */
  predicate SameOutsideRepositories(doc: Value, doc': Value) {
    && doc.Dict? && doc'.Dict?
    && doc'.entries.Keys == doc.entries.Keys
    && (forall k :: k in doc.entries && k != "resources" ==> doc'.entries[k] == doc.entries[k])
    && ("resources" in doc.entries ==>
          && doc.entries["resources"].Dict? && doc'.entries["resources"].Dict?
          && doc'.entries["resources"].entries.Keys == doc.entries["resources"].entries.Keys
          && forall k :: k in doc.entries["resources"].entries && k != "repositories" ==>
               doc'.entries["resources"].entries[k] == doc.entries["resources"].entries[k])
  }

  /** The walk of `resources.repositories`; `None` when Python raises. */
  function RewriteRepositories(repos: Value, repoName: string, endpoint: Value): Option<Value> {
    match repos
    case List(items) =>
      if forall i :: 0 <= i < |items| ==> items[i].Dict? then Some(List(RewriteEntries(items, repoName, endpoint)))
      else None
    case Dict(m) => if m == map[] then Some(repos) else None
    case Str(s) => if s == [] then Some(repos) else None
    case _ => None
  }

  /** `update_yaml_content` on a loaded document: the document to dump, or
      `None` when an exception is logged instead and the file is left alone. */
  function UpdateYamlContent(doc: Value, repoName: string, endpoint: Value): (r: Option<Value>)
    ensures r.None? <==> Raises(doc)
    // a document without resources or without repositories comes back unchanged
    ensures doc.Dict? && "resources" !in doc.entries ==> r == Some(doc)
    ensures (doc.Dict? && "resources" in doc.entries && doc.entries["resources"].Dict?
             && "repositories" !in doc.entries["resources"].entries) ==> r == Some(doc)
    ensures r.Some? ==> SameOutsideRepositories(doc, r.value)
    ensures r.Some? && RepositoriesOf(doc).Some? && RepositoriesOf(doc).value.List? ==>
      var items := RepositoriesOf(doc).value.items;
      && RepositoriesOf(r.value).Some? && RepositoriesOf(r.value).value.List?
      && var items' := RepositoriesOf(r.value).value.items;
      && |items'| == |items|
      && (forall i :: 0 <= i < |items| && IsGitEntry(items[i]) ==> RepointedFrom(items[i], items'[i], repoName, endpoint))
      && (forall i :: 0 <= i < |items| && !IsGitEntry(items[i]) ==> items'[i] == items[i])
    ensures r.Some? && RepositoriesOf(doc).Some? && !RepositoriesOf(doc).value.List? ==> r == Some(doc)
  {
    if !doc.Dict? then None
    else if "resources" !in doc.entries then Some(doc)
    else
      var resources := doc.entries["resources"];
      if !resources.Dict? then None
      else if "repositories" !in resources.entries then Some(doc)
      else
        match RewriteRepositories(resources.entries["repositories"], repoName, endpoint)
        case None => None
        case Some(repos) =>
          var doc' := Dict(doc.entries["resources" := Dict(resources.entries["repositories" := repos])]);
          assert !repos.List? ==> doc' == doc by {
            if !repos.List? {
              assert resources.entries["repositories" := repos] == resources.entries;
              assert doc.entries["resources" := resources] == doc.entries;
            }
          }
          Some(doc')
  }

  /** The file's document after `update_yaml_content`: rewritten, or untouched when it raised. */
  function FileAfterUpdate(doc: Value, repoName: string, endpoint: Value): Value {
    UpdateYamlContent(doc, repoName, endpoint).GetOr(doc)
  }

  /** Entries with no `git` entry among them are left as they are. */
  lemma {:induction false} RewriteEntriesWithoutGit(items: seq<Value>, repoName: string, endpoint: Value)
    requires forall i :: 0 <= i < |items| ==> !IsGitEntry(items[i])
    ensures RewriteEntries(items, repoName, endpoint) == items
  {
    var r := RewriteEntries(items, repoName, endpoint);
    assert forall i :: 0 <= i < |items| ==> r[i] == items[i];
  }

  /** The rewrite is idempotent: a second pass finds nothing to change. */
  lemma UpdateIdempotent(doc: Value, repoName: string, endpoint: Value)
    requires UpdateYamlContent(doc, repoName, endpoint).Some?
    ensures var doc' := UpdateYamlContent(doc, repoName, endpoint).value;
      UpdateYamlContent(doc', repoName, endpoint) == Some(doc')
  {
    var doc' := UpdateYamlContent(doc, repoName, endpoint).value;
    var top := doc.entries;
    if "resources" in top {
      var res := top["resources"].entries;
      if "repositories" in res && res["repositories"].List? {
        var top' := doc'.entries;
        var res' := top'["resources"].entries;
        var items' := res'["repositories"].items;
        RewriteEntriesWithoutGit(items', repoName, endpoint);
        assert res'["repositories" := List(items')] == res';
        assert top'["resources" := Dict(res')] == top';
      }
    }
  }

  /** The file-level effect is idempotent, whether or not the rewrite raised. */
  lemma FileAfterUpdateIdempotent(doc: Value, repoName: string, endpoint: Value)
    ensures var once := FileAfterUpdate(doc, repoName, endpoint);
      FileAfterUpdate(once, repoName, endpoint) == once
  {
    if UpdateYamlContent(doc, repoName, endpoint).Some? {
      UpdateIdempotent(doc, repoName, endpoint);
    }
  }

  lemma FileAfterUpdateIdempotentEverywhere(repoName: string, endpoint: Value)
    ensures forall doc :: FileAfterUpdate(FileAfterUpdate(doc, repoName, endpoint), repoName, endpoint)
                          == FileAfterUpdate(doc, repoName, endpoint)
  {
    forall doc {
      FileAfterUpdateIdempotent(doc, repoName, endpoint);
    }
  }
}
