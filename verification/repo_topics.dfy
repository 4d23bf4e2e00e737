/** The add-topics script: split each CSV row's topics, fetch the
    repository's current topics, and PUT their union unless there is
    nothing to add. GitHub is a parameter (`Server`); the model records
    the API calls the script would issue, in order. */
module RepoTopics {
  import opened Wrappers
  import opened Text
  import opened Seqs
  import opened CsvInput

  const TopicSeparator: char := ';'

  /** The columns `read_csv_file` insists on in this script. */
  const RequiredColumns: seq<string> := ["Repo", "Owner", "Topics"]

  /** `split_topics`: a missing, NaN or empty cell gives no topics,
      anything else the pieces between semicolons. */
  function SplitTopics(cell: Cell): (r: seq<string>)
    ensures r == [] <==> cell.Missing? || cell.text == []
    ensures forall i :: 0 <= i < |r| ==> TopicSeparator !in r[i]
  {
    if cell.Missing? || cell.text == [] then [] else Split(cell.text, TopicSeparator)
  }

  /** A present topics cell is exactly the `;`-join of its pieces. */
  lemma SplitTopicsJoins(cell: Cell)
    requires cell.Present?
    ensures Join(SplitTopics(cell), TopicSeparator) == cell.text
  {
    if cell.text != [] {
      JoinSplit(cell.text, TopicSeparator);
    }
  }

  /** Topics without separators, written as one `;`-joined cell, split back
      into the same list. */
  lemma SplitTopicsOfJoin(topics: seq<string>)
    requires forall i :: 0 <= i < |topics| ==> TopicSeparator !in topics[i]
    requires Join(topics, TopicSeparator) != []
    ensures SplitTopics(Present(Join(topics, TopicSeparator))) == topics
  {
    SplitJoin(topics, TopicSeparator);
  }

  /** What `add_topics_to_repo` decides once it knows the current topics. */
  datatype Decision =
    | NothingProvided          // no new topics: skip without fetching
    | AllPresent               // every new topic already exists: skip
    | Put(topics: seq<string>) // replace the topics with this list

  /** The skip/merge decision. Python builds `list(set(current + new))`,
      whose order is unspecified; the model keeps first occurrences. */
  function Decide(current: seq<string>, newTopics: seq<string>): (d: Decision)
    ensures d == NothingProvided <==> newTopics == []
    ensures d == AllPresent <==> newTopics != [] && forall t :: t in newTopics ==> t in current
    ensures d.Put? ==> NoDuplicates(d.topics)
    ensures d.Put? ==> forall t :: t in d.topics <==> t in current || t in newTopics
  {
    var wanted, existing := set t | t in newTopics, set t | t in current;
    if newTopics == [] then NothingProvided
    else if wanted <= existing then
      assert forall t :: t in newTopics ==> t in current by {
        forall t | t in newTopics
          ensures t in current
        {
          assert t in wanted;
          assert t in existing;
        }
      }
      AllPresent
    else Put(Dedup(current + newTopics))
  }

  /** The body of GET /repos/{owner}/{repo}/topics as far as the script reads it. */
  datatype TopicsResponse = TopicsResponse(status: int, names: Option<seq<string>>)

  /** GitHub's answers: the GET response, and the status of a PUT. */
  datatype Server = Server(
    fetch: (string, string) -> TopicsResponse,
    put: (string, string, seq<string>) -> int)

  datatype TopicAction = FetchTopics | UpdateTopics

  /** TopicFetchError / TopicUpdateError: the action, repository and status, without the message. */
  datatype TopicError = TopicError(action: TopicAction, owner: string, repo: string, status: int)

  /** The topics the server reports when the fetch succeeds. */
  function ServerTopics(owner: string, repo: string, server: Server): seq<string> {
    server.fetch(owner, repo).names.GetOr([])
  }

  /** `get_current_repo_topics`: the `names` field (default empty) on status 200, else a fetch error. */
  function GetCurrentRepoTopics(owner: string, repo: string, server: Server): (r: Result<seq<string>, TopicError>)
    ensures r.Success? <==> server.fetch(owner, repo).status == 200
    ensures r.Success? ==> r.value == ServerTopics(owner, repo, server)
    ensures server.fetch(owner, repo).names.None? ==> r.Failure? || r.value == []
    ensures r.Failure? ==> r.error == TopicError(FetchTopics, owner, repo, server.fetch(owner, repo).status)
  {
    var response := server.fetch(owner, repo);
    if response.status == 200 then Success(response.names.GetOr([]))
    else Failure(TopicError(FetchTopics, owner, repo, response.status))
  }

  /** `update_repo_topics`: any status other than 200 is an update error. */
  function UpdateRepoTopics(owner: string, repo: string, topics: seq<string>, server: Server): (r: Outcome<TopicError>)
    ensures r.Pass? <==> server.put(owner, repo, topics) == 200
    ensures r.Fail? ==> r.error == TopicError(UpdateTopics, owner, repo, server.put(owner, repo, topics))
  {
    var status := server.put(owner, repo, topics);
    if status != 200 then Fail(TopicError(UpdateTopics, owner, repo, status)) else Pass
  }

  datatype ApiCall =
    | GetTopics(owner: string, repo: string)
    | PutTopics(owner: string, repo: string, names: seq<string>)

  datatype AddOutcome =
    | SkippedNoTopics
    | SkippedAllPresent
    | Updated(topics: seq<string>)
    | Failed(error: TopicError)

  /** The calls one `add_topics_to_repo` issues, and how it ends. */
  datatype AddRun = AddRun(calls: seq<ApiCall>, outcome: AddOutcome)

  /** `add_topics_to_repo`. */
  function AddTopicsToRepo(owner: string, repo: string, newTopics: seq<string>, server: Server): (r: AddRun)
    // no topics: no call at all
    ensures r.calls == [] <==> newTopics == []
    ensures r.outcome == SkippedNoTopics <==> newTopics == []
    // otherwise the first call is the fetch of this repository's topics
    ensures newTopics != [] ==> r.calls[0] == GetTopics(owner, repo)
    ensures |r.calls| <= 2
    ensures r.outcome.Failed? && r.outcome.error.action == FetchTopics <==>
      newTopics != [] && server.fetch(owner, repo).status != 200
    ensures r.outcome.Failed? && r.outcome.error.action == FetchTopics ==>
      r.outcome.error == TopicError(FetchTopics, owner, repo, server.fetch(owner, repo).status)
    ensures r.outcome == SkippedAllPresent <==>
      && newTopics != [] && server.fetch(owner, repo).status == 200
      && forall t :: t in newTopics ==> t in ServerTopics(owner, repo, server)
    // exactly one PUT when some new topic is missing, carrying the union without duplicates
    ensures |r.calls| == 2 <==>
      && newTopics != [] && server.fetch(owner, repo).status == 200
      && exists t :: t in newTopics && t !in ServerTopics(owner, repo, server)
    ensures |r.calls| == 2 ==>
      && r.calls[1].PutTopics? && r.calls[1].owner == owner && r.calls[1].repo == repo
      && NoDuplicates(r.calls[1].names)
      && forall t :: t in r.calls[1].names <==> t in ServerTopics(owner, repo, server) || t in newTopics
    ensures r.outcome.Updated? <==> |r.calls| == 2 && server.put(owner, repo, r.calls[1].names) == 200
    ensures r.outcome.Updated? ==> r.outcome.topics == r.calls[1].names
    ensures r.outcome.Failed? && r.outcome.error.action == UpdateTopics ==>
      |r.calls| == 2 && r.outcome.error == TopicError(UpdateTopics, owner, repo, server.put(owner, repo, r.calls[1].names))
  {
    if newTopics == [] then AddRun([], SkippedNoTopics)
    else
      var fetch := [GetTopics(owner, repo)];
      match GetCurrentRepoTopics(owner, repo, server)
      case Failure(e) => AddRun(fetch, Failed(e))
      case Success(current) =>
        match Decide(current, newTopics)
        case NothingProvided => AddRun(fetch, SkippedNoTopics)
        case AllPresent => AddRun(fetch, SkippedAllPresent)
        case Put(topics) =>
          var calls := fetch + [PutTopics(owner, repo, topics)];
          match UpdateRepoTopics(owner, repo, topics, server)
          case Fail(e) => AddRun(calls, Failed(e))
          case Pass => AddRun(calls, Updated(topics))
  }

  /** The `add_topics_to_repo` call made for one CSV row. */
  function RowRun(row: Row, server: Server): AddRun {
    AddTopicsToRepo(Render(CellAt(row, "Owner")), Render(CellAt(row, "Repo")), SplitTopics(CellAt(row, "Topics")), server)
  }

  /** The per-row step of `process_csv` against a given server. */
  function RowStep(server: Server): Row -> AddRun {
    row => RowRun(row, server)
  }

  /** The calls of the given rows, processed in order, none failing. */
  function Trace(rows: seq<Row>, step: Row -> AddRun): seq<ApiCall> {
    if rows == [] then [] else Trace(rows[..|rows| - 1], step) + step(rows[|rows| - 1]).calls
  }

  /** Row `k` is the first row whose step raises. */
  predicate FirstFailureAt(rows: seq<Row>, step: Row -> AddRun, k: int) {
    && 0 <= k < |rows|
    && step(rows[k]).outcome.Failed?
    && forall i :: 0 <= i < k ==> !step(rows[i]).outcome.Failed?
  }

  /** The index of the first row whose step raises, if any. */
  function FirstFailure(rows: seq<Row>, step: Row -> AddRun): (r: Option<nat>)
    ensures r.Some? ==> FirstFailureAt(rows, step, r.value)
    ensures r.None? ==> forall i :: 0 <= i < |rows| ==> !step(rows[i]).outcome.Failed?
  {
    if rows == [] then None
    else if step(rows[0]).outcome.Failed? then Some(0)
    else
      match FirstFailure(rows[1..], step)
      case None => None
      case Some(k) =>
        assert forall i :: 1 <= i <= k + 1 ==> rows[i] == rows[1..][i - 1];
        Some(k + 1)
  }

  /** The loop of `process_csv`: rows in file order, the first error aborts the run. */
  method ProcessRows(rows: seq<Row>, step: Row -> AddRun) returns (calls: seq<ApiCall>, failure: Option<TopicError>)
    ensures failure.None? <==> FirstFailure(rows, step).None?
    ensures failure.None? ==> calls == Trace(rows, step)
    ensures failure.Some? ==>
      var k := FirstFailure(rows, step).value;
      && failure.value == step(rows[k]).outcome.error
      && calls == Trace(rows[..k], step) + step(rows[k]).calls
  {
    calls := [];
    var i := 0;
    while i < |rows|
      invariant 0 <= i <= |rows|
      invariant forall j :: 0 <= j < i ==> !step(rows[j]).outcome.Failed?
      invariant calls == Trace(rows[..i], step)
    {
      var run := step(rows[i]);
      if run.outcome.Failed? {
        FirstFailureUnique(rows, step, i);
        return calls + run.calls, Some(run.outcome.error);
      }
      assert rows[..i + 1][..i] == rows[..i];
      calls := calls + run.calls;
      i := i + 1;
    }
    assert rows[..i] == rows;
    failure := None;
  }

  /** There is only one first failing row. */
  lemma FirstFailureUnique(rows: seq<Row>, step: Row -> AddRun, k: int)
    requires FirstFailureAt(rows, step, k)
    ensures FirstFailure(rows, step) == Some(k)
  {
  }

  /** Errors that end the add-topics script. */
  datatype ScriptError = CsvFailed(csv: CsvError) | TopicFailed(topic: TopicError)

  /** `process_csv`: read and validate the CSV, then process its rows. */
  method ProcessCsv(path: Option<string>, load: string -> LoadOutcome, server: Server)
    returns (calls: seq<ApiCall>, failure: Option<ScriptError>)
    ensures ReadCsvFile(path, RequiredColumns, load).Failure? ==>
      calls == [] && failure == Some(CsvFailed(ReadCsvFile(path, RequiredColumns, load).error))
    ensures ReadCsvFile(path, RequiredColumns, load).Success? && failure.None? ==>
      calls == Trace(ReadCsvFile(path, RequiredColumns, load).value.rows, RowStep(server))
    // after a successful read the run fails iff some row raises
    ensures ReadCsvFile(path, RequiredColumns, load).Success? ==>
      (failure.None? <==> FirstFailure(ReadCsvFile(path, RequiredColumns, load).value.rows, RowStep(server)).None?)
    // and then it stops at the first raising row, with that row's error and the calls made up to it
    ensures ReadCsvFile(path, RequiredColumns, load).Success? && failure.Some? ==>
      var rows := ReadCsvFile(path, RequiredColumns, load).value.rows;
      var k := FirstFailure(rows, RowStep(server)).value;
      && failure.value == TopicFailed(RowRun(rows[k], server).outcome.error)
      && calls == Trace(rows[..k], RowStep(server)) + RowRun(rows[k], server).calls
  {
    match ReadCsvFile(path, RequiredColumns, load)
    case Failure(e) =>
      calls, failure := [], Some(CsvFailed(e));
    case Success(frame) =>
      var topicFailure;
      calls, topicFailure := ProcessRows(frame.rows, RowStep(server));
      failure := if topicFailure.Some? then Some(TopicFailed(topicFailure.value)) else None;
  }
}
