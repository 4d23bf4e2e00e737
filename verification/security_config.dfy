/** The attach-code-security-config script: its environment and CSV
    validation, the repository names it reads, and the configuration
    lookup, which is not implemented. */
module SecurityConfig {
  import opened Wrappers
  import opened CsvInput

  const PatVariable: string := "GITHUB_PAT"

  /** The columns `read_csv_file` insists on in this script. */
  const RequiredColumns: seq<string> := ["Repo"]

  /** Errors that end the script, without their message text. */
  datatype ScriptError =
    | PatNotSet                   // ValueError from get_base64_encoded_pat
    | CsvFailed(csv: CsvError)    // a CSVFileError from read_csv_file
    | NotImplemented              // NotImplementedError from get_code_security_config_id

  /** `get_base64_encoded_pat` up to the encoding: the token to encode, or
      an error when `GITHUB_PAT` is unset or empty. */
  function GetPat(env: map<string, string>): (r: Result<string, ScriptError>)
    ensures r.Failure? <==> PatVariable !in env || |env[PatVariable]| == 0
    ensures r.Failure? ==> r.error == PatNotSet
    ensures r.Success? ==> r.value == env[PatVariable] && r.value != []
  {
    if PatVariable in env && env[PatVariable] != "" then Success(env[PatVariable]) else Failure(PatNotSet)
  }

  /** `get_repo_names_from_csv`: the `Repo` column, top to bottom. */
  function GetRepoNames(path: Option<string>, load: string -> LoadOutcome): (r: Result<seq<Cell>, CsvError>)
    ensures r.Success? <==> ReadCsvFile(path, RequiredColumns, load).Success?
    ensures r.Failure? ==> r.error == ReadCsvFile(path, RequiredColumns, load).error
    ensures r.Success? ==>
      var rows := ReadCsvFile(path, RequiredColumns, load).value.rows;
      |r.value| == |rows| && forall i :: 0 <= i < |rows| ==> r.value[i] == CellAt(rows[i], "Repo")
  {
    var frame :- ReadCsvFile(path, RequiredColumns, load);
    Success(seq(|frame.rows|, i requires 0 <= i < |frame.rows| => CellAt(frame.rows[i], "Repo")))
  }

  /** `get_code_security_config_id`: not implemented yet, so it always raises. */
  function GetCodeSecurityConfigId(pat: string, owner: string, configName: string): (r: Result<int, ScriptError>)
    ensures r.Failure? && r.error == NotImplemented
  {
    Failure(NotImplemented)
  }

  /** The script's main block: PAT, then CSV, then the configuration lookup. */
  function Run(env: map<string, string>, owner: string, configName: string, csvPath: string, load: string -> LoadOutcome): (r: Outcome<ScriptError>)
    ensures r.Fail?
    ensures r.error == PatNotSet <==> PatVariable !in env || env[PatVariable] == ""
    ensures r.error.CsvFailed? <==>
      PatVariable in env && env[PatVariable] != "" && ReadCsvFile(Some(csvPath), RequiredColumns, load).Failure?
    ensures r.error.CsvFailed? ==> r.error.csv == ReadCsvFile(Some(csvPath), RequiredColumns, load).error
  {
    match GetPat(env)
    case Failure(e) => Fail(e)
    case Success(pat) =>
      match GetRepoNames(Some(csvPath), load)
      case Failure(e) => Fail(CsvFailed(e))
      case Success(names) =>
        match GetCodeSecurityConfigId(pat, owner, configName)
        case Failure(e) => Fail(e)
        case Success(id) => Pass
  }
}
