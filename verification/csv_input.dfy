/** `read_csv_file` as both GitHub scripts write it: path validation, the
    required-column check and the mapping of pandas failures onto the
    CSVFileError hierarchy. pandas itself is a parameter: `load` says what
    `pd.read_csv` does with a given path. */
module CsvInput {
  import opened Wrappers
  import opened Text

  /** A DataFrame cell: pandas reads an empty field as NaN (`Missing`). */
  datatype Cell = Missing | Present(text: string)

  /** How an f-string renders a cell: NaN becomes "nan". */
  function Render(c: Cell): string {
    match c
    case Missing => "nan"
    case Present(s) => s
  }

  /** A row maps column names to cells; a column absent from the map reads as NaN. */
  type Row = map<string, Cell>

  datatype Frame = Frame(columns: seq<string>, rows: seq<Row>)

  /** `row[column]`. */
  function CellAt(row: Row, column: string): Cell {
    if column in row then row[column] else Missing
  }

  /** What `pd.read_csv` did with the path it was given. */
  datatype LoadOutcome =
    | Loaded(frame: Frame)
    | FileNotFound      // FileNotFoundError
    | EmptyData         // pandas.errors.EmptyDataError
    | ParserFailure     // pandas.errors.ParserError
    | OtherFailure      // any other exception

  /** The CSVFileError subclasses, without their message text. */
  datatype CsvErrorKind = NoPath | NotFound | Empty | MissingColumns | ParseFailed | Unexpected

  /** A CSVFileError: its class and its `csv_path` attribute. */
  datatype CsvError = CsvError(kind: CsvErrorKind, path: Option<string>)

  predicate HasColumns(f: Frame, required: seq<string>) {
    forall c :: c in required ==> c in f.columns
  }

  /** The path a script reads: absent or blank paths are rejected, others are stripped. */
  function UsablePath(path: Option<string>): Option<string> {
    if path.None? || Strip(path.value) == [] then None else Some(Strip(path.value))
  }

  /** `read_csv_file` with each CSVFileError subclass constructed as its
      authors evidently meant. */
  function ReadCsvFile(path: Option<string>, required: seq<string>, load: string -> LoadOutcome): (r: Result<Frame, CsvError>)
    ensures r.Failure? && r.error.kind == NoPath <==> path.None? || IsBlank(path.value)
    ensures r.Failure? && r.error.kind == NoPath ==> r.error.path == path
    ensures r.Success? <==>
      && path.Some? && !IsBlank(path.value)
      && load(Strip(path.value)).Loaded?
      && HasColumns(load(Strip(path.value)).frame, required)
    ensures r.Success? ==> load(Strip(path.value)) == Loaded(r.value)
    ensures r.Failure? && r.error.kind != NoPath ==> path.Some? && r.error.path == Some(Strip(path.value))
    ensures r.Failure? && r.error.kind == MissingColumns <==>
      && path.Some? && !IsBlank(path.value)
      && load(Strip(path.value)).Loaded?
      && !HasColumns(load(Strip(path.value)).frame, required)
    // each remaining pandas failure has its own error class
    ensures r.Failure? && r.error.kind == NotFound <==>
      path.Some? && !IsBlank(path.value) && load(Strip(path.value)) == FileNotFound
    ensures r.Failure? && r.error.kind == Empty <==>
      path.Some? && !IsBlank(path.value) && load(Strip(path.value)) == EmptyData
    ensures r.Failure? && r.error.kind == ParseFailed <==>
      path.Some? && !IsBlank(path.value) && load(Strip(path.value)) == ParserFailure
    ensures r.Failure? && r.error.kind == Unexpected <==>
      path.Some? && !IsBlank(path.value) && load(Strip(path.value)) == OtherFailure
  {
    match UsablePath(path)
    case None => Failure(CsvError(NoPath, path))
    case Some(p) =>
      match load(p)
      case Loaded(f) =>
        if HasColumns(f, required) then Success(f) else Failure(CsvError(MissingColumns, Some(p)))
      case FileNotFound => Failure(CsvError(NotFound, Some(p)))
      case EmptyData => Failure(CsvError(Empty, Some(p)))
      case ParserFailure => Failure(CsvError(ParseFailed, Some(p)))
      case OtherFailure => Failure(CsvError(Unexpected, Some(p)))
  }

  /** What `read_csv_file` raises as written: a CSVFileError, or the
      TypeError that CSVFileNotFoundError, CSVFileEmptyError and
      CSVFileParseError raise while being built, because their one-argument
      `super().__init__(message)` call leaves the base class's `message`
      parameter unfilled. */
  datatype RaisedError = CsvFileError(error: CsvError) | ConstructorTypeError

  function ReadCsvFileAsWritten(path: Option<string>, required: seq<string>, load: string -> LoadOutcome): (r: Result<Frame, RaisedError>)
    ensures r.Failure? && r.error == ConstructorTypeError <==>
      && path.Some? && !IsBlank(path.value)
      && load(Strip(path.value)) in {FileNotFound, EmptyData, ParserFailure}
  {
    match UsablePath(path)
    case None => Failure(CsvFileError(CsvError(NoPath, path)))
    case Some(p) =>
      match load(p)
      case Loaded(f) =>
        if HasColumns(f, required) then Success(f) else Failure(CsvFileError(CsvError(MissingColumns, Some(p))))
      case FileNotFound => Failure(ConstructorTypeError)
      case EmptyData => Failure(ConstructorTypeError)
      case ParserFailure => Failure(ConstructorTypeError)
      case OtherFailure => Failure(CsvFileError(CsvError(Unexpected, Some(p))))
  }

  /** The code as written differs from the corrected reading exactly on the
      missing-file, empty-file and parse-error paths, where a TypeError
      replaces the CSVFileError. */
  lemma AsWrittenDiffersOnlyInConstructedErrors(path: Option<string>, required: seq<string>, load: string -> LoadOutcome)
    ensures var fixed := ReadCsvFile(path, required, load);
      ReadCsvFileAsWritten(path, required, load) ==
        match fixed
        case Success(f) => Success(f)
        case Failure(e) =>
          if e.kind in {NotFound, Empty, ParseFailed} then Failure(ConstructorTypeError)
          else Failure(CsvFileError(e))
  {
  }

  /** `pd.read_csv` on a path that names no file. */
  function NoSuchFile(p: string): LoadOutcome {
    FileNotFound
  }

  /** A witness: any unpadded path that names no file yields a TypeError as
      written, where CSVFileNotFoundError was meant. */
  lemma MissingFileRaisesTypeError(p: string, required: seq<string>)
    requires p != [] && !IsSpace(p[0]) && !IsSpace(p[|p| - 1])
    ensures ReadCsvFileAsWritten(Some(p), required, NoSuchFile) == Failure(ConstructorTypeError)
    ensures ReadCsvFile(Some(p), required, NoSuchFile) == Failure(CsvError(NotFound, Some(p)))
  {
    StripUnpadded(p);
  }
}
