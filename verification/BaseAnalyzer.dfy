// The bookkeeping every file-based analyzer inherits
// (src/claude-code-analyzer/shared/base_analyzer.py): the error log, the
// file and record counters that `process_file` keeps, and the rule that
// decides when progress is shown. Reading a file is outside the model: its
// outcome is a parameter, and the clock's time stamp is one too. The
// structure-preserving `truncate_value` is `TruncateStructure` in
// ValueTruncation.

module BaseAnalysis {
  import opened JsonModel
  import CliFieldTypes

  /** One entry of `errors`. */
  datatype ErrorInfo = ErrorInfo(timestamp: string, error: string, filePath: CliFieldTypes.Option<string>)

  /** What `load_json_file` meets: the values of a JSON Lines file, the one
      value of a JSON file, or the message of the exception it caught. */
  datatype LoadOutcome = LinesRead(lines: seq<Json>) | DocumentRead(data: Json) | LoadFailed(message: string)

  /** What `load_json_file` returns: a list of records, or a value that is
      not a list and cannot be iterated. */
  datatype Loaded = Records(records: seq<Json>) | NotIterable(value: Json)

  /** A string iterated in a `for` loop: one one-character string per character. */
  function Characters(s: string): (r: seq<Json>)
    ensures |r| == |s| && forall i :: 0 <= i < |s| ==> r[i] == Str([s[i]])
  {
    seq(|s|, i requires 0 <= i < |s| => Str([s[i]]))
  }

  /** `load_json_file`: a JSON file holding an object is one record, a failed
      load is an empty list, and anything else is returned as it is. */
  function LoadJson(load: LoadOutcome): (r: Loaded)
    ensures load.LinesRead? ==> r == Records(load.lines)
    ensures load.LoadFailed? ==> r == Records([])
    ensures load.DocumentRead? && load.data.Obj? ==> r == Records([load.data])
    ensures load.DocumentRead? && load.data.Arr? ==> r == Records(load.data.elems)
    ensures load.DocumentRead? && load.data.Str? ==> r == Records(Characters(load.data.s))
    ensures r.NotIterable? <==> load.DocumentRead? && (load.data.Null? || load.data.Bool? || load.data.Int? || load.data.Float?)
    ensures r.NotIterable? ==> r.value == load.data
  {
    match load
    case LinesRead(lines) => Records(lines)
    case LoadFailed(_) => Records([])
    case DocumentRead(data) =>
      match data
      case Obj(_) => Records([data])
      case Arr(elems) => Records(elems)
      case Str(s) => Records(Characters(s))
      case _ => NotIterable(data)
  }

  /** The error message `load_json_file` logs. */
  function LoadErrorText(message: string): string {
    "读取文件失败: " + message
  }

  /** Python's name for the type of a value that is not iterable. */
  function TypeName(v: Json): string {
    match v
    case Null => "NoneType"
    case Bool(_) => "bool"
    case Int(_) => "int"
    case Float(_) => "float"
    case Str(_) => "str"
    case Arr(_) => "list"
    case Obj(_) => "dict"
  }

  /** The error message `process_file` logs when iterating the loaded value
      raises Python's `TypeError`. */
  function ProcessErrorText(v: Json): string {
    "处理文件失败: '" + TypeName(v) + "' object is not iterable"
  }

  /** The errors one file adds: a failed load, or a loaded value that cannot
      be iterated, logs one entry; nothing else does. */
  function FileErrors(filePath: string, load: LoadOutcome, timestamp: string): (r: seq<ErrorInfo>)
    ensures |r| <= 1
    ensures |r| == 1 <==> load.LoadFailed? || LoadJson(load).NotIterable?
    ensures forall e :: e in r ==> e.filePath == CliFieldTypes.Some(filePath) && e.timestamp == timestamp
  {
    if load.LoadFailed? then [ErrorInfo(timestamp, LoadErrorText(load.message), CliFieldTypes.Some(filePath))]
    else if LoadJson(load).NotIterable? then [ErrorInfo(timestamp, ProcessErrorText(load.data), CliFieldTypes.Some(filePath))]
    else []
  }

  /** The number `process_file` returns: the records iterated, or 0 when the
      loaded value could not be iterated. */
  function FileRecordCount(load: LoadOutcome): (n: nat)
    ensures load.LoadFailed? ==> n == 0
    ensures load.DocumentRead? && load.data.Obj? ==> n == 1
    ensures load.DocumentRead? && load.data.Str? ==> n == |load.data.s|
    ensures LoadJson(load).NotIterable? ==> n == 0
  {
    match LoadJson(load)
    case Records(rs) => |rs|
    case NotIterable(_) => 0
  }

  /** `show_progress` prints when the item count is a multiple of ten or the last one. */
  predicate ShowsProgress(current: int, total: int) {
    current % 10 == 0 || current == total
  }

  /** Counting items 1 to `total`, progress is shown for the last item and
      at most ten items after any item. */
  lemma ProgressGaps(current: nat, total: nat)
    requires 1 <= current <= total
    ensures ShowsProgress(total, total)
    ensures exists next :: current <= next <= total && next < current + 10 && ShowsProgress(next, total)
  {
    var next := if current + (10 - current % 10) % 10 <= total then current + (10 - current % 10) % 10 else total;
    assert ShowsProgress(next, total);
  }

  class FileBasedAnalyzer {
    const name: string
    const version: string
    var processedFiles: nat
    var processedRecords: nat
    var errors: seq<ErrorInfo>

    constructor (name: string, version: string)
      ensures this.name == name && this.version == version
      ensures processedFiles == 0 && processedRecords == 0 && errors == []
    {
      this.name := name;
      this.version := version;
      processedFiles, processedRecords, errors := 0, 0, [];
    }

    /** `log_error`: one entry more, nothing else changes. */
    method LogError(error: string, filePath: CliFieldTypes.Option<string>, timestamp: string)
      modifies this
      ensures errors == old(errors) + [ErrorInfo(timestamp, error, filePath)]
      ensures processedFiles == old(processedFiles) && processedRecords == old(processedRecords)
    {
      errors := errors + [ErrorInfo(timestamp, error, filePath)];
    }

    /** `load_json_file`: the value loaded, with an error logged when the file
        could not be read. */
    method LoadJsonFile(filePath: string, load: LoadOutcome, timestamp: string) returns (loaded: Loaded)
      modifies this
      ensures loaded == LoadJson(load)
      ensures errors == old(errors) + (if load.LoadFailed?
                                       then [ErrorInfo(timestamp, LoadErrorText(load.message), CliFieldTypes.Some(filePath))]
                                       else [])
      ensures processedFiles == old(processedFiles) && processedRecords == old(processedRecords)
    {
      match load
      case LoadFailed(message) =>
        LogError(LoadErrorText(message), CliFieldTypes.Some(filePath), timestamp);
        loaded := Records([]);
      case LinesRead(lines) =>
        loaded := Records(lines);
      case DocumentRead(data) =>
        if data.Obj? {
          loaded := Records([data]);
        } else if data.Arr? {
          loaded := Records(data.elems);
        } else if data.Str? {
          loaded := Records(Characters(data.s));
        } else {
          loaded := NotIterable(data);
        }
    }

    /** `process_file`: one file more, whatever the outcome; one record more
        per record iterated; and the error of a failed load, or of a loaded
        value that cannot be iterated, logged. The per-record hook belongs to
        the subclasses and is not modelled. */
    method ProcessFile(filePath: string, load: LoadOutcome, timestamp: string) returns (count: nat)
      modifies this
      ensures count == FileRecordCount(load)
      ensures processedFiles == old(processedFiles) + 1
      ensures processedRecords == old(processedRecords) + count
      ensures errors == old(errors) + FileErrors(filePath, load, timestamp)
    {
      var loaded := LoadJsonFile(filePath, load, timestamp);
      processedFiles := processedFiles + 1;
      match loaded
      case NotIterable(v) =>
        LogError(ProcessErrorText(v), CliFieldTypes.Some(filePath), timestamp);
        count := 0;
      case Records(records) =>
        for i := 0 to |records|
          invariant processedRecords == old(processedRecords) + i
          invariant processedFiles == old(processedFiles) + 1
          invariant errors == old(errors) + FileErrors(filePath, load, timestamp)
        {
          processedRecords := processedRecords + 1;
        }
        count := |records|;
    }
  }
}
