/**
 * `process_json_tweets_data`: for each batch file found by the glob, in the glob's order, load
 * the records, score them, keep the scored ones and write them to the batch's Parquet file.
 */
module TweetIngestion {
  import opened Wrappers
  import opened Cells
  import opened Scoring
  import opened Naming

  /**
   * A path the glob returned, with what `json.load` made of it; `None` when opening or parsing
   * the file raises.
   */
  datatype BatchFile = BatchFile(path: string, content: Option<seq<Object>>)

  /** The Parquet output directory: each written path with the rows written to it. */
  type ParquetDir = map<string, seq<Object>>

  /** What a run leaves behind, and the file whose load raised, if one did. */
  datatype Run = Run(written: ParquetDir, failedAt: Option<string>)

  /**
   * The run as a function: files are handled in order, each write replaces any earlier file of
   * the same name, and the first file that fails to load aborts the run (nothing catches the
   * exception) with the files before it already written. `name` gives the output path of an
   * input path; the program uses `OutputPath`.
   */
  function Ingest(files: seq<BatchFile>, score: Value -> real, dir: ParquetDir, name: string -> string := OutputPath): (r: Run)
    ensures dir.Keys <= r.written.Keys
    ensures r.failedAt.None? <==> forall i :: 0 <= i < |files| ==> files[i].content.Some?
  {
    if files == [] then Run(dir, None)
    else match files[0].content
      case None => Run(dir, Some(files[0].path))
      case Some(tweets) =>
        Ingest(files[1..], score, dir[name(files[0].path) := ScoreBatch(tweets, score)], name)
  }

  /** How many files, from the first, load successfully. */
  function LoadedPrefix(files: seq<BatchFile>): (n: nat)
    ensures n <= |files|
    ensures forall i :: 0 <= i < n ==> files[i].content.Some?
    ensures n < |files| ==> files[n].content.None?
  {
    if files == [] || files[0].content.None? then 0 else 1 + LoadedPrefix(files[1..])
  }

  /** The loop of `process_json_tweets_data`, writing into `dir`. */
  method ProcessJsonTweets(files: seq<BatchFile>, score: Value -> real, dir: ParquetDir) returns (run: Run)
    ensures run == Ingest(files, score, dir)
  {
    var written := dir;
    var i := 0;
    while i < |files|
      invariant 0 <= i <= |files|
      invariant Ingest(files[i..], score, written) == Ingest(files, score, dir)
    {
      assert files[i..][1..] == files[i + 1..];
      var current := files[i];
      if current.content.None? {
        return Run(written, Some(current.path));
      }
      var analyzed := AnalyzeAll(current.content.value, score);
      var kept := DropNone(analyzed);
      written := written[OutputPath(current.path) := kept];
      i := i + 1;
    }
    return Run(written, None);
  }

  /** The run fails exactly at the first file that does not load. */
  lemma {:induction false} IngestFailure(files: seq<BatchFile>, score: Value -> real, dir: ParquetDir, name: string -> string)
    ensures Ingest(files, score, dir, name).failedAt ==
      (if LoadedPrefix(files) == |files| then None else Some(files[LoadedPrefix(files)].path))
  {
    if files != [] && files[0].content.Some? {
      IngestFailure(files[1..], score, dir[name(files[0].path) := ScoreBatch(files[0].content.value, score)], name);
    }
  }

  /** A run fails only when some file does not load. */
  lemma IngestFailsIffUnloadable(files: seq<BatchFile>, score: Value -> real, dir: ParquetDir)
    ensures Ingest(files, score, dir).failedAt.Some? <==> exists i :: 0 <= i < |files| && files[i].content.None?
  {
    IngestFailure(files, score, dir, OutputPath);
  }

  /** The output paths of the files that load, up to the first that does not. */
  function LoadedOutputs(files: seq<BatchFile>, name: string -> string): set<string> {
    set i | 0 <= i < LoadedPrefix(files) :: name(files[i].path)
  }

  /** The paths present afterwards: the old ones and the outputs of the files that loaded. */
  lemma {:induction false} IngestPaths(files: seq<BatchFile>, score: Value -> real, dir: ParquetDir, name: string -> string)
    ensures Ingest(files, score, dir, name).written.Keys == dir.Keys + LoadedOutputs(files, name)
  {
    if files != [] && files[0].content.Some? {
      var rest := files[1..];
      var out0 := name(files[0].path);
      IngestPaths(rest, score, dir[out0 := ScoreBatch(files[0].content.value, score)], name);
      var n := LoadedPrefix(files);
      assert n == LoadedPrefix(rest) + 1;
      forall p | p in LoadedOutputs(rest, name) ensures p in LoadedOutputs(files, name) {
        var i :| 0 <= i < n - 1 && name(rest[i].path) == p;
        assert rest[i] == files[i + 1];
      }
      forall p | p in LoadedOutputs(files, name) ensures p == out0 || p in LoadedOutputs(rest, name) {
        var i :| 0 <= i < n && name(files[i].path) == p;
        if i > 0 { assert rest[i - 1] == files[i]; }
      }
      assert out0 in LoadedOutputs(files, name);
    }
  }

  /** A path no loaded file maps to keeps what it held. */
  lemma {:induction false} IngestUntouched(files: seq<BatchFile>, score: Value -> real, dir: ParquetDir, name: string -> string, p: string)
    requires p in dir
    requires forall i :: 0 <= i < LoadedPrefix(files) ==> name(files[i].path) != p
    ensures p in Ingest(files, score, dir, name).written && Ingest(files, score, dir, name).written[p] == dir[p]
  {
    if files != [] && files[0].content.Some? {
      var rest := files[1..];
      assert forall i :: 0 <= i < LoadedPrefix(rest) ==> rest[i] == files[i + 1];
      IngestUntouched(rest, score, dir[name(files[0].path) := ScoreBatch(files[0].content.value, score)], name, p);
    }
  }

  /**
   * Each loaded file's output holds its own scored batch, unless a later loaded file maps to
   * the same path.
   */
  lemma {:induction false} IngestContents(files: seq<BatchFile>, score: Value -> real, dir: ParquetDir, name: string -> string, i: nat)
    requires i < LoadedPrefix(files)
    requires forall j :: i < j < LoadedPrefix(files) ==> name(files[j].path) != name(files[i].path)
    ensures name(files[i].path) in Ingest(files, score, dir, name).written
    ensures Ingest(files, score, dir, name).written[name(files[i].path)] == ScoreBatch(files[i].content.value, score)
  {
    var rest := files[1..];
    var out0 := name(files[0].path);
    var dir' := dir[out0 := ScoreBatch(files[0].content.value, score)];
    assert forall j :: 0 <= j < LoadedPrefix(rest) ==> rest[j] == files[j + 1];
    if i > 0 {
      IngestContents(rest, score, dir', name, i - 1);
    } else {
      IngestUntouched(rest, score, dir', name, out0);
    }
  }

  /**
   * What a run of the program writes: the outputs of the loaded files are added to the
   * directory, and a batch file whose output path no later loaded file shares ends up holding
   * that batch's scored records.
   */
  lemma ProcessedBatchWritten(files: seq<BatchFile>, score: Value -> real, dir: ParquetDir, i: nat)
    requires i < LoadedPrefix(files)
    requires forall j :: i < j < LoadedPrefix(files) ==> OutputPath(files[j].path) != OutputPath(files[i].path)
    ensures Ingest(files, score, dir).written.Keys == dir.Keys + LoadedOutputs(files, OutputPath)
    ensures Ingest(files, score, dir).written[OutputPath(files[i].path)] == ScoreBatch(files[i].content.value, score)
  {
    IngestPaths(files, score, dir, OutputPath);
    IngestContents(files, score, dir, OutputPath, i);
  }
}
