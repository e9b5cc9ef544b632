/** The whole batch job `fusion_excel(input_folder, output_file, mode)`:
    discovery, loading, error aggregation, fusion and output. */
module Pipeline {
  import opened Wrappers
  import opened Strings
  import opened Tables
  import opened Signals
  import opened Discovery
  import opened Loader
  import opened Report
  import opened Combiner
  import opened Writer

  datatype Config = Config(inputFolder: string, outputFile: string, mode: string)

  /** The library calls the job makes, as given functions. */
  datatype Library = Library(readCsv: CsvReader, readExcel: ExcelReader, outerJoin: OuterJoin, write: TableWriter)

  /** The job's end (the table written, or the error raised) and the
      notifications it queued on the way. */
  datatype RunResult = RunResult(outcome: Result<Table, FusionError>, events: seq<Event>)

  /** The notification for the skipped-files warning, if any. */
  function WarningEvents(readErrors: seq<string>): (r: seq<Event>)
    ensures readErrors == [] ==> r == []
    ensures readErrors != [] ==> |r| == 1 && r[0].Warning?
  {
    match SkippedWarning(readErrors)
    case None => []
    case Some(text) => [Warning(text)]
  }

  /** What one run does, stage by stage. */
  function Run(config: Config, listing: Listing, lib: Library): RunResult
  {
    match Discover(config.inputFolder, listing)
    case Err(e) => RunResult(Err(e), [])
    case Ok(files) =>
      var outs := Outcomes(FileLoader(lib.readCsv, lib.readExcel), files);
      AfterLoading(config, lib, LoadedTables(outs), ReadErrors(outs), ProgressEvents(|files|))
  }

  /** Error aggregation and fusion, once every file has been tried. */
  function AfterLoading(config: Config, lib: Library, dataframes: seq<Table>, readErrors: seq<string>,
                        progress: seq<Event>): (r: RunResult)
    ensures dataframes == [] ==> r.events == progress
    ensures dataframes != [] ==>
      var loaded := progress + WarningEvents(readErrors);
      r.events == loaded || r.events == loaded + [Completed(config.outputFile)]
    ensures (r.outcome.Err? && r.outcome.error.MergeFailed?) <==>
      dataframes != [] && config.mode == "merge" && MergeAll(lib.outerJoin, dataframes).Err?
  {
    if dataframes == [] then
      RunResult(Err(Runtime(NoFilesReadMessage(config.inputFolder, readErrors))), progress)
    else
      var loaded := progress + WarningEvents(readErrors);
      match ParseMode(config.mode)
      case None => RunResult(Err(UnboundFusion), loaded)
      case Some(mode) =>
        match Fuse(mode, lib.outerJoin, dataframes)
        case Err(m) => RunResult(Err(MergeFailed(m)), loaded)
        case Ok(fusion) => Output(config, lib, fusion, loaded)
  }

  /** Writing the fused table and translating what the writer raises. */
  function Output(config: Config, lib: Library, fusion: Table, events: seq<Event>): (r: RunResult)
    ensures r.outcome.Ok? <==> lib.write(RequestFor(config.outputFile, fusion)) == Written
    ensures r.outcome.Ok? ==> r.outcome.value == fusion
    ensures r.outcome.Err? ==> WriteError(config.outputFile, lib.write(RequestFor(config.outputFile, fusion))) == Some(r.outcome.error)
    ensures r.events == if r.outcome.Ok? then events + [Completed(config.outputFile)] else events
  {
    match WriteError(config.outputFile, lib.write(RequestFor(config.outputFile, fusion)))
    case Some(e) => RunResult(Err(e), events)
    case None => RunResult(Ok(fusion), events + [Completed(config.outputFile)])
  }

  /** The job itself. */
  method FusionExcel(config: Config, listing: Listing, lib: Library)
    returns (outcome: Result<Table, FusionError>, events: seq<Event>)
    ensures RunResult(outcome, events) == Run(config, listing, lib)
  {
    var discovered := Discover(config.inputFolder, listing);
    if discovered.Err? {
      return Err(discovered.error), [];
    }
    var files := discovered.value;
    var dataframes, readErrors;
    dataframes, readErrors, events := LoadAll(FileLoader(lib.readCsv, lib.readExcel), files);
    assert Run(config, listing, lib) == AfterLoading(config, lib, dataframes, readErrors, events);
    if dataframes == [] {
      return Err(Runtime(NoFilesReadMessage(config.inputFolder, readErrors))), events;
    }
    if readErrors != [] {
      events := events + [Warning(WarningText(readErrors))];
    } else {
      assert events + WarningEvents(readErrors) == events;
    }
    var fusion;
    if config.mode == "concat" {
      fusion := ConcatAll(dataframes);
    } else if config.mode == "merge" {
      var merged := MergeTables(lib.outerJoin, dataframes);
      if merged.Err? {
        return Err(MergeFailed(merged.error)), events;
      }
      fusion := merged.value;
    } else {
      return Err(UnboundFusion), events;
    }
    assert Run(config, listing, lib) == Output(config, lib, fusion, events);
    var written := lib.write(RequestFor(config.outputFile, fusion));
    var failure := WriteError(config.outputFile, written);
    if failure.Some? {
      return Err(failure.value), events;
    }
    events := events + [Completed(config.outputFile)];
    outcome := Ok(fusion);
  }

  /** When nothing loads, every candidate file has an entry in the
      RuntimeError's details, so the "No readable files." text never appears. */
  lemma TotalFailureListsEveryFile(config: Config, listing: Listing, lib: Library)
    requires Discover(config.inputFolder, listing).Ok?
    requires LoadedTables(Outcomes(FileLoader(lib.readCsv, lib.readExcel), Discover(config.inputFolder, listing).value)) == []
    ensures var files := Discover(config.inputFolder, listing).value;
      var readErrors := ReadErrors(Outcomes(FileLoader(lib.readCsv, lib.readExcel), files));
      |readErrors| == |files| > 0 &&
      Run(config, listing, lib).outcome ==
        Err(Runtime("No files could be read successfully from '" + config.inputFolder + "'. Details: "
          + Join("\n", readErrors)))
  {
    var files := Discover(config.inputFolder, listing).value;
    PartitionCount(Outcomes(FileLoader(lib.readCsv, lib.readExcel), files));
  }

  /** A run that gets past discovery queues one progress notification per
      candidate file, in order, before anything else. */
  lemma ProgressPerFile(config: Config, listing: Listing, lib: Library)
    requires Discover(config.inputFolder, listing).Ok?
    ensures var n := |Discover(config.inputFolder, listing).value|;
      var events := Run(config, listing, lib).events;
      n <= |events| && forall i :: 0 <= i < n ==> events[i] == Progress(i + 1, n)
  {
    var files := Discover(config.inputFolder, listing).value;
    var outs := Outcomes(FileLoader(lib.readCsv, lib.readExcel), files);
    var progress := ProgressEvents(|files|);
    AfterLoadingKeepsProgress(config, lib, LoadedTables(outs), ReadErrors(outs), progress);
    var events := Run(config, listing, lib).events;
    assert events == AfterLoading(config, lib, LoadedTables(outs), ReadErrors(outs), progress).events;
    forall i | 0 <= i < |files| ensures events[i] == Progress(i + 1, |files|) {
      assert events[i] == events[..|progress|][i] == progress[i];
    }
  }

  /** Whatever happens after loading, the notifications queued so far stay first. */
  lemma AfterLoadingKeepsProgress(config: Config, lib: Library, dataframes: seq<Table>, readErrors: seq<string>,
                                  progress: seq<Event>)
    ensures var events := AfterLoading(config, lib, dataframes, readErrors, progress).events;
      |progress| <= |events| && events[..|progress|] == progress
  {
    if dataframes != [] {
      var loaded := progress + WarningEvents(readErrors);
      assert loaded[..|progress|] == progress;
      assert (loaded + [Completed(config.outputFile)])[..|progress|] == progress;
    }
  }

  /** The skipped-files warning is queued exactly when some files loaded and
      some did not. */
  lemma WarningIffPartialFailure(config: Config, listing: Listing, lib: Library)
    ensures var events := Run(config, listing, lib).events;
      (exists i :: 0 <= i < |events| && events[i].Warning?) <==>
      (Discover(config.inputFolder, listing).Ok? &&
       var outs := Outcomes(FileLoader(lib.readCsv, lib.readExcel), Discover(config.inputFolder, listing).value);
       LoadedTables(outs) != [] && ReadErrors(outs) != [])
  {
    match Discover(config.inputFolder, listing)
    case Err(_) =>
    case Ok(files) =>
      var outs := Outcomes(FileLoader(lib.readCsv, lib.readExcel), files);
      AfterLoadingWarning(config, lib, LoadedTables(outs), ReadErrors(outs), ProgressEvents(|files|));
  }

  lemma AfterLoadingWarning(config: Config, lib: Library, dataframes: seq<Table>, readErrors: seq<string>,
                            progress: seq<Event>)
    requires forall i :: 0 <= i < |progress| ==> progress[i].Progress?
    ensures var events := AfterLoading(config, lib, dataframes, readErrors, progress).events;
      (exists i :: 0 <= i < |events| && events[i].Warning?) <==> dataframes != [] && readErrors != []
  {
    var events := AfterLoading(config, lib, dataframes, readErrors, progress).events;
    if dataframes == [] {
      assert forall i :: 0 <= i < |events| ==> events[i] == progress[i];
    } else {
      var loaded := progress + WarningEvents(readErrors);
      assert events[..|loaded|] == loaded;
      assert forall i :: 0 <= i < |events| ==> (events[i].Warning? <==> readErrors != [] && i == |progress|) by {
        forall i | 0 <= i < |events|
          ensures events[i].Warning? <==> readErrors != [] && i == |progress|
        {
          if i < |loaded| {
            assert events[i] == loaded[i];
          } else {
            assert events[i] == Completed(config.outputFile);
          }
        }
      }
      if readErrors != [] {
        assert events[|progress|].Warning?;
      }
    }
  }

  /** A successful run wrote the fused table once, without an index, with the
      writer the output suffix selects, and ended by reporting completion. */
  lemma SuccessfulRun(config: Config, listing: Listing, lib: Library)
    requires Run(config, listing, lib).outcome.Ok?
    ensures Discover(config.inputFolder, listing).Ok?
    ensures var files := Discover(config.inputFolder, listing).value;
      var dataframes := LoadedTables(Outcomes(FileLoader(lib.readCsv, lib.readExcel), files));
      var fusion := Run(config, listing, lib).outcome.value;
      && dataframes != []
      && ParseMode(config.mode).Some?
      && Fuse(ParseMode(config.mode).value, lib.outerJoin, dataframes) == Ok(fusion)
      && lib.write(WriteRequest(config.outputFile, FormatFor(config.outputFile), fusion, false)) == Written
    ensures var events := Run(config, listing, lib).events;
      |events| > 0 && events[|events| - 1] == Completed(config.outputFile)
  {
    var files := Discover(config.inputFolder, listing).value;
    var dataframes := LoadedTables(Outcomes(FileLoader(lib.readCsv, lib.readExcel), files));
    var fusion := Fuse(ParseMode(config.mode).value, lib.outerJoin, dataframes).value;
    WriteErrorKinds(config.outputFile, lib.write(RequestFor(config.outputFile, fusion)));
  }

  /** A mode other than "concat" or "merge" fails only after every file was
      read and the warning (if any) was queued, and nothing is written. */
  lemma UnknownModeFailsAfterLoading(config: Config, listing: Listing, lib: Library)
    requires ParseMode(config.mode).None?
    ensures Run(config, listing, lib).outcome.Err?
    ensures var e := Run(config, listing, lib).outcome.error;
      e.UnboundFusion? <==>
      (Discover(config.inputFolder, listing).Ok? &&
       LoadedTables(Outcomes(FileLoader(lib.readCsv, lib.readExcel), Discover(config.inputFolder, listing).value)) != [])
  {
  }

  /** A merge whose join raises ends the run with that exception, after the
      progress notifications and the optional warning; the writer is never
      consulted and no completion is reported. */
  lemma AfterLoadingMergeFailure(config: Config, lib: Library, dataframes: seq<Table>, readErrors: seq<string>,
                                 progress: seq<Event>, w: TableWriter)
    requires dataframes != [] && config.mode == "merge" && MergeAll(lib.outerJoin, dataframes).Err?
    requires forall i :: 0 <= i < |progress| ==> progress[i].Progress?
    ensures AfterLoading(config, lib, dataframes, readErrors, progress) ==
      RunResult(Err(MergeFailed(MergeAll(lib.outerJoin, dataframes).error)), progress + WarningEvents(readErrors))
    ensures AfterLoading(config, lib.(write := w), dataframes, readErrors, progress) ==
      AfterLoading(config, lib, dataframes, readErrors, progress)
    ensures var events := AfterLoading(config, lib, dataframes, readErrors, progress).events;
      forall i :: 0 <= i < |events| ==> !events[i].Completed?
  {
    var events := progress + WarningEvents(readErrors);
    forall i | 0 <= i < |events| ensures !events[i].Completed? {
      if i >= |progress| {
        assert events[i] == WarningEvents(readErrors)[i - |progress|];
      }
    }
  }

  /** The run ends with the exception of `pd.merge` exactly when the mode is
      "merge", some table loaded and one of the joins raised; such a run never
      writes (its result is the same whatever the writer does) and never
      reports completion. */
  lemma MergeFailureEndsRun(config: Config, listing: Listing, lib: Library, w: TableWriter)
    ensures var r := Run(config, listing, lib);
      (r.outcome.Err? && r.outcome.error.MergeFailed?) <==>
      (config.mode == "merge" && Discover(config.inputFolder, listing).Ok? &&
       var dataframes := LoadedTables(Outcomes(FileLoader(lib.readCsv, lib.readExcel), Discover(config.inputFolder, listing).value));
       dataframes != [] && MergeAll(lib.outerJoin, dataframes).Err?)
    ensures var r := Run(config, listing, lib);
      r.outcome.Err? && r.outcome.error.MergeFailed? ==>
      && Run(config, listing, lib.(write := w)) == r
      && forall i :: 0 <= i < |r.events| ==> !r.events[i].Completed?
  {
    match Discover(config.inputFolder, listing)
    case Err(_) =>
    case Ok(files) =>
      var outs := Outcomes(FileLoader(lib.readCsv, lib.readExcel), files);
      var dataframes, readErrors, progress := LoadedTables(outs), ReadErrors(outs), ProgressEvents(|files|);
      assert Run(config, listing, lib) == AfterLoading(config, lib, dataframes, readErrors, progress);
      if dataframes != [] && config.mode == "merge" && MergeAll(lib.outerJoin, dataframes).Err? {
        assert Run(config, listing, lib.(write := w)) == AfterLoading(config, lib.(write := w), dataframes, readErrors, progress);
        AfterLoadingMergeFailure(config, lib, dataframes, readErrors, progress, w);
      }
  }

  /** With a single loaded table (and readers that return well-formed tables),
      "concat" and "merge" make the same run: same result, same write, same
      notifications. */
  lemma SingleTableModesAgree(config: Config, listing: Listing, lib: Library)
    requires ReadersWellFormed(lib.readCsv, lib.readExcel)
    requires Discover(config.inputFolder, listing).Ok?
    requires |LoadedTables(Outcomes(FileLoader(lib.readCsv, lib.readExcel), Discover(config.inputFolder, listing).value))| == 1
    ensures Run(config.(mode := "concat"), listing, lib) == Run(config.(mode := "merge"), listing, lib)
  {
    var files := Discover(config.inputFolder, listing).value;
    var outs := Outcomes(FileLoader(lib.readCsv, lib.readExcel), files);
    var t := LoadedTables(outs)[0];
    LoadedTablesWellFormed(lib.readCsv, lib.readExcel, files);
    assert LoadedTables(outs) == [t];
    SingleTableFusion(lib.outerJoin, t);
    var concat, merge := config.(mode := "concat"), config.(mode := "merge");
    var readErrors, progress := ReadErrors(outs), ProgressEvents(|files|);
    assert Run(concat, listing, lib) == AfterLoading(concat, lib, [t], readErrors, progress);
    assert Run(merge, listing, lib) == AfterLoading(merge, lib, [t], readErrors, progress);
    var loaded := progress + WarningEvents(readErrors);
    assert AfterLoading(concat, lib, [t], readErrors, progress) == Output(concat, lib, t, loaded);
    assert AfterLoading(merge, lib, [t], readErrors, progress) == Output(merge, lib, t, loaded);
  }
}
