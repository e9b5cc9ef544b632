/** The resilient loader: every candidate file is read into a table or
    turned into an error entry, and the batch goes on either way. */
module Loader {
  import opened Strings
  import opened Paths
  import opened Tables
  import opened Signals

  /** The encodings `pd.read_csv` is given. */
  datatype Encoding = Cp1252 | Utf8 | Latin1

  /** The CSV fallback chain, in the order it is tried. */
  const CsvEncodings: seq<Encoding> := [Cp1252, Utf8, Latin1]

  /** How one library read ends: a table, a `UnicodeDecodeError`, or any other
      exception; a failure carries `str(e)`. */
  datatype ReadOutcome = Parsed(table: Table) | DecodeFailure(message: string) | OtherFailure(message: string)

  /** `pd.read_csv(file, encoding=...)`, given the file's name. */
  type CsvReader = (string, Encoding) -> ReadOutcome

  /** `pd.read_excel(file)`, given the file's name. */
  type ExcelReader = string -> ReadOutcome

  /** The encodings actually tried, in order, and how the last try ended. */
  datatype Attempt = Attempt(tried: seq<Encoding>, outcome: ReadOutcome)

  /** Tries the encodings in order, moving on only after a decode failure;
      the last encoding's outcome is final whatever it is. */
  function ReadWithFallback(read: CsvReader, file: string, encodings: seq<Encoding>): (r: Attempt)
    requires |encodings| > 0
    ensures 0 < |r.tried| <= |encodings| && r.tried == encodings[..|r.tried|]
    ensures r.outcome == read(file, r.tried[|r.tried| - 1])
    ensures forall j :: 0 <= j < |r.tried| - 1 ==> read(file, r.tried[j]).DecodeFailure?
    ensures |r.tried| < |encodings| ==> !r.outcome.DecodeFailure?
    decreases |encodings|
  {
    var first := read(file, encodings[0]);
    if first.DecodeFailure? && |encodings| > 1 then
      var rest := ReadWithFallback(read, file, encodings[1..]);
      Attempt([encodings[0]] + rest.tried, rest.outcome)
    else
      Attempt([encodings[0]], first)
  }

  /** The CSV chain yields a table exactly when some encoding parses the file
      and every encoding before it failed to decode; that first table is kept. */
  lemma CsvChainParses(read: CsvReader, file: string, t: Table)
    ensures ReadWithFallback(read, file, CsvEncodings).outcome == Parsed(t) <==>
      exists k :: 0 <= k < 3 && read(file, CsvEncodings[k]) == Parsed(t) &&
        forall j :: 0 <= j < k ==> read(file, CsvEncodings[j]).DecodeFailure?
  {
    var r := ReadWithFallback(read, file, CsvEncodings);
    var k := |r.tried| - 1;
    assert r.tried[k] == CsvEncodings[k];
    assert forall j :: 0 <= j < k ==> r.tried[j] == CsvEncodings[j];
    if exists k' :: 0 <= k' < 3 && read(file, CsvEncodings[k']) == Parsed(t) &&
        forall j :: 0 <= j < k' ==> read(file, CsvEncodings[j]).DecodeFailure? {
      var k' :| 0 <= k' < 3 && read(file, CsvEncodings[k']) == Parsed(t) &&
        forall j :: 0 <= j < k' ==> read(file, CsvEncodings[j]).DecodeFailure?;
      assert k' == k;
    }
  }

  /** A file that cp1252 and utf-8 cannot decode is read with latin1, and that
      read's outcome is final. */
  lemma Latin1IsLastResort(read: CsvReader, file: string)
    requires read(file, Cp1252).DecodeFailure? && read(file, Utf8).DecodeFailure?
    ensures ReadWithFallback(read, file, CsvEncodings) == Attempt(CsvEncodings, read(file, Latin1))
  {
    assert CsvEncodings[1..] == [Utf8, Latin1];
    assert [Utf8, Latin1][1..] == [Latin1];
  }

  /** What one file contributes: a table, or the entry `"<name>: <message>"`. */
  datatype FileOutcome = Loaded(table: Table) | Failed(entry: string)

  function ErrorEntry(name: string, message: string): string
  {
    name + ": " + message
  }

  /** One iteration of the loop: CSV files through the encoding chain, every
      other file through a single Excel read; any exception becomes an entry. */
  function LoadFile(readCsv: CsvReader, readExcel: ExcelReader, name: string): FileOutcome
  {
    var outcome :=
      if HasCsvSuffix(name) then ReadWithFallback(readCsv, name, CsvEncodings).outcome
      else readExcel(name);
    match outcome
    case Parsed(t) => Loaded(t)
    case DecodeFailure(m) => Failed(ErrorEntry(name, m))
    case OtherFailure(m) => Failed(ErrorEntry(name, m))
  }

  /** A CSV file is never given to the Excel reader, and any other file is read
      once by the Excel reader and never through the encoding chain. */
  lemma ReaderDispatch(csv1: CsvReader, csv2: CsvReader, excel1: ExcelReader, excel2: ExcelReader, name: string)
    ensures HasCsvSuffix(name) ==> LoadFile(csv1, excel1, name) == LoadFile(csv1, excel2, name)
    ensures !HasCsvSuffix(name) ==> LoadFile(csv1, excel1, name) == LoadFile(csv2, excel1, name)
    ensures !HasCsvSuffix(name) ==>
      LoadFile(csv1, excel1, name) ==
        match excel1(name)
        case Parsed(t) => Loaded(t)
        case DecodeFailure(m) => Failed(name + ": " + m)
        case OtherFailure(m) => Failed(name + ": " + m)
  {
  }

  /** The body of the loader loop for one file, as a function of its name. */
  function FileLoader(readCsv: CsvReader, readExcel: ExcelReader): string -> FileOutcome
  {
    name => LoadFile(readCsv, readExcel, name)
  }

  /** Each file's outcome, in file order. */
  function Outcomes(load: string -> FileOutcome, files: seq<string>): (r: seq<FileOutcome>)
    ensures |r| == |files|
    ensures forall i :: 0 <= i < |files| ==> r[i] == load(files[i])
  {
    seq(|files|, i requires 0 <= i < |files| => load(files[i]))
  }

  /** The tables of the loaded files, in file order (`dataframes`). */
  function LoadedTables(outs: seq<FileOutcome>): seq<Table>
    decreases |outs|
  {
    if outs == [] then []
    else
      var last := outs[|outs| - 1];
      LoadedTables(outs[..|outs| - 1]) + (if last.Loaded? then [last.table] else [])
  }

  /** The entries of the failed files, in file order (`read_errors`). */
  function ReadErrors(outs: seq<FileOutcome>): seq<string>
    decreases |outs|
  {
    if outs == [] then []
    else
      var last := outs[|outs| - 1];
      ReadErrors(outs[..|outs| - 1]) + (if last.Failed? then [last.entry] else [])
  }

  /** Every file lands in exactly one of the two lists. */
  lemma {:induction false} PartitionCount(outs: seq<FileOutcome>)
    ensures |LoadedTables(outs)| + |ReadErrors(outs)| == |outs|
    decreases |outs|
  {
    if outs != [] {
      PartitionCount(outs[..|outs| - 1]);
    }
  }

  /** Appending one outcome extends exactly one of the two lists. */
  lemma OutcomesSnoc(outs: seq<FileOutcome>, o: FileOutcome)
    ensures LoadedTables(outs + [o]) == LoadedTables(outs) + (if o.Loaded? then [o.table] else [])
    ensures ReadErrors(outs + [o]) == ReadErrors(outs) + (if o.Failed? then [o.entry] else [])
  {
    assert (outs + [o])[..|outs|] == outs;
  }

  /** Both lists keep file order: the outcomes of earlier files come first. */
  lemma {:induction false} OutcomesAppend(o1: seq<FileOutcome>, o2: seq<FileOutcome>)
    ensures LoadedTables(o1 + o2) == LoadedTables(o1) + LoadedTables(o2)
    ensures ReadErrors(o1 + o2) == ReadErrors(o1) + ReadErrors(o2)
    decreases |o2|
  {
    if o2 == [] {
      assert o1 + o2 == o1;
    } else {
      var init, last := o2[..|o2| - 1], o2[|o2| - 1];
      OutcomesAppend(o1, init);
      assert o2 == init + [last];
      assert o1 + o2 == (o1 + init) + [last];
      OutcomesSnoc(o1 + init, last);
      OutcomesSnoc(init, last);
    }
  }

  /** A table is loaded exactly when some file's outcome is that table. */
  lemma {:induction false} LoadedMembership(outs: seq<FileOutcome>, t: Table)
    ensures t in LoadedTables(outs) <==> exists i :: 0 <= i < |outs| && outs[i] == Loaded(t)
    decreases |outs|
  {
    if outs != [] {
      var init := outs[..|outs| - 1];
      LoadedMembership(init, t);
      assert forall i :: 0 <= i < |init| ==> init[i] == outs[i];
    }
  }

  /** Readers that only ever hand back tables pandas could hold: distinct
      column labels and a value (possibly missing) in every column of every row. */
  ghost predicate ReadersWellFormed(readCsv: CsvReader, readExcel: ExcelReader)
  {
    && (forall f, e :: readCsv(f, e).Parsed? ==> WellFormed(readCsv(f, e).table))
    && (forall f :: readExcel(f).Parsed? ==> WellFormed(readExcel(f).table))
  }

  /** A file that loads yields a table one of the readers returned. */
  lemma LoadFileWellFormed(readCsv: CsvReader, readExcel: ExcelReader, name: string)
    requires ReadersWellFormed(readCsv, readExcel)
    ensures LoadFile(readCsv, readExcel, name).Loaded? ==> WellFormed(LoadFile(readCsv, readExcel, name).table)
  {
    if HasCsvSuffix(name) {
      var a := ReadWithFallback(readCsv, name, CsvEncodings);
      assert a.outcome == readCsv(name, a.tried[|a.tried| - 1]);
    }
  }

  /** The loop keeps only tables the per-file step produced. */
  lemma LoadedTablesFrom(load: string -> FileOutcome, files: seq<string>)
    requires forall name :: load(name).Loaded? ==> WellFormed(load(name).table)
    ensures forall t :: t in LoadedTables(Outcomes(load, files)) ==> WellFormed(t)
  {
    var outs := Outcomes(load, files);
    forall t | t in LoadedTables(outs) ensures WellFormed(t) {
      LoadedMembership(outs, t);
      var i :| 0 <= i < |outs| && outs[i] == Loaded(t);
      assert load(files[i]) == Loaded(t);
    }
  }

  /** Every loaded table is well formed when the readers' tables are. */
  lemma LoadedTablesWellFormed(readCsv: CsvReader, readExcel: ExcelReader, files: seq<string>)
    requires ReadersWellFormed(readCsv, readExcel)
    ensures forall t :: t in LoadedTables(Outcomes(FileLoader(readCsv, readExcel), files)) ==> WellFormed(t)
  {
    var load := FileLoader(readCsv, readExcel);
    forall name ensures load(name).Loaded? ==> WellFormed(load(name).table) {
      LoadFileWellFormed(readCsv, readExcel, name);
    }
    LoadedTablesFrom(load, files);
  }

  /** An entry is listed exactly when some file's outcome is that entry. */
  lemma {:induction false} ErrorMembership(outs: seq<FileOutcome>, e: string)
    ensures e in ReadErrors(outs) <==> exists i :: 0 <= i < |outs| && outs[i] == Failed(e)
    decreases |outs|
  {
    if outs != [] {
      var init := outs[..|outs| - 1];
      ErrorMembership(init, e);
      assert forall i :: 0 <= i < |init| ==> init[i] == outs[i];
    }
  }

  /** The progress notifications for a batch of `n` files: one per file,
      carrying how many have been processed and the total. */
  function ProgressEvents(n: nat): (r: seq<Event>)
    ensures |r| == n
    ensures forall i :: 0 <= i < n ==> r[i] == Progress(i + 1, n)
  {
    seq(n, i requires 0 <= i < n => Progress(i + 1, n))
  }

  /** The loader loop: `load` is tried on each file in turn, its table or its
      entry is appended, and one progress notification is queued per file. */
  method LoadAll(load: string -> FileOutcome, files: seq<string>)
    returns (dataframes: seq<Table>, readErrors: seq<string>, progress: seq<Event>)
    ensures dataframes == LoadedTables(Outcomes(load, files))
    ensures readErrors == ReadErrors(Outcomes(load, files))
    ensures |dataframes| + |readErrors| == |files|
    ensures progress == ProgressEvents(|files|)
  {
    ghost var outs := Outcomes(load, files);
    dataframes, readErrors, progress := [], [], [];
    for i := 0 to |files|
      invariant dataframes == LoadedTables(outs[..i])
      invariant readErrors == ReadErrors(outs[..i])
      invariant |progress| == i
      invariant forall j :: 0 <= j < i ==> progress[j] == Progress(j + 1, |files|)
    {
      var outcome := load(files[i]);
      assert outs[..i + 1] == outs[..i] + [outcome];
      OutcomesSnoc(outs[..i], outcome);
      if outcome.Loaded? {
        dataframes := dataframes + [outcome.table];
      } else {
        readErrors := readErrors + [outcome.entry];
      }
      progress := progress + [Progress(i + 1, |files|)];
    }
    assert outs[..|files|] == outs;
    PartitionCount(outs);
  }
}
