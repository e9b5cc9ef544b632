/** The output stage: choosing the writer from the output file's suffix and
    translating what the writer raises. */
module Writer {
  import opened Wrappers
  import opened Strings
  import opened Paths
  import opened Tables
  import opened Signals

  datatype Format = CsvFormat | ExcelFormat

  /** One call of `fusion.to_csv(path, index=...)` or `fusion.to_excel(path, index=...)`. */
  datatype WriteRequest = WriteRequest(path: string, format: Format, table: Table, index: bool)

  /** How the write ends: done, a `ModuleNotFoundError`, or any other exception;
      a failure carries `str(e)`. */
  datatype WriteOutcome = Written | ModuleMissing(message: string) | WriteFailure(message: string)

  /** The library call that serialises a table, left abstract. */
  type TableWriter = WriteRequest -> WriteOutcome

  function FormatFor(outputFile: string): Format
  {
    if HasCsvSuffix(BaseName(outputFile)) then CsvFormat else ExcelFormat
  }

  /** The writer is the CSV one exactly when the output file's name is longer
      than ".csv" and ends with ".csv" in any letter case. */
  lemma FormatForCsv(outputFile: string)
    ensures var name := BaseName(outputFile);
      FormatFor(outputFile) == CsvFormat <==> |name| > 4 && Lower(name[|name| - 4..]) == ".csv"
  {
    CsvSuffixCharacterised(BaseName(outputFile));
  }

  /** The single write the pipeline makes: no index column, in either format. */
  function RequestFor(outputFile: string, fusion: Table): (r: WriteRequest)
    ensures !r.index && r.path == outputFile && r.table == fusion
  {
    WriteRequest(outputFile, FormatFor(outputFile), fusion, false)
  }

  const OpenpyxlMessage: string :=
    "The 'openpyxl' module is required to write Excel files. Please install it using 'pip install openpyxl'."

  /** The error `fusion_excel` raises for a write outcome, if any. */
  function WriteError(outputFile: string, outcome: WriteOutcome): Option<FusionError>
  {
    match outcome
    case Written => None
    case ModuleMissing(m) =>
      if Contains(m, "openpyxl") then Some(ModuleNotFound(OpenpyxlMessage)) else Some(ModuleNotFound(m))
    case WriteFailure(m) =>
      Some(Runtime("An error occurred while writing to '" + outputFile + "': " + m))
  }

  /** Error-kind mapping: a missing module stays a ModuleNotFoundError (with
      the install hint when it is openpyxl), every other failure becomes a
      RuntimeError naming the output file and quoting the cause. */
  lemma WriteErrorKinds(outputFile: string, outcome: WriteOutcome)
    ensures WriteError(outputFile, outcome).None? <==> outcome.Written?
    ensures outcome.ModuleMissing? ==>
      WriteError(outputFile, outcome) ==
        Some(ModuleNotFound(if Contains(outcome.message, "openpyxl") then OpenpyxlMessage else outcome.message))
    ensures outcome.WriteFailure? ==>
      var e := WriteError(outputFile, outcome);
      e.Some? && e.value.Runtime? &&
      Contains(e.value.message, outputFile) && Contains(e.value.message, outcome.message)
  {
    if outcome.WriteFailure? {
      var m := WriteError(outputFile, outcome).value.message;
      var head := "An error occurred while writing to '";
      assert m == head + outputFile + ("': " + outcome.message);
      ContainsInfix(head, outputFile, "': " + outcome.message);
      assert m == (head + outputFile + "': ") + outcome.message + "";
      ContainsInfix(head + outputFile + "': ", outcome.message, "");
    }
  }
}
