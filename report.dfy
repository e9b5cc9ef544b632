/** Error aggregation after the loader loop: the fatal message when nothing
    loaded, and the capped warning when only some files failed. */
module Report {
  import opened Wrappers
  import opened Strings

  /** How many error entries the warning lists before truncating. */
  const PreviewLimit: nat := 10

  /** The RuntimeError message raised when no table loaded. */
  function NoFilesReadMessage(folder: string, readErrors: seq<string>): string
  {
    "No files could be read successfully from '" + folder + "'. Details: "
      + (if readErrors != [] then Join("\n", readErrors) else "No readable files.")
  }

  /** The entries shown in the warning: at most the first ten, newline-joined. */
  function ErrorPreview(readErrors: seq<string>): (r: string)
    ensures StartsWith(Join("\n", readErrors), r)
    ensures |readErrors| <= PreviewLimit ==> r == Join("\n", readErrors)
  {
    var shown := if |readErrors| <= PreviewLimit then readErrors else readErrors[..PreviewLimit];
    JoinPrefix("\n", readErrors, |shown|);
    assert readErrors[..|readErrors|] == readErrors;
    Join("\n", shown)
  }

  /** The truncation marker, present only when entries were left out. */
  function MoreErrorsMarker(readErrors: seq<string>): string
  {
    if |readErrors| > PreviewLimit then "\n... and more errors." else ""
  }

  function WarningText(readErrors: seq<string>): string
  {
    "The following files could not be read:\n" + ErrorPreview(readErrors) + MoreErrorsMarker(readErrors) + "\n\n"
  }

  /** The warning shown after a partly failed batch; none when nothing failed. */
  function SkippedWarning(readErrors: seq<string>): Option<string>
  {
    if readErrors == [] then None else Some(WarningText(readErrors))
  }

  /** Beyond the tenth entry, the warning depends only on there being more:
      two lists that agree on their first ten entries give the same text. */
  lemma WarningShowsFirstTen(e1: seq<string>, e2: seq<string>)
    requires |e1| > PreviewLimit && |e2| > PreviewLimit
    requires e1[..PreviewLimit] == e2[..PreviewLimit]
    ensures SkippedWarning(e1) == SkippedWarning(e2)
  {
  }

  /** A list of at most ten entries is shown in full and without the marker. */
  lemma ShortListShownInFull(readErrors: seq<string>)
    requires 0 < |readErrors| <= PreviewLimit
    ensures SkippedWarning(readErrors) ==
      Some("The following files could not be read:\n" + Join("\n", readErrors) + "\n\n")
  {
    var head := "The following files could not be read:\n" + Join("\n", readErrors);
    assert head + "" == head;
  }

  /** A longer list shows exactly its first ten entries, then the marker. */
  lemma LongListTruncated(readErrors: seq<string>)
    requires |readErrors| > PreviewLimit
    ensures SkippedWarning(readErrors) ==
      Some("The following files could not be read:\n" + Join("\n", readErrors[..PreviewLimit])
        + "\n... and more errors." + "\n\n")
  {
  }
}
