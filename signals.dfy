/** What the pipeline reports to its caller: the kinds of fatal error it
    raises and the notifications it hands to the presentation layer. */
module Signals {

  /** The exceptions `fusion_excel` lets escape, by Python class. */
  datatype FusionError =
    | FileNotFound(message: string)    // FileNotFoundError
    | Runtime(message: string)         // RuntimeError
    | ModuleNotFound(message: string)  // ModuleNotFoundError
    | UnboundFusion                    // UnboundLocalError: the mode was neither "concat" nor "merge"
    | MergeFailed(message: string)     // what `pd.merge` raised (MergeError, ValueError, ...), uncaught

  /** Notifications queued for the user interface while the pipeline runs. */
  datatype Event =
    | Progress(processed: nat, total: nat)  // after each input file, success or failure
    | Warning(text: string)                 // some files were skipped
    | Completed(outputFile: string)         // the result was written
}
