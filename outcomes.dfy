/**
 * What the importers report: how an hour's download ends, the errors that
 * end an hour, and the lines they write to standard error.
 */
module Outcomes {
  import opened Records
  import opened Provisioning
  import opened Cli

  /**
   * How the decompressed body of an archive ends: cleanly (`io.EOF`), or
   * with a read or decompression error after what was delivered.
   */
  datatype StreamEnd = Eof | Broken

  /** The error that ends one hour's import. */
  datatype HourError =
    | HttpFailed            // `http.Get` failed
    | GzipInvalid           // `gzip.NewReader` refused the body
    | ReadFailed            // `ReadBytes` returned an error other than `io.EOF`
    | JsonInvalid           // `json.Unmarshal` refused a line
    | DecodeFailed(line: nat) // `decoder.Decode` failed on the line-th value ("[L n] ...")

  /** One line written to standard error. */
  datatype Warning =
    | BadArguments(argError: ArgError)    // usage line, or "Invalid start/end date: ..."
    | SetupFailed(setupError: SetupError)   // the error `setup` returned
    | Fetching(url: string)            // the archive URL, before it is fetched
    | Skipped(line: nat, reason: DropReason) // "[L n] Timestamp required." and the like
    | ImportFailed(error: HourError)   // old importer: the error that stops it
    | InvalidFile(error: HourError)    // new importer: "Invalid file: ..."
    | Unaddable(index: nat)            // new importer: "[L n] Unable to add event"
}
