/** The script's fatal conditions, and the result of a stage that may raise one. */
module Outcomes {

  /** Each `raise` (and the exhausted `next`) of the script, as a value. */
  datatype Error =
    | NoVersionsPresented           // no command-line arguments
    | NoValidTagsFound              // no registry tag has the MAJOR.MINOR.PATCH shape
    | VersionNotFound(version: string)  // no tag of the requested minor line

  datatype Result<T> = Ok(value: T) | Err(error: Error)
}
