/**
 * Values shared by every part of the service: an optional value (the C#
 * `null`), the application settings read at start-up, and the HTTP
 * response a handler writes.
 */
module Common {
  datatype Option<T> = None | Some(value: T)

  /** The entries of the `config` setting table that the core reads. */
  datatype Config = Config(
    mode: string,             // "move" publishes results, anything else serves from the working tree
    serveUrl: string,         // "serve-url"
    videoDestination: string, // "video-destination"
    thumbDestination: string, // "thumb-destination"
    fileRoot: string,         // "file-root"
    workingDir: string)       // "workingdir"

  predicate MoveMode(c: Config) { c.mode == "move" }

  /** The directory separator of the host (the model assumes a Unix host). */
  const Sep: char := '/'

  /** `Environment.NewLine` on a Unix host, appended by `AppendLine` and `WriteLine`. */
  const NewLine: string := "\n"

  /** What a handler writes after the status code. */
  datatype Body =
    | Text(text: string)       // a plain-text or playlist body
    | Serialized(what: string) // an object serialised to JSON; `what` names the object
    | NoBody
    | File(path: string, mime: string)     // a file streamed back, with its content type
    | FileHead(path: string, mime: string) // a HEAD answer: the file's headers, no body
    | Failure(exception: string) // the text of an exception the dispatcher's catch-all writes

  datatype Response = Response(code: int, body: Body)
}
