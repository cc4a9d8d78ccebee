/** The records exchanged between the TypeScript side and the native library,
    and between a caller and the worker. The JSON text they travel as is not
    modelled: each record stands for its JSON object. */
module Types {
  import opened Prelude

  /** Everything needed to open a connection; re-sent verbatim on reconnect. */
  datatype ConnectOptions = ConnectOptions(
    host: string,
    port: nat,
    instance: string,
    database: string,
    user: string,
    password: string,
    trustCert: bool)

  /** `ConnectResult`: the decimal text of the connection handle, or an
      error message (an empty string means "no error"). */
  datatype ConnectResult = ConnectResult(handle: string, error: string)

  /** `CloseOptions`: the handle of the connection to close. */
  datatype CloseOptions = CloseOptions(connHandle: string)

  /** `CloseResult`: an empty error means the connection was closed. */
  datatype CloseResult = CloseResult(error: string)

  /** `QueryOptions` as the native library decodes them. */
  datatype QueryOptions = QueryOptions(connHandle: string, query: string)

  /** `QueryResult`: column names, rows of cell texts, and an error message
      that is empty on success. */
  datatype QueryResult = QueryResult(
    error: string,
    metadata: seq<string>,
    data: seq<seq<string>>)

  /** A message to the worker. `close` defaults to false when absent. */
  datatype WorkerRequest = WorkerRequest(
    close: bool,
    connect: Option<ConnectOptions>,
    libPath: Option<string>,
    query: Option<string>)

  /** A reply from the worker: `{}`, `{result: …}` or `{error: …}`. */
  datatype WorkerResponse =
    | EmptyReply
    | ResultReply(result: QueryResult)
    | ErrorReply(error: string)
}
