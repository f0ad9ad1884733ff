/**
 The parts of an HTTP response the handlers set.
 */
module Http {

  import Store

  datatype Body<T> =
    | Rows(rows: seq<T>)
    | Row(row: T)
    | ErrorJson(error: string)
    | Text(text: string)

  /** Status code, the `Allow` header (empty when not set), and the body. */
  datatype Response<T> = Response(status: int, allow: seq<string>, body: Body<T>)

  const Allowed: seq<string> := ["GET", "POST"]

  /** `response.ok` on the client. */
  predicate IsOk(status: int) {
    200 <= status <= 299
  }

  /** A handler's response together with the table it leaves behind. */
  datatype Handled<T> = Handled(response: Response<T>, db: Store.Table<T>)
}
