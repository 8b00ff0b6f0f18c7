/** The action results the controllers return, as values. A body is carried by
    `Ok` and `Created`; the error results carry the message the source puts in
    its `{ message = ... }` object, or None when it sends none. */
module Http {
  import opened Seqs

  datatype Response<T> =
    | Ok(body: T)
    | Created(body: T)
    | NoContent
    | NotFound(message: Option<string>)
    | BadRequest(message: Option<string>)
    | Unauthorized(message: Option<string>)
}
