/**
 * What an Express handler can do with a request: pass an error to `next`
 * or write one JSON response.
 */
module Express {
  /** An error built by `createHttpError(statusCode, message)`. */
  datatype HttpError = HttpError(statusCode: int, message: string)

  /** One observable action of a handler: `next(error)` or `res.status(status).json(body)`. */
  datatype Effect<B> = Next(error: HttpError) | Respond(status: int, body: B)
}
