/**
 * What the paginator sees of the HTTP exchanges it makes, and the exceptions
 * it can end with. Every request (the login POST, the planning GET, each
 * attempt of a page worker) is replaced by the reply the server gives to it.
 */
module Protocol {
  import opened Json

  /** One HTTP exchange: a response with its status and decoded JSON body, or
      a `requests` RequestException (connection error, timeout, ...). */
  datatype Reply = Response(status: int, body: Json) | NetErr

  /** The exceptions that can end an operation. */
  datatype Error =
    | ValueError                          // login without login URL or auth data
    | LoginFailed(status: int)            // LoginFailedException
    | DataFetchFailed(status: int, url: string)  // DataFetchFailedException
    | AuthenticationFailed(status: int)   // 401 or 403 on a page request
    | NetworkError                        // RequestException outside a page worker
    | AttributeError                      // `.get` on a body that is not a dict
    | TypeError                           // arithmetic or `extend` on the wrong kind of value
    | ZeroDivisionError                   // a resolved per-page of zero

  datatype Result<T> = Success(value: T) | Failure(error: Error)

  datatype Outcome = Pass | Fail(error: Error)
}
