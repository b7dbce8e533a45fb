/** The exceptions the core raises or catches. An `HTTPException` becomes an
    `HttpError` carrying its status code and which of the source's messages it
    carries; the other Python exceptions the code paths can raise are `Fault`s. */
module Errors {
  import opened JsonValues

  datatype Reason =
    | MissingToken               // no Authorization header, or an empty one
    | InvalidToken               // not a locally issued token
    | ExpiredNotRefreshable      // external token expired and refresh gave nothing
    | NoExternalToken            // no external token stored for the local token
    | ExternalTokenRequired      // the router's fixed message for any auth failure
    | InvalidWarehouse(code: string)
    | WarehouseFetchFailed(warehouse: string, fetchCause: Fault)
    | WarehouseSaveFailed(warehouse: string, storageCause: StorageFault)
    | Unhandled(storage: StorageFault)  // an exception FastAPI turns into a 500
    | UpstreamAuthFailed         // the upstream answered 401
    | Upstream(detail: Json)     // the upstream's own "detail", or the default
    | CannotConnect(message: string)

  datatype HttpError = HttpError(status: int, reason: Reason)

  datatype Fault =
    | Raised(error: HttpError)   // an HTTPException
    | DecodeFault                // response.json() on a body that is not JSON
    | AttributeFault             // .get on a JSON value that is not an object
    | TypeFault                  // total_pages + 1 on a value that is not a number

  /** Why a database call raises: the connection pool could not be obtained
      (what makes `save_consjob_data` raise before its loop), or the query
      named a `consjob` table that was never created. */
  datatype StorageFault = StorageUnavailable | UndefinedTable
}
