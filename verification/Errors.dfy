/** The errors the modelled operations report to their callers. */
module Errors {
  /** What the catalog can find wrong with a category. */
  datatype PageFault =
    | CodeEmpty
    | MetadataMissing
    | PageNumberMismatch
    | PageSizeOutOfRange
    | PageSizeChanged
    | TooManyInstruments
    | EpicEmpty
    | PageRepeated
    | LimitReached

  datatype AppError =
    | Network
    | Unexpected(status: nat)
    | Deserialization
    | Unauthorized
    | OAuthTokenExpired
    | RateLimitExceeded
    | ApiKeyAllowanceExceeded
    | AccountAllowanceExceeded
    | TradingAllowanceExceeded
    | HistoricalDataAllowanceExceeded
    | MissingSessionToken(header: string)
    | InvalidInput
    | WebSocketError
    | CatalogRequest(endpoint: string, page: nat, source: AppError)
    | CatalogPagination(categoryId: string, pageNumber: nat, fault: PageFault)
}
