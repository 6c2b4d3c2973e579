/** The status codes of net/http that the checker and the fetchers compare against. */
module Http {
  const StatusOK: int := 200
  const StatusTooManyRequests: int := 429
}
