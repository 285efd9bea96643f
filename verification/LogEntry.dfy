/** The log record of one proxied request (internal/logging/entry.go). */
module LogEntry {

  /** Times are nanoseconds since the zero time of the program. */
  datatype Entry = Entry(
    timestamp: int, requestID: string, tokenName: string, rpc: string, backend: string, statusCode: int,
    latencyMs: real, requestBytes: int, responseBytes: int, clientIP: string, error: string, path: string)
}
