/** The event types and the transport result that the provider and the HTTP transport share. */
module Core {

  datatype Option<+T> = None | Some(value: T)

  datatype EventType = Error | Log | Transaction

  /** The wire names are the only accepted spellings; any other name is not an event of this SDK. */
  function ParseEventType(name: string): Option<EventType> {
    if name == "errors" then Some(Error)
    else if name == "logs" then Some(Log)
    else if name == "transactions" then Some(Transaction)
    else None
  }

  datatype TransportResult = TransportResult(
    statusCode: int,
    errorMessage: string,
    attempts: int,
    duplicate: bool)
  {
    predicate IsSuccess() {
      if errorMessage != "" then false
      else 200 <= statusCode < 300 || duplicate
    }
  }
}
