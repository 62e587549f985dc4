/** What both chat endpoints receive and the storage faults a request may
    meet. */
module Api {
  import opened Wrappers
  import Store

  /** The JSON body `{ sessionId, message }`; an absent field is `None`. */
  datatype ChatRequest = ChatRequest(sessionId: Option<string>, message: Option<string>)

  /** JavaScript truthiness of a string field: present and non-empty. */
  predicate Present(field: Option<string>)
  {
    field.Some? && field.value != ""
  }

  /** `!sessionId || !message` is false. */
  predicate WellFormed(req: ChatRequest)
  {
    Present(req.sessionId) && Present(req.message)
  }

  /** For each storage statement a request may issue, whether it fails and
      with which error. */
  datatype Faults = Faults(
    historyRead: Option<Store.StoreError>,
    userWrite: Option<Store.StoreError>,
    assistantWrite: Option<Store.StoreError>,
    sessionInsert: Option<Store.StoreError>,
    sessionUpdate: Option<Store.StoreError>)
}
