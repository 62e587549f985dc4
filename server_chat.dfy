/** The `/api/chat` route of server/index.js. */
module ServerChat {
  import opened Wrappers
  import opened Store
  import opened Api
  import LlmService

  datatype Body = ReplyBody(reply: LlmService.Reply) | ErrorBody(error: string, message: string)

  /** `res.status(...).json(...)`. */
  datatype Response = Response(statusCode: nat, body: Body)

  /** The error of the first of the route's writes that fails, in the order
      user turn, assistant turn, session insert, session update. */
  function FirstWriteFault(faults: Faults): (e: Option<StoreError>)
    ensures e.None? <==> && faults.userWrite.None? && faults.assistantWrite.None?
                         && faults.sessionInsert.None? && faults.sessionUpdate.None?
  {
    if faults.userWrite.Some? then faults.userWrite
    else if faults.assistantWrite.Some? then faults.assistantWrite
    else if faults.sessionInsert.Some? then faults.sessionInsert
    else faults.sessionUpdate
  }

  /** The tables after the route's writes ran from `(turns, sessions)` at time
      `t0` until the first failure: what was written before it stays. */
  ghost predicate WritesApplied(turns: seq<Turn>, sessions: seq<SessionRow>, turns': seq<Turn>, sessions': seq<SessionRow>,
                                sid: string, question: string, answer: string, t0: nat, faults: Faults)
  {
    var withQuestion := Appended(turns, sid, User, question, t0);
    var withAnswer := Appended(withQuestion, sid, Assistant, answer, t0 + 1);
    if faults.userWrite.Some? then turns' == turns && sessions' == sessions
    else if faults.assistantWrite.Some? then turns' == withQuestion && sessions' == sessions
    else if faults.sessionInsert.Some? then turns' == withAnswer && sessions' == sessions
    else if faults.sessionUpdate.Some? then turns' == withAnswer && sessions' == InsertOrIgnore(sessions, sid, t0 + 2)
    else turns' == withAnswer && sessions' == Upsert(sessions, sid, t0 + 2, t0 + 3)
  }

  /** The three writes of the route: the user turn, the assistant turn and
      the session upsert, stopping at the first failure. */
  method RecordExchange(store: ConversationStore, sid: string, question: string, answer: string, faults: Faults)
    returns (r: Result<(), StoreError>)
    requires store.Valid()
    modifies store
    ensures store.Valid()
    ensures r == (if FirstWriteFault(faults).Some? then Failure(FirstWriteFault(faults).value) else Success(()))
    ensures WritesApplied(old(store.turns), old(store.sessions), store.turns, store.sessions,
                          sid, question, answer, old(store.clock), faults)
  {
    var stored := store.StoreMessage(sid, User, question, faults.userWrite);
    if stored.Failure? {
      return Failure(stored.error);
    }
    stored := store.StoreMessage(sid, Assistant, answer, faults.assistantWrite);
    if stored.Failure? {
      return Failure(stored.error);
    }
    r := store.UpdateSessionTimestamp(sid, faults.sessionInsert, faults.sessionUpdate);
  }

  /** The route handler: validate, read the whole history, resolve, store the
      user turn, store the assistant turn, upsert the session. A failing step
      answers 500 with the error's message; nothing already written is undone. */
  method PostChat(store: ConversationStore, service: LlmService.Service,
                  generate: LlmService.Request -> Option<LlmService.Completion>,
                  req: ChatRequest, faults: Faults)
    returns (resp: Response)
    requires store.Valid()
    modifies store
    ensures store.Valid()
    ensures !WellFormed(req) ==>
              && resp == Response(400, ErrorBody("Missing required fields", "sessionId and message are required"))
              && unchanged(store)
    ensures WellFormed(req) && faults.historyRead.Some? ==>
              && resp == Response(500, ErrorBody("Failed to process chat message", faults.historyRead.value.message))
              && unchanged(store)
    ensures WellFormed(req) && faults.historyRead.None? ==>
              var sid, msg := req.sessionId.value, req.message.value;
              var answer := LlmService.Respond(service, generate, msg, SessionTurns(old(store.turns), sid));
              && WritesApplied(old(store.turns), old(store.sessions), store.turns, store.sessions,
                               sid, msg, answer.reply, old(store.clock), faults)
              && resp == (if FirstWriteFault(faults).Some?
                          then Response(500, ErrorBody("Failed to process chat message", FirstWriteFault(faults).value.message))
                          else Response(200, ReplyBody(answer)))
  {
    if !Present(req.sessionId) || !Present(req.message) {
      return Response(400, ErrorBody("Missing required fields", "sessionId and message are required"));
    }
    var sessionId, message := req.sessionId.value, req.message.value;

    var history := store.GetConversationHistory(sessionId, faults.historyRead);
    if history.Failure? {
      return Response(500, ErrorBody("Failed to process chat message", history.error.message));
    }
    var answer := LlmService.GenerateResponse(service, generate, message, history.value);

    var recorded := RecordExchange(store, sessionId, message, answer.reply, faults);
    if recorded.Failure? {
      return Response(500, ErrorBody("Failed to process chat message", recorded.error.message));
    }
    resp := Response(200, ReplyBody(answer));
  }
}
