/** netlify/functions/api/chat.js: a three-rule demo resolver and the
    serverless handler that stores the exchange. */
module NetlifyChat {
  import opened Wrappers
  import opened Text
  import opened Store
  import opened Api
  import LlmService

  /** Only the password, refund and subscription rules exist here. */
  const NETLIFY_RULES := [LlmService.PASSWORD_RULE, LlmService.REFUND_RULE, LlmService.SUBSCRIPTION_RULE]

  /** `generateDemoResponse(userMessage)` of the Netlify function. */
  function DemoResponse(docs: seq<LlmService.Doc>, userMessage: string): LlmService.Reply
  {
    LlmService.Resolve(NETLIFY_RULES, Lower(userMessage), docs)
  }

  /** The three rules are the first three of the server, so the two
      resolvers agree whenever one of those three answers; otherwise the
      server goes on with its account, payment and API rules while the
      Netlify function has already fallen back. */
  lemma ServerExtendsNetlify(docs: seq<LlmService.Doc>, userMessage: string)
    ensures var m := Lower(userMessage);
            if exists i :: 0 <= i < 3 && LlmService.Attempt(NETLIFY_RULES[i], m, docs).Some?
            then LlmService.DemoResponse(docs, userMessage) == DemoResponse(docs, userMessage)
            else && DemoResponse(docs, userMessage) == LlmService.FALLBACK
                 && LlmService.DemoResponse(docs, userMessage)
                    == LlmService.Resolve(LlmService.DEMO_RULES[3..], m, docs)
  {
    var m := Lower(userMessage);
    assert LlmService.DEMO_RULES == NETLIFY_RULES + LlmService.DEMO_RULES[3..];
    LlmService.ResolveConcat(NETLIFY_RULES, LlmService.DEMO_RULES[3..], m, docs);
  }

  /** A message that triggers none of the three rules gets the 12-token
      fallback, whatever the documentation holds: account, payment and API
      questions are never answered here. */
  lemma LaterTopicsFallBack(docs: seq<LlmService.Doc>, userMessage: string)
    requires var m := Lower(userMessage);
             && !LlmService.Holds(LlmService.PASSWORD_RULE.trigger, m)
             && !LlmService.Holds(LlmService.REFUND_RULE.trigger, m)
             && !LlmService.Holds(LlmService.SUBSCRIPTION_RULE.trigger, m)
    ensures DemoResponse(docs, userMessage) == LlmService.FALLBACK
  {
  }

  /** A keyword match without a document falls through here as well: a
      password question with no password or reset document but with a
      refund document is answered by the refund rule. */
  lemma NetlifyFallsThrough(docs: seq<LlmService.Doc>, userMessage: string)
    requires var m := Lower(userMessage);
             Includes(m, "password") && Includes(m, "reset") && Includes(m, "refund")
    requires forall k :: 0 <= k < |docs| ==> !LlmService.TitleMatches(docs[k], ["password", "reset"])
    requires exists k :: 0 <= k < |docs| && LlmService.TitleMatches(docs[k], ["refund"])
    ensures exists k :: && 0 <= k < |docs|
                        && LlmService.TitleMatches(docs[k], ["refund"])
                        && (forall j :: 0 <= j < k ==> !LlmService.TitleMatches(docs[j], ["refund"]))
                        && DemoResponse(docs, userMessage) == LlmService.Reply(docs[k].content, 38)
  {
    var m := Lower(userMessage);
    assert LlmService.Attempt(NETLIFY_RULES[0], m, docs).None?;
    assert LlmService.Holds(LlmService.REFUND_RULE.trigger, m);
    assert LlmService.FirstAnswering(NETLIFY_RULES, m, docs, 1);
    LlmService.ResolveFirstAnswering(NETLIFY_RULES, m, docs, 1);
  }

  datatype Body = NoBody | ReplyBody(reply: LlmService.Reply) | ErrorBody(error: string)

  /** The handler's `{ statusCode, body }` (headers are not modelled). */
  datatype Response = Response(statusCode: nat, body: Body)

  const HISTORY_LIMIT := 10

  /** `exports.handler`. `body` is `None` when `JSON.parse` throws. The
      history it reads is not passed to the resolver. */
  method Handler(store: ConversationStore, docs: seq<LlmService.Doc>, httpMethod: string,
                 body: Option<ChatRequest>, faults: Faults)
    returns (resp: Response)
    requires store.Valid()
    modifies store
    ensures store.Valid()
    ensures httpMethod == "OPTIONS" ==> resp == Response(200, NoBody) && unchanged(store)
    ensures httpMethod != "OPTIONS" && httpMethod != "POST" ==>
              resp == Response(405, ErrorBody("Method not allowed")) && unchanged(store)
    ensures httpMethod == "POST" && body.None? ==>
              resp == Response(500, ErrorBody("Internal server error")) && unchanged(store)
    ensures httpMethod == "POST" && body.Some? && !WellFormed(body.value) ==>
              resp == Response(400, ErrorBody("sessionId and message are required")) && unchanged(store)
    ensures httpMethod == "POST" && body.Some? && WellFormed(body.value) ==>
              var sid, msg := body.value.sessionId.value, body.value.message.value;
              var answer := DemoResponse(docs, msg);
              var t0 := old(store.clock);
              var withQuestion := Appended(old(store.turns), sid, User, msg, t0);
              var withAnswer := Appended(withQuestion, sid, Assistant, answer.reply, t0 + 1);
              && (faults.userWrite.Some? ==>
                    resp == Response(500, ErrorBody("Internal server error")) && store.turns == old(store.turns) && store.sessions == old(store.sessions))
              && (faults.userWrite.None? && faults.historyRead.Some? ==>
                    && resp == Response(500, ErrorBody("Internal server error"))
                    && store.turns == withQuestion && store.sessions == old(store.sessions))
              && (faults.userWrite.None? && faults.historyRead.None? && faults.assistantWrite.Some? ==>
                    && resp == Response(500, ErrorBody("Internal server error"))
                    && store.turns == withQuestion && store.sessions == old(store.sessions))
              && (faults.userWrite.None? && faults.historyRead.None? && faults.assistantWrite.None?
                  && faults.sessionUpdate.Some? ==>
                    && resp == Response(500, ErrorBody("Internal server error"))
                    && store.turns == withAnswer && store.sessions == old(store.sessions))
              && (faults.userWrite.None? && faults.historyRead.None? && faults.assistantWrite.None?
                  && faults.sessionUpdate.None? ==>
                    && resp == Response(200, ReplyBody(answer))
                    && store.turns == withAnswer
                    && store.sessions == SetUpdated(old(store.sessions), sid, t0 + 2))
  {
    if httpMethod == "OPTIONS" {
      return Response(200, NoBody);
    }
    if httpMethod != "POST" {
      return Response(405, ErrorBody("Method not allowed"));
    }
    if body.None? {
      return Response(500, ErrorBody("Internal server error"));
    }
    var req := body.value;
    if !Present(req.sessionId) || !Present(req.message) {
      return Response(400, ErrorBody("sessionId and message are required"));
    }
    var sessionId, message := req.sessionId.value, req.message.value;

    var stored := store.StoreMessage(sessionId, User, message, faults.userWrite);
    if stored.Failure? {
      return Response(500, ErrorBody("Internal server error"));
    }
    var history := store.GetRecentHistory(sessionId, HISTORY_LIMIT, faults.historyRead);
    if history.Failure? {
      return Response(500, ErrorBody("Internal server error"));
    }
    var response := DemoResponse(docs, message);
    stored := store.StoreMessage(sessionId, Assistant, response.reply, faults.assistantWrite);
    if stored.Failure? {
      return Response(500, ErrorBody("Internal server error"));
    }
    var touched := store.TouchSession(sessionId, faults.sessionUpdate);
    if touched.Failure? {
      return Response(500, ErrorBody("Internal server error"));
    }
    resp := Response(200, ReplyBody(response));
  }
}
