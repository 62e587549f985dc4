/** The reply resolver of server/llmService.js: the keyword rules of demo
    mode, the choice between demo mode and the external model, and the
    prompt and message list sent to that model. */
module LlmService {
  import opened Wrappers
  import opened Text
  import Store

  /** One entry of docs.json. */
  datatype Doc = Doc(title: string, content: string)

  /** What the resolver returns: `{ reply, tokensUsed }`. */
  datatype Reply = Reply(reply: string, tokensUsed: nat)

  const FALLBACK_TEXT := "Sorry, I don't have information about that."

  /** The demo-mode answer when no rule produces a document. */
  const FALLBACK := Reply(FALLBACK_TEXT, 12)

  /** The answer when the external model call fails in any way. */
  const TECHNICAL_DIFFICULTIES := Reply("Sorry, I'm experiencing technical difficulties. Please try again later.", 0)

  // ---------------------------------------------------------------------
  // Demo mode: keyword rules
  // ---------------------------------------------------------------------

  /** A boolean combination of `lowerMessage.includes(word)` tests. */
  datatype Trigger = Word(word: string) | And(left: Trigger, right: Trigger) | Or(left: Trigger, right: Trigger)

  function Holds(t: Trigger, text: string): bool
  {
    match t
    case Word(w) => Includes(text, w)
    case And(a, b) => Holds(a, text) && Holds(b, text)
    case Or(a, b) => Holds(a, text) || Holds(b, text)
  }

  /** One `if` block of `generateDemoResponse`: the keyword test, the words
      one of which the lowercased document title must include, and the
      fixed token count of the answer. */
  datatype Rule = Rule(trigger: Trigger, titleWords: seq<string>, tokens: nat)

  const PASSWORD_RULE := Rule(And(Word("password"), Or(Word("reset"), Word("change"))), ["password", "reset"], 45)
  const REFUND_RULE := Rule(Or(Word("refund"), Word("money back")), ["refund"], 38)
  const SUBSCRIPTION_RULE := Rule(Or(Or(Word("subscription"), Word("plan")), Word("pricing")), ["subscription"], 52)
  const ACCOUNT_RULE := Rule(And(Word("account"), Or(Or(Word("setup"), Word("create")), Word("register"))), ["account"], 41)
  const PAYMENT_RULE := Rule(Or(Or(Word("payment"), Word("pay")), Word("credit card")), ["payment"], 44)
  const API_RULE := Rule(Or(Or(Word("api"), Word("integration")), Word("develop")), ["api"], 48)

  /** The rules in the order the server tries them. */
  const DEMO_RULES := [PASSWORD_RULE, REFUND_RULE, SUBSCRIPTION_RULE, ACCOUNT_RULE, PAYMENT_RULE, API_RULE]

  /** The `find` callback: the lowercased title includes one of the words. */
  predicate TitleMatches(d: Doc, words: seq<string>)
  {
    exists i | 0 <= i < |words| :: Includes(Lower(d.title), words[i])
  }

  /** `documentation.find(...)`, as the index of the entry it returns. */
  function FindDoc(docs: seq<Doc>, words: seq<string>): (r: Option<nat>)
    ensures r.Some? ==> && r.value < |docs|
                        && TitleMatches(docs[r.value], words)
                        && forall j :: 0 <= j < r.value ==> !TitleMatches(docs[j], words)
    ensures r.None? ==> forall j :: 0 <= j < |docs| ==> !TitleMatches(docs[j], words)
  {
    if docs == [] then None
    else if TitleMatches(docs[0], words) then Some(0)
    else match FindDoc(docs[1..], words)
      case None => None
      case Some(k) => Some(k + 1)
  }

  /** One rule tried against the lowercased message: it answers exactly when
      its keywords match and some title passes its filter, and then answers
      with the first such document's content and the rule's token count. */
  function Attempt(rule: Rule, lowerMessage: string, docs: seq<Doc>): (r: Option<Reply>)
    ensures r.Some? <==> Holds(rule.trigger, lowerMessage) && exists k :: 0 <= k < |docs| && TitleMatches(docs[k], rule.titleWords)
    ensures r.Some? ==> exists k :: && 0 <= k < |docs|
                                    && TitleMatches(docs[k], rule.titleWords)
                                    && (forall j :: 0 <= j < k ==> !TitleMatches(docs[j], rule.titleWords))
                                    && r.value == Reply(docs[k].content, rule.tokens)
  {
    if !Holds(rule.trigger, lowerMessage) then None
    else match FindDoc(docs, rule.titleWords)
      case None => None
      case Some(k) => Some(Reply(docs[k].content, rule.tokens))
  }

  /** The chain of `if` blocks: the first rule that answers wins; a rule whose
      keywords match but which finds no document falls through to the next
      one; when no rule answers, the fallback is returned. */
  function Resolve(rules: seq<Rule>, lowerMessage: string, docs: seq<Doc>): (r: Reply)
    ensures || ((forall i :: 0 <= i < |rules| ==> Attempt(rules[i], lowerMessage, docs).None?) && r == FALLBACK)
            || (exists i :: && 0 <= i < |rules|
                            && Attempt(rules[i], lowerMessage, docs) == Some(r)
                            && forall j :: 0 <= j < i ==> Attempt(rules[j], lowerMessage, docs).None?)
  {
    if rules == [] then FALLBACK
    else match Attempt(rules[0], lowerMessage, docs)
      case Some(r) => r
      case None =>
        var r := Resolve(rules[1..], lowerMessage, docs);
        assert forall i :: 1 <= i < |rules| ==> rules[i] == rules[1..][i - 1];
        r
  }

  /** Rule `i` is the first one that answers. */
  ghost predicate FirstAnswering(rules: seq<Rule>, lowerMessage: string, docs: seq<Doc>, i: int)
  {
    && 0 <= i < |rules|
    && Attempt(rules[i], lowerMessage, docs).Some?
    && forall j :: 0 <= j < i ==> Attempt(rules[j], lowerMessage, docs).None?
  }

  /** First match wins, whatever later rules would say. */
  lemma {:induction false} ResolveFirstAnswering(rules: seq<Rule>, lowerMessage: string, docs: seq<Doc>, i: int)
    requires FirstAnswering(rules, lowerMessage, docs, i)
    ensures Resolve(rules, lowerMessage, docs) == Attempt(rules[i], lowerMessage, docs).value
    decreases i
  {
    if i > 0 {
      assert Attempt(rules[0], lowerMessage, docs).None?;
      assert FirstAnswering(rules[1..], lowerMessage, docs, i - 1) by {
        forall j | 0 <= j < i - 1
          ensures Attempt(rules[1..][j], lowerMessage, docs).None?
        {
          assert rules[1..][j] == rules[j + 1];
        }
      }
      ResolveFirstAnswering(rules[1..], lowerMessage, docs, i - 1);
    }
  }

  /** Trying the rules of `a` and then those of `b`: the first list decides
      when one of its rules answers, otherwise the second list does. */
  lemma {:induction false} ResolveConcat(a: seq<Rule>, b: seq<Rule>, lowerMessage: string, docs: seq<Doc>)
    ensures Resolve(a + b, lowerMessage, docs)
         == if exists i :: 0 <= i < |a| && Attempt(a[i], lowerMessage, docs).Some?
            then Resolve(a, lowerMessage, docs)
            else Resolve(b, lowerMessage, docs)
    decreases |a|
  {
    if a == [] {
      assert a + b == b;
    } else {
      assert (a + b)[0] == a[0];
      assert (a + b)[1..] == a[1..] + b;
      ResolveConcat(a[1..], b, lowerMessage, docs);
      if Attempt(a[0], lowerMessage, docs).None? {
        if exists i :: 0 <= i < |a| && Attempt(a[i], lowerMessage, docs).Some? {
          var i :| 0 <= i < |a| && Attempt(a[i], lowerMessage, docs).Some?;
          assert a[1..][i - 1] == a[i];
        } else {
          forall i | 0 <= i < |a[1..]| ensures Attempt(a[1..][i], lowerMessage, docs).None? {
            assert a[1..][i] == a[i + 1];
          }
        }
      } else {
        assert Attempt(a[0], lowerMessage, docs).Some?;
      }
    }
  }

  /** With no documentation no rule can answer. */
  lemma {:induction false} ResolveWithoutDocs(rules: seq<Rule>, lowerMessage: string)
    ensures Resolve(rules, lowerMessage, []) == FALLBACK
    decreases |rules|
  {
    if rules != [] {
      ResolveWithoutDocs(rules[1..], lowerMessage);
    }
  }

  /** `generateDemoResponse(userMessage)` of the server. */
  function DemoResponse(docs: seq<Doc>, userMessage: string): Reply
  {
    Resolve(DEMO_RULES, Lower(userMessage), docs)
  }

  /** The demo reply sees the message only through its lowercase form. */
  lemma DemoIgnoresCase(docs: seq<Doc>, m1: string, m2: string)
    requires Lower(m1) == Lower(m2)
    ensures DemoResponse(docs, m1) == DemoResponse(docs, m2)
    ensures DemoResponse(docs, m1) == DemoResponse(docs, Lower(m1))
  {
    LowerIdempotent(m1);
  }

  /** A password question with a password or reset document is answered by
      the first such document with 45 tokens, whatever else it mentions. */
  lemma PasswordRuleWins(docs: seq<Doc>, userMessage: string)
    requires var m := Lower(userMessage);
             Includes(m, "password") && (Includes(m, "reset") || Includes(m, "change"))
    requires exists k :: 0 <= k < |docs| && TitleMatches(docs[k], ["password", "reset"])
    ensures exists k :: && 0 <= k < |docs|
                        && TitleMatches(docs[k], ["password", "reset"])
                        && (forall j :: 0 <= j < k ==> !TitleMatches(docs[j], ["password", "reset"]))
                        && DemoResponse(docs, userMessage) == Reply(docs[k].content, 45)
  {
    var m := Lower(userMessage);
    assert DEMO_RULES[0] == PASSWORD_RULE;
    assert Holds(Or(Word("reset"), Word("change")), m);
    assert Holds(PASSWORD_RULE.trigger, m);
    assert FirstAnswering(DEMO_RULES, m, docs, 0);
    ResolveFirstAnswering(DEMO_RULES, m, docs, 0);
  }

  /** Fall-through: a password question for which no title mentions password
      or reset is not answered by the password rule; when it also asks
      for a refund and a refund document exists, the refund rule answers. */
  lemma PasswordFallsThroughToRefund(docs: seq<Doc>, userMessage: string)
    requires var m := Lower(userMessage);
             Includes(m, "password") && Includes(m, "reset") && Includes(m, "refund")
    requires forall k :: 0 <= k < |docs| ==> !TitleMatches(docs[k], ["password", "reset"])
    requires exists k :: 0 <= k < |docs| && TitleMatches(docs[k], ["refund"])
    ensures exists k :: && 0 <= k < |docs|
                        && TitleMatches(docs[k], ["refund"])
                        && (forall j :: 0 <= j < k ==> !TitleMatches(docs[j], ["refund"]))
                        && DemoResponse(docs, userMessage) == Reply(docs[k].content, 38)
  {
    var m := Lower(userMessage);
    assert DEMO_RULES[0] == PASSWORD_RULE && DEMO_RULES[1] == REFUND_RULE;
    assert Attempt(PASSWORD_RULE, m, docs).None?;
    assert Holds(REFUND_RULE.trigger, m);
    assert FirstAnswering(DEMO_RULES, m, docs, 1);
    ResolveFirstAnswering(DEMO_RULES, m, docs, 1);
  }

  /** Rule order decides between two matching rules: a message that
      triggers both the payment and the API rule, and that no earlier rule
      answers, is answered from the first payment document with 44 tokens
      whenever one exists. */
  lemma PaymentBeforeApi(docs: seq<Doc>, userMessage: string)
    requires var m := Lower(userMessage);
             && Holds(PAYMENT_RULE.trigger, m) && Holds(API_RULE.trigger, m)
             && forall i :: 0 <= i < 4 ==> Attempt(DEMO_RULES[i], m, docs).None?
    requires exists k :: 0 <= k < |docs| && TitleMatches(docs[k], ["payment"])
    ensures exists k :: && 0 <= k < |docs|
                        && TitleMatches(docs[k], ["payment"])
                        && (forall j :: 0 <= j < k ==> !TitleMatches(docs[j], ["payment"]))
                        && DemoResponse(docs, userMessage) == Reply(docs[k].content, 44)
  {
    var m := Lower(userMessage);
    assert DEMO_RULES[4] == PAYMENT_RULE;
    assert FirstAnswering(DEMO_RULES, m, docs, 4);
    ResolveFirstAnswering(DEMO_RULES, m, docs, 4);
  }

  /** A message that triggers none of the six rules gets the fallback. */
  lemma UnmatchedMessageFallsBack(docs: seq<Doc>, userMessage: string)
    requires forall i :: 0 <= i < |DEMO_RULES| ==> !Holds(DEMO_RULES[i].trigger, Lower(userMessage))
    ensures DemoResponse(docs, userMessage) == FALLBACK
  {
  }

  // ---------------------------------------------------------------------
  // Mode selection and prompt assembly
  // ---------------------------------------------------------------------

  /** `!apiKey || apiKey.includes('REPLACE') || apiKey.includes('AbCdEf')`. */
  function IsDemoMode(apiKey: Option<string>): (demo: bool)
    ensures demo <==> || apiKey == None || apiKey == Some("")
                      || (exists i :: OccursAt(apiKey.value, "REPLACE", i))
                      || (exists i :: OccursAt(apiKey.value, "AbCdEf", i))
  {
    if apiKey.None? then true
    else
      IncludesIff(apiKey.value, "REPLACE");
      IncludesIff(apiKey.value, "AbCdEf");
      apiKey.value == "" || Includes(apiKey.value, "REPLACE") || Includes(apiKey.value, "AbCdEf")
  }

  /** `${doc.title}: ${doc.content}`. */
  function RenderDoc(d: Doc): string
  {
    d.title + ": " + d.content
  }

  /** The documentation block: every entry rendered, joined by a blank line. */
  function DocsBlock(docs: seq<Doc>): string
  {
    Join(seq(|docs|, i requires 0 <= i < |docs| => RenderDoc(docs[i])), "\n\n")
  }

  /** The block grows entry by entry in list order, a blank line between
      two entries and none before the first. */
  lemma DocsBlockSnoc(docs: seq<Doc>, d: Doc)
    ensures DocsBlock([]) == ""
    ensures DocsBlock(docs + [d]) == if docs == [] then RenderDoc(d) else DocsBlock(docs) + "\n\n" + RenderDoc(d)
  {
    var parts := seq(|docs|, i requires 0 <= i < |docs| => RenderDoc(docs[i]));
    assert seq(|docs + [d]|, i requires 0 <= i < |docs + [d]| => RenderDoc((docs + [d])[i])) == parts + [RenderDoc(d)];
    JoinSnoc(parts, RenderDoc(d), "\n\n");
  }

  const PROMPT_INTRO := "You are a helpful support assistant. You must answer questions ONLY using the following documentation. If the answer is not found in the documentation, respond with exactly: \""
  const PROMPT_DOCS_LABEL := "\"\n\nDocumentation:\n"
  const PROMPT_RULES := "\n\nRules:\n1. Only use information from the provided documentation\n2. If information is not in the docs, say \""
  const PROMPT_END := "\"\n3. Be helpful and concise\n4. Do not make up or guess any information"

  /** The system prompt: the fixed instructions around the documentation block. */
  function SystemPrompt(docs: seq<Doc>): string
  {
    PROMPT_INTRO + FALLBACK_TEXT + PROMPT_DOCS_LABEL + DocsBlock(docs) + PROMPT_RULES + FALLBACK_TEXT + PROMPT_END
  }

  /** The prompt carries the whole documentation block and the exact
      fallback sentence. */
  lemma SystemPromptContents(docs: seq<Doc>)
    ensures Includes(SystemPrompt(docs), DocsBlock(docs))
    ensures Includes(SystemPrompt(docs), FALLBACK_TEXT)
  {
    IncludesParts(PROMPT_INTRO, FALLBACK_TEXT, PROMPT_DOCS_LABEL, DocsBlock(docs), PROMPT_RULES, FALLBACK_TEXT, PROMPT_END);
  }

  lemma IncludesParts(a: string, b: string, c: string, d: string, e: string, f: string, g: string)
    ensures Includes(a + b + c + d + e + f + g, b)
    ensures Includes(a + b + c + d + e + f + g, d)
  {
    assert a + b + c + d + e + f + g == a + b + (c + d + e + f + g);
    IncludesMiddle(a, b, c + d + e + f + g);
    assert a + b + c + d + e + f + g == (a + b + c) + d + (e + f + g);
    IncludesMiddle(a + b + c, d, e + f + g);
  }

  /** `{ role, content }` as sent to the chat completions endpoint. */
  datatype ChatMessage = ChatMessage(role: string, content: string)

  const HISTORY_WINDOW := 10

  function RoleName(r: Store.Role): string
  {
    match r
    case User => "user"
    case Assistant => "assistant"
  }

  function AsChat(t: Store.Turn): ChatMessage
  {
    ChatMessage(RoleName(t.role), t.content)
  }

  /** `conversationHistory.slice(-10)`. */
  function RecentTurns(history: seq<Store.Turn>): seq<Store.Turn>
  {
    if |history| <= HISTORY_WINDOW then history else history[|history| - HISTORY_WINDOW..]
  }

  /** The message list: the system prompt, the recent history, the new
      user message. */
  function Messages(systemPrompt: string, history: seq<Store.Turn>, userMessage: string): seq<ChatMessage>
  {
    var recent := RecentTurns(history);
    [ChatMessage("system", systemPrompt)]
    + seq(|recent|, i requires 0 <= i < |recent| => AsChat(recent[i]))
    + [ChatMessage("user", userMessage)]
  }

  /** The list starts with the system prompt, ends with the user message and
      holds between them the last `min(10, |history|)` turns in their
      original order, roles and contents copied. */
  lemma MessagesShape(systemPrompt: string, history: seq<Store.Turn>, userMessage: string)
    ensures var n := if |history| < HISTORY_WINDOW then |history| else HISTORY_WINDOW;
            var ms := Messages(systemPrompt, history, userMessage);
            && |ms| == n + 2
            && ms[0] == ChatMessage("system", systemPrompt)
            && ms[n + 1] == ChatMessage("user", userMessage)
            && forall k :: 1 <= k <= n ==>
                 ms[k] == ChatMessage(RoleName(history[|history| - n + k - 1].role), history[|history| - n + k - 1].content)
  {
  }

  function CountRole(ms: seq<ChatMessage>, role: string): nat
  {
    if ms == [] then 0 else (if ms[0].role == role then 1 else 0) + CountRole(ms[1..], role)
  }

  lemma {:induction false} CountRoleConcat(a: seq<ChatMessage>, b: seq<ChatMessage>, role: string)
    ensures CountRole(a + b, role) == CountRole(a, role) + CountRole(b, role)
    decreases |a|
  {
    if a == [] {
      assert a + b == b;
    } else {
      assert (a + b)[0] == a[0];
      assert (a + b)[1..] == a[1..] + b;
      CountRoleConcat(a[1..], b, role);
    }
  }

  lemma {:induction false} NoSystemInHistory(ms: seq<ChatMessage>)
    requires forall i :: 0 <= i < |ms| ==> ms[i].role in {"user", "assistant"}
    ensures CountRole(ms, "system") == 0
    decreases |ms|
  {
    if ms != [] {
      NoSystemInHistory(ms[1..]);
    }
  }

  /** Exactly one system message is sent, whatever the history holds. */
  lemma ExactlyOneSystemMessage(systemPrompt: string, history: seq<Store.Turn>, userMessage: string)
    ensures CountRole(Messages(systemPrompt, history, userMessage), "system") == 1
  {
    var recent := RecentTurns(history);
    var middle := seq(|recent|, i requires 0 <= i < |recent| => AsChat(recent[i]));
    NoSystemInHistory(middle);
    CountRoleConcat([ChatMessage("system", systemPrompt)], middle, "system");
    CountRoleConcat([ChatMessage("system", systemPrompt)] + middle, [ChatMessage("user", userMessage)], "system");
  }

  /** The `messages.push` loop of `generateResponse`. */
  method BuildMessages(systemPrompt: string, history: seq<Store.Turn>, userMessage: string)
    returns (messages: seq<ChatMessage>)
    ensures messages == Messages(systemPrompt, history, userMessage)
  {
    var recent := RecentTurns(history);
    messages := [ChatMessage("system", systemPrompt)];
    var i := 0;
    while i < |recent|
      invariant 0 <= i <= |recent|
      invariant |messages| == i + 1 && messages[0] == ChatMessage("system", systemPrompt)
      invariant forall k :: 0 <= k < i ==> messages[k + 1] == AsChat(recent[k])
    {
      messages := messages + [ChatMessage(RoleName(recent[i].role), recent[i].content)];
      i := i + 1;
    }
    messages := messages + [ChatMessage("user", userMessage)];
  }

  // ---------------------------------------------------------------------
  // The service
  // ---------------------------------------------------------------------

  /** The configuration `LLMService` reads once at construction. */
  datatype Service = Service(apiKey: Option<string>, model: string, documentation: seq<Doc>)

  const DEFAULT_MODEL := "gpt-3.5-turbo"
  const MAX_TOKENS := 500

  /** The constructor: `OPENAI_MODEL || 'gpt-3.5-turbo'`, and documentation
      that failed to load becomes the empty list. */
  function NewService(apiKey: Option<string>, envModel: Option<string>, loadedDocs: Option<seq<Doc>>): (s: Service)
    ensures s.apiKey == apiKey && s.model != ""
    ensures envModel.Some? && envModel.value != "" ==> s.model == envModel.value
    ensures envModel.None? || envModel.value == "" ==> s.model == DEFAULT_MODEL
    ensures loadedDocs.None? ==> s.documentation == []
    ensures loadedDocs.Some? ==> s.documentation == loadedDocs.value
  {
    Service(apiKey,
            if envModel.Some? && envModel.value != "" then envModel.value else DEFAULT_MODEL,
            if loadedDocs.Some? then loadedDocs.value else [])
  }

  /** The body of the chat completions request (temperature not modelled). */
  datatype Request = Request(model: string, messages: seq<ChatMessage>, maxTokens: nat)

  /** The decoded answer: `choices[0].message.content` and `usage.total_tokens`. */
  datatype Completion = Completion(text: string, totalTokens: nat)

  /** The request `generateResponse` sends outside demo mode. */
  function RequestFor(s: Service, userMessage: string, history: seq<Store.Turn>): Request
  {
    Request(s.model, Messages(SystemPrompt(s.documentation), history, userMessage), MAX_TOKENS)
  }

  /** `generateResponse(userMessage, conversationHistory)`. The external
      model is `generate`; `None` stands for any failure of the call or of
      decoding its response. */
  function Respond(s: Service, generate: Request -> Option<Completion>, userMessage: string, history: seq<Store.Turn>): Reply
  {
    if IsDemoMode(s.apiKey) then DemoResponse(s.documentation, userMessage)
    else match generate(RequestFor(s, userMessage, history))
      case None => TECHNICAL_DIFFICULTIES
      case Some(c) => Reply(c.text, c.totalTokens)
  }

  /** In demo mode the reply depends on the documentation and the message
      alone: neither the history nor the external model matters. */
  lemma DemoModeIgnoresHistory(s: Service, g1: Request -> Option<Completion>, g2: Request -> Option<Completion>,
                               userMessage: string, h1: seq<Store.Turn>, h2: seq<Store.Turn>)
    requires IsDemoMode(s.apiKey)
    ensures Respond(s, g1, userMessage, h1) == Respond(s, g2, userMessage, h2) == DemoResponse(s.documentation, userMessage)
  {
  }

  /** Outside demo mode a failed call is swallowed into the fixed
      technical-difficulties reply with no tokens; a successful one is
      passed on unchanged. */
  lemma GenerationOutcome(s: Service, generate: Request -> Option<Completion>, userMessage: string, history: seq<Store.Turn>)
    requires !IsDemoMode(s.apiKey)
    ensures generate(RequestFor(s, userMessage, history)).None? ==>
              Respond(s, generate, userMessage, history) == TECHNICAL_DIFFICULTIES
    ensures generate(RequestFor(s, userMessage, history)).Some? ==>
              var c := generate(RequestFor(s, userMessage, history)).value;
              Respond(s, generate, userMessage, history) == Reply(c.text, c.totalTokens)
  {
  }

  /** When docs.json could not be loaded, every demo reply is the fallback. */
  lemma LoadFailureMeansFallback(apiKey: Option<string>, envModel: Option<string>, userMessage: string)
    ensures DemoResponse(NewService(apiKey, envModel, None).documentation, userMessage) == FALLBACK
  {
    ResolveWithoutDocs(DEMO_RULES, Lower(userMessage));
  }

  /** `generateResponse` as the server runs it: the message list is built
      step by step before the external call. */
  method GenerateResponse(s: Service, generate: Request -> Option<Completion>, userMessage: string, history: seq<Store.Turn>)
    returns (r: Reply)
    ensures r == Respond(s, generate, userMessage, history)
  {
    if IsDemoMode(s.apiKey) {
      return DemoResponse(s.documentation, userMessage);
    }
    var messages := BuildMessages(SystemPrompt(s.documentation), history, userMessage);
    var response := generate(Request(s.model, messages, MAX_TOKENS));
    match response {
      case None => r := TECHNICAL_DIFFICULTIES;
      case Some(c) => r := Reply(c.text, c.totalTokens);
    }
  }
}
