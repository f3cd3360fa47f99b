/**
  The request handler of the `chat-interview` edge function
  (supabase/functions/chat-interview/index.ts). The awaited I/O, meaning the
  request body, the API key lookup, the AI gateway's reply and its JSON, are
  arguments. The handler is a cascade of checks that yields one response.
 */
module ChatInterview {
  import opened Text

  /** The JSON body of a response: `null`, `{ error }` or `{ answer }`. */
  datatype Body = Null | ErrorBody(error: string) | AnswerBody(answer: string)

  datatype Response = Response(status: int, headers: map<string, string>, body: Body)

  /**
    The outcome of `req.json()` and the destructuring of `question`. The
    empty string stands for a missing or falsy question.
   */
  datatype RequestBody = MalformedBody(reason: string) | JsonBody(question: string)

  datatype Request = Request(verb: string, body: RequestBody)

  /**
    The outcome of `response.json()` on a gateway reply and the lookup of
    `choices[0].message.content` ("" when it is missing or falsy).
   */
  datatype Completion = MalformedCompletion(reason: string) | Content(content: string)

  /** The outcome of `response.text()`, read only when the reply is not ok. */
  datatype ErrorText = TextUnreadable(reason: string) | TextRead(text: string)

  /** The outcome of the `fetch` to the AI gateway. */
  datatype Gateway =
    | Unreachable(reason: string)
    | Replied(status: int, errorText: ErrorText, completion: Completion)

  const CorsHeaders: map<string, string> := map[
    "Access-Control-Allow-Origin" := "*",
    "Access-Control-Allow-Headers" := "authorization, x-client-info, apikey, content-type"
  ]

  const JsonHeaders: map<string, string> := CorsHeaders["Content-Type" := "application/json"]

  const RateLimited := "Rate limit exceeded. Please try again in a moment."
  const UsageLimited := "AI usage limit reached. Please add credits to continue."
  const QuestionRequired := "Question is required"
  const KeyMissing := "LOVABLE_API_KEY is not configured"
  const NoAnswer := "No response from AI"
  const GatewayErrorPrefix := "AI Gateway error: "
  const Refusal := "I'm sorry—I can't help with that. I can discuss legal and ethical alternatives if you want, or we can focus on interview-related questions about my background, skills, and experience."

  /** The lower-case words of the four `/word/i` disallowed patterns. */
  const DisallowedWords: seq<string> := ["illegal", "violence", "self-harm", "explicit"]

  /** Some word of `words` occurs in `question`, in any letter case. */
  ghost predicate MentionsAny(words: seq<string>, question: string) {
    exists k, i :: 0 <= k < |words| && OccursAt(Lower(question), words[k], i)
  }

  ghost predicate Disallowed(question: string) {
    MentionsAny(DisallowedWords, question)
  }

  /** `patterns.some(pattern => pattern.test(question))` for the `/word/i` patterns of `words`. */
  function SomePatternMatches(words: seq<string>, question: string): (b: bool)
    ensures b <==> MentionsAny(words, question)
  {
    if words == [] then false
    else if MatchesIgnoringCase(question, words[0]) then true
    else
      var b := SomePatternMatches(words[1..], question);
      assert MentionsAny(words, question) ==> b by {
        if MentionsAny(words, question) {
          var k, i :| 0 <= k < |words| && OccursAt(Lower(question), words[k], i);
          assert k != 0;
          assert OccursAt(Lower(question), words[1..][k - 1], i);
        }
      }
      assert b ==> MentionsAny(words, question) by {
        if b {
          var k, i :| 0 <= k < |words| - 1 && OccursAt(Lower(question), words[1..][k], i);
          assert OccursAt(Lower(question), words[k + 1], i);
        }
      }
      b
  }

  /** The disallowed-content check of the handler. */
  function HasDisallowedContent(question: string): (b: bool)
    ensures b <==> Disallowed(question)
  {
    SomePatternMatches(DisallowedWords, question)
  }

  /** The catch block: status 500 with the thrown error's message, as JSON with the CORS headers. */
  function Failure(message: string): (r: Response)
    ensures r.status == 500 && r.body == ErrorBody(message)
    ensures "Content-Type" in r.headers && r.headers["Content-Type"] == "application/json"
    ensures forall h :: h in CorsHeaders ==> h in r.headers && r.headers[h] == CorsHeaders[h]
  {
    Response(500, JsonHeaders, ErrorBody(message))
  }

  function Json(status: int, body: Body): Response {
    Response(status, JsonHeaders, body)
  }

  /** The gateway reply's `response.ok`: the Fetch standard's 2xx range. */
  function Ok(status: int): (b: bool)
    ensures b <==> 200 <= status <= 299
    ensures b ==> status != 429 && status != 402 && status != 500
    ensures status == 200 ==> b
  {
    200 <= status <= 299
  }

  /**
    The `serve` handler. `apiKeyConfigured` says whether `LOVABLE_API_KEY`
    is set to a non-empty value; `gateway` is what the gateway call would
    return, consulted only once the question and the key have passed.
   */
  function Serve(req: Request, apiKeyConfigured: bool, gateway: Gateway): (r: Response)
    ensures "Access-Control-Allow-Origin" in r.headers && r.headers["Access-Control-Allow-Origin"] == "*"
    ensures r.status in {200, 402, 429, 500}
    ensures r.body.Null? <==> req.verb == "OPTIONS"
    ensures r.body.Null? ==> r == Response(200, CorsHeaders, Null)
    ensures r.body.AnswerBody? <==> r.status == 200 && req.verb != "OPTIONS"
    ensures r.body.ErrorBody? <==> r.status != 200
    ensures r.body.AnswerBody? ==>
              req.body.JsonBody? && req.body.question != "" && apiKeyConfigured &&
              gateway.Replied? && Ok(gateway.status) && gateway.completion.Content? &&
              gateway.completion.content != "" &&
              r.body.answer == (if Disallowed(req.body.question) then Refusal else gateway.completion.content)
  {
    if req.verb == "OPTIONS" then Response(200, CorsHeaders, Null)
    else
      match req.body
      case MalformedBody(reason) => Failure(reason)
      case JsonBody(question) =>
        if question == "" then Failure(QuestionRequired)
        else if !apiKeyConfigured then Failure(KeyMissing)
        else
          match gateway
          case Unreachable(reason) => Failure(reason)
          case Replied(status, errorText, completion) =>
            if !Ok(status) then
              match errorText
              case TextUnreadable(reason) => Failure(reason)
              case TextRead(text) =>
                if status == 429 then Json(429, ErrorBody(RateLimited))
                else if status == 402 then Json(402, ErrorBody(UsageLimited))
                else Failure(GatewayErrorPrefix + text)
            else
              match completion
              case MalformedCompletion(reason) => Failure(reason)
              case Content(content) =>
                if content == "" then Failure(NoAnswer)
                else if HasDisallowedContent(question) then Json(200, AnswerBody(Refusal))
                else Json(200, AnswerBody(content))
  }

  /** A preflight request gets a null body with only the CORS headers, whatever else holds. */
  lemma PreflightFirst(req: Request, apiKeyConfigured: bool, gateway: Gateway)
    requires req.verb == "OPTIONS"
    ensures Serve(req, apiKeyConfigured, gateway) == Response(200, CorsHeaders, Null)
  {
  }

  /**
    The checks that precede the gateway call depend on the request and the key
    alone: a missing question wins over a missing key, and a missing key over
    anything the gateway would do.
   */
  lemma ChecksBeforeGateway(question: string, verb: string, apiKeyConfigured: bool, g1: Gateway, g2: Gateway)
    requires verb != "OPTIONS"
    requires question == "" || !apiKeyConfigured
    ensures Serve(Request(verb, JsonBody(question)), apiKeyConfigured, g1) ==
            Serve(Request(verb, JsonBody(question)), apiKeyConfigured, g2)
    ensures question == "" ==> Serve(Request(verb, JsonBody(question)), apiKeyConfigured, g1) == Failure(QuestionRequired)
    ensures question != "" ==> Serve(Request(verb, JsonBody(question)), apiKeyConfigured, g1) == Failure(KeyMissing)
  {
  }

  /**
    How a failed gateway status is classified: 429 and 402 pass through with
    their own messages, every other failure is a 500 carrying the error text.
    This holds whether or not the question is disallowed.
   */
  lemma GatewayStatusClassified(req: Request, status: int, errorText: string, completion: Completion)
    requires req.verb != "OPTIONS" && req.body.JsonBody? && req.body.question != ""
    requires !Ok(status)
    ensures var r := Serve(req, true, Replied(status, TextRead(errorText), completion));
            r == (if status == 429 then Json(429, ErrorBody(RateLimited))
                  else if status == 402 then Json(402, ErrorBody(UsageLimited))
                  else Failure(GatewayErrorPrefix + errorText))
  {
  }

  /**
    A failed reply whose error body cannot be read ends in the catch block
    before the status is looked at: a 500 with the read's error message,
    even for a 429 or 402 status.
   */
  lemma UnreadableErrorText(req: Request, status: int, reason: string, completion: Completion)
    requires req.verb != "OPTIONS" && req.body.JsonBody? && req.body.question != ""
    requires !Ok(status)
    ensures Serve(req, true, Replied(status, TextUnreadable(reason), completion)) == Failure(reason)
  {
  }

  /**
    Past the key check, the content check applies only to a successful reply
    with content, and then decides the answer from the question alone:
    the refusal when it mentions a disallowed word, the content unchanged otherwise.
   */
  lemma ContentCheck(verb: string, question: string, content: string, status: int, errorText: ErrorText)
    requires verb != "OPTIONS" && question != "" && Ok(status)
    ensures var r := Serve(Request(verb, JsonBody(question)), true, Replied(status, errorText, Content(content)));
            if content == "" then r == Failure(NoAnswer)
            else if Disallowed(question) then r == Json(200, AnswerBody(Refusal))
            else r == Json(200, AnswerBody(content))
  {
  }

  /** A mention of "ILLEGAL" in capitals is refused even when the model answered. */
  lemma RefusalIgnoresCase(content: string)
    requires content != ""
    ensures Serve(Request("POST", JsonBody("Is it ILLEGAL?")), true, Replied(200, TextRead(""), Content(content))) ==
            Json(200, AnswerBody(Refusal))
  {
    var q := "Is it ILLEGAL?";
    assert Lower(q)[6..13] == "illegal";
    assert OccursAt(Lower(q), DisallowedWords[0], 6);
    ContentCheck("POST", q, content, 200, TextRead(""));
  }

  /**
    The disallowed-content check reads the question case-insensitively, for
    every question: lower-casing it first never changes the verdict.
   */
  lemma DisallowedIgnoresCase(question: string)
    ensures HasDisallowedContent(question) == HasDisallowedContent(Lower(question))
  {
    LowerIdempotent(question);
  }
}
