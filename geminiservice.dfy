/**
 * The service layer of services/geminiService.ts: which key it uses, how it fails without
 * one, how it turns a thrown error into a user-facing message, and what each tool wrapper
 * sends and returns for each outcome of the remote call.
 *
 * The remote call itself is not modelled. Each wrapper is given the outcome the service would
 * receive (the reply's `text`, or the message of the error it throws) and returns a `Call`:
 * the request it sends, if it gets that far, and its result (`Err` for a thrown `Error`).
 */
module GeminiService {
  import opened Wrappers
  import opened Strings
  import opened Environment
  import opened Fences

  const TextModel := "gemini-3-flash-preview"
  const ImageModel := "gemini-3-pro-image-preview"

  // The messages are written in pieces of at most a few dozen characters, which the verifier
  // can take apart character by character.

  const KeyMissing := "API Key Missing: Please add " + "VITE_API_KEY to your Vercel " + "project settings and redeploy."

  const RateLimited := "Rate Limit/Quota Exceeded: " + "Your project is out of free requests. "
    + "Try clicking 'Pro Mode' in the sidebar " + "to use your own private key."
  const AccessDenied := "Access Denied: Is the " + "Generative Language API " + "enabled for this key?"
  const InvalidKey := "Invalid API Key: " + "Please check your configuration."
  const SafetyBlocked := "Blocked by Safety Filter: " + "The content was flagged " + "as unsafe by the AI model."
  const ConnectionError := "AI Connection Error: "
  const NoDetail := "Something went wrong " + "while connecting to the AI."

  const NoImage := "No image generated."

  // ---------------------------------------------------------------------------
  // The key

  /** `getActiveKey()`: the `||` chain over the five places a key can be. */
  function GetActiveKey(e: Env): Option<string> {
    Or(Or(Or(Or(ProcessApiKey(e), ProcessViteKey(e)), e.windowApiKey), e.windowViteKey), e.metaViteKey)
  }

  /** The order in which the service looks for a key. */
  function ServiceSources(e: Env): seq<Option<string>> {
    [ProcessApiKey(e), ProcessViteKey(e), e.windowApiKey, e.windowViteKey, e.metaViteKey]
  }

  /**
   * The service's key is the first truthy of process.env.API_KEY, process.env.VITE_API_KEY,
   * window.API_KEY, window.VITE_API_KEY and import.meta.env.VITE_API_KEY; an empty string
   * counts as absent.
   */
  lemma GetActiveKeyIsFirstTruthy(e: Env)
    ensures Truthy(GetActiveKey(e)) ==> GetActiveKey(e) == FirstTruthy(ServiceSources(e))
    ensures !Truthy(GetActiveKey(e)) <==> FirstTruthy(ServiceSources(e)).None?
  {
    var cs := ServiceSources(e);
    var c1, c2, c3, c4 := cs[1..], cs[2..], cs[3..], cs[4..];
    assert c1[1..] == c2 && c2[1..] == c3 && c3[1..] == c4 && c4[1..] == [];
    assert FirstTruthy(cs) == if Truthy(cs[0]) then cs[0] else FirstTruthy(c1);
    assert FirstTruthy(c1) == if Truthy(cs[1]) then cs[1] else FirstTruthy(c2);
    assert FirstTruthy(c2) == if Truthy(cs[2]) then cs[2] else FirstTruthy(c3);
    assert FirstTruthy(c3) == if Truthy(cs[3]) then cs[3] else FirstTruthy(c4);
  }

  /** The service and the start-up shim look at the same five places, so they agree on whether there is a key. */
  lemma SameKeyPresence(e: Env)
    ensures Truthy(GetActiveKey(e)) <==> Truthy(DetectedKey(e))
  {
  }

  /** The two precedences differ: with keys in both process.env.API_KEY and import.meta.env they pick different ones. */
  lemma PrecedencesDiffer()
    ensures var e := Env(Some(Process(Some(ProcessEnv(Some("p"), None)))), None, None, Some("m"));
            GetActiveKey(e) == Some("p") && DetectedKey(e) == Some("m")
  {
  }

  /**
   * After the shim has run the service uses the key the shim detected, because the shim writes
   * it to process.env.API_KEY, the first place the service looks; without one there is still none.
   */
  lemma ServiceUsesShimKey(before: Env, after: Env)
    requires ShimmedFrom(before, after)
    ensures Truthy(DetectedKey(before)) ==> GetActiveKey(after) == DetectedKey(before)
    ensures !Truthy(DetectedKey(before)) ==> !Truthy(GetActiveKey(after))
  {
  }

  /** `createAiClient()`: the client is built with the active key, or `Error(KeyMissing)` is thrown. */
  function CreateAiClient(e: Env): (r: Result<string, string>)
    ensures r.Ok? <==> Truthy(GetActiveKey(e))
    ensures r.Ok? ==> r.value != "" && GetActiveKey(e) == Some(r.value)
    ensures r.Err? ==> r.error == KeyMissing
  {
    var key := GetActiveKey(e);
    if !Truthy(key) then Err(KeyMissing) else Ok(key.value)
  }

  // ---------------------------------------------------------------------------
  // Error messages

  /** The status codes and marker `handleApiError` looks for, in the order it tries them. */
  const Codes: seq<string> := ["429", "403", "401", "SAFETY"]

  /** The message for each entry of `Codes`. */
  const CodeMessages: seq<string> := [RateLimited, AccessDenied, InvalidKey, SafetyBlocked]

  /** Reference definition of an ordered classifier: the first of `codes` that `msg` contains. */
  function FirstCodeIn(msg: string, codes: seq<string>): (r: Option<nat>)
    ensures r.Some? ==> r.value < |codes| && Contains(msg, codes[r.value])
    ensures r.Some? ==> forall j :: 0 <= j < r.value ==> !Contains(msg, codes[j])
    ensures r.None? ==> forall j :: 0 <= j < |codes| ==> !Contains(msg, codes[j])
    decreases |codes|
  {
    if codes == [] then None
    else if Contains(msg, codes[0]) then Some(0)
    else
      match FirstCodeIn(msg, codes[1..])
      case None => None
      case Some(k) => Some(k + 1)
  }

  /** `error?.message || ""` */
  function ErrorText(message: Option<string>): string {
    if Truthy(message) then message.value else ""
  }

  /**
   * `handleApiError(error)`: the message for the first of "429", "403", "401", "SAFETY" that
   * the error's message contains; otherwise "AI Connection Error: " and the message, or a
   * generic text when there is none.
   */
  function HandleApiError(message: Option<string>): (r: string)
    ensures var msg := ErrorText(message);
            match FirstCodeIn(msg, Codes)
            case Some(i) => r == CodeMessages[i]
            case None => r == ConnectionError + (if msg == "" then NoDetail else msg)
  {
    var msg := ErrorText(message);
    var c1, c2, c3 := Codes[1..], Codes[2..], Codes[3..];
    assert c1[1..] == c2 && c2[1..] == c3 && c3[1..] == [];
    if Contains(msg, "429") then RateLimited
    else if Contains(msg, "403") then AccessDenied
    else if Contains(msg, "401") then InvalidKey
    else if Contains(msg, "SAFETY") then SafetyBlocked
    else ConnectionError + (if msg == "" then NoDetail else msg)
  }

  /** The first two characters of the user-facing message for each class. */
  function ClassTag(c: Option<nat>): string {
    match c
    case None => "AI"
    case Some(i) => if i == 0 then "Ra" else if i == 1 then "Ac" else if i == 2 then "In" else "Bl"
  }

  /** Every message begins with the tag of its class. */
  lemma HandleApiErrorTag(message: Option<string>)
    ensures |HandleApiError(message)| >= 2
    ensures HandleApiError(message)[..2] == ClassTag(FirstCodeIn(ErrorText(message), Codes))
  {
    var msg := ErrorText(message);
    var r := HandleApiError(message);
    match FirstCodeIn(msg, Codes)
    case None =>
      var tail := if msg == "" then NoDetail else msg;
      assert r == ConnectionError + tail;
      assert r[..2] == [r[0], r[1]];
    case Some(i) =>
      CodeMessageTag(i);
  }

  /** The message for each code begins with that code's tag. */
  lemma CodeMessageTag(i: nat)
    requires i < 4
    ensures |CodeMessages[i]| >= 2 && CodeMessages[i][..2] == ClassTag(Some(i))
  {
    var r := CodeMessages[i];
    assert r[..2] == [r[0], r[1]];
    if i == 0 {
      var p := "Rate Limit/Quota Exceeded: ";
      assert r == RateLimited && r[0] == p[0] && r[1] == p[1];
    } else if i == 1 {
      var p := "Access Denied: Is the ";
      assert r == AccessDenied && r[0] == p[0] && r[1] == p[1];
    } else if i == 2 {
      var p := "Invalid API Key: ";
      assert r == InvalidKey && r[0] == p[0] && r[1] == p[1];
    } else {
      var p := "Blocked by Safety Filter: ";
      assert r == SafetyBlocked && r[0] == p[0] && r[1] == p[1];
    }
  }

  /** Different classes have different tags. */
  lemma ClassTagInjective(c: Option<nat>, d: Option<nat>)
    requires c.Some? ==> c.value < 4
    requires d.Some? ==> d.value < 4
    requires ClassTag(c) == ClassTag(d)
    ensures c == d
  {
    var tc, td := ClassTag(c), ClassTag(d);
    assert tc[0] == td[0] && tc[1] == td[1];
  }

  /** Classified messages are told apart from each other and from connection errors. */
  lemma ErrorMessagesDistinct(a: Option<string>, b: Option<string>)
    requires HandleApiError(a) == HandleApiError(b)
    ensures FirstCodeIn(ErrorText(a), Codes) == FirstCodeIn(ErrorText(b), Codes)
  {
    HandleApiErrorTag(a);
    HandleApiErrorTag(b);
    ClassTagInjective(FirstCodeIn(ErrorText(a), Codes), FirstCodeIn(ErrorText(b), Codes));
  }

  /**
   * A message with no digit 4 and no capital S cannot hold any of the codes, so it is kept
   * after the connection-error prefix.
   */
  lemma UnclassifiedMessageKept(m: string)
    requires m != "" && '4' !in m && 'S' !in m
    ensures HandleApiError(Some(m)) == ConnectionError + m
  {
    NotContainsWithoutHead(m, "429");
    NotContainsWithoutHead(m, "403");
    NotContainsWithoutHead(m, "401");
    NotContainsWithoutHead(m, "SAFETY");
  }

  /** The image wrapper's own throw is caught and reported as a connection error. */
  lemma NoImageMessage()
    ensures HandleApiError(Some(NoImage)) == ConnectionError + NoImage
  {
    UnclassifiedMessageKept(NoImage);
  }

  /**
   * Were the missing-key error thrown inside the wrappers' `try`, the user would see it
   * rewritten; it is thrown before, so it reaches the caller as it is.
   */
  lemma KeyMissingWouldBeRewritten()
    ensures HandleApiError(Some(KeyMissing)) == ConnectionError + KeyMissing
    ensures HandleApiError(Some(KeyMissing)) != KeyMissing
  {
    KeyMissingHasNoCode();
    UnclassifiedMessageKept(KeyMissing);
    assert |ConnectionError| > 0;
  }

  /** The missing-key message holds neither a 4 nor a capital S. */
  lemma KeyMissingHasNoCode()
    ensures '4' !in KeyMissing && 'S' !in KeyMissing
  {
    NoCodeMarkIn1();
    NoCodeMarkIn2();
    NoCodeMarkIn3();
  }

  // One piece of the message at a time.

  lemma NoCodeMarkIn1()
    ensures var p := "API Key Missing: Please add "; '4' !in p && 'S' !in p
  {
  }

  lemma NoCodeMarkIn2()
    ensures var p := "VITE_API_KEY to your Vercel "; '4' !in p && 'S' !in p
  {
  }

  lemma NoCodeMarkIn3()
    ensures var p := "project settings and redeploy."; '4' !in p && 'S' !in p
  {
  }

  // ---------------------------------------------------------------------------
  // Calls

  /** A request to the remote model. */
  datatype Request = Request(apiKey: string, model: string, prompt: string, jsonResponse: bool)

  /** What a wrapper did: the request it sent, if any, and what it returned or threw. */
  datatype Call = Call(sent: Option<Request>, result: Result<string, string>)

  /** The outcome of a text request: the reply's `text`, or the thrown error's `message`. */
  type TextReply = Result<Option<string>, Option<string>>

  /** What a wrapper makes of the reply's text. */
  datatype Finish =
    | Cleaned              // cleanMarkdown(response.text)
    | TrimmedOr(fallback: string)  // response.text?.trim() || fallback
    | RawOr(fallback: string)      // response.text || fallback

  function Finished(f: Finish, text: Option<string>): (r: string)
    ensures f.Cleaned? ==> r == CleanMarkdown(text)
    ensures f.TrimmedOr? ==> r == (if text.Some? && Trim(text.value) != "" then Trim(text.value) else f.fallback)
    ensures f.RawOr? ==> r == (if Truthy(text) then text.value else f.fallback)
    ensures !f.Cleaned? && f.fallback != "" ==> r != ""
  {
    match f
    case Cleaned => CleanMarkdown(text)
    case TrimmedOr(fallback) =>
      var t := if text.Some? then Some(Trim(text.value)) else None;
      if Truthy(t) then t.value else fallback
    case RawOr(fallback) => if Truthy(text) then text.value else fallback
  }

  /**
   * What a text wrapper does for a given environment and reply: without a key it throws
   * `KeyMissing` before its `try` and sends nothing; otherwise it sends `prompt` with the
   * active key, finishes the reply's text, or rethrows a failure through `handleApiError`.
   */
  predicate ActsAs(c: Call, e: Env, model: string, prompt: string, json: bool, reply: TextReply, finish: Finish) {
    var key := GetActiveKey(e);
    if !Truthy(key) then c == Call(None, Err(KeyMissing))
    else
      && c.sent == Some(Request(key.value, model, prompt, json))
      && c.result == (if reply.Err? then Err(HandleApiError(reply.error)) else Ok(Finished(finish, reply.value)))
  }

  /** The body every text wrapper shares: `createAiClient()`, then `try { … } catch { throw … }`. */
  function Ask(e: Env, model: string, prompt: string, json: bool, reply: TextReply, finish: Finish): (c: Call)
    ensures ActsAs(c, e, model, prompt, json, reply, finish)
  {
    match CreateAiClient(e)
    case Err(m) => Call(None, Err(m))
    case Ok(key) =>
      var sent := Some(Request(key, model, prompt, json));
      match reply
      case Err(m) => Call(sent, Err(HandleApiError(m)))
      case Ok(text) => Call(sent, Ok(Finished(finish, text)))
  }

  // ---------------------------------------------------------------------------
  // Mock data

  datatype Format = JSON | CSV | SQL
  datatype Complexity = Simple | Complex

  /** `MockDataRequest` of types.ts; the count comes from a range input and is a whole number. */
  datatype MockDataRequest = MockDataRequest(topic: string, format: Format, count: nat, complexity: Complexity)

  function FormatName(f: Format): string {
    match f
    case JSON => "JSON"
    case CSV => "CSV"
    case SQL => "SQL"
  }

  function ComplexityName(c: Complexity): string {
    match c
    case Simple => "Simple"
    case Complex => "Complex"
  }

  /** The sentence every mock-data prompt starts with. */
  function MockPromptHead(req: MockDataRequest): string {
    "Generate " + NatToString(req.count) + " records of " + ToLower(ComplexityName(req.complexity))
      + " mock data about \"" + req.topic + "\"."
  }

  /** The instruction appended for the requested format. */
  function MockPromptTail(f: Format): string {
    if f == JSON then " Return ONLY a raw JSON array."
    else " Return ONLY the raw data in " + FormatName(f) + " format."
  }

  /** The complexity is named in lower case in the prompt. */
  lemma MockPromptNamesComplexity(req: MockDataRequest)
    ensures ToLower(ComplexityName(req.complexity)) == (if req.complexity == Simple then "simple" else "complex")
  {
  }

  /**
   * `generateMockData(req)`: the prompt is built with `+=`; JSON replies are returned raw (or
   * "[]"), CSV and SQL replies go through cleanMarkdown.
   */
  method GenerateMockData(e: Env, req: MockDataRequest, reply: TextReply) returns (c: Call)
    ensures ActsAs(c, e, TextModel, MockPromptHead(req) + MockPromptTail(req.format), req.format == JSON, reply,
                   if req.format == JSON then RawOr("[]") else Cleaned)
  {
    var client := CreateAiClient(e);
    if client.Err? {
      return Call(None, Err(client.error));
    }
    var prompt := "Generate " + NatToString(req.count) + " records of " + ToLower(ComplexityName(req.complexity))
      + " mock data about \"" + req.topic + "\".";
    assert prompt == MockPromptHead(req);
    var request: Request;
    if req.format == JSON {
      prompt := prompt + " Return ONLY a raw JSON array.";
      assert prompt == MockPromptHead(req) + MockPromptTail(req.format);
      request := Request(client.value, TextModel, prompt, true);
      match reply {
        case Err(m) => c := Call(Some(request), Err(HandleApiError(m)));
        case Ok(text) => c := Call(Some(request), Ok(if Truthy(text) then text.value else "[]"));
      }
    } else {
      prompt := prompt + " Return ONLY the raw data in " + FormatName(req.format) + " format.";
      assert prompt == MockPromptHead(req) + MockPromptTail(req.format);
      request := Request(client.value, TextModel, prompt, false);
      match reply {
        case Err(m) => c := Call(Some(request), Err(HandleApiError(m)));
        case Ok(text) => c := Call(Some(request), Ok(CleanMarkdown(text)));
      }
    }
  }

  // ---------------------------------------------------------------------------
  // The other text tools

  /** `code.substring(0, 500)` */
  function Prefix500(code: string): (r: string)
    ensures |r| <= 500 && r <= code
    ensures |code| <= 500 ==> r == code
    ensures |code| > 500 ==> |r| == 500
  {
    if |code| <= 500 then code else code[..500]
  }

  const DetectPrompt := "Identify the programming language. Reply with ONLY the name:\n\n"

  /**
   * `detectLanguage(code)`: only the first 500 characters are sent; the trimmed reply, or
   * "JavaScript" for an empty reply or a failed request. A missing key is thrown before the
   * `try` and gets no fallback.
   */
  function DetectLanguage(e: Env, code: string, reply: TextReply): (c: Call)
    ensures !Truthy(GetActiveKey(e)) ==> c == Call(None, Err(KeyMissing))
    ensures Truthy(GetActiveKey(e)) ==>
      && c.sent == Some(Request(GetActiveKey(e).value, TextModel, DetectPrompt + Prefix500(code), false))
      && c.result.Ok? && c.result.value != ""
    ensures Truthy(GetActiveKey(e)) && reply.Err? ==> c.result == Ok("JavaScript")
    ensures Truthy(GetActiveKey(e)) && reply.Ok? ==> c.result == Ok(Finished(TrimmedOr("JavaScript"), reply.value))
  {
    match CreateAiClient(e)
    case Err(m) => Call(None, Err(m))
    case Ok(key) =>
      var sent := Some(Request(key, TextModel, DetectPrompt + Prefix500(code), false));
      match reply
      case Err(_) => Call(sent, Ok("JavaScript"))
      case Ok(text) => Call(sent, Ok(Finished(TrimmedOr("JavaScript"), text)))
  }

  /** A detected language is trimmed: neither end is whitespace. */
  lemma DetectedLanguageTrimmed(e: Env, code: string, reply: TextReply)
    requires DetectLanguage(e, code, reply).result.Ok?
    ensures Trimmed(DetectLanguage(e, code, reply).result.value)
  {
  }

  // The prompts each wrapper sends, with the caller's text in place.

  function SimplifyPrompt(code: string, language: string): string {
    "Refactor this " + language + " code to be more readable, "
      + "efficient and modern. Return ONLY the code:\n\n" + code
  }

  function JsonTypesPrompt(jsonContent: string, language: string): string {
    "You are a senior developer. " + "Convert this raw JSON object into " + language
      + " type definitions (interfaces/classes). " + "Use standard naming conventions. "
      + "Return ONLY the code, " + "NO explanation or markdown headers:\n\n" + jsonContent
  }

  function ReadmePrompt(projectInfo: string, style: string): string {
    "Generate a " + style + " README.md for: " + projectInfo + ". Return raw markdown only."
  }

  function CommitPrompt(changes: string, style: string): string {
    "Write a Git commit message for: \"" + changes + "\". Style: " + style + ". Message only."
  }

  function SqlPrompt(sql: string, target: string): string {
    "Convert this SQL to " + target + ". Optimize structure, " + "no markdown, code only:\n\n" + sql
  }

  function RegexPrompt(description: string, testString: string): string {
    "You are a Regex expert. " + "Generate a Regular Expression for: \"" + description
      + "\". Validate it against " + "this test string: \"" + testString
      + "\". Return valid JSON with " + "\"regex\" and \"explanation\" keys."
  }

  function CronPrompt(description: string): string {
    "Convert to Cron: \"" + description + "\". Return JSON {cron, explanation}"
  }

  /** `simplifyCode(code, language)` */
  function SimplifyCode(e: Env, code: string, language: string, reply: TextReply): (c: Call)
    ensures ActsAs(c, e, TextModel, SimplifyPrompt(code, language), false, reply, Cleaned)
  {
    Ask(e, TextModel, SimplifyPrompt(code, language), false, reply, Cleaned)
  }

  /** `convertJsonToTypes(jsonContent, language)` */
  function ConvertJsonToTypes(e: Env, jsonContent: string, language: string, reply: TextReply): (c: Call)
    ensures ActsAs(c, e, TextModel, JsonTypesPrompt(jsonContent, language), false, reply, Cleaned)
  {
    Ask(e, TextModel, JsonTypesPrompt(jsonContent, language), false, reply, Cleaned)
  }

  /** `generateReadme(projectInfo, style = "Standard")`; an absent style takes the default. */
  function GenerateReadme(e: Env, projectInfo: string, style: Option<string>, reply: TextReply): (c: Call)
    ensures var s := if style.Some? then style.value else "Standard";
            ActsAs(c, e, TextModel, ReadmePrompt(projectInfo, s), false, reply, Cleaned)
  {
    var s := if style.Some? then style.value else "Standard";
    Ask(e, TextModel, ReadmePrompt(projectInfo, s), false, reply, Cleaned)
  }

  /** `generateCommitMessage(changes, style)`: the trimmed reply, or "chore: update code". */
  function GenerateCommitMessage(e: Env, changes: string, style: string, reply: TextReply): (c: Call)
    ensures ActsAs(c, e, TextModel, CommitPrompt(changes, style), false, reply, TrimmedOr("chore: update code"))
    ensures c.result.Ok? ==> c.result.value != "" && Trimmed(c.result.value)
  {
    Ask(e, TextModel, CommitPrompt(changes, style), false, reply, TrimmedOr("chore: update code"))
  }

  /** `sqlToNoSql(sql, target)` */
  function SqlToNoSql(e: Env, sql: string, target: string, reply: TextReply): (c: Call)
    ensures ActsAs(c, e, TextModel, SqlPrompt(sql, target), false, reply, Cleaned)
  {
    Ask(e, TextModel, SqlPrompt(sql, target), false, reply, Cleaned)
  }

  /** `generateRegex(description, testString)`, up to the text it hands to `JSON.parse`. */
  function GenerateRegex(e: Env, description: string, testString: string, reply: TextReply): (c: Call)
    ensures ActsAs(c, e, TextModel, RegexPrompt(description, testString), true, reply, RawOr("{}"))
  {
    Ask(e, TextModel, RegexPrompt(description, testString), true, reply, RawOr("{}"))
  }

  /** `generateCron(description)`, up to the text it hands to `JSON.parse`. */
  function GenerateCron(e: Env, description: string, reply: TextReply): (c: Call)
    ensures ActsAs(c, e, TextModel, CronPrompt(description), true, reply, RawOr("{}"))
  {
    Ask(e, TextModel, CronPrompt(description), true, reply, RawOr("{}"))
  }

  // ---------------------------------------------------------------------------
  // Images

  /** `part.inlineData`, whose `data` is the base64 text of the image. */
  datatype InlineData = InlineData(data: Option<string>)
  datatype Part = Part(inlineData: Option<InlineData>)

  /**
   * The outcome of an image request: `response.candidates?.[0]?.content?.parts` (absent when
   * any link of that chain is missing), or the thrown error's `message`.
   */
  type ImageReply = Result<Option<seq<Part>>, Option<string>>

  /** The inline data of the first part that carries any. */
  function FirstInlineData(parts: seq<Part>): (r: Option<InlineData>)
    ensures r.Some? ==> exists i :: 0 <= i < |parts| && parts[i].inlineData == r
                                    && forall j :: 0 <= j < i ==> parts[j].inlineData.None?
    ensures r.None? <==> forall i :: 0 <= i < |parts| ==> parts[i].inlineData.None?
    decreases |parts|
  {
    if parts == [] then None
    else if parts[0].inlineData.Some? then parts[0].inlineData
    else
      assert forall i :: 1 <= i < |parts| ==> parts[i] == parts[1..][i - 1];
      FirstInlineData(parts[1..])
  }

  /** `data:image/png;base64,${part.inlineData.data}`; an absent `data` prints as "undefined". */
  function DataUrl(d: InlineData): string {
    "data:image/png;base64," + (if d.data.Some? then d.data.value else "undefined")
  }

  function OgPrompt(title: string, subtitle: string, tech: string): string {
    "Developer OG Image. Project: \"" + title + "\". Tagline: \"" + subtitle + "\". Tech: " + tech
      + ". Professional dark theme, minimalist."
  }

  /**
   * `generateOgImage(title, subtitle, tech)`: the data URL of the first part with inline data;
   * with none, its own "No image generated." is caught and rethrown through handleApiError.
   */
  method GenerateOgImage(e: Env, title: string, subtitle: string, tech: string, reply: ImageReply) returns (c: Call)
    ensures !Truthy(GetActiveKey(e)) ==> c == Call(None, Err(KeyMissing))
    ensures Truthy(GetActiveKey(e)) ==> c.sent == Some(Request(GetActiveKey(e).value, ImageModel, OgPrompt(title, subtitle, tech), false))
    ensures Truthy(GetActiveKey(e)) && reply.Err? ==> c.result == Err(HandleApiError(reply.error))
    ensures Truthy(GetActiveKey(e)) && reply.Ok? ==>
      var parts := if reply.value.Some? then reply.value.value else [];
      c.result == (match FirstInlineData(parts)
                   case Some(d) => Ok(DataUrl(d))
                   case None => Err(ConnectionError + NoImage))
  {
    var client := CreateAiClient(e);
    if client.Err? {
      return Call(None, Err(client.error));
    }
    var sent := Some(Request(client.value, ImageModel, OgPrompt(title, subtitle, tech), false));
    if reply.Err? {
      return Call(sent, Err(HandleApiError(reply.error)));
    }
    var parts := if reply.value.Some? then reply.value.value else [];
    var i := 0;
    while i < |parts|
      invariant 0 <= i <= |parts|
      invariant forall j :: 0 <= j < i ==> parts[j].inlineData.None?
    {
      if parts[i].inlineData.Some? {
        return Call(sent, Ok(DataUrl(parts[i].inlineData.value)));
      }
      i := i + 1;
    }
    NoImageMessage();
    return Call(sent, Err(HandleApiError(Some(NoImage))));
  }

  // ---------------------------------------------------------------------------
  // Without a key

  /**
   * With no key every text tool fails with exactly the missing-key message and sends nothing;
   * detectLanguage does not fall back to "JavaScript" in that case.
   */
  lemma NoKeyNoRequest(e: Env, a: string, b: string, reply: TextReply)
    requires !Truthy(GetActiveKey(e))
    ensures DetectLanguage(e, a, reply) == Call(None, Err(KeyMissing))
    ensures SimplifyCode(e, a, b, reply) == Call(None, Err(KeyMissing))
    ensures ConvertJsonToTypes(e, a, b, reply) == Call(None, Err(KeyMissing))
    ensures GenerateReadme(e, a, Some(b), reply) == Call(None, Err(KeyMissing))
    ensures GenerateCommitMessage(e, a, b, reply) == Call(None, Err(KeyMissing))
    ensures SqlToNoSql(e, a, b, reply) == Call(None, Err(KeyMissing))
    ensures GenerateRegex(e, a, b, reply) == Call(None, Err(KeyMissing))
    ensures GenerateCron(e, a, reply) == Call(None, Err(KeyMissing))
  {
  }
}
