/** backend/app/services/ai_service.py: the provider setup, the parsing of a model's reply
    into draft sections or an analysis, and the request each chat provider is sent. The
    language-model clients, `json.loads` and the two regular expressions are foreign:
    a client call is a `Call<string>` supplied from outside, `json.loads` is a partial
    function `loads` (`None` for a `JSONDecodeError`), and the regex searches are the
    function `sectionOf` (header name to the stripped section text) and the list of
    `(number, text)` pairs `re.findall` yields. */
module AiService {
  import opened Wrappers
  import opened Json
  import opened Strings
  import AiProcessing

  /** What a foreign call does: it returns a value or raises with a message. */
  datatype Call<T> = Returned(value: T) | Raised(message: string)

  datatype Provider = OpenAI | Anthropic | Gemini

  /** The `PRIMARY_LLM_PROVIDER` spelling of each provider. */
  function ProviderName(p: Provider): string {
    match p
    case OpenAI => "openai"
    case Anthropic => "anthropic"
    case Gemini => "gemini"
  }

  /** The model `__init__` selects for each provider. */
  function DefaultModel(p: Provider): string {
    match p
    case OpenAI => "gpt-4-turbo-preview"
    case Anthropic => "claude-3-opus-20240229"
    case Gemini => "gemini-2.5-flash"
  }

  /** What `AIService()` leaves behind: a configured service, or the `ValueError`. */
  datatype Setup = Configured(provider: Provider, model: string) | Unsupported(message: string)

  /** `__init__`: exactly the three provider names are accepted, each with its model;
      anything else, including another spelling, raises. */
  function Configure(setting: string): (r: Setup)
    ensures r.Configured? <==> exists p :: ProviderName(p) == setting
    ensures r.Configured? ==> ProviderName(r.provider) == setting && r.model == DefaultModel(r.provider)
    ensures r.Unsupported? ==> r.message == "Unsupported LLM provider: " + setting
  {
    assert ProviderName(OpenAI) == "openai" && ProviderName(Anthropic) == "anthropic" && ProviderName(Gemini) == "gemini";
    if setting == "openai" then Configured(OpenAI, DefaultModel(OpenAI))
    else if setting == "anthropic" then Configured(Anthropic, DefaultModel(Anthropic))
    else if setting == "gemini" then Configured(Gemini, DefaultModel(Gemini))
    else
      Unsupported("Unsupported LLM provider: " + setting)
  }

  /** Every provider's own name configures that provider. */
  lemma ConfigureRoundTrip(p: Provider)
    ensures Configure(ProviderName(p)) == Configured(p, DefaultModel(p))
  {
  }

  /** The candidate JSON text of a reply: from the first '{' to the last '}', tried only
      when there is a '{' and the last '}' comes after it. */
  function JsonWindow(text: string): (r: Option<string>)
    ensures r.Some? <==> exists i, j :: 0 <= i < j < |text| && text[i] == '{' && text[j] == '}'
    ensures r.Some? ==> |r.value| >= 2 && r.value[0] == '{' && r.value[|r.value| - 1] == '}'
  {
    var start := Find(text, '{');
    var end := RFind(text, '}') + 1;
    if start >= 0 && end > start then
      assert text[start..end][0] == text[start] && text[start..end][end - start - 1] == text[end - 1];
      Some(text[start..end])
    else
      None
  }

  /** With the first '{' at `n` and the last '}' at `m > n`, the window is `text[n..m+1]`. */
  lemma JsonWindowAt(text: string, n: nat, m: nat)
    requires n < m < |text| && text[n] == '{' && text[m] == '}'
    requires '{' !in text[..n] && '}' !in text[m + 1..]
    ensures JsonWindow(text) == Some(text[n..m + 1])
  {
    FindAt(text, '{', n);
    RFindAt(text, '}', m);
  }

  /** Text before the first '{' and after the last '}' is cut away, whatever lies between. */
  lemma JsonWindowOf(pre: string, body: string, post: string)
    requires '{' !in pre && '}' !in post
    ensures JsonWindow(pre + "{" + body + "}" + post) == Some("{" + body + "}")
  {
    var window := "{" + body + "}";
    var text := pre + "{" + body + "}" + post;
    var n := |pre|;
    var m := n + |window| - 1;
    assert text == pre + window + post;
    assert text[..n] == pre && text[n..m + 1] == window && text[m + 1..] == post;
    JsonWindowAt(text, n, m);
  }

  /** `_extract_claims`: nothing without a CLAIMS section, else one "Claim {n}: {text}"
      per match, in order, the text stripped. */
  function ExtractClaims(claimsSection: string, matches: seq<(string, string)>): (r: seq<string>)
    ensures claimsSection == [] ==> r == []
    ensures claimsSection != [] ==> |r| == |matches|
    ensures claimsSection != [] ==> forall i :: 0 <= i < |r| ==>
      r[i] == "Claim " + matches[i].0 + ": " + PyStrip(matches[i].1)
  {
    if claimsSection == [] then []
    else seq(|matches|, i requires 0 <= i < |matches| => "Claim " + matches[i].0 + ": " + PyStrip(matches[i].1))
  }

  /** Stripping twice is stripping once. */
  lemma StripIdempotent(s: string)
    ensures PyStrip(PyStrip(s)) == PyStrip(s)
  {
    TrimEnds(s, IsPySpace);
    if PyStrip(s) != [] {
      StripUnpadded(PyStrip(s));
    }
  }

  /** Each claim reads back as its number and a text that is already stripped. */
  lemma ClaimLayout(claimsSection: string, matches: seq<(string, string)>, i: nat)
    requires claimsSection != [] && i < |matches|
    ensures StartsWith(ExtractClaims(claimsSection, matches)[i], "Claim " + matches[i].0 + ": ")
    ensures var c := ExtractClaims(claimsSection, matches)[i];
            var text := c[|"Claim " + matches[i].0 + ": "|..];
            PyStrip(text) == text
  {
    var head := "Claim " + matches[i].0 + ": ";
    var c := ExtractClaims(claimsSection, matches)[i];
    assert c == head + PyStrip(matches[i].1);
    assert c[..|head|] == head && c[|head|..] == PyStrip(matches[i].1);
    StripIdempotent(matches[i].1);
  }

  const FallbackKeys: set<string> := {"background", "summary", "detailed_description", "claims", "abstract"}

  /** The dictionary of the regex fallback. */
  function FallbackSections(sectionOf: string -> string, claims: seq<string>): (r: Json)
    ensures r.JObj? && r.fields.Keys == FallbackKeys
    ensures r.fields["claims"] == JArr(seq(|claims|, i requires 0 <= i < |claims| => JStr(claims[i])))
    ensures r.fields["background"] == JStr(sectionOf("BACKGROUND")) && r.fields["summary"] == JStr(sectionOf("SUMMARY"))
    ensures r.fields["detailed_description"] == JStr(sectionOf("DETAILED DESCRIPTION"))
    ensures r.fields["abstract"] == JStr(sectionOf("ABSTRACT"))
  {
    JObj(map[
      "background" := JStr(sectionOf("BACKGROUND")),
      "summary" := JStr(sectionOf("SUMMARY")),
      "detailed_description" := JStr(sectionOf("DETAILED DESCRIPTION")),
      "claims" := JArr(seq(|claims|, i requires 0 <= i < |claims| => JStr(claims[i]))),
      "abstract" := JStr(sectionOf("ABSTRACT"))])
  }

  /** `_parse_draft_response`: the JSON window when it parses, else the five fallback
      sections (claims from the CLAIMS section). */
  function ParseDraftResponse(text: string, loads: string -> Option<Json>, sectionOf: string -> string,
                              claimMatches: seq<(string, string)>): (r: Json)
    ensures JsonWindow(text).Some? && loads(JsonWindow(text).value).Some? ==> r == loads(JsonWindow(text).value).value
    ensures JsonWindow(text).None? || loads(JsonWindow(text).value).None? ==>
      r == FallbackSections(sectionOf, ExtractClaims(sectionOf("CLAIMS"), claimMatches))
  {
    var window := JsonWindow(text);
    if window.Some? && loads(window.value).Some? then loads(window.value).value
    else FallbackSections(sectionOf, ExtractClaims(sectionOf("CLAIMS"), claimMatches))
  }

  /** Without a parsable window the parsed draft always has exactly the five sections. */
  lemma ParsedDraftShape(text: string, loads: string -> Option<Json>, sectionOf: string -> string,
                         claimMatches: seq<(string, string)>)
    requires JsonWindow(text).None? || loads(JsonWindow(text).value).None?
    ensures ParseDraftResponse(text, loads, sectionOf, claimMatches).JObj?
    ensures ParseDraftResponse(text, loads, sectionOf, claimMatches).fields.Keys == FallbackKeys
  {
  }

  /** A reply whose braces hold valid JSON needs no fallback, whatever surrounds it. */
  lemma ParsedDraftOfWindow(pre: string, body: string, post: string, loads: string -> Option<Json>,
                            sectionOf: string -> string, claimMatches: seq<(string, string)>)
    requires '{' !in pre && '}' !in post && loads("{" + body + "}").Some?
    ensures ParseDraftResponse(pre + "{" + body + "}" + post, loads, sectionOf, claimMatches) == loads("{" + body + "}").value
  {
    JsonWindowOf(pre, body, post);
  }

  /** The error `generate_patent_draft` raises under "gemini", for which it has no branch:
      `draft_text` is read before it is assigned (wording of Python 3.11 and later). */
  const UnboundDraftText := "cannot access local variable 'draft_text' where it is not associated with a value"

  /** `generate_patent_draft`: the reply parsed into sections; any failure raised again
      with the prefix "AI generation failed: ". */
  function GenerateDraft(provider: Provider, reply: Call<string>, loads: string -> Option<Json>,
                         sectionOf: string -> string, claimMatches: seq<(string, string)>): (r: AiProcessing.Generation)
    ensures r.Raised? ==> StartsWith(r.message, "AI generation failed: ")
    ensures provider == Gemini ==> r == AiProcessing.Raised("AI generation failed: " + UnboundDraftText)
    ensures provider != Gemini && reply.Returned? ==>
      r == AiProcessing.Generated(ParseDraftResponse(reply.value, loads, sectionOf, claimMatches))
    ensures provider != Gemini && reply.Raised? ==> r == AiProcessing.Raised("AI generation failed: " + reply.message)
  {
    var prefix := "AI generation failed: ";
    if provider == Gemini then
      assert (prefix + UnboundDraftText)[..|prefix|] == prefix;
      AiProcessing.Raised(prefix + UnboundDraftText)
    else
      match reply
      case Returned(text) => AiProcessing.Generated(ParseDraftResponse(text, loads, sectionOf, claimMatches))
      case Raised(message) =>
        assert (prefix + message)[..|prefix|] == prefix;
        AiProcessing.Raised(prefix + message)
  }

  /** `summarize_video_transcript` as written: it has no branch for "gemini", so under
      that provider it falls off the end and returns `None`. A raised call becomes the
      text "Error generating summary: ...". */
  function SummarizeAsWritten(provider: Provider, reply: Call<string>): (r: Option<string>)
    ensures r.None? <==> provider == Gemini
  {
    if provider == Gemini then None
    else match reply
      case Returned(text) => Some(text)
      case Raised(message) => Some("Error generating summary: " + message)
  }

  /** Under "gemini" a transcript summary comes back as `None`, not as text. */
  lemma GeminiSummaryMissing(reply: Call<string>)
    ensures SummarizeAsWritten(Gemini, reply).None?
  {
  }

  /** The summary every provider evidently should give: the reply, or the error text; it
      never raises. */
  function Summarize(provider: Provider, reply: Call<string>): (r: string)
    ensures reply.Returned? ==> r == reply.value
    ensures reply.Raised? ==> r == "Error generating summary: " + reply.message
    ensures provider != Gemini ==> SummarizeAsWritten(provider, reply) == Some(r)
  {
    match reply
    case Returned(text) => text
    case Raised(message) => "Error generating summary: " + message
  }

  /** One entry of a chat: `{"role": ..., "content": ...}`. */
  datatype ChatMessage = ChatMessage(role: string, content: string)

  /** One entry of a Gemini chat history: `{"role": ..., "parts": [...]}`. */
  datatype HistoryEntry = HistoryEntry(role: string, parts: seq<string>)

  /** `if system_prompt:` */
  predicate Truthy(s: Option<string>) {
    s.Some? && s.value != []
  }

  /** The OpenAI request: a system message first exactly when a non-empty system prompt
      is given, then all messages in order. */
  function OpenAIMessages(messages: seq<ChatMessage>, systemPrompt: Option<string>): (r: seq<ChatMessage>)
    ensures |r| == |messages| + (if Truthy(systemPrompt) then 1 else 0)
    ensures Truthy(systemPrompt) ==> r[0] == ChatMessage("system", systemPrompt.value)
    ensures r[|r| - |messages|..] == messages
  {
    if Truthy(systemPrompt) then [ChatMessage("system", systemPrompt.value)] + messages else messages
  }

  /** The Anthropic system prompt: the one given when non-empty, else the default. */
  function AnthropicSystem(systemPrompt: Option<string>): (r: string)
    ensures r != []
    ensures Truthy(systemPrompt) ==> r == systemPrompt.value
  {
    if Truthy(systemPrompt) then systemPrompt.value else "You are a helpful patent drafting assistant."
  }

  /** Gemini knows two roles: "user" stays, every other role becomes "model". */
  function GeminiRole(role: string): (r: string)
    ensures r == "user" <==> role == "user"
    ensures r == "user" || r == "model"
  {
    if role == "user" then "user" else "model"
  }

  function HistoryLength(messages: seq<ChatMessage>): nat {
    if messages == [] then 0 else |messages| - 1
  }

  /** The history loop: every message but the last, each with its Gemini role and its
      content as the only part. */
  method GeminiHistory(messages: seq<ChatMessage>) returns (history: seq<HistoryEntry>)
    ensures |history| == HistoryLength(messages)
    ensures forall i :: 0 <= i < |history| ==>
      history[i] == HistoryEntry(GeminiRole(messages[i].role), [messages[i].content])
  {
    var upTo := if messages == [] then 0 else |messages| - 1;
    history := [];
    var i := 0;
    while i < upTo
      invariant 0 <= i <= upTo
      invariant |history| == i
      invariant forall k :: 0 <= k < i ==> history[k] == HistoryEntry(GeminiRole(messages[k].role), [messages[k].content])
    {
      history := history + [HistoryEntry(GeminiRole(messages[i].role), [messages[i].content])];
      i := i + 1;
    }
  }

  /** What `chat` sends: the model and the messages (OpenAI), the model, system prompt and
      messages (Anthropic), or the model, the system instruction, the history and the
      latest message (Gemini). */
  datatype ChatRequest =
    | OpenAIChat(model: string, messages: seq<ChatMessage>)
    | AnthropicChat(model: string, system: string, messages: seq<ChatMessage>)
    | GeminiChat(model: string, instruction: Option<string>, history: seq<HistoryEntry>, latest: Option<string>)

  /** `chat`: the request for the provider and the answer. The client's reply to the
      request is an input; a failure is raised again as "Chat generation failed: ...".
      Gemini with no messages answers "No message provided" without sending anything. */
  method Chat(provider: Provider, messages: seq<ChatMessage>, systemPrompt: Option<string>, reply: Call<string>)
    returns (request: ChatRequest, answer: Call<string>)
    ensures provider == OpenAI ==> request == OpenAIChat("gpt-3.5-turbo", OpenAIMessages(messages, systemPrompt))
    ensures provider == Anthropic ==> request == AnthropicChat("claude-3-haiku-20240307", AnthropicSystem(systemPrompt), messages)
    ensures provider == Gemini ==>
      request.GeminiChat?
      && request.model == (if Truthy(systemPrompt) then "gemini-2.0-flash" else "gemini-2.5-flash")
      && request.instruction == (if Truthy(systemPrompt) then systemPrompt else None)
      && |request.history| == HistoryLength(messages)
      && (forall i :: 0 <= i < |request.history| ==>
            request.history[i] == HistoryEntry(GeminiRole(messages[i].role), [messages[i].content]))
      && request.latest == (if messages == [] then None else Some(messages[|messages| - 1].content))
    ensures provider == Gemini && messages == [] ==> answer == Returned("No message provided")
    ensures !(provider == Gemini && messages == []) ==>
      answer == (match reply
                 case Returned(text) => Returned(text)
                 case Raised(message) => Raised("Chat generation failed: " + message))
  {
    match provider {
      case OpenAI =>
        request := OpenAIChat("gpt-3.5-turbo", OpenAIMessages(messages, systemPrompt));
      case Anthropic =>
        request := AnthropicChat("claude-3-haiku-20240307", AnthropicSystem(systemPrompt), messages);
      case Gemini =>
        var model := if Truthy(systemPrompt) then "gemini-2.0-flash" else "gemini-2.5-flash";
        var history := GeminiHistory(messages);
        var latest := if messages == [] then None else Some(messages[|messages| - 1].content);
        request := GeminiChat(model, if Truthy(systemPrompt) then systemPrompt else None, history, latest);
        if messages == [] {
          return request, Returned("No message provided");
        }
    }
    if reply.Raised? {
      answer := Raised("Chat generation failed: " + reply.message);
    } else {
      answer := Returned(reply.value);
    }
  }

  /** `patent_number or "Not provided"`. */
  function PatentNumberShown(patentNumber: Option<string>): (r: string)
    ensures r != []
    ensures patentNumber.Some? && patentNumber.value != [] ==> r == patentNumber.value
  {
    if patentNumber.Some? && patentNumber.value != [] then patentNumber.value else "Not provided"
  }

  const AnalysisExcerptLimit := 15000

  /** `patent_text[:15000]`: the longest prefix of at most 15000 characters. */
  function AnalysisExcerpt(text: string): (r: string)
    ensures |r| <= AnalysisExcerptLimit && |r| <= |text| && r == text[..|r|]
    ensures |text| <= AnalysisExcerptLimit ==> r == text
    ensures |text| > AnalysisExcerptLimit ==> |r| == AnalysisExcerptLimit
  {
    if |text| <= AnalysisExcerptLimit then text else text[..AnalysisExcerptLimit]
  }

  /** Cutting the excerpt again changes nothing. */
  lemma AnalysisExcerptIdempotent(text: string)
    ensures AnalysisExcerpt(AnalysisExcerpt(text)) == AnalysisExcerpt(text)
  {
  }

  /** The two parts of the analysis prompt that depend on the request, the rest of the
      template being fixed text. */
  datatype AnalysisPrompt = AnalysisPrompt(patentNumber: string, patentText: string)

  function AnalysisPromptFor(text: string, patentNumber: Option<string>): (p: AnalysisPrompt)
    ensures p.patentText == AnalysisExcerpt(text) && p.patentNumber == PatentNumberShown(patentNumber)
  {
    AnalysisPrompt(PatentNumberShown(patentNumber), AnalysisExcerpt(text))
  }

  /** The dictionary returned for a reply whose JSON does not parse. */
  function RawAnalysis(text: string): (r: Json)
    ensures r.JObj? && r.fields.Keys == {"summary", "raw_analysis", "error"}
    ensures r.fields["raw_analysis"] == JStr(text)
    ensures r.fields["summary"].JStr? && |r.fields["summary"].s| <= 500 && |r.fields["summary"].s| <= |text| && r.fields["summary"].s == text[..|r.fields["summary"].s|]
  {
    JObj(map[
      "summary" := JStr(if |text| <= 500 then text else text[..500]),
      "raw_analysis" := JStr(text),
      "error" := JStr("Failed to parse structured analysis")])
  }

  /** `analyze_patent` as written: the raw-text dictionary is built only in the handler of
      `JSONDecodeError`, so a reply with no brace window falls through and returns `None`. */
  function AnalyzePatentAsWritten(reply: Call<string>, loads: string -> Option<Json>): (r: Call<Option<Json>>)
    ensures reply.Raised? ==> r == Raised("Patent analysis failed: " + reply.message)
    ensures reply.Returned? ==> (r.Returned? && (r.value.None? <==> JsonWindow(reply.value).None?))
  {
    match reply
    case Raised(message) => Raised("Patent analysis failed: " + message)
    case Returned(text) =>
      match JsonWindow(text)
      case None => Returned(None)
      case Some(window) =>
        if loads(window).Some? then Returned(loads(window)) else Returned(Some(RawAnalysis(text)))
  }

  /** A reply without any '{' yields no analysis at all. */
  lemma NoBracesNoAnalysis(text: string, loads: string -> Option<Json>)
    requires '{' !in text
    ensures AnalyzePatentAsWritten(Returned(text), loads) == Returned(None)
  {
  }

  /** `analyze_patent` with the raw-text fallback for every reply it cannot parse, which
      its own comment announces: a valid window is returned parsed, anything else as the
      raw-text dictionary. */
  function AnalyzePatent(reply: Call<string>, loads: string -> Option<Json>): (r: Call<Json>)
    ensures reply.Raised? ==> r == Raised("Patent analysis failed: " + reply.message)
    ensures reply.Returned? && JsonWindow(reply.value).Some? && loads(JsonWindow(reply.value).value).Some? ==>
      r == Returned(loads(JsonWindow(reply.value).value).value)
    ensures reply.Returned? && (JsonWindow(reply.value).None? || loads(JsonWindow(reply.value).value).None?) ==>
      r == Returned(RawAnalysis(reply.value))
    ensures reply.Returned? && AnalyzePatentAsWritten(reply, loads).value.Some? ==>
      r == Returned(AnalyzePatentAsWritten(reply, loads).value.value)
  {
    match reply
    case Raised(message) => Raised("Patent analysis failed: " + message)
    case Returned(text) =>
      var window := JsonWindow(text);
      if window.Some? && loads(window.value).Some? then Returned(loads(window.value).value)
      else Returned(RawAnalysis(text))
  }
}
