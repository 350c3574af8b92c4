/**
 * `LLMClient` (ml/app/services/llm_client.py): the request payload of
 * `generate`, and `generate_json`, which asks for JSON (adding an
 * instruction to the caller's last message in place), removes `<think>`
 * spans and Markdown fences from the reply, parses it, and re-parses a JSON
 * text wrapped in a `content` field.
 *
 * The HTTP exchange is a parameter (`llm`: payload to reply text or error
 * text), and so is `json.loads` (`parse`: text to value, `None` for
 * `JSONDecodeError`).
 */
module LlmClient {
  import opened Wrappers
  import opened PyText
  import opened JsonValue

  /** A chat message; `content` is `None` when the dict has no `content` key. */
  datatype Message = Message(role: string, content: Option<string>)

  /** The JSON body posted to `/chat/completions`; `responseFormat` is the `type` of `response_format`. */
  datatype Payload = Payload(model: string, messages: seq<Message>, temperature: real, maxTokens: int,
                             responseFormat: Option<string>)

  const DefaultMaxTokens := 2048
  const JsonObject := "json_object"

  /** The payload `generate` sends. */
  function BuildPayload(model: string, messages: seq<Message>, temperature: real, maxTokens: int, jsonMode: bool): (p: Payload)
    ensures p.model == model && p.messages == messages && p.temperature == temperature && p.maxTokens == maxTokens
    ensures p.responseFormat.Some? <==> jsonMode
    ensures p.responseFormat.Some? ==> p.responseFormat.value == JsonObject
  {
    Payload(model, messages, temperature, maxTokens, if jsonMode then Some(JsonObject) else None)
  }

  // ------------------------------------------------------- JSON instruction

  const Instruction := "\n\nPlease respond with valid JSON."

  /** Why `generate_json` raised. */
  datatype Failure =
    | MissingContent          // `KeyError`: the last message has no `content`
    | LlmFailed(message: string)
    | InvalidJson(message: string)

  const InvalidJsonMessage := "Модель не вернула корректный JSON"

  /** The last message mentions JSON, in any letter case. */
  predicate MentionsJson(m: Message)
  {
    Contains(Lower(if m.content.Some? then m.content.value else ""), "json")
  }

  /**
   * The messages after the instruction is added: unchanged when there are
   * none or the last one already mentions JSON; a `KeyError` when the last
   * one has no content; otherwise the last one's content gets the instruction.
   */
  function WithJsonInstruction(messages: seq<Message>): (r: Result<seq<Message>, Failure>)
    ensures r.Err? <==> messages != [] && messages[|messages| - 1].content.None?
    ensures r.Err? ==> r.error == MissingContent
    ensures r.Ok? ==> (|r.value| == |messages|
                       && (forall i :: 0 <= i < |messages| - 1 ==> r.value[i] == messages[i])
                       && (messages != [] ==> r.value[|messages| - 1].role == messages[|messages| - 1].role))
  {
    if messages == [] then Ok(messages)
    else
      var last := messages[|messages| - 1];
      if MentionsJson(last) then Ok(messages)
      else if last.content.None? then Err(MissingContent)
      else Ok(messages[..|messages| - 1] + [Message(last.role, Some(last.content.value + Instruction))])
  }

  /** The instruction itself mentions JSON. */
  lemma InstructionMentionsJson(content: string)
    ensures Contains(Lower(content + Instruction), "json")
  {
    var pre := "\n\nPlease respond with valid ";
    assert Instruction == pre + "JSON.";
    assert content + Instruction == (content + pre) + "JSON.";
    LowerConcat(content + pre, "JSON.");
    assert Lower("JSON.") == "json.";
    assert ("json.")[0..4] == "json";
    ContainsAt("json.", "json", 0);
    ContainsInSuffix(Lower(content + pre), "json.", "json");
  }

  /**
   * After the instruction step the last message mentions JSON, and a second
   * step changes nothing: the instruction is added at most once.
   */
  lemma WithJsonInstructionIdempotent(messages: seq<Message>)
    requires WithJsonInstruction(messages).Ok?
    ensures var r := WithJsonInstruction(messages).value;
      && (r != [] ==> MentionsJson(r[|r| - 1]))
      && WithJsonInstruction(r) == Ok(r)
  {
    if messages != [] {
      var last := messages[|messages| - 1];
      if !MentionsJson(last) {
        InstructionMentionsJson(last.content.value);
      }
    }
  }

  /** A message already asking for JSON is left as it is; one that does not gets exactly the instruction appended. */
  lemma WithJsonInstructionAppends(messages: seq<Message>)
    requires messages != [] && messages[|messages| - 1].content.Some?
    ensures var last := messages[|messages| - 1];
      WithJsonInstruction(messages).value[|messages| - 1].content.value
        == if MentionsJson(last) then last.content.value else last.content.value + Instruction
  {
  }

  /** The in-place step on the caller's list: only the last message's content may change. */
  method AppendJsonInstruction(messages: array<Message>) returns (r: Result<(), Failure>)
    modifies messages
    ensures var w := WithJsonInstruction(old(messages[..]));
      && (r.Ok? <==> w.Ok?)
      && (w.Ok? ==> messages[..] == w.value)
      && (w.Err? ==> r == Err(MissingContent) && messages[..] == old(messages[..]))
  {
    if messages.Length == 0 {
      return Ok(());
    }
    var last := messages[messages.Length - 1];
    var content := if last.content.Some? then last.content.value else "";
    if Contains(Lower(content), "json") {
      return Ok(());
    }
    if last.content.None? {
      return Err(MissingContent);
    }
    messages[messages.Length - 1] := Message(last.role, Some(last.content.value + Instruction));
    assert messages[..] == old(messages[..])[..messages.Length - 1] + [messages[messages.Length - 1]];
    r := Ok(());
  }

  // ------------------------------------------------------------ the reply

  const OpenThink := "<think>"
  const CloseThink := "</think>"

  /**
   * `re.sub(r'<think>.*?</think>', '', s, flags=re.DOTALL)`: from left to
   * right, each `<think>` up to the first `</think>` after it is removed; an
   * opening tag with no closing tag after it ends the scan.
   */
  function StripThink(s: string): (r: string)
    ensures |r| <= |s|
    decreases |s|
  {
    match IndexOf(s, OpenThink)
    case None => s
    case Some(i) =>
      match IndexFrom(s, CloseThink, i + |OpenThink|)
      case None => s
      case Some(k) => s[..i] + StripThink(s[k + |CloseThink|..])
  }

  /** Text without `<think>` is unchanged. */
  lemma StripThinkAbsent(s: string)
    requires !Contains(s, OpenThink)
    ensures StripThink(s) == s
  {
  }

  /** One span, with no `<` before it or inside it, is removed and the scan goes on after it. */
  lemma StripThinkSpan(a: string, t: string, b: string)
    requires NoChar(a, '<') && NoChar(t, '<')
    ensures StripThink(a + OpenThink + t + CloseThink + b) == a + StripThink(b)
  {
    var s := a + OpenThink + t + CloseThink + b;
    assert s == a + OpenThink + (t + CloseThink + b);
    NoOccurrence(a, OpenThink + (t + CloseThink + b), OpenThink);
    assert s[|a|..|a| + 7] == OpenThink;
    IndexFromAt(s, OpenThink, 0, |a|);
    var from := |a| + 7;
    assert s == (a + OpenThink) + t + (CloseThink + b);
    NoOccurrenceIn(a + OpenThink, t, CloseThink + b, CloseThink);
    assert s[from + |t|..from + |t| + 8] == CloseThink;
    IndexFromAt(s, CloseThink, from, from + |t|);
    assert s[..|a|] == a;
    assert s[from + |t| + 8..] == b;
  }

  /** An opening tag that is never closed is kept, with everything after it. */
  lemma StripThinkUnclosed(a: string, t: string)
    requires NoChar(a, '<') && NoChar(t, '<')
    ensures StripThink(a + OpenThink + t) == a + OpenThink + t
  {
    var s := a + OpenThink + t;
    NoOccurrence(a, OpenThink + t, OpenThink);
    assert s[|a|..|a| + 7] == OpenThink;
    IndexFromAt(s, OpenThink, 0, |a|);
    var from := |a| + 7;
    assert forall i :: from <= i < |s| ==> s[i] == t[i - from];
    NoOccurrenceFrom(s, CloseThink, from);
  }

  /** Text free of `<` followed by a closing tag holds no opening tag. */
  lemma NoOpenBeforeClose(a: string)
    requires NoChar(a, '<')
    ensures !Contains(a + CloseThink, OpenThink)
  {
    var s := a + CloseThink;
    NoOccurrence(a, CloseThink, OpenThink);
    assert forall i :: |a| + 1 <= i < |s| ==> s[i] == CloseThink[i - |a|];
    NoOccurrenceFrom(s, OpenThink, |a| + 1);
    assert s[|a|..|a| + 7][1] == '/';
    assert !OccursAt(s, OpenThink, |a|);
  }

  /** `"<thi<think></think>nk>a</think>"`: a span inside a broken opening tag. */
  const Rejoined := "<thi" + OpenThink + CloseThink + "nk>a" + CloseThink

  lemma RejoinedFirstSpan()
    ensures IndexOf(Rejoined, OpenThink) == Some(4)
    ensures IndexFrom(Rejoined, CloseThink, 11) == Some(11)
    ensures Rejoined[..4] == "<thi" && Rejoined[19..] == "nk>a" + CloseThink
  {
    var s := Rejoined;
    forall j | 0 <= j < 4
      ensures !OccursAt(s, OpenThink, j)
    {
      assert s[j + 4] != 'n';
      assert s[j..j + 7][4] == s[j + 4];
    }
    assert s[4..11] == OpenThink;
    IndexFromAt(s, OpenThink, 0, 4);
    assert s[11..19] == CloseThink;
    IndexFromAt(s, CloseThink, 11, 11);
  }

  /**
   * The removal is a single pass: removing a span can join the text around
   * it into a new span, which stays, so stripping twice differs from once.
   */
  lemma StripThinkSinglePass()
    ensures StripThink(Rejoined) == OpenThink + "a" + CloseThink
    ensures StripThink(StripThink(Rejoined)) == ""
  {
    StripRejoined();
    StripThinkSpan("", "a", "");
    assert "" + OpenThink + "a" + CloseThink + "" == OpenThink + "a" + CloseThink;
  }

  /** The first pass removes the inner span only. */
  lemma StripRejoined()
    ensures StripThink(Rejoined) == OpenThink + "a" + CloseThink
  {
    RejoinedFirstSpan();
    var rest := "nk>a" + CloseThink;
    assert StripThink(rest) == rest by {
      assert NoChar("nk>a", '<');
      NoOpenBeforeClose("nk>a");
      StripThinkAbsent(rest);
    }
    assert StripThink(Rejoined) == "<thi" + rest;
    assert "<thi" + "nk>a" == OpenThink + "a";
  }

  const JsonFence := "```json"
  const Fence := "```"

  /** The body of the first ```` ```json ```` block, else of the first ```` ``` ```` block, stripped; else the text itself. */
  function ExtractFence(content: string): (r: string)
    ensures !Contains(content, Fence) ==> r == content
  {
    if Contains(content, JsonFence) then
      SplitContains(content, JsonFence);
      FenceInJsonFence(content);
      Strip(Split(Split(content, JsonFence)[1], Fence)[0])
    else if Contains(content, Fence) then
      SplitContains(content, Fence);
      Strip(Split(Split(content, Fence)[1], Fence)[0])
    else content
  }

  lemma FenceInJsonFence(content: string)
    requires Contains(content, JsonFence)
    ensures Contains(content, Fence)
  {
    var i := IndexOf(content, JsonFence).value;
    assert content[i..i + 3] == content[i..i + 7][..3];
    ContainsAt(content, Fence, i);
  }

  /** A plain fenced block gives back its body, stripped. */
  lemma PlainFenceExtracted(prefix: string, body: string, suffix: string)
    requires NoChar(prefix, '`') && NoChar(body, '`')
    requires !Contains(prefix + Fence + body + Fence + suffix, JsonFence)
    ensures ExtractFence(prefix + Fence + body + Fence + suffix) == Strip(body)
  {
    SecondPart(prefix, Fence, body, suffix);
    SplitWithoutChar(body, Fence);
  }

  /** No `json` fence can start inside `body + "```" + suffix` except right after `body`. */
  lemma JsonFenceOnlyAfterBody(body: string, suffix: string)
    requires NoChar(body, '`') && NoChar(suffix, '`')
    ensures forall j :: 0 <= j && j != |body| ==> !OccursAt(body + Fence + suffix, JsonFence, j)
  {
    var rest := body + Fence + suffix;
    forall j | 0 <= j && j != |body|
      ensures !OccursAt(rest, JsonFence, j)
    {
      if j < |body| {
        assert rest[j] == body[j];
      } else if j + 7 <= |rest| {
        assert rest[j + 2] == suffix[j - |body| - 1];
        assert rest[j..j + 7][2] == rest[j + 2];
      }
    }
  }

  /** The text before the first `json` fence of `body + "```" + suffix`, split at fences, starts with `body`. */
  lemma HeadBeforeJsonFence(body: string, suffix: string)
    requires NoChar(body, '`') && NoChar(suffix, '`')
    ensures Split(Split(body + Fence + suffix, JsonFence)[0], Fence)[0] == body
  {
    var rest := body + Fence + suffix;
    JsonFenceOnlyAfterBody(body, suffix);
    if OccursAt(rest, JsonFence, |body|) {
      assert IndexOf(rest, JsonFence) == Some(|body|);
      assert Split(rest, JsonFence)[0] == body;
      SplitWithoutChar(body, Fence);
    } else {
      assert !Contains(rest, JsonFence);
      NoOccurrence(body, Fence + suffix, Fence);
      SplitAtFirst(body, Fence, suffix);
    }
  }

  /** A ```` ```json ```` block gives back its body, stripped, whatever text surrounds it. */
  lemma JsonFenceExtracted(prefix: string, body: string, suffix: string)
    requires NoChar(prefix, '`') && NoChar(body, '`') && NoChar(suffix, '`')
    ensures ExtractFence(prefix + JsonFence + body + Fence + suffix) == Strip(body)
  {
    var rest := body + Fence + suffix;
    var s := prefix + JsonFence + rest;
    assert prefix + JsonFence + body + Fence + suffix == s;
    NoOccurrence(prefix, JsonFence + rest, JsonFence);
    SplitAtFirst(prefix, JsonFence, rest);
    assert s[|prefix|..|prefix| + 7] == JsonFence;
    ContainsAt(s, JsonFence, |prefix|);
    HeadBeforeJsonFence(body, suffix);
  }

  /** What `generate_json` does to the reply before parsing it. */
  function CleanReply(content: string): (r: string)
    ensures !Contains(content, OpenThink) && !Contains(content, Fence) ==> r == content
  {
    ExtractFence(if Contains(content, OpenThink) then StripThink(content) else content)
  }

  /**
   * A dict whose `content` is a string is replaced by that string parsed,
   * when it parses; anything else is kept as it is.
   */
  function Unnest(parsed: Json, parse: string -> Option<Json>): (r: Json)
    ensures r != parsed ==> (parsed.JObject? && HasKey(parsed, "content") && Get(parsed, "content").JString?
                             && parse(Get(parsed, "content").s) == Some(r))
    ensures parsed.JObject? && HasKey(parsed, "content") && Get(parsed, "content").JString?
            && parse(Get(parsed, "content").s).Some?
            ==> r == parse(Get(parsed, "content").s).value
    ensures !(parsed.JObject? && HasKey(parsed, "content") && Get(parsed, "content").JString?) ==> r == parsed
  {
    if parsed.JObject? && HasKey(parsed, "content") && Get(parsed, "content").JString? then
      match parse(Get(parsed, "content").s)
      case Some(inner) => inner
      case None => parsed
    else parsed
  }

  /** The payload `generate_json` sends, or the `KeyError` raised before sending. */
  function JsonRequest(messages: seq<Message>, model: string, temperature: real): (r: Result<Payload, Failure>)
    ensures r.Err? <==> messages != [] && messages[|messages| - 1].content.None?
    ensures r.Err? ==> r.error == MissingContent
  {
    match WithJsonInstruction(messages)
    case Err(e) => Err(e)
    case Ok(prepared) => Ok(BuildPayload(model, prepared, temperature, DefaultMaxTokens, true))
  }

  /** The value `generate_json` returns, or why it raised. */
  function GenerateJsonResult(messages: seq<Message>, model: string, temperature: real,
                              llm: Payload -> Result<string, string>, parse: string -> Option<Json>): (r: Result<Json, Failure>)
    ensures r.Ok? ==> JsonRequest(messages, model, temperature).Ok? && llm(JsonRequest(messages, model, temperature).value).Ok?
  {
    match JsonRequest(messages, model, temperature)
    case Err(e) => Err(e)
    case Ok(payload) =>
      match llm(payload)
      case Err(msg) => Err(LlmFailed(msg))
      case Ok(content) =>
        match parse(CleanReply(content))
        case None => Err(InvalidJson(InvalidJsonMessage))
        case Some(parsed) => Ok(Unnest(parsed, parse))
  }

  /**
   * The request asks for a JSON object, keeps the model, the temperature and
   * the default token limit, and its last message mentions JSON.
   */
  lemma JsonRequestAsksForJson(messages: seq<Message>, model: string, temperature: real)
    requires JsonRequest(messages, model, temperature).Ok?
    ensures var p := JsonRequest(messages, model, temperature).value;
      && p.responseFormat == Some(JsonObject) && p.model == model && p.temperature == temperature
      && p.maxTokens == DefaultMaxTokens && |p.messages| == |messages|
      && (p.messages != [] ==> MentionsJson(p.messages[|p.messages| - 1]))
  {
    WithJsonInstructionIdempotent(messages);
  }

  /** The outcomes of `generate_json`, each with the condition that leads to it. */
  lemma GenerateJsonOutcomes(messages: seq<Message>, model: string, temperature: real,
                             llm: Payload -> Result<string, string>, parse: string -> Option<Json>)
    ensures var r := GenerateJsonResult(messages, model, temperature, llm, parse);
      && (r == Err(MissingContent) <==> WithJsonInstruction(messages).Err?)
      && (r.Err? && r.error.InvalidJson? ==> r.error.message == InvalidJsonMessage)
      && (JsonRequest(messages, model, temperature).Ok? ==>
            var reply := llm(JsonRequest(messages, model, temperature).value);
            && (reply.Err? ==> r == Err(LlmFailed(reply.error)))
            && (reply.Ok? ==> (r == Err(InvalidJson(InvalidJsonMessage)) <==> parse(CleanReply(reply.value)).None?))
            && (reply.Ok? && parse(CleanReply(reply.value)).Some? ==>
                  r == Ok(Unnest(parse(CleanReply(reply.value)).value, parse))))
  {
  }

  /** `generate_json`, on the caller's list, which it may change in place. */
  method GenerateJson(messages: array<Message>, model: string, temperature: real,
                      llm: Payload -> Result<string, string>, parse: string -> Option<Json>) returns (r: Result<Json, Failure>)
    modifies messages
    ensures r == GenerateJsonResult(old(messages[..]), model, temperature, llm, parse)
    ensures var w := WithJsonInstruction(old(messages[..]));
      messages[..] == (if w.Ok? then w.value else old(messages[..]))
  {
    var appended := AppendJsonInstruction(messages);
    if appended.Err? {
      return Err(appended.error);
    }
    var reply := llm(BuildPayload(model, messages[..], temperature, DefaultMaxTokens, true));
    if reply.Err? {
      return Err(LlmFailed(reply.error));
    }
    var content := reply.value;
    if Contains(content, OpenThink) {
      content := StripThink(content);
    }
    content := ExtractFence(content);
    var parsed := parse(content);
    if parsed.None? {
      return Err(InvalidJson(InvalidJsonMessage));
    }
    var value := parsed.value;
    if value.JObject? && HasKey(value, "content") && Get(value, "content").JString? {
      var inner := parse(Get(value, "content").s);
      if inner.Some? {
        value := inner.value;
      }
    }
    r := Ok(value);
  }
}
