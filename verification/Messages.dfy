/** The OpenAI deltas that come in and the Claude events that go out, with
    JSON already decoded (backend/internal/translator/types.go). */
module Messages {
  import opened Basics
  import opened Strings

  datatype OpenAIUsage = OpenAIUsage(
    promptTokens: int, completionTokens: int, cachedTokens: int, cacheCreationTokens: int,
    promptDetailsCached: Option<int>, reasoningTokens: Option<int>)

  const NO_USAGE := OpenAIUsage(0, 0, 0, 0, None, None)

  datatype FunctionFragment = FunctionFragment(name: string, arguments: string)

  datatype ToolCallFragment = ToolCallFragment(index: Option<int>, id: string, func: Option<FunctionFragment>)

  datatype Delta = Delta(content: string, reasoningContent: string, reasoning: string, toolCalls: seq<ToolCallFragment>)

  datatype Choice = Choice(delta: Delta, finishReason: Option<string>)

  datatype Chunk = Chunk(id: string, model: string, choices: seq<Choice>, usage: Option<OpenAIUsage>)

  datatype ResponseMessage = ResponseMessage(content: string, reasoningContent: string, reasoning: string,
                                             toolCalls: seq<ToolCallFragment>)

  datatype ResponseChoice = ResponseChoice(message: ResponseMessage, finishReason: Option<string>)

  datatype Response = Response(id: string, model: string, choices: seq<ResponseChoice>)

  datatype BlockKind = Thinking | Text | ToolUse(id: string, name: string)

  datatype BlockContent = ThinkingDelta(thinking: string) | TextDelta(text: string) | InputJsonDelta(json: string)

  datatype Event =
    | MessageStart(id: string, model: string)
    | BlockStart(index: int, kind: BlockKind)
    | BlockDelta(index: int, content: BlockContent)
    | BlockStop(index: int)
    | MessageDelta(stopReason: string, inputTokens: int, outputTokens: int)
    | MessageStop

  /** `sanitizeToolArgs(name, json)`: decodes and re-encodes JSON, so it stays abstract. */
  type Sanitizer = (string, string) -> string

  function CachedTokens(u: OpenAIUsage): int {
    if u.cachedTokens > 0 then u.cachedTokens
    else if u.promptDetailsCached.Some? && u.promptDetailsCached.value > 0 then u.promptDetailsCached.value
    else 0
  }

  /** strings.Replace(s, old, "", 1). */
  function RemoveFirst(s: string, target: string): string
    requires target != ""
  {
    if s == "" then ""
    else if HasPrefix(s, target) then s[|target|..]
    else [s[0]] + RemoveFirst(s[1..], target)
  }

  /** The Claude message id; `newId` is the clock-derived id used when none is usable. */
  function CleanMessageId(id: string, newId: string): string {
    var clean := RemoveFirst(id, "chatcmpl-");
    if clean == "" || clean == "chat" then newId else clean
  }

  function ModelName(model: string): string {
    if model == "" then "claude-3-5-sonnet" else model
  }

  function ReasoningText(d: Delta): string {
    if d.reasoningContent != "" then d.reasoningContent else d.reasoning
  }

  function FragmentIndex(tc: ToolCallFragment): int {
    tc.index.GetOr(0)
  }

  function ToolName(tc: ToolCallFragment): string {
    CutPrefix(if tc.func.Some? && tc.func.value.name != "" then tc.func.value.name else tc.id, "proxy_")
  }

  function Arguments(tc: ToolCallFragment): string {
    if tc.func.Some? then tc.func.value.arguments else ""
  }

  function ClaudeStopReason(finish: string): string {
    if finish == "length" then "max_tokens" else if finish == "tool_calls" then "tool_use" else "end_turn"
  }
}
