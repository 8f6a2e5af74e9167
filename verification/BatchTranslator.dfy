/** The non-streaming translation of a whole OpenAI response
    (`TranslateOpenAIToClaude`, backend/internal/translator/response.go). */
module BatchTranslator {
  import opened Basics
  import opened Messages

  datatype Block = ThinkingBlock(thinking: string) | TextBlock(text: string) | ToolUseBlock(id: string, name: string, input: string)

  datatype ClaudeMessage = ClaudeMessage(id: string, model: string, content: seq<Block>, stopReason: string)

  function ThinkingPart(reasoning: string): seq<Block> {
    if reasoning == "" then [] else [ThinkingBlock(reasoning)]
  }

  function TextPart(content: string): seq<Block> {
    if content == "" then [] else [TextBlock(content)]
  }

  function ToolBlock(tc: ToolCallFragment, san: Sanitizer): Block {
    ToolUseBlock(tc.id, ToolName(tc), if Arguments(tc) == "" then "{}" else san(ToolName(tc), Arguments(tc)))
  }

  function ToolParts(tcs: seq<ToolCallFragment>, san: Sanitizer): seq<Block> {
    seq(|tcs|, j requires 0 <= j < |tcs| => ToolBlock(tcs[j], san))
  }

  function TranslateResponse(resp: Response, newId: string, san: Sanitizer): Result<ClaudeMessage> {
    if resp.choices == [] then Err("no choices in OpenAI response") else
    var choice := resp.choices[0];
    var reasoning := if choice.message.reasoningContent == "" then choice.message.reasoning else choice.message.reasoningContent;
    Ok(ClaudeMessage(
      CleanMessageId(resp.id, newId), ModelName(resp.model),
      ThinkingPart(reasoning) + TextPart(choice.message.content) + ToolParts(choice.message.toolCalls, san),
      if choice.finishReason.None? then "end_turn" else ClaudeStopReason(choice.finishReason.value)))
  }

  method AppendToolBlocks(contentBlocks: seq<Block>, tcs: seq<ToolCallFragment>, san: Sanitizer) returns (blocks: seq<Block>)
    ensures blocks == contentBlocks + ToolParts(tcs, san)
  {
    blocks := contentBlocks;
    for n := 0 to |tcs|
      invariant blocks == contentBlocks + ToolParts(tcs, san)[..n]
    {
      var tc := tcs[n];
      var input := "{}";
      if tc.func.Some? && tc.func.value.arguments != "" {
        input := san(ToolName(tc), tc.func.value.arguments);
      }
      blocks := blocks + [ToolUseBlock(tc.id, ToolName(tc), input)];
    }
  }

  method Translate(resp: Response, newId: string, san: Sanitizer) returns (r: Result<ClaudeMessage>)
    ensures r == TranslateResponse(resp, newId, san)
  {
    if |resp.choices| == 0 {
      return Err("no choices in OpenAI response");
    }
    var choice := resp.choices[0];
    var msg := choice.message;
    var contentBlocks: seq<Block> := [];
    var reasoning := msg.reasoningContent;
    if reasoning == "" {
      reasoning := msg.reasoning;
    }
    if reasoning != "" {
      contentBlocks := contentBlocks + [ThinkingBlock(reasoning)];
    }
    if msg.content != "" {
      contentBlocks := contentBlocks + [TextBlock(msg.content)];
    }
    assert contentBlocks == ThinkingPart(reasoning) + TextPart(msg.content);
    contentBlocks := AppendToolBlocks(contentBlocks, msg.toolCalls, san);
    var claudeStop := "end_turn";
    if choice.finishReason.Some? {
      match choice.finishReason.value
      case "length" => claudeStop := "max_tokens";
      case "tool_calls" => claudeStop := "tool_use";
      case _ =>
    }
    r := Ok(ClaudeMessage(CleanMessageId(resp.id, newId), ModelName(resp.model), contentBlocks, claudeStop));
  }
}
