/**
  The conversation data the agent exchanges, as far as the modelled code looks
  into it: chat messages of the agent framework, their content, the tool-call
  requests an AI message carries, and the Python values stored in them.
 */
module Messages {
  import opened Options

  /** A Python value, seen only as a string, an integer, a tuple or something else. */
  datatype Value = Str(s: string) | Int(i: int) | Tuple(items: seq<Value>) | Opaque(tag: nat)

  /** One element of list-valued message content: a dict (its items), or any other object. */
  datatype Block = DictBlock(fields: map<string, Value>) | NonDictBlock(v: Value)

  /** A message's `content`: a string, a list of content blocks, or some other object. */
  datatype Content = StrContent(text: string) | ListContent(blocks: seq<Block>) | OtherContent(v: Value)

  /**
    A tool-call request `{"id": ..., "name": ..., "args": {...}}`; the argument
    dict is kept in insertion order, each value given by its `str()`.
   */
  datatype ToolCallRequest = ToolCallRequest(id: string, name: string, args: seq<(string, string)>)

  /** What an AI message carries besides its content and tool calls. */
  datatype Metadata = Metadata(
    responseMetadata: map<string, Value>,
    additionalKwargs: map<string, Value>,
    usageMetadata: Option<map<string, Value>>)

  /** The chat messages of the agent framework. */
  datatype Message =
    | AIMessage(content: Content, toolCalls: seq<ToolCallRequest>, meta: Metadata)
    | ToolMessage(toolCallId: string, content: Content)
    | HumanMessage(content: Content)
    | SystemMessage(content: Content)
}
