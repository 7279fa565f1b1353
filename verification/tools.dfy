/**
  The parts of the agent's tools (src/tools.py) that are not I/O: the line
  `log_tool` prints, the reply `fetch` builds from a downloaded page, and the
  `trim_message` tool that deletes or rewrites a message of the conversation
  it was built for.
 */
module Tools {
  import opened Options
  import opened Text
  import opened Messages
  import Util

  // ---------------------------------------------------------------------------
  // log_tool

  /** One keyword argument as `log_tool` shows it: "key: [value]". */
  function ShownArg(kv: (string, string)): string {
    kv.0 + ": [" + kv.1 + "]"
  }

  function ShownArgs(kwargs: seq<(string, string)>): seq<string> {
    seq(|kwargs|, k requires 0 <= k < |kwargs| => ShownArg(kwargs[k]))
  }

  /**
    The line `log_tool` prints: the calling function's name in brackets
    ("<unknown>" when there is no calling frame), then, when there are keyword
    arguments, ", " and the arguments shown as "key: [value]" joined with ", ".
   */
  function LogLine(caller: Option<string>, kwargs: seq<(string, string)>): (line: string)
    ensures var name := if caller.Some? then caller.value else "<unknown>";
      && StartsWith(line, "[" + name + "]")
      && (kwargs == [] <==> |line| == |name| + 2)
  {
    var name := if caller.Some? then caller.value else "<unknown>";
    var head := "[" + name + "]";
    var argsStr := Join(ShownArgs(kwargs), ", ");
    var line := head + (if argsStr != "" then ", " + argsStr else "");
    assert line[..|head|] == head;
    line
  }

  /** The head of the line once there are arguments: the name, ", " and the first argument. */
  lemma LogLineFirst(caller: Option<string>, k: string, v: string)
    ensures LogLine(caller, [(k, v)]) == LogLine(caller, []) + ", " + k + ": [" + v + "]"
  {
  }

  /** Each further keyword argument adds ", " and its "key: [value]" (`ShownArg`) to the end of the line. */
  lemma LogLineAppend(caller: Option<string>, kwargs: seq<(string, string)>, k: string, v: string)
    requires kwargs != []
    ensures LogLine(caller, kwargs + [(k, v)]) == LogLine(caller, kwargs) + ", " + ShownArg((k, v))
  {
    var name := if caller.Some? then caller.value else "<unknown>";
    var head := "[" + name + "]";
    var shown, x := ShownArgs(kwargs), ShownArg((k, v));
    assert ShownArgs(kwargs + [(k, v)]) == shown + [x];
    JoinAppend(shown, x, ", ");
    var joined := Join(shown, ", ");
    JoinedArgsNonEmpty(kwargs);
    assert LogLine(caller, kwargs) == head + ", " + joined;
    assert LogLine(caller, kwargs + [(k, v)]) == head + (", " + (joined + ", " + x));
    Assoc5(head, ", ", joined, ", ", x);
  }

  lemma JoinedArgsNonEmpty(kwargs: seq<(string, string)>)
    requires kwargs != []
    ensures Join(ShownArgs(kwargs), ", ") != ""
  {
    var shown := ShownArgs(kwargs);
    assert |shown[0]| > 0;
  }

  lemma Assoc5(a: string, b: string, c: string, d: string, e: string)
    ensures a + (b + (c + d + e)) == a + b + c + d + e
  {
  }

  // ---------------------------------------------------------------------------
  // fetch

  const MaxResponseLength: nat := 1000000
  const TruncationNotice := "\n\n[Content truncated due to size limitations]"

  /** What the download of a page gave: an HTTP error status, or the page's extracted text before the clean-up. */
  datatype Download = HttpError(message: string) | PageText(text: string)

  /**
    The reply of `fetch`: for a page, its cleaned text after a
    "[URL]: url" header, or, when the cleaned text is longer than
    `MaxResponseLength`, only its first `MaxResponseLength` characters followed
    by the truncation notice (and no header); for an error status, an error
    line naming the URL.
   */
  function FetchReply(url: string, download: Download): (reply: string)
    ensures download.HttpError? ==> reply == "Error fetching URL " + url + ": " + download.message
    ensures download.PageText? && |Util.Tidy(download.text)| <= MaxResponseLength ==>
      reply == "[URL]: " + url + "\n\n" + Util.Tidy(download.text)
    ensures download.PageText? && |Util.Tidy(download.text)| > MaxResponseLength ==>
      && |reply| == MaxResponseLength + |TruncationNotice|
      && reply[..MaxResponseLength] == Util.Tidy(download.text)[..MaxResponseLength]
      && EndsWith(reply, TruncationNotice)
  {
    match download
    case HttpError(e) => "Error fetching URL " + url + ": " + e
    case PageText(page) =>
      var text := Util.Tidy(page);
      if |text| > MaxResponseLength then
        var reply := text[..MaxResponseLength] + TruncationNotice;
        assert reply[..MaxResponseLength] == text[..MaxResponseLength];
        reply
      else "[URL]: " + url + "\n\n" + text
  }

  /** A page reply carries at most `MaxResponseLength` characters of page text, and all of it when the text fits. */
  lemma FetchReplyBounded(url: string, page: string)
    ensures var reply := FetchReply(url, PageText(page));
      && |reply| <= MaxResponseLength + |TruncationNotice| + |url|
      && (|Util.Tidy(page)| <= MaxResponseLength ==> EndsWith(reply, Util.Tidy(page)))
  {
    var text := Util.Tidy(page);
    if |text| <= MaxResponseLength {
      EndsWithConcat("[URL]: " + url + "\n\n", text);
    }
  }

  lemma EndsWithConcat(a: string, b: string)
    ensures EndsWith(a + b, b)
  {
    assert (a + b)[|a + b| - |b|..] == b;
  }

  // ---------------------------------------------------------------------------
  // trim_message

  /** The message with its `content` attribute set to a string; everything else is kept. */
  function WithContent(m: Message, text: string): (r: Message)
    ensures r.content == StrContent(text)
    ensures r.AIMessage? <==> m.AIMessage?
    ensures r.ToolMessage? <==> m.ToolMessage?
    ensures r.HumanMessage? <==> m.HumanMessage?
    ensures r.SystemMessage? <==> m.SystemMessage?
  {
    match m
    case AIMessage(_, toolCalls, meta) => AIMessage(StrContent(text), toolCalls, meta)
    case ToolMessage(toolCallId, _) => ToolMessage(toolCallId, StrContent(text))
    case HumanMessage(_) => HumanMessage(StrContent(text))
    case SystemMessage(_) => SystemMessage(StrContent(text))
  }

  /** A Python list index for a list of length `n`: from the front when non-negative, from the back when negative. */
  predicate ValidIndex(n: nat, index: int) {
    -(n as int) <= index < n
  }

  /** The position a valid Python index denotes. */
  function Position(n: nat, index: int): (p: nat)
    requires ValidIndex(n, index)
    ensures p < n
    ensures index >= 0 ==> p == index
    ensures index < 0 ==> p + (-index) == n
  {
    if index < 0 then index + n else index
  }

  /** The messages after `trim_message(index, newContent)`. */
  function Trimmed(messages: seq<Message>, index: int, newContent: string): seq<Message> {
    if !ValidIndex(|messages|, index) then messages
    else
      var p := Position(|messages|, index);
      if newContent == "" then messages[..p] + messages[p + 1..]
      else messages[p := WithContent(messages[p], newContent)]
  }

  /** The message of the `IndexError` Python raises: `del` and item assignment say "assignment", reading does not. */
  function IndexErrorText(deleting: bool): string {
    if deleting then "list assignment index out of range" else "list index out of range"
  }

  /** The reply of `trim_message(index, newContent)`. */
  function TrimReply(n: nat, index: int, newContent: string): string {
    if ValidIndex(n, index) then "message[" + IntToString(index) + "] successfully modified"
    else "tool trim_message failed: " + IndexErrorText(newContent == "")
  }

  /** Deleting a message: the list loses exactly that element and the others keep their order. */
  lemma TrimDeletes(messages: seq<Message>, index: int)
    requires ValidIndex(|messages|, index)
    ensures var r := Trimmed(messages, index, "");
      var p := Position(|messages|, index);
      && |r| == |messages| - 1
      && (forall k | 0 <= k < p :: r[k] == messages[k])
      && (forall k | p <= k < |r| :: r[k] == messages[k + 1])
      && multiset(r) + multiset{messages[p]} == multiset(messages)
  {
    var p := Position(|messages|, index);
    assert messages == messages[..p] + [messages[p]] + messages[p + 1..];
  }

  /** Rewriting a message: only its content changes, to the new text; the list keeps its length and all other messages. */
  lemma TrimRewrites(messages: seq<Message>, index: int, newContent: string)
    requires ValidIndex(|messages|, index) && newContent != ""
    ensures var r := Trimmed(messages, index, newContent);
      var p := Position(|messages|, index);
      && |r| == |messages|
      && r[p].content == StrContent(newContent)
      && r[p] == WithContent(messages[p], newContent)
      && (forall k | 0 <= k < |r| && k != p :: r[k] == messages[k])
  {
  }

  /** An index outside the list changes nothing and the reply reports the failure. */
  lemma TrimOutOfRange(messages: seq<Message>, index: int, newContent: string)
    requires !ValidIndex(|messages|, index)
    ensures Trimmed(messages, index, newContent) == messages
    ensures StartsWith(TrimReply(|messages|, index, newContent), "tool trim_message failed: ")
  {
    var r := TrimReply(|messages|, index, newContent);
    assert r[..|"tool trim_message failed: "|] == "tool trim_message failed: ";
  }

  /** A successful trim reports the index as it was given. */
  lemma TrimSucceeds(n: nat, index: int, newContent: string)
    requires ValidIndex(n, index)
    ensures StartsWith(TrimReply(n, index, newContent), "message[" + IntToString(index) + "]")
  {
    var r := TrimReply(n, index, newContent);
    var head := "message[" + IntToString(index) + "]";
    assert r[..|head|] == head;
  }

  /** The same message addressed from the back and from the front is trimmed the same way. */
  lemma TrimNegativeIndex(messages: seq<Message>, index: int, newContent: string)
    requires -|messages| <= index < 0
    ensures Trimmed(messages, index, newContent) == Trimmed(messages, index + |messages|, newContent)
  {
  }

  /** The conversation a `trim_message` tool was built for; the tool edits it in place. */
  class TrimTool {
    var messages: seq<Message>

    /** `build_trim_message(messages)`. */
    constructor (messages: seq<Message>)
      ensures this.messages == messages
    {
      this.messages := messages;
    }

    /** `trim_message(index, new_content)`: delete the message when the new content is "", otherwise overwrite its content. */
    method TrimMessage(index: int, newContent: string) returns (reply: string)
      modifies this
      ensures messages == Trimmed(old(messages), index, newContent)
      ensures reply == TrimReply(|old(messages)|, index, newContent)
    {
      var n := |messages|;
      if newContent == "" {
        if index < -n || n <= index {
          return "tool trim_message failed: " + IndexErrorText(true);
        }
        var p := if index < 0 then index + n else index;
        messages := messages[..p] + messages[p + 1..];
      } else {
        if index < -n || n <= index {
          return "tool trim_message failed: " + IndexErrorText(false);
        }
        var p := if index < 0 then index + n else index;
        messages := messages[p := WithContent(messages[p], newContent)];
      }
      reply := "message[" + IntToString(index) + "] successfully modified";
    }
  }
}
