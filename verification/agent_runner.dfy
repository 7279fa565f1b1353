/**
  The glue between the agent's event stream and the tool-status registry: result
  previews, the handling of the "model" and "tools" chunks the agent graph
  emits, and the run loop that clears the registry, feeds it every chunk and
  collects the messages.

  Every call the runner makes on the registry is described by a `DisplayCall`;
  the chunk handlers are proved to leave the registry exactly as applying the
  calls listed by their specification functions would.
 */
module AgentRunner {
  import opened Options
  import opened Text
  import opened Lists
  import opened Messages
  import opened StatusDisplay

  // ---------------------------------------------------------------------------
  // Result previews

  const DefaultMaxLines: int := 3
  const DefaultMaxLineLength: int := 80

  /** The printable characters of a line, in order. */
  function KeepPrintable(s: string): string {
    Filter(s, IsPrintable)
  }

  /**
    One stripped, non-blank line as shown: its printable characters, cut to
    `maxLen - 3` characters plus "..." when longer than `maxLen`.
   */
  function CleanLine(stripped: string, maxLen: int): string {
    var cleaned := KeepPrintable(stripped);
    if |cleaned| > maxLen then SliceTo(cleaned, maxLen - 3) + "..." else cleaned
  }

  /**
    A cleaned line is printable; it is the printable characters themselves when
    they fit in `maxLen`, and otherwise (for `maxLen >= 3`) exactly `maxLen`
    long, their beginning followed by "...".
   */
  lemma CleanLineShape(stripped: string, maxLen: int)
    ensures var r := CleanLine(stripped, maxLen);
      && Printable(r)
      && (|KeepPrintable(stripped)| <= maxLen ==> r == KeepPrintable(stripped))
      && (|KeepPrintable(stripped)| > maxLen >= 3 ==>
            |r| == maxLen && EndsWith(r, "...") && StartsWith(KeepPrintable(stripped), r[..maxLen - 3]))
      && (maxLen >= 3 ==> |r| <= maxLen)
  {
    var cleaned := KeepPrintable(stripped);
    if |cleaned| > maxLen {
      var kept := SliceTo(cleaned, maxLen - 3);
      assert forall c | c in kept :: c in cleaned;
      assert forall c | c in kept + "..." :: c in kept || c == '.';
    }
  }

  /** The non-blank lines of a window, each cleaned, in order. */
  function CleanedLines(window: seq<string>, maxLen: int): (r: seq<string>)
    ensures |r| <= |window|
  {
    if window == [] then []
    else
      var last := window[|window| - 1];
      CleanedLines(window[..|window| - 1], maxLen) + (if Strip(last) != "" then [CleanLine(Strip(last), maxLen)] else [])
  }

  /** The lines the preview looks through: the first `3 * maxLines` pieces of the text split at "\n". */
  function Window(text: string, maxLines: int): seq<string> {
    SliceTo(Split(text, "\n"), maxLines * 3)
  }

  /**
    The preview's lines: the first `maxLines` cleaned non-blank lines of the
    window. With `maxLines < 1` the scan stops after the window's first line.
   */
  function PreviewLines(window: seq<string>, maxLines: int, maxLen: int): (r: seq<string>)
    ensures |r| <= if maxLines >= 1 then maxLines else 1
  {
    if maxLines >= 1 then
      var all := CleanedLines(window, maxLen);
      if |all| <= maxLines then all else all[..maxLines]
    else if window == [] then []
    else CleanedLines(window[..1], maxLen)
  }

  /** The preview shown for a tool result; content that is not a string previews as "". */
  function Preview(content: Content, maxLines: int, maxLen: int): string {
    if content.StrContent? then Join(PreviewLines(Window(content.text, maxLines), maxLines, maxLen), "\n") else ""
  }

  /** Every cleaned line is printable and, for `maxLen >= 3`, at most `maxLen` long. */
  lemma {:induction false} CleanedLinesShape(window: seq<string>, maxLen: int)
    ensures forall l | l in CleanedLines(window, maxLen) :: Printable(l) && (maxLen >= 3 ==> |l| <= maxLen)
  {
    if window != [] {
      CleanedLinesShape(window[..|window| - 1], maxLen);
      CleanLineShape(Strip(window[|window| - 1]), maxLen);
    }
  }

  /** A line made of printable characters only. */
  predicate Printable(l: string) {
    forall c | c in l :: IsPrintable(c)
  }

  /**
    The preview has at most `maxLines` lines (one when `maxLines < 1`), each
    printable and, for `maxLen >= 3`, at most `maxLen` long.
   */
  lemma PreviewLinesShape(window: seq<string>, maxLines: int, maxLen: int)
    ensures |PreviewLines(window, maxLines, maxLen)| <= if maxLines >= 1 then maxLines else 1
    ensures forall l | l in PreviewLines(window, maxLines, maxLen) :: Printable(l) && (maxLen >= 3 ==> |l| <= maxLen)
  {
    CleanedLinesShape(window, maxLen);
    if window != [] {
      CleanedLinesShape(window[..1], maxLen);
    }
    var all := CleanedLines(window, maxLen);
    if maxLines >= 1 && |all| > maxLines {
      assert forall l | l in all[..maxLines] :: l in all;
    }
  }

  lemma CleanedLinesStep(window: seq<string>, maxLen: int, i: nat)
    requires i < |window|
    ensures CleanedLines(window[..i + 1], maxLen) ==
            CleanedLines(window[..i], maxLen) + (if Strip(window[i]) != "" then [CleanLine(Strip(window[i]), maxLen)] else [])
  {
    assert window[..i + 1][..i] == window[..i];
  }

  /** The cleaned lines of a prefix of the window are a prefix of the window's cleaned lines. */
  lemma {:induction false} CleanedLinesPrefix(window: seq<string>, maxLen: int, i: nat)
    requires i <= |window|
    ensures var pre := CleanedLines(window[..i], maxLen);
      |pre| <= |CleanedLines(window, maxLen)| && CleanedLines(window, maxLen)[..|pre|] == pre
    decreases |window| - i
  {
    if i < |window| {
      var all := CleanedLines(window, maxLen);
      var pre := CleanedLines(window[..i], maxLen);
      var next := CleanedLines(window[..i + 1], maxLen);
      CleanedLinesStep(window, maxLen, i);
      assert |pre| <= |next| && pre == next[..|pre|];
      CleanedLinesPrefix(window, maxLen, i + 1);
      assert |next| <= |all| && all[..|next|] == next;
      assert |pre| <= |all| && all[..|pre|] == next[..|pre|];
    } else {
      assert window[..i] == window;
    }
  }

  /**
    Where the scan stops early, right after the window's line `i`: the lines
    collected so far are the preview's lines.
   */
  lemma PreviewAtBreak(window: seq<string>, maxLines: int, maxLen: int, i: nat)
    requires i < |window|
    requires i == 0 || |CleanedLines(window[..i], maxLen)| < maxLines
    requires |CleanedLines(window[..i + 1], maxLen)| >= maxLines
    ensures CleanedLines(window[..i + 1], maxLen) == PreviewLines(window, maxLines, maxLen)
  {
    if maxLines >= 1 {
      BreakLength(window, maxLines, maxLen, i);
      CleanedLinesPrefix(window, maxLen, i + 1);
      TakeExactly(CleanedLines(window, maxLen), CleanedLines(window[..i + 1], maxLen), maxLines);
    }
  }

  /** At the break, exactly `maxLines` lines have been collected. */
  lemma BreakLength(window: seq<string>, maxLines: int, maxLen: int, i: nat)
    requires i < |window|
    requires i == 0 || |CleanedLines(window[..i], maxLen)| < maxLines
    requires |CleanedLines(window[..i + 1], maxLen)| >= maxLines >= 1
    ensures |CleanedLines(window[..i + 1], maxLen)| == maxLines
  {
    CleanedLinesStep(window, maxLen, i);
    if i == 0 {
      FirstLineAtMostOne(window, maxLen);
    }
  }

  /** The window's first line gives at most one cleaned line. */
  lemma FirstLineAtMostOne(window: seq<string>, maxLen: int)
    requires 1 <= |window|
    ensures |CleanedLines(window[..1], maxLen)| <= 1
  {
  }

  /** A prefix of length `n` is what taking the first `n` elements gives. */
  lemma TakeExactly(all: seq<string>, pre: seq<string>, n: int)
    requires |pre| == n <= |all| && all[..n] == pre
    ensures pre == if |all| <= n then all else all[..n]
  {
  }

  /** Where the scan runs to the end of the window: everything collected is the preview. */
  lemma PreviewAtEnd(window: seq<string>, maxLines: int, maxLen: int)
    requires window == [] || |CleanedLines(window, maxLen)| < maxLines
    ensures CleanedLines(window, maxLen) == PreviewLines(window, maxLines, maxLen)
  {
  }

  /**
    The preview of a tool result: up to `maxLines` of its first `3 * maxLines`
    lines that are not blank, each stripped, freed of non-printable characters
    and cut to `maxLineLength`, joined by "\n". Non-string content gives "".
   */
  method ExtractResultPreview(content: Content, maxLines: int, maxLineLength: int) returns (r: string)
    ensures r == Preview(content, maxLines, maxLineLength)
    ensures !content.StrContent? ==> r == ""
  {
    if !content.StrContent? {
      return "";
    }
    var lines := Split(content.text, "\n");
    var previewLines := CollectPreviewLines(SliceTo(lines, maxLines * 3), maxLines, maxLineLength);
    r := Join(previewLines, "\n");
  }

  /** The scan over the window's lines, stopping once `maxLines` lines are collected. */
  method CollectPreviewLines(window: seq<string>, maxLines: int, maxLineLength: int) returns (previewLines: seq<string>)
    ensures previewLines == PreviewLines(window, maxLines, maxLineLength)
  {
    previewLines := [];
    var i := 0;
    while i < |window|
      invariant 0 <= i <= |window|
      invariant previewLines == CleanedLines(window[..i], maxLineLength)
      invariant i == 0 || |previewLines| < maxLines
    {
      CleanedLinesStep(window, maxLineLength, i);
      previewLines := AddLine(previewLines, window[i], maxLineLength);
      if |previewLines| >= maxLines {
        PreviewAtBreak(window, maxLines, maxLineLength, i);
        return;
      }
      i := i + 1;
    }
    assert window[..i] == window;
    PreviewAtEnd(window, maxLines, maxLineLength);
  }

  /** One line of the window: when it is not blank, its cleaned form is collected. */
  method AddLine(previewLines: seq<string>, line: string, maxLineLength: int) returns (r: seq<string>)
    ensures r == previewLines + if Strip(line) != "" then [CleanLine(Strip(line), maxLineLength)] else []
  {
    r := previewLines;
    var stripped := Strip(line);
    if stripped != "" {
      var cleaned := KeepPrintable(stripped);
      if |cleaned| > maxLineLength {
        cleaned := SliceTo(cleaned, maxLineLength - 3) + "...";
      }
      r := r + [cleaned];
    }
  }

  /** The preview's text is made of exactly its lines: none of them contains "\n". */
  lemma PreviewSplitsIntoLines(text: string, maxLines: int, maxLen: int)
    requires PreviewLines(Window(text, maxLines), maxLines, maxLen) != []
    ensures Split(Preview(StrContent(text), maxLines, maxLen), "\n") == PreviewLines(Window(text, maxLines), maxLines, maxLen)
  {
    var ls := PreviewLines(Window(text, maxLines), maxLines, maxLen);
    PreviewLinesShape(Window(text, maxLines), maxLines, maxLen);
    assert !IsPrintable('\n');
    SplitJoinChar(ls, '\n');
  }

  /** Cleaning leaves a window of short, stripped, printable, non-empty lines as it is. */
  lemma {:induction false} CleanedLinesIdle(window: seq<string>, maxLen: int)
    requires forall l | l in window :: ShownAsIs(l, maxLen)
    ensures CleanedLines(window, maxLen) == window
  {
    if window != [] {
      var init := window[..|window| - 1];
      var last := window[|window| - 1];
      assert window == init + [last];
      assert last in window;
      assert ShownAsIs(last, maxLen);
      assert forall l | l in init :: l in window;
      CleanedLinesIdle(init, maxLen);
      assert Strip(last) == last && last != "";
      assert KeepPrintable(last) == last;
      assert CleanLine(last, maxLen) == last;
      assert CleanedLines(window, maxLen) == CleanedLines(init, maxLen) + [CleanLine(Strip(last), maxLen)];
    }
  }

  /** A line the preview shows unchanged. */
  predicate ShownAsIs(l: string, maxLen: int) {
    l != "" && Strip(l) == l && |l| <= maxLen && forall c | c in l :: IsPrintable(c)
  }

  /**
    A short result of at most `maxLines` lines, each non-empty, already
    stripped, printable and at most `maxLen` long, is its own preview.
   */
  lemma PreviewOfShortResult(text: string, maxLines: int, maxLen: int)
    requires maxLines >= 1
    requires |Split(text, "\n")| <= maxLines
    requires forall l | l in Split(text, "\n") :: ShownAsIs(l, maxLen)
    ensures Preview(StrContent(text), maxLines, maxLen) == text
  {
    var lines := Split(text, "\n");
    assert Window(text, maxLines) == lines;
    CleanedLinesIdle(lines, maxLen);
    JoinSplit(text, "\n");
  }

  // ---------------------------------------------------------------------------
  // Calls on the registry

  /** One call the runner makes on the tool-status registry. */
  datatype DisplayCall =
    | RegisterCallsCall(requests: seq<ToolCallRequest>)
    | UpdateStatusCall(id: string, status: ToolStatus, result: Option<string>)
    | AddCommunicationCall(message: Content)

  /** The registry's sequence after one call. */
  function Apply(items: seq<Item>, c: DisplayCall): (r: seq<Item>)
    requires WellFormed(items)
    ensures WellFormed(r)
  {
    match c
    case RegisterCallsCall(reqs) => Registered(items, reqs)
    case UpdateStatusCall(id, status, result) => Updated(items, id, status, result)
    case AddCommunicationCall(m) =>
      assert forall k | 0 <= k < |items| + 1 :: (items + [CommunicationMessage(m)])[k].ToolsBatch? ==> k < |items|;
      items + [CommunicationMessage(m)]
  }

  /** The registry's sequence after the calls, in order. */
  function ApplyAll(items: seq<Item>, cs: seq<DisplayCall>): (r: seq<Item>)
    requires WellFormed(items)
    ensures WellFormed(r)
    decreases |cs|
  {
    if cs == [] then items else Apply(ApplyAll(items, cs[..|cs| - 1]), cs[|cs| - 1])
  }

  lemma ApplyAllOne(items: seq<Item>, c: DisplayCall)
    requires WellFormed(items)
    ensures ApplyAll(items, [c]) == Apply(items, c)
  {
    assert [c][..0] == [];
  }

  /** Making the calls of a prefix one longer makes one more call. */
  lemma ApplyAllPrefixStep(items: seq<Item>, cs: seq<DisplayCall>, n: nat)
    requires WellFormed(items) && n < |cs|
    ensures ApplyAll(items, cs[..n + 1]) == Apply(ApplyAll(items, cs[..n]), cs[n])
  {
    assert cs[..n + 1][..n] == cs[..n];
  }

  /** Making calls `a` and then calls `b` is making calls `a + b`. */
  lemma {:induction false} ApplyAllConcat(items: seq<Item>, a: seq<DisplayCall>, b: seq<DisplayCall>)
    requires WellFormed(items)
    ensures ApplyAll(items, a + b) == ApplyAll(ApplyAll(items, a), b)
    decreases |b|
  {
    if b == [] {
      assert a + b == a;
    } else {
      assert (a + b)[..|a + b| - 1] == a + b[..|b| - 1];
      ApplyAllConcat(items, a, b[..|b| - 1]);
    }
  }

  // ---------------------------------------------------------------------------
  // The "model" chunk

  const Communicate: string := "communicate"

  /** The ids already seen and the ids of "communicate" calls, as the runner tracks them. */
  datatype Tracking = Tracking(seen: set<string>, communicate: set<string>)

  /** The tracking after some messages and the registry calls they caused. */
  datatype Step = Step(tracking: Tracking, calls: seq<DisplayCall>)

  function IsNew(seen: set<string>): ToolCallRequest -> bool {
    (tc: ToolCallRequest) => tc.id !in seen
  }

  function IsNormal(tc: ToolCallRequest): bool {
    tc.name != Communicate
  }

  /** The requests of an AI message whose id is not yet seen. */
  function NewCalls(calls: seq<ToolCallRequest>, seen: set<string>): seq<ToolCallRequest> {
    Filter(calls, IsNew(seen))
  }

  /** The requests for ordinary tools (not "communicate"). */
  function NormalCalls(calls: seq<ToolCallRequest>): seq<ToolCallRequest> {
    Filter(calls, IsNormal)
  }

  function IdsOf(calls: seq<ToolCallRequest>): (r: set<string>)
    ensures forall tc | tc in calls :: tc.id in r
  {
    if calls == [] then {} else IdsOf(calls[..|calls| - 1]) + {calls[|calls| - 1].id}
  }

  /** Requests whose ids are all unseen contribute only unseen ids. */
  lemma {:induction false} IdsOfUnseen(calls: seq<ToolCallRequest>, seen: set<string>)
    requires forall tc | tc in calls :: tc.id !in seen
    ensures IdsOf(calls) !! seen
  {
    if calls != [] {
      IdsOfUnseen(calls[..|calls| - 1], seen);
    }
  }

  /** The ids of the "communicate" requests. */
  function CommunicateIds(calls: seq<ToolCallRequest>): (r: set<string>)
    ensures r <= IdsOf(calls)
    ensures forall tc | tc in calls && tc.name == Communicate :: tc.id in r
  {
    if calls == [] then {}
    else
      var last := calls[|calls| - 1];
      CommunicateIds(calls[..|calls| - 1]) + (if last.name == Communicate then {last.id} else {})
  }

  /** Marks each request RUNNING, in order. */
  function RunningCalls(calls: seq<ToolCallRequest>): (r: seq<DisplayCall>)
    ensures |r| == |calls|
    ensures forall i | 0 <= i < |calls| :: r[i] == UpdateStatusCall(calls[i].id, RUNNING, None)
  {
    if calls == [] then [] else RunningCalls(calls[..|calls| - 1]) + [UpdateStatusCall(calls[|calls| - 1].id, RUNNING, None)]
  }

  /** The tool-call requests of one AI message. */
  function ToolRequests(t: Tracking, calls: seq<ToolCallRequest>): (r: Step)
    ensures r.tracking.seen >= t.seen && r.tracking.communicate >= t.communicate
    ensures r.tracking.communicate - t.communicate <= r.tracking.seen - t.seen
  {
    var newOnes := NewCalls(calls, t.seen);
    if newOnes == [] then Step(t, [])
    else
      var normal := NormalCalls(newOnes);
      IdsOfUnseen(newOnes, t.seen);
      Step(Tracking(t.seen + IdsOf(newOnes), t.communicate + CommunicateIds(newOnes)),
           if normal == [] then [] else [RegisterCallsCall(normal)] + RunningCalls(normal))
  }

  /**
    One message of a "model" chunk: an AI message with tool calls registers its
    new ordinary requests and marks them RUNNING, recording every new id as
    seen and the "communicate" ones apart; a tool result that is not for a
    "communicate" call marks its call DONE with the result's preview.
   */
  function AgentMessage(t: Tracking, msg: Message): (r: Step)
    ensures r.tracking.seen >= t.seen && r.tracking.communicate >= t.communicate
    ensures r.tracking.communicate - t.communicate <= r.tracking.seen - t.seen
  {
    if msg.AIMessage? && msg.toolCalls != [] then ToolRequests(t, msg.toolCalls)
    else if msg.ToolMessage? then
      if msg.toolCallId in t.communicate then Step(t, [])
      else Step(t, [UpdateStatusCall(msg.toolCallId, DONE, Some(Preview(msg.content, DefaultMaxLines, DefaultMaxLineLength)))])
    else Step(t, [])
  }

  /** The messages of a "model" chunk, one after the other. */
  function AgentChunk(t: Tracking, messages: seq<Message>): (r: Step)
    decreases |messages|
  {
    if messages == [] then Step(t, [])
    else
      var prev := AgentChunk(t, messages[..|messages| - 1]);
      var s := AgentMessage(prev.tracking, messages[|messages| - 1]);
      Step(s.tracking, prev.calls + s.calls)
  }

  lemma AgentChunkStep(t: Tracking, messages: seq<Message>, i: nat)
    requires i < |messages|
    ensures var prev := AgentChunk(t, messages[..i]);
      AgentChunk(t, messages[..i + 1]) ==
      Step(AgentMessage(prev.tracking, messages[i]).tracking, prev.calls + AgentMessage(prev.tracking, messages[i]).calls)
  {
    assert messages[..i + 1][..i] == messages[..i];
  }

  /** The ids of all requests handed to `register_calls` by a list of registry calls. */
  function RegisteredIds(calls: seq<DisplayCall>): set<string> {
    set c, tc | c in calls && c.RegisterCallsCall? && tc in c.requests :: tc.id
  }

  /** Requests handed to `register_calls` by a list of registry calls. */
  predicate Registers(calls: seq<DisplayCall>, tc: ToolCallRequest) {
    exists c | c in calls :: c.RegisterCallsCall? && tc in c.requests
  }

  /**
    What reaches `register_calls` from one message: only requests of that AI
    message whose id was not yet seen and that are not "communicate" calls, in
    at most one registration, which comes first; afterwards every request id
    of the message is seen and every new "communicate" id is recorded as such.
    A result for a "communicate" call causes no registry call.
   */
  lemma AgentMessageRouting(t: Tracking, msg: Message)
    ensures forall c, tc | c in AgentMessage(t, msg).calls && c.RegisterCallsCall? && tc in c.requests ::
      msg.AIMessage? && tc in msg.toolCalls && tc.id !in t.seen && tc.name != Communicate
    ensures forall k | 0 < k < |AgentMessage(t, msg).calls| :: !AgentMessage(t, msg).calls[k].RegisterCallsCall?
    ensures msg.AIMessage? ==> forall tc | tc in msg.toolCalls :: tc.id in AgentMessage(t, msg).tracking.seen
    ensures msg.AIMessage? ==> forall tc | tc in msg.toolCalls && tc.id !in t.seen && tc.name == Communicate ::
      tc.id in AgentMessage(t, msg).tracking.communicate
    ensures msg.AIMessage? ==> forall tc | tc in msg.toolCalls && tc.id !in t.seen && tc.name != Communicate ::
      Registers(AgentMessage(t, msg).calls, tc)
    ensures msg.ToolMessage? && msg.toolCallId in t.communicate ==> AgentMessage(t, msg).calls == []
  {
    if msg.AIMessage? && msg.toolCalls != [] {
      ToolRequestsRouting(t, msg.toolCalls);
    } else {
      assert forall c | c in AgentMessage(t, msg).calls :: c.UpdateStatusCall?;
    }
  }

  lemma ToolRequestsRouting(t: Tracking, calls: seq<ToolCallRequest>)
    ensures forall c, tc | c in ToolRequests(t, calls).calls && c.RegisterCallsCall? && tc in c.requests ::
      tc in calls && tc.id !in t.seen && tc.name != Communicate
    ensures forall k | 0 < k < |ToolRequests(t, calls).calls| :: !ToolRequests(t, calls).calls[k].RegisterCallsCall?
    ensures forall tc | tc in calls :: tc.id in ToolRequests(t, calls).tracking.seen
    ensures forall tc | tc in calls && tc.id !in t.seen && tc.name == Communicate ::
      tc.id in ToolRequests(t, calls).tracking.communicate
    ensures forall tc | tc in calls && tc.id !in t.seen && tc.name != Communicate ::
      Registers(ToolRequests(t, calls).calls, tc)
  {
    var newOnes := NewCalls(calls, t.seen);
    var normal := NormalCalls(newOnes);
    NewNormalCalls(calls, t.seen);
    if normal != [] {
      assert ToolRequests(t, calls).calls[0] == RegisterCallsCall(normal);
    }
  }

  /** The new ordinary requests are exactly the requests that are neither seen nor "communicate". */
  lemma NewNormalCalls(calls: seq<ToolCallRequest>, seen: set<string>)
    ensures forall tc | tc in calls && tc.id !in seen :: tc in NewCalls(calls, seen)
    ensures forall tc | tc in NewCalls(calls, seen) :: tc in calls && tc.id !in seen
    ensures forall tc | tc in NormalCalls(NewCalls(calls, seen)) ::
      tc in calls && tc.id !in seen && tc.name != Communicate
    ensures forall tc | tc in calls && tc.id !in seen && tc.name != Communicate ::
      tc in NormalCalls(NewCalls(calls, seen))
  {
    var newOnes := NewCalls(calls, seen);
    forall tc | tc in calls && tc.id !in seen ensures tc in newOnes {
      assert IsNew(seen)(tc);
    }
    forall tc | tc in newOnes ensures tc.id !in seen {
      assert IsNew(seen)(tc);
    }
    forall tc | tc in newOnes && tc.name != Communicate ensures tc in NormalCalls(newOnes) {
      assert IsNormal(tc);
    }
  }

  /**
    The same over a whole "model" chunk: every registered request is an
    ordinary request whose id was not seen before the chunk, no id is
    registered by two different registrations, every request id of every AI
    message of the chunk ends up seen, and registered ids are among them.
   */
  lemma {:induction false} AgentChunkRouting(t: Tracking, messages: seq<Message>)
    ensures var r := AgentChunk(t, messages);
      && r.tracking.seen >= t.seen
      && RegisteredIds(r.calls) !! t.seen
      && RegisteredIds(r.calls) <= r.tracking.seen
      && (forall c, tc | c in r.calls && c.RegisterCallsCall? && tc in c.requests :: tc.name != Communicate)
      && (forall p, q | 0 <= p < q < |r.calls| && r.calls[p].RegisterCallsCall? && r.calls[q].RegisterCallsCall? ::
            RegisteredIds([r.calls[p]]) !! RegisteredIds([r.calls[q]]))
      && (forall m, tc | m in messages && m.AIMessage? && tc in m.toolCalls :: tc.id in r.tracking.seen)
    decreases |messages|
  {
    if messages != [] {
      var init, last := messages[..|messages| - 1], messages[|messages| - 1];
      AgentChunkRouting(t, init);
      var prev := AgentChunk(t, init);
      var s := AgentMessage(prev.tracking, last);
      AgentMessageRouting(prev.tracking, last);
      var r := AgentChunk(t, messages);
      assert r == Step(s.tracking, prev.calls + s.calls);
      RegisteredIdsConcat(prev.calls, s.calls);
      MessageRegisteredIds(prev.tracking, last);
      forall p, q | 0 <= p < q < |r.calls| && r.calls[p].RegisterCallsCall? && r.calls[q].RegisterCallsCall?
        ensures RegisteredIds([r.calls[p]]) !! RegisteredIds([r.calls[q]])
      {
        if q < |prev.calls| {
          assert r.calls[p] == prev.calls[p] && r.calls[q] == prev.calls[q];
        } else if p < |prev.calls| {
          RegisteredIdsOne(prev.calls, p);
          RegisteredIdsOne(s.calls, q - |prev.calls|);
          assert r.calls[p] == prev.calls[p] && r.calls[q] == s.calls[q - |prev.calls|];
        }
      }
      forall m, tc | m in messages && m.AIMessage? && tc in m.toolCalls ensures tc.id in r.tracking.seen {
        if m != last {
          assert m in init;
        }
      }
    }
  }

  /** The registered ids of one message are new and end up seen. */
  lemma MessageRegisteredIds(t: Tracking, msg: Message)
    ensures var r := AgentMessage(t, msg);
      RegisteredIds(r.calls) !! t.seen && RegisteredIds(r.calls) <= r.tracking.seen
  {
    AgentMessageRouting(t, msg);
  }

  lemma RegisteredIdsConcat(a: seq<DisplayCall>, b: seq<DisplayCall>)
    ensures RegisteredIds(a + b) == RegisteredIds(a) + RegisteredIds(b)
  {
    assert forall c | c in a + b :: c in a || c in b;
  }

  lemma RegisteredIdsOne(calls: seq<DisplayCall>, p: nat)
    requires p < |calls|
    ensures RegisteredIds([calls[p]]) <= RegisteredIds(calls)
  {
  }

  lemma RunningCallsStep(calls: seq<ToolCallRequest>, j: nat)
    requires j < |calls|
    ensures RunningCalls(calls[..j + 1]) == RunningCalls(calls[..j]) + [UpdateStatusCall(calls[j].id, RUNNING, None)]
  {
    assert calls[..j + 1][..j] == calls[..j];
  }

  /** Records the new requests of an AI message as seen, setting the "communicate" ones apart. */
  method SplitNewCalls(newCalls: seq<ToolCallRequest>, seen0: set<string>, communicate0: set<string>)
    returns (seen: set<string>, communicate: set<string>, normalCalls: seq<ToolCallRequest>)
    ensures seen == seen0 + IdsOf(newCalls)
    ensures communicate == communicate0 + CommunicateIds(newCalls)
    ensures normalCalls == NormalCalls(newCalls)
  {
    seen, communicate, normalCalls := seen0, communicate0, [];
    for j := 0 to |newCalls|
      invariant seen == seen0 + IdsOf(newCalls[..j])
      invariant communicate == communicate0 + CommunicateIds(newCalls[..j])
      invariant normalCalls == NormalCalls(newCalls[..j])
    {
      var tc := newCalls[j];
      assert newCalls[..j + 1][..j] == newCalls[..j];
      FilterStep(newCalls, IsNormal, j);
      seen := seen + {tc.id};
      if tc.name == Communicate {
        communicate := communicate + {tc.id};
      } else {
        normalCalls := normalCalls + [tc];
      }
    }
    assert newCalls[..|newCalls|] == newCalls;
  }

  /** Registers ordinary requests with the display and marks each of them RUNNING. */
  method RegisterRunning(display: ToolStatusDisplay, normalCalls: seq<ToolCallRequest>)
    requires display.Valid()
    modifies display
    ensures display.Valid() && display.costLine == old(display.costLine)
    ensures display.sequence == ApplyAll(old(display.sequence), [RegisterCallsCall(normalCalls)] + RunningCalls(normalCalls))
  {
    ghost var before := display.sequence;
    ghost var calls := [RegisterCallsCall(normalCalls)] + RunningCalls(normalCalls);
    display.RegisterCalls(normalCalls);
    ApplyAllOne(before, RegisterCallsCall(normalCalls));
    assert calls[..1] == [RegisterCallsCall(normalCalls)];
    for j := 0 to |normalCalls|
      invariant display.Valid() && display.costLine == old(display.costLine)
      invariant display.sequence == ApplyAll(before, calls[..j + 1])
    {
      assert calls[j + 1] == UpdateStatusCall(normalCalls[j].id, RUNNING, None);
      ApplyAllPrefixStep(before, calls, j + 1);
      display.UpdateStatus(normalCalls[j].id, RUNNING, None);
    }
    assert calls[..|normalCalls| + 1] == calls;
  }

  /** Handles one message of a "model" chunk. */
  method HandleAgentMessage(msg: Message, seen0: set<string>, display: ToolStatusDisplay, communicate0: set<string>)
    returns (seen: set<string>, communicate: set<string>)
    requires display.Valid()
    modifies display
    ensures display.Valid() && display.costLine == old(display.costLine)
    ensures Tracking(seen, communicate) == AgentMessage(Tracking(seen0, communicate0), msg).tracking
    ensures display.sequence == ApplyAll(old(display.sequence), AgentMessage(Tracking(seen0, communicate0), msg).calls)
  {
    seen, communicate := seen0, communicate0;
    if msg.AIMessage? && msg.toolCalls != [] {
      var newCalls := NewCalls(msg.toolCalls, seen);
      if newCalls != [] {
        var normalCalls;
        seen, communicate, normalCalls := SplitNewCalls(newCalls, seen0, communicate0);
        if normalCalls != [] {
          RegisterRunning(display, normalCalls);
        }
      }
    } else if msg.ToolMessage? {
      if msg.toolCallId !in communicate {
        var preview := ExtractResultPreview(msg.content, DefaultMaxLines, DefaultMaxLineLength);
        ghost var before := display.sequence;
        display.UpdateStatus(msg.toolCallId, DONE, Some(preview));
        ApplyAllOne(before, UpdateStatusCall(msg.toolCallId, DONE, Some(preview)));
      }
    }
  }

  /**
    Handles the messages of a "model" chunk in order; the sets of seen ids and
    of "communicate" ids, which the caller shares, come back updated.
   */
  method ProcessAgentChunk(messages: seq<Message>, toolCallIdsSeen: set<string>, display: ToolStatusDisplay, communicateCalls: set<string>)
    returns (seen: set<string>, communicate: set<string>)
    requires display.Valid()
    modifies display
    ensures display.Valid() && display.costLine == old(display.costLine)
    ensures Tracking(seen, communicate) == AgentChunk(Tracking(toolCallIdsSeen, communicateCalls), messages).tracking
    ensures display.sequence == ApplyAll(old(display.sequence), AgentChunk(Tracking(toolCallIdsSeen, communicateCalls), messages).calls)
  {
    seen, communicate := toolCallIdsSeen, communicateCalls;
    ghost var t0 := Tracking(toolCallIdsSeen, communicateCalls);
    for i := 0 to |messages|
      invariant display.Valid() && display.costLine == old(display.costLine)
      invariant Tracking(seen, communicate) == AgentChunk(t0, messages[..i]).tracking
      invariant display.sequence == ApplyAll(old(display.sequence), AgentChunk(t0, messages[..i]).calls)
    {
      AgentChunkStep(t0, messages, i);
      ghost var before := display.sequence;
      ghost var prev := AgentChunk(t0, messages[..i]);
      seen, communicate := HandleAgentMessage(messages[i], seen, display, communicate);
      ApplyAllConcat(old(display.sequence), prev.calls, AgentMessage(prev.tracking, messages[i]).calls);
    }
    assert messages[..|messages|] == messages;
  }

  // ---------------------------------------------------------------------------
  // The "tools" chunk

  /** Marks RUNNING each PENDING entry of a batch, in insertion order. */
  function PendingToRunning(calls: seq<ToolCall>): (r: seq<DisplayCall>)
    ensures |r| <= |calls|
  {
    if calls == [] then []
    else
      var last := calls[|calls| - 1];
      PendingToRunning(calls[..|calls| - 1]) + (if last.status == PENDING then [UpdateStatusCall(last.id, RUNNING, None)] else [])
  }

  /** Marks RUNNING each PENDING entry of every batch, in sequence order. */
  function MarkRunning(items: seq<Item>): seq<DisplayCall> {
    if items == [] then []
    else
      var last := items[|items| - 1];
      MarkRunning(items[..|items| - 1]) + (if last.ToolsBatch? then PendingToRunning(last.calls) else [])
  }

  /**
    The tool results of a "tools" chunk: a "communicate" result is added as a
    communication, any other marks its call DONE with the result's preview.
   */
  function ResultCalls(messages: seq<Message>, communicate: set<string>): (r: seq<DisplayCall>)
    ensures |r| <= |messages|
  {
    if messages == [] then []
    else
      ResultCalls(messages[..|messages| - 1], communicate) + ResultCall(messages[|messages| - 1], communicate)
  }

  /** One message of a "tools" chunk. */
  function ResultCall(msg: Message, communicate: set<string>): (r: seq<DisplayCall>)
    ensures |r| <= 1
    ensures r != [] <==> msg.ToolMessage?
  {
    if !msg.ToolMessage? then []
    else if msg.toolCallId in communicate then [AddCommunicationCall(msg.content)]
    else [UpdateStatusCall(msg.toolCallId, DONE, Some(Preview(msg.content, DefaultMaxLines, DefaultMaxLineLength)))]
  }

  /** What a "tools" chunk does to a registry holding `items`. */
  function ToolsChunkCalls(items: seq<Item>, messages: seq<Message>, communicate: set<string>): seq<DisplayCall> {
    MarkRunning(items) + ResultCalls(messages, communicate)
  }

  /** Same number of items of the same kinds, batches with the same ids in the same places. */
  predicate SameShape(a: seq<Item>, b: seq<Item>) {
    && |a| == |b|
    && (forall k | 0 <= k < |a| :: a[k].ToolsBatch? == b[k].ToolsBatch?)
    && (forall k | 0 <= k < |a| && !a[k].ToolsBatch? :: a[k] == b[k])
    && (forall k | 0 <= k < |a| && a[k].ToolsBatch? && b[k].ToolsBatch? ::
          |a[k].calls| == |b[k].calls| && forall j | 0 <= j < |a[k].calls| :: a[k].calls[j].id == b[k].calls[j].id)
  }

  /** `a` and `b` agree on every entry from position (k, j) on. */
  predicate AgreeFrom(a: seq<Item>, b: seq<Item>, k: nat, j: nat) {
    && (forall k' | k < k' < |a| && k' < |b| :: a[k'] == b[k'])
    && (k < |a| && k < |b| && a[k].ToolsBatch? && b[k].ToolsBatch? ==>
          forall j' | j <= j' < |a[k].calls| && j' < |b[k].calls| :: a[k].calls[j'] == b[k].calls[j'])
  }

  /**
    Updating the id found at position (k, j) changes the first entry holding
    that id, which is never after (k, j): everything from (k, j + 1) on stays.
   */
  lemma UpdateAtVisited(items: seq<Item>, k: nat, j: nat, status: ToolStatus, result: Option<string>)
    requires WellFormed(items) && k < |items| && items[k].ToolsBatch? && j < |items[k].calls|
    ensures var r := Updated(items, items[k].calls[j].id, status, result);
      SameShape(r, items) && AgreeFrom(r, items, k, j + 1)
  {
    var id := items[k].calls[j].id;
    assert BatchHas(items[k], id);
    var first := FirstBatchFrom(items, id, 0);
    var k0 := first.value;
    assert k0 <= k;
    UpdatedOnlyFirstEntry(items, id, status, result, k0);
    var r := Updated(items, id, status, result);
    if k0 == k {
      forall j' | j < j' < |items[k].calls| ensures r[k].calls[j'] == items[k].calls[j'] {
        assert items[k].calls[j'].id != id;
      }
    }
  }

  lemma PendingToRunningStep(calls: seq<ToolCall>, j: nat)
    requires j < |calls|
    ensures PendingToRunning(calls[..j + 1]) ==
            PendingToRunning(calls[..j]) + (if calls[j].status == PENDING then [UpdateStatusCall(calls[j].id, RUNNING, None)] else [])
  {
    assert calls[..j + 1][..j] == calls[..j];
  }

  lemma MarkRunningStep(items: seq<Item>, k: nat)
    requires k < |items|
    ensures MarkRunning(items[..k + 1]) ==
            MarkRunning(items[..k]) + (if items[k].ToolsBatch? then PendingToRunning(items[k].calls) else [])
  {
    assert items[..k + 1][..k] == items[..k];
  }

  lemma ResultCallsStep(messages: seq<Message>, communicate: set<string>, i: nat)
    requires i < |messages|
    ensures ResultCalls(messages[..i + 1], communicate) == ResultCalls(messages[..i], communicate) + ResultCall(messages[i], communicate)
  {
    assert messages[..i + 1][..i] == messages[..i];
  }

  /** The registry after one more visited entry still agrees with the original from the next entry on. */
  lemma VisitStep(items0: seq<Item>, cur: seq<Item>, k: nat, j: nat, next: seq<Item>)
    requires WellFormed(cur) && SameShape(cur, items0) && AgreeFrom(cur, items0, k, j)
    requires k < |cur| && cur[k].ToolsBatch? && j < |cur[k].calls|
    requires next == cur || next == Updated(cur, cur[k].calls[j].id, RUNNING, None)
    ensures SameShape(next, items0) && AgreeFrom(next, items0, k, j + 1)
  {
    if next != cur {
      UpdateAtVisited(cur, k, j, RUNNING, None);
    }
  }

  /**
    The first pass of a "tools" chunk: every PENDING entry of the registry is
    marked RUNNING, walking the registry live as each update is made.
   */
  method MarkPendingRunning(display: ToolStatusDisplay)
    requires display.Valid()
    modifies display
    ensures display.Valid() && display.costLine == old(display.costLine)
    ensures display.sequence == ApplyAll(old(display.sequence), MarkRunning(old(display.sequence)))
  {
    ghost var items0 := display.sequence;
    var k := 0;
    while k < |display.sequence|
      invariant 0 <= k <= |items0| && display.Valid() && display.costLine == old(display.costLine)
      invariant SameShape(display.sequence, items0) && AgreeFrom(display.sequence, items0, k, 0)
      invariant display.sequence == ApplyAll(items0, MarkRunning(items0[..k]))
      decreases |items0| - k
    {
      VisitItem(display, items0, k);
      k := k + 1;
    }
    assert items0[..k] == items0;
  }

  /** Visits the entry at position `k` of the registry: a batch has its PENDING entries marked RUNNING. */
  method VisitItem(display: ToolStatusDisplay, ghost items0: seq<Item>, k: nat)
    requires k < |items0| && display.Valid() && WellFormed(items0)
    requires SameShape(display.sequence, items0) && AgreeFrom(display.sequence, items0, k, 0)
    requires display.sequence == ApplyAll(items0, MarkRunning(items0[..k]))
    modifies display
    ensures display.Valid() && display.costLine == old(display.costLine)
    ensures SameShape(display.sequence, items0) && AgreeFrom(display.sequence, items0, k + 1, 0)
    ensures display.sequence == ApplyAll(items0, MarkRunning(items0[..k + 1]))
  {
    MarkRunningStep(items0, k);
    if display.sequence[k].ToolsBatch? {
      VisitBatch(display, items0, k);
      ApplyAllConcat(items0, MarkRunning(items0[..k]), PendingToRunning(items0[k].calls));
    } else {
      assert MarkRunning(items0[..k + 1]) == MarkRunning(items0[..k]);
    }
  }

  /** Visits the entries of the batch at position `k`, marking the PENDING ones RUNNING. */
  method VisitBatch(display: ToolStatusDisplay, ghost items0: seq<Item>, k: nat)
    requires display.Valid() && k < |items0| && items0[k].ToolsBatch?
    requires SameShape(display.sequence, items0) && AgreeFrom(display.sequence, items0, k, 0)
    modifies display
    ensures display.Valid() && display.costLine == old(display.costLine)
    ensures SameShape(display.sequence, items0) && AgreeFrom(display.sequence, items0, k + 1, 0)
    ensures display.sequence == ApplyAll(old(display.sequence), PendingToRunning(items0[k].calls))
  {
    ghost var start := display.sequence;
    var j := 0;
    assert items0[k].calls[..0] == [];
    while j < |display.sequence[k].calls|
      invariant 0 <= j <= |items0[k].calls| && display.Valid() && display.costLine == old(display.costLine)
      invariant SameShape(display.sequence, items0) && AgreeFrom(display.sequence, items0, k, j)
      invariant display.sequence == ApplyAll(start, PendingToRunning(items0[k].calls[..j]))
      decreases |items0[k].calls| - j
    {
      VisitEntry(display, items0, k, j, start);
      j := j + 1;
    }
    assert items0[k].calls[..j] == items0[k].calls;
  }

  /** Visits the entry at position (k, j): marks it RUNNING when it is PENDING. */
  method VisitEntry(display: ToolStatusDisplay, ghost items0: seq<Item>, k: nat, j: nat, ghost start: seq<Item>)
    requires display.Valid() && WellFormed(start) && k < |items0| && items0[k].ToolsBatch? && j < |items0[k].calls|
    requires SameShape(display.sequence, items0) && AgreeFrom(display.sequence, items0, k, j)
    requires display.sequence == ApplyAll(start, PendingToRunning(items0[k].calls[..j]))
    modifies display
    ensures display.Valid() && display.costLine == old(display.costLine)
    ensures SameShape(display.sequence, items0) && AgreeFrom(display.sequence, items0, k, j + 1)
    ensures display.sequence == ApplyAll(start, PendingToRunning(items0[k].calls[..j + 1]))
  {
    var toolCall := display.sequence[k].calls[j];
    ghost var cur := display.sequence;
    assert toolCall == items0[k].calls[j];
    PendingToRunningStep(items0[k].calls, j);
    if toolCall.status == PENDING {
      display.UpdateStatus(toolCall.id, RUNNING, None);
      ApplyAllConcat(start, PendingToRunning(items0[k].calls[..j]), [UpdateStatusCall(toolCall.id, RUNNING, None)]);
      ApplyAllOne(cur, UpdateStatusCall(toolCall.id, RUNNING, None));
    } else {
      assert PendingToRunning(items0[k].calls[..j + 1]) == PendingToRunning(items0[k].calls[..j]);
    }
    VisitStep(items0, cur, k, j, display.sequence);
  }

  /** Shows one tool result. */
  method ShowToolResult(msg: Message, display: ToolStatusDisplay, communicateCalls: set<string>)
    requires display.Valid()
    modifies display
    ensures display.Valid() && display.costLine == old(display.costLine)
    ensures display.sequence == ApplyAll(old(display.sequence), ResultCall(msg, communicateCalls))
  {
    ghost var cur := display.sequence;
    if msg.ToolMessage? {
      if msg.toolCallId in communicateCalls {
        display.AddCommunication(msg.content);
        ApplyAllOne(cur, AddCommunicationCall(msg.content));
      } else {
        var preview := ExtractResultPreview(msg.content, DefaultMaxLines, DefaultMaxLineLength);
        display.UpdateStatus(msg.toolCallId, DONE, Some(preview));
        ApplyAllOne(cur, UpdateStatusCall(msg.toolCallId, DONE, Some(preview)));
      }
    }
  }

  /** The second pass of a "tools" chunk: each tool result is shown. */
  method ShowToolResults(messages: seq<Message>, display: ToolStatusDisplay, communicateCalls: set<string>)
    requires display.Valid()
    modifies display
    ensures display.Valid() && display.costLine == old(display.costLine)
    ensures display.sequence == ApplyAll(old(display.sequence), ResultCalls(messages, communicateCalls))
  {
    ghost var start := display.sequence;
    for i := 0 to |messages|
      invariant display.Valid() && display.costLine == old(display.costLine)
      invariant display.sequence == ApplyAll(start, ResultCalls(messages[..i], communicateCalls))
    {
      ResultCallsStep(messages, communicateCalls, i);
      ShowToolResult(messages[i], display, communicateCalls);
      ApplyAllConcat(start, ResultCalls(messages[..i], communicateCalls), ResultCall(messages[i], communicateCalls));
    }
    assert messages[..|messages|] == messages;
  }

  /**
    Handles a "tools" chunk: every PENDING entry in the registry is marked
    RUNNING, then each tool result is shown.
   */
  method ProcessToolsChunk(messages: seq<Message>, display: ToolStatusDisplay, communicateCalls: set<string>)
    requires display.Valid()
    modifies display
    ensures display.Valid() && display.costLine == old(display.costLine)
    ensures display.sequence == ApplyAll(old(display.sequence), ToolsChunkCalls(old(display.sequence), messages, communicateCalls))
  {
    MarkPendingRunning(display);
    ShowToolResults(messages, display, communicateCalls);
    ApplyAllConcat(old(display.sequence), MarkRunning(old(display.sequence)), ResultCalls(messages, communicateCalls));
  }

  // ---------------------------------------------------------------------------
  // The run

  /** One node's update in a streamed chunk; a missing "messages" key reads as no messages. */
  datatype Node = Node(messages: Option<seq<Message>>)

  /** One streamed chunk: the updates of the "model" and/or "tools" node. */
  datatype Chunk = Chunk(model: Option<Node>, tools: Option<Node>)

  function NodeMessages(n: Node): seq<Message> {
    if n.messages.Some? then n.messages.value else []
  }

  /** What the run has built so far: the registry's sequence, the tracking and the collected messages. */
  datatype RunState = RunState(items: seq<Item>, tracking: Tracking, messages: seq<Message>)

  /** One chunk of the run; a chunk with a "model" update is handled as such even if it also has a "tools" one. */
  function ChunkStep(st: RunState, chunk: Chunk): (r: RunState)
    requires WellFormed(st.items)
    ensures WellFormed(r.items)
  {
    if chunk.model.Some? then
      var ms := NodeMessages(chunk.model.value);
      var step := AgentChunk(st.tracking, ms);
      RunState(ApplyAll(st.items, step.calls), step.tracking, st.messages + ms)
    else if chunk.tools.Some? then
      var ms := NodeMessages(chunk.tools.value);
      RunState(ApplyAll(st.items, ToolsChunkCalls(st.items, ms, st.tracking.communicate)), st.tracking, st.messages + ms)
    else st
  }

  /** The run over the chunks, starting from a cleared registry and nothing seen. */
  function RunChunks(chunks: seq<Chunk>): (r: RunState)
    ensures WellFormed(r.items)
    decreases |chunks|
  {
    if chunks == [] then RunState([], Tracking({}, {}), [])
    else ChunkStep(RunChunks(chunks[..|chunks| - 1]), chunks[|chunks| - 1])
  }

  /**
    Runs the agent over the stream of chunks with the live status view: the
    registry is cleared first and finalized last, and every message of every
    "model" and "tools" update is collected in order.
   */
  method RunAgentWithDisplay(chunks: seq<Chunk>, display: ToolStatusDisplay) returns (finalMessages: seq<Message>)
    modifies display
    ensures finalMessages == RunChunks(chunks).messages
    ensures display.sequence == RunChunks(chunks).items
    ensures !display.live && display.costLine == None
  {
    display.Clear();
    finalMessages := [];
    var toolCallIdsSeen: set<string> := {};
    var communicateCalls: set<string> := {};
    for i := 0 to |chunks|
      invariant display.Valid() && display.costLine == None
      invariant RunChunks(chunks[..i]) == RunState(display.sequence, Tracking(toolCallIdsSeen, communicateCalls), finalMessages)
    {
      var chunk := chunks[i];
      assert chunks[..i + 1][..i] == chunks[..i];
      if chunk.model.Some? {
        var messages := NodeMessages(chunk.model.value);
        finalMessages := finalMessages + messages;
        toolCallIdsSeen, communicateCalls := ProcessAgentChunk(messages, toolCallIdsSeen, display, communicateCalls);
      } else if chunk.tools.Some? {
        var messages := NodeMessages(chunk.tools.value);
        finalMessages := finalMessages + messages;
        ProcessToolsChunk(messages, display, communicateCalls);
      }
    }
    assert chunks[..|chunks|] == chunks;
    display.Finalize();
  }
}
