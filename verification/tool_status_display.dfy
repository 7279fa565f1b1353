/**
  The tool-status registry behind the live terminal view: an ordered sequence
  of tool batches (each a dict from call id to its `ToolCall`, in insertion
  order) and communication items, updated in place as the agent streams. The
  terminal rendering itself is not modelled; the order in which items are laid
  out is, as is the text shaping of tool arguments and embedded diffs.
 */
module StatusDisplay {
  import opened Options
  import opened Text
  import opened Messages

  datatype ToolStatus = PENDING | RUNNING | DONE | ERROR

  /** The record kept for one tool call. */
  datatype ToolCall = ToolCall(id: string, name: string, args: seq<(string, string)>, status: ToolStatus, result: Option<string>)

  /**
    One entry of `display_sequence`: a batch of tool calls, a communication
    message, or a communication carrying a ready-made diff panel (`add_diff`).
   */
  datatype Item =
    | ToolsBatch(calls: seq<ToolCall>)
    | CommunicationMessage(message: Content)
    | CommunicationDiff(filename: string, diff: string)

  /** What the live view shows, top to bottom. */
  datatype Renderable =
    | ToolPanel(call: ToolCall)
    | CostPanel(line: string)
    | MessagePanel(message: Content)
    | DiffPanel(filename: string, diff: string)

  // ---------------------------------------------------------------------------
  // A batch as an insertion-ordered dict keyed by call id

  predicate HasId(calls: seq<ToolCall>, id: string) {
    exists i | 0 <= i < |calls| :: calls[i].id == id
  }

  /** Dict keys are unique. */
  predicate DistinctIds(calls: seq<ToolCall>) {
    forall i, j | 0 <= i < j < |calls| :: calls[i].id != calls[j].id
  }

  /** Every batch of the sequence is a proper dict. */
  predicate WellFormed(items: seq<Item>) {
    forall k | 0 <= k < |items| :: items[k].ToolsBatch? ==> DistinctIds(items[k].calls)
  }

  /** The position of `id` in a batch. */
  function IndexOf(calls: seq<ToolCall>, id: string): (r: Option<nat>)
    ensures r.Some? ==> r.value < |calls| && calls[r.value].id == id
    ensures r.Some? ==> forall j | 0 <= j < r.value :: calls[j].id != id
    ensures r.None? <==> !HasId(calls, id)
  {
    if calls == [] then None
    else if calls[0].id == id then Some(0)
    else
      match IndexOf(calls[1..], id)
      case None =>
        assert forall i | 1 <= i < |calls| :: calls[i] == calls[1..][i - 1];
        None
      case Some(j) => Some(j + 1)
  }

  /** `calls.get(id)`. */
  function Lookup(calls: seq<ToolCall>, id: string): (r: Option<ToolCall>)
    ensures r.Some? ==> r.value in calls && r.value.id == id
    ensures r.None? <==> !HasId(calls, id)
  {
    match IndexOf(calls, id)
    case None => None
    case Some(i) => Some(calls[i])
  }

  /** `calls[c.id] = c`: overwrites the entry in place, or appends a new one. */
  function Put(calls: seq<ToolCall>, c: ToolCall): (r: seq<ToolCall>)
    requires DistinctIds(calls)
    ensures DistinctIds(r)
    ensures Lookup(r, c.id) == Some(c)
    ensures forall id | id != c.id :: Lookup(r, id) == Lookup(calls, id)
  {
    match IndexOf(calls, c.id)
    case Some(i) =>
      var r := calls[i := c];
      assert forall id | id != c.id :: IndexOf(r, id) == IndexOf(calls, id) by {
        forall id | id != c.id ensures IndexOf(r, id) == IndexOf(calls, id) {
          SameIdsSameIndex(calls, r, id);
        }
      }
      IndexOfFirst(r, c.id, i);
      r
    case None =>
      var r := calls + [c];
      assert forall id | id != c.id :: IndexOf(r, id) == IndexOf(calls, id) by {
        forall id | id != c.id ensures IndexOf(r, id) == IndexOf(calls, id) {
          AppendOtherIdSameIndex(calls, c, id);
        }
      }
      IndexOfFirst(r, c.id, |calls|);
      r
  }

  /** The first position holding `id` is the one `IndexOf` finds. */
  lemma IndexOfFirst(calls: seq<ToolCall>, id: string, i: nat)
    requires i < |calls| && calls[i].id == id
    requires forall j | 0 <= j < i :: calls[j].id != id
    ensures IndexOf(calls, id) == Some(i)
  {
    assert HasId(calls, id);
  }

  lemma {:induction false} SameIdsSameIndex(a: seq<ToolCall>, b: seq<ToolCall>, id: string)
    requires |a| == |b| && forall i | 0 <= i < |a| :: (a[i].id == id) == (b[i].id == id)
    ensures IndexOf(a, id) == IndexOf(b, id)
  {
    if a != [] && a[0].id != id {
      SameIdsSameIndex(a[1..], b[1..], id);
    }
  }

  lemma {:induction false} AppendOtherIdSameIndex(a: seq<ToolCall>, c: ToolCall, id: string)
    requires c.id != id
    ensures IndexOf(a + [c], id) == IndexOf(a, id)
  {
    if a != [] && a[0].id != id {
      assert (a + [c])[1..] == a[1..] + [c];
      AppendOtherIdSameIndex(a[1..], c, id);
    }
  }

  /** The fresh record `register_calls` stores for a request: PENDING, no result. */
  function NewCall(req: ToolCallRequest): (c: ToolCall)
    ensures c.id == req.id && c.status == PENDING && c.result == None
  {
    ToolCall(req.id, req.name, req.args, PENDING, None)
  }

  /** Stores a record for each request in turn. */
  function PutAll(calls: seq<ToolCall>, reqs: seq<ToolCallRequest>): (r: seq<ToolCall>)
    requires DistinctIds(calls)
    ensures DistinctIds(r)
    decreases |reqs|
  {
    if reqs == [] then calls
    else Put(PutAll(calls, reqs[..|reqs| - 1]), NewCall(reqs[|reqs| - 1]))
  }

  /** After storing the requests, an id maps to the record for its LAST request. */
  lemma {:induction false} PutAllLastWins(calls: seq<ToolCall>, reqs: seq<ToolCallRequest>, j: nat)
    requires DistinctIds(calls)
    requires j < |reqs| && forall j' | j < j' < |reqs| :: reqs[j'].id != reqs[j].id
    ensures Lookup(PutAll(calls, reqs), reqs[j].id) == Some(NewCall(reqs[j]))
    decreases |reqs|
  {
    if j < |reqs| - 1 {
      var init := reqs[..|reqs| - 1];
      assert init[j] == reqs[j];
      PutAllLastWins(calls, init, j);
    }
  }

  /** Storing requests for other ids leaves an id's entry as it was. */
  lemma {:induction false} PutAllOthers(calls: seq<ToolCall>, reqs: seq<ToolCallRequest>, id: string)
    requires DistinctIds(calls)
    requires forall j | 0 <= j < |reqs| :: reqs[j].id != id
    ensures Lookup(PutAll(calls, reqs), id) == Lookup(calls, id)
    decreases |reqs|
  {
    if reqs != [] {
      PutAllOthers(calls, reqs[..|reqs| - 1], id);
    }
  }

  lemma PutAllStep(calls: seq<ToolCall>, reqs: seq<ToolCallRequest>, i: nat)
    requires DistinctIds(calls) && i < |reqs|
    ensures PutAll(calls, reqs[..i + 1]) == Put(PutAll(calls, reqs[..i]), NewCall(reqs[i]))
  {
    assert reqs[..i + 1][..i] == reqs[..i];
  }

  // ---------------------------------------------------------------------------
  // The state changes of the registry, as functions of the sequence

  /**
    `register_calls`: a new empty batch is appended when the sequence is empty
    or ends with a communication; the requests then go into the last batch.
   */
  function Registered(items: seq<Item>, reqs: seq<ToolCallRequest>): (r: seq<Item>)
    requires WellFormed(items)
    ensures WellFormed(r)
  {
    var base := if items == [] || !items[|items| - 1].ToolsBatch? then items + [ToolsBatch([])] else items;
    base[|base| - 1 := ToolsBatch(PutAll(base[|base| - 1].calls, reqs))]
  }

  /** The item holds a call with this id. */
  predicate BatchHas(item: Item, id: string) {
    item.ToolsBatch? && HasId(item.calls, id)
  }

  /** The first batch at or after `from` that holds `id`. */
  function FirstBatchFrom(items: seq<Item>, id: string, from: nat): (r: Option<nat>)
    decreases |items| - from
    ensures r.Some? ==> from <= r.value < |items| && BatchHas(items[r.value], id)
    ensures r.Some? ==> forall k | from <= k < r.value :: !BatchHas(items[k], id)
    ensures r.None? ==> forall k | from <= k < |items| :: !BatchHas(items[k], id)
  {
    if from >= |items| then None
    else if BatchHas(items[from], id) then Some(from)
    else FirstBatchFrom(items, id, from + 1)
  }

  /** One record after `update_status`: the status always, the result only when a non-empty one is given. */
  function UpdatedCall(c: ToolCall, status: ToolStatus, result: Option<string>): ToolCall {
    c.(status := status, result := if result.Some? && result.value != "" then result else c.result)
  }

  /** `update_status`: changes the entry for `id` in the first batch holding it. */
  function Updated(items: seq<Item>, id: string, status: ToolStatus, result: Option<string>): (r: seq<Item>)
    requires WellFormed(items)
    ensures WellFormed(r)
  {
    match FirstBatchFrom(items, id, 0)
    case None => items
    case Some(k) =>
      var calls := items[k].calls;
      var i := IndexOf(calls, id).value;
      var calls' := calls[i := UpdatedCall(calls[i], status, result)];
      assert DistinctIds(calls') by {
        forall a, b | 0 <= a < b < |calls'| ensures calls'[a].id != calls'[b].id {
          assert calls'[a].id == calls[a].id && calls'[b].id == calls[b].id;
        }
      }
      items[k := ToolsBatch(calls')]
  }

  // ---------------------------------------------------------------------------
  // Properties of the state changes

  /**
    `register_calls` appends a batch exactly when the sequence is empty or its
    last item is not a batch, never touches the earlier items, and leaves every
    registered id PENDING with no result, the last request for an id winning.
   */
  lemma RegisteredShape(items: seq<Item>, reqs: seq<ToolCallRequest>)
    requires WellFormed(items)
    ensures var appended := items == [] || !items[|items| - 1].ToolsBatch?;
      && |Registered(items, reqs)| == |items| + (if appended then 1 else 0)
      && (forall k | 0 <= k < |items| - (if appended then 0 else 1) :: Registered(items, reqs)[k] == items[k])
      && Registered(items, reqs)[|Registered(items, reqs)| - 1].ToolsBatch?
      && (appended ==> Registered(items, reqs)[|items|] == ToolsBatch(PutAll([], reqs)))
  {
  }

  lemma RegisteredAreFresh(items: seq<Item>, reqs: seq<ToolCallRequest>, j: nat)
    requires WellFormed(items) && j < |reqs|
    requires forall j' | j < j' < |reqs| :: reqs[j'].id != reqs[j].id
    ensures var r := Registered(items, reqs);
      && r != [] && r[|r| - 1].ToolsBatch?
      && Lookup(r[|r| - 1].calls, reqs[j].id) == Some(NewCall(reqs[j]))
      && Lookup(r[|r| - 1].calls, reqs[j].id).value.status == PENDING
      && Lookup(r[|r| - 1].calls, reqs[j].id).value.result == None
  {
    var base := if items == [] || !items[|items| - 1].ToolsBatch? then items + [ToolsBatch([])] else items;
    PutAllLastWins(base[|base| - 1].calls, reqs, j);
  }

  /** An id that no batch holds leaves the sequence unchanged. */
  lemma UpdatedUnknownId(items: seq<Item>, id: string, status: ToolStatus, result: Option<string>)
    requires WellFormed(items)
    requires forall k | 0 <= k < |items| :: !BatchHas(items[k], id)
    ensures Updated(items, id, status, result) == items
  {
  }

  /**
    A known id changes only its entry in the first batch holding it: the status
    is set whatever it was (no transition check), and the result is replaced
    only by a non-empty one. Later batches holding the same id are untouched.
   */
  lemma UpdatedOnlyFirstEntry(items: seq<Item>, id: string, status: ToolStatus, result: Option<string>, k: nat)
    requires WellFormed(items)
    requires k < |items| && BatchHas(items[k], id)
    requires forall k' | 0 <= k' < k :: !BatchHas(items[k'], id)
    ensures var r := Updated(items, id, status, result);
      && |r| == |items|
      && (forall m | 0 <= m < |items| && m != k :: r[m] == items[m])
      && r[k].ToolsBatch? && |r[k].calls| == |items[k].calls|
      && (forall j | 0 <= j < |items[k].calls| ::
            r[k].calls[j] == if items[k].calls[j].id == id then UpdatedCall(items[k].calls[j], status, result) else items[k].calls[j])
  {
    assert FirstBatchFrom(items, id, 0) == Some(k);
  }

  // ---------------------------------------------------------------------------
  // The layout of the live view

  /** The tool panels, batch by batch, each batch in insertion order. */
  function ToolPanels(items: seq<Item>): (r: seq<Renderable>)
  {
    if items == [] then []
    else
      (if items[0].ToolsBatch? then PanelsOf(items[0].calls) else []) + ToolPanels(items[1..])
  }

  function PanelsOf(calls: seq<ToolCall>): (r: seq<Renderable>)
    ensures |r| == |calls| && forall i | 0 <= i < |calls| :: r[i] == ToolPanel(calls[i])
  {
    if calls == [] then [] else [ToolPanel(calls[0])] + PanelsOf(calls[1..])
  }

  /** The communication panels, in sequence order. */
  function CommunicationPanels(items: seq<Item>): (r: seq<Renderable>)
  {
    if items == [] then []
    else
      (match items[0]
       case ToolsBatch(_) => []
       case CommunicationMessage(m) => [MessagePanel(m)]
       case CommunicationDiff(f, d) => [DiffPanel(f, d)]) + CommunicationPanels(items[1..])
  }

  lemma PanelsOfStep(calls: seq<ToolCall>, j: nat)
    requires j < |calls|
    ensures PanelsOf(calls[..j + 1]) == PanelsOf(calls[..j]) + [ToolPanel(calls[j])]
  {
  }

  /** The panels of a single item. */
  function ItemToolPanels(item: Item): seq<Renderable> {
    if item.ToolsBatch? then PanelsOf(item.calls) else []
  }

  lemma {:induction false} ToolPanelsAppend(items: seq<Item>, item: Item)
    ensures ToolPanels(items + [item]) == ToolPanels(items) + ItemToolPanels(item)
  {
    if items == [] {
      assert [item][1..] == [];
    } else {
      assert (items + [item])[0] == items[0];
      assert (items + [item])[1..] == items[1..] + [item];
      ToolPanelsAppend(items[1..], item);
    }
  }

  lemma {:induction false} CommunicationPanelsAppend(items: seq<Item>, item: Item)
    ensures CommunicationPanels(items + [item]) == CommunicationPanels(items) + CommunicationPanels([item])
  {
    if items == [] {
      assert [item][1..] == [];
    } else {
      assert (items + [item])[0] == items[0];
      assert (items + [item])[1..] == items[1..] + [item];
      CommunicationPanelsAppend(items[1..], item);
    }
  }

  /** The cost panel appears only for a non-empty cost line. */
  function CostPanels(costLine: Option<string>): (r: seq<Renderable>) {
    if costLine.Some? && costLine.value != "" then [CostPanel(costLine.value)] else []
  }

  /** The view shows every tool call, then the cost line, then the communications. */
  lemma {:induction false} LayoutCounts(items: seq<Item>)
    ensures |ToolPanels(items)| == CallCount(items)
    ensures |CommunicationPanels(items)| == |items| - BatchCount(items)
    ensures forall x | x in ToolPanels(items) :: x.ToolPanel?
    ensures forall x | x in CommunicationPanels(items) :: x.MessagePanel? || x.DiffPanel?
  {
    ToolPanelsShape(items);
    CommunicationPanelsShape(items);
  }

  lemma {:induction false} ToolPanelsShape(items: seq<Item>)
    ensures |ToolPanels(items)| == CallCount(items)
    ensures forall x | x in ToolPanels(items) :: x.ToolPanel?
  {
    if items != [] {
      ToolPanelsShape(items[1..]);
      assert ToolPanels(items) == ItemToolPanels(items[0]) + ToolPanels(items[1..]);
    }
  }

  lemma {:induction false} CommunicationPanelsShape(items: seq<Item>)
    ensures |CommunicationPanels(items)| == |items| - BatchCount(items)
    ensures forall x | x in CommunicationPanels(items) :: x.MessagePanel? || x.DiffPanel?
  {
    if items != [] {
      CommunicationPanelsShape(items[1..]);
    }
  }

  function CallCount(items: seq<Item>): nat {
    if items == [] then 0 else (if items[0].ToolsBatch? then |items[0].calls| else 0) + CallCount(items[1..])
  }

  function BatchCount(items: seq<Item>): (n: nat)
    ensures n <= |items|
  {
    if items == [] then 0 else (if items[0].ToolsBatch? then 1 else 0) + BatchCount(items[1..])
  }

  // ---------------------------------------------------------------------------
  // The registry itself

  class ToolStatusDisplay {
    var sequence: seq<Item>
    var live: bool
    var costLine: Option<string>

    ghost predicate Valid()
      reads this
    {
      WellFormed(sequence)
    }

    constructor ()
      ensures Valid() && sequence == [] && !live && costLine == None
    {
      sequence := [];
      live := false;
      costLine := None;
    }

    /** Starts the live view if it is not running. */
    method StartLive()
      modifies this
      ensures live && sequence == old(sequence) && costLine == old(costLine)
    {
      if !live {
        live := true;
      }
    }

    /** Stores a PENDING record for each request, one dict assignment at a time. */
    static method StoreRequests(calls: seq<ToolCall>, toolCalls: seq<ToolCallRequest>) returns (r: seq<ToolCall>)
      requires DistinctIds(calls)
      ensures r == PutAll(calls, toolCalls)
    {
      r := calls;
      for i := 0 to |toolCalls|
        invariant DistinctIds(r)
        invariant r == PutAll(calls, toolCalls[..i])
      {
        PutAllStep(calls, toolCalls, i);
        r := Put(r, NewCall(toolCalls[i]));
      }
      assert toolCalls[..|toolCalls|] == toolCalls;
    }

    /** Registers the requests of one AI message as PENDING calls and starts the live view. */
    method RegisterCalls(toolCalls: seq<ToolCallRequest>)
      requires Valid()
      modifies this
      ensures Valid()
      ensures sequence == Registered(old(sequence), toolCalls)
      ensures live && costLine == old(costLine)
    {
      if sequence == [] || !sequence[|sequence| - 1].ToolsBatch? {
        sequence := sequence + [ToolsBatch([])];
      }
      var last := |sequence| - 1;
      var calls := StoreRequests(sequence[last].calls, toolCalls);
      sequence := sequence[last := ToolsBatch(calls)];
      StartLive();
    }

    /** Sets the status (and a non-empty result) of the entry in the first batch holding `toolCallId`. */
    method UpdateStatus(toolCallId: string, status: ToolStatus, result: Option<string>)
      requires Valid()
      modifies this
      ensures Valid()
      ensures sequence == Updated(old(sequence), toolCallId, status, result)
      ensures live == old(live) && costLine == old(costLine)
    {
      var k := 0;
      while k < |sequence|
        invariant 0 <= k <= |sequence| && sequence == old(sequence)
        invariant FirstBatchFrom(sequence, toolCallId, 0) == FirstBatchFrom(sequence, toolCallId, k)
      {
        if sequence[k].ToolsBatch? && HasId(sequence[k].calls, toolCallId) {
          var calls := sequence[k].calls;
          var i := IndexOf(calls, toolCallId).value;
          var tc := calls[i];
          tc := tc.(status := status);
          if result.Some? && result.value != "" {
            tc := tc.(result := result);
          }
          sequence := sequence[k := ToolsBatch(calls[i := tc])];
          break;
        }
        k := k + 1;
      }
    }

    /** Appends a communication message. */
    method AddCommunication(message: Content)
      modifies this
      ensures sequence == old(sequence) + [CommunicationMessage(message)]
      ensures live == old(live) && costLine == old(costLine)
    {
      sequence := sequence + [CommunicationMessage(message)];
    }

    /** Appends a communication holding a diff panel for `filename`. */
    method AddDiff(filename: string, diffText: string)
      modifies this
      ensures sequence == old(sequence) + [CommunicationDiff(filename, diffText)]
      ensures live == old(live) && costLine == old(costLine)
    {
      sequence := sequence + [CommunicationDiff(filename, diffText)];
    }

    /** Stops the live view and forgets all state. */
    method Clear()
      modifies this
      ensures Valid() && sequence == [] && costLine == None && !live
    {
      if live {
        live := false;
      }
      sequence := [];
      costLine := None;
    }

    /** Stops the live view, keeping the state. */
    method Finalize()
      modifies this
      ensures !live && sequence == old(sequence) && costLine == old(costLine)
    {
      if live {
        live := false;
      }
    }

    /** The entry for `toolCallId` in the first batch holding it, or None. */
    method GetToolCall(toolCallId: string) returns (r: Option<ToolCall>)
      ensures r.None? <==> forall k | 0 <= k < |sequence| :: !BatchHas(sequence[k], toolCallId)
      ensures r.Some? ==> r.value.id == toolCallId
      ensures r.Some? ==> exists k | 0 <= k < |sequence| ::
                            && sequence[k].ToolsBatch? && r.value in sequence[k].calls
                            && forall k' | 0 <= k' < k :: !BatchHas(sequence[k'], toolCallId)
    {
      var k := 0;
      while k < |sequence|
        invariant 0 <= k <= |sequence|
        invariant forall k' | 0 <= k' < k :: !BatchHas(sequence[k'], toolCallId)
      {
        if sequence[k].ToolsBatch? {
          var found := Lookup(sequence[k].calls, toolCallId);
          if found.Some? {
            return found;
          }
        }
        k := k + 1;
      }
      return None;
    }

    /** The panels of one batch's calls, in insertion order. */
    static method BatchPanels(calls: seq<ToolCall>) returns (panels: seq<Renderable>)
      ensures panels == PanelsOf(calls)
    {
      panels := [];
      var j := 0;
      while j < |calls|
        invariant 0 <= j <= |calls|
        invariant panels == PanelsOf(calls[..j])
      {
        PanelsOfStep(calls, j);
        panels := panels + [ToolPanel(calls[j])];
        j := j + 1;
      }
      assert calls[..j] == calls;
    }

    /** The renderables of the live view, top to bottom. */
    method CreateDisplay() returns (r: seq<Renderable>)
      ensures r == ToolPanels(sequence) + CostPanels(costLine) + CommunicationPanels(sequence)
    {
      var items := sequence;
      var toolRenderables := [];
      var commRenderables := [];
      var k := 0;
      while k < |items|
        invariant 0 <= k <= |items|
        invariant toolRenderables == ToolPanels(items[..k])
        invariant commRenderables == CommunicationPanels(items[..k])
      {
        assert items[..k + 1] == items[..k] + [items[k]];
        ToolPanelsAppend(items[..k], items[k]);
        CommunicationPanelsAppend(items[..k], items[k]);
        if items[k].ToolsBatch? {
          var panels := BatchPanels(items[k].calls);
          toolRenderables := toolRenderables + panels;
          assert CommunicationPanels([items[k]]) == [];
        } else if items[k].CommunicationMessage? {
          commRenderables := commRenderables + [MessagePanel(items[k].message)];
        } else {
          commRenderables := commRenderables + [DiffPanel(items[k].filename, items[k].diff)];
        }
        k := k + 1;
      }
      assert items[..k] == items;
      r := toolRenderables;
      if costLine.Some? && costLine.value != "" {
        r := r + [CostPanel(costLine.value)];
      }
      r := r + commRenderables;
    }
  }

  // ---------------------------------------------------------------------------
  // Text shaping for the panels

  const DiffMarker: string := "\nDiff:\n"

  /**
    The one-line argument summary: "" for no arguments, otherwise the escaped
    `k=v` pairs joined by ", ", cut to `maxLen - 3` characters plus "..." when
    longer than `maxLen`. `escape` is the markup escaping of the terminal library.
   */
  function FormatArgsOneLine(args: seq<(string, string)>, maxLen: int, escape: string -> string): (r: string)
    ensures args == [] ==> r == ""
    ensures args != [] && |escape(ArgsText(args))| <= maxLen ==> r == escape(ArgsText(args))
    ensures args != [] && |escape(ArgsText(args))| > maxLen && maxLen >= 3 ==>
              |r| == maxLen && EndsWith(r, "...") && StartsWith(escape(ArgsText(args)), r[..maxLen - 3])
    ensures maxLen >= 3 ==> |r| <= maxLen
  {
    if args == [] then ""
    else
      var s := escape(ArgsText(args));
      if |s| > maxLen then SliceTo(s, maxLen - 3) + "..." else s
  }

  /** `", ".join(f"{k}={v}" for k, v in args.items())`. */
  function ArgsText(args: seq<(string, string)>): string {
    Join(seq(|args|, i requires 0 <= i < |args| => args[i].0 + "=" + args[i].1), ", ")
  }

  /**
    The unified diff embedded in a tool result: the text after the first
    "\nDiff:\n" marker with surrounding newlines stripped (None if that is
    empty); without a marker, the left-stripped result itself when it starts
    with "--- " and contains "\n+++ "; otherwise None.
   */
  function ExtractUnifiedDiff(text: string): (r: Option<string>)
    ensures text == "" ==> r == None
    ensures Find(text, DiffMarker).Some? ==>
              var after := text[Find(text, DiffMarker).value + |DiffMarker|..];
              r == if StripNewlines(after) == "" then None else Some(StripNewlines(after))
    ensures text != "" && !Contains(text, DiffMarker) ==>
              (r.Some? <==> StartsWith(LStrip(text), "--- ") && Contains(LStrip(text), "\n+++ "))
    ensures text != "" && !Contains(text, DiffMarker) && r.Some? ==> r.value == StripNewlines(LStrip(text))
    ensures r.Some? ==> r.value != ""
  {
    if text == "" then None
    else if Contains(text, DiffMarker) then
      var d := StripNewlines(Split1(text, DiffMarker)[1]);
      if d == "" then None else Some(d)
    else
      var stripped := LStrip(text);
      if StartsWith(stripped, "--- ") && Contains(stripped, "\n+++ ") then
        assert stripped[0] == '-';
        StripKeepsFirst(stripped, IsNewline);
        Some(StripNewlines(stripped))
      else None
  }

  /** The tool result without its embedded diff: the text before the first marker minus trailing newlines. */
  function RemoveDiffFromResult(text: string): (r: string)
    ensures Find(text, DiffMarker).Some? ==> r == RStripNewlines(text[..Find(text, DiffMarker).value])
    ensures !Contains(text, DiffMarker) ==> r == text
    ensures !Contains(r, DiffMarker)
  {
    if text == "" then ""
    else if Contains(text, DiffMarker) then
      var before := Split1(text, DiffMarker)[0];
      var r := RStripNewlines(before);
      PrefixFree(before, DiffMarker, |r|);
      r
    else text
  }
}
