/**
  Message normalisation before token counting (src/normalize_messages.py):
  an AI message whose content is a list of blocks keeps only the text of its
  "text" blocks, joined into one string; every other message is kept as is.
 */
module NormalizeMessages {
  import opened Options
  import opened Text
  import opened Messages

  /** The text a content block contributes: the non-empty string `text` of a dict whose `type` is "text". */
  function BlockText(b: Block): (r: seq<string>)
    ensures |r| <= 1
    ensures r != [] ==> r[0] != ""
  {
    if b.DictBlock? && "type" in b.fields && b.fields["type"] == Str("text")
      && "text" in b.fields && b.fields["text"].Str? && b.fields["text"].s != ""
    then [b.fields["text"].s]
    else []
  }

  /** The texts of the "text" blocks, in block order. */
  function TextParts(blocks: seq<Block>): seq<string> {
    if blocks == [] then []
    else TextParts(blocks[..|blocks| - 1]) + BlockText(blocks[|blocks| - 1])
  }

  lemma TextPartsStep(blocks: seq<Block>, i: nat)
    requires i < |blocks|
    ensures TextParts(blocks[..i + 1]) == TextParts(blocks[..i]) + BlockText(blocks[i])
  {
    assert blocks[..i + 1][..i] == blocks[..i];
  }

  /** A text part is the non-empty text of some "text" block, and every such text is a part. */
  lemma {:induction false} TextPartsExact(blocks: seq<Block>)
    ensures forall t | t in TextParts(blocks) :: t != "" && exists b | b in blocks :: BlockText(b) == [t]
    ensures forall b | b in blocks && BlockText(b) != [] :: BlockText(b)[0] in TextParts(blocks)
  {
    if blocks != [] {
      var init, last := blocks[..|blocks| - 1], blocks[|blocks| - 1];
      TextPartsExact(init);
      assert forall b | b in init :: b in blocks;
      assert last in blocks;
      forall b | b in blocks && BlockText(b) != [] ensures BlockText(b)[0] in TextParts(blocks) {
        if b != last {
          assert b in init;
        }
      }
    }
  }

  lemma Assoc(a: seq<string>, b: seq<string>, c: seq<string>)
    ensures a + b + c == a + (b + c)
  {
  }

  /**
    Text parts are collected block by block: those of `a + b` are those of `a`
    followed by those of `b`, so blocks of another type (such as
    "function_call") or with empty text drop out wherever they stand.
   */
  lemma {:induction false} TextPartsConcat(a: seq<Block>, b: seq<Block>)
    ensures TextParts(a + b) == TextParts(a) + TextParts(b)
    ensures forall x :: TextParts([x]) == BlockText(x)
  {
    forall x ensures TextParts([x]) == BlockText(x) {
      assert [x][..0] == [];
    }
    if b == [] {
      assert a + b == a;
    } else {
      var init, x := b[..|b| - 1], b[|b| - 1];
      assert (a + b)[..|a + b| - 1] == a + init;
      assert (a + b)[|a + b| - 1] == x;
      assert TextParts(a + b) == TextParts(a + init) + BlockText(x);
      TextPartsConcat(a, init);
      Assoc(TextParts(a), TextParts(init), BlockText(x));
    }
  }

  /** One message after normalisation. */
  function NormalizeOne(m: Message): Message {
    if m.AIMessage? && m.content.ListContent? then
      AIMessage(StrContent(Join(TextParts(m.content.blocks), "\n")), m.toolCalls, m.meta)
    else m
  }

  /**
    What normalising one message does: only an AI message with list content
    changes, it stays an AI message with the same tool calls and metadata, and
    its content becomes the "\n"-join of its text parts; no AI message comes
    out with list content.
   */
  lemma NormalizeOneSpec(m: Message)
    ensures !(m.AIMessage? && m.content.ListContent?) ==> NormalizeOne(m) == m
    ensures m.AIMessage? ==>
      (NormalizeOne(m).AIMessage? && NormalizeOne(m).toolCalls == m.toolCalls
       && NormalizeOne(m).meta == m.meta && !NormalizeOne(m).content.ListContent?)
    ensures m.AIMessage? && m.content.ListContent? ==>
      NormalizeOne(m).content == StrContent(Join(TextParts(m.content.blocks), "\n"))
    ensures NormalizeOne(m).AIMessage? <==> m.AIMessage?
  {
  }

  /** `normalize_for_token_count` as a function: each message normalised, in order. */
  function Normalize(messages: seq<Message>): (r: seq<Message>)
    ensures |r| == |messages|
  {
    seq(|messages|, i requires 0 <= i < |messages| => NormalizeOne(messages[i]))
  }

  /** Normalising twice is normalising once. */
  lemma NormalizeIdempotent(messages: seq<Message>)
    ensures Normalize(Normalize(messages)) == Normalize(messages)
  {
    var once := Normalize(messages);
    forall i | 0 <= i < |messages| ensures NormalizeOne(once[i]) == once[i] {
      NormalizeOneSpec(messages[i]);
    }
  }

  /** The texts of a list of blocks, collected in a loop. */
  method CollectTextParts(blocks: seq<Block>) returns (parts: seq<string>)
    ensures parts == TextParts(blocks)
  {
    parts := [];
    for j := 0 to |blocks|
      invariant parts == TextParts(blocks[..j])
    {
      var block := blocks[j];
      if block.DictBlock? && "type" in block.fields && block.fields["type"] == Str("text") {
        var t := if "text" in block.fields then Some(block.fields["text"]) else None;
        if t.Some? && t.value.Str? && t.value.s != "" {
          parts := parts + [t.value.s];
        }
      }
      TextPartsStep(blocks, j);
    }
    assert blocks[..|blocks|] == blocks;
  }

  /** `normalize_for_token_count`. */
  method NormalizeForTokenCount(messages: seq<Message>) returns (out: seq<Message>)
    ensures out == Normalize(messages)
  {
    out := [];
    for i := 0 to |messages|
      invariant |out| == i
      invariant forall k | 0 <= k < i :: out[k] == NormalizeOne(messages[k])
    {
      var m := messages[i];
      if m.AIMessage? && m.content.ListContent? {
        var textParts := CollectTextParts(m.content.blocks);
        out := out + [AIMessage(StrContent(Join(textParts, "\n")), m.toolCalls, m.meta)];
        continue;
      }
      out := out + [m];
    }
  }
}
