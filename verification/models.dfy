/**
  The list of selectable models (src/models.py): the OpenAI chat models and
  the locally served Ollama models, each written with its provider prefix,
  sorted and without duplicates. The two listings the function fetches over
  the network are its inputs here; a listing that failed is `None`.
  Completion over the list is `Lists.FilterPrefix`.
 */
module Models {
  import opened Options
  import opened Text
  import opened Sorting
  import opened ModelRegistry

  /** "openai:" + id for each chat model, in order. */
  function OpenaiEntries(chat: seq<ModelInfo>): (r: seq<string>)
    ensures |r| == |chat|
  {
    if chat == [] then []
    else OpenaiEntries(chat[..|chat| - 1]) + ["openai:" + chat[|chat| - 1].id]
  }

  /** The entry of an Ollama model record: "ollama:" + its name, skipped when the name is missing or empty. */
  function OllamaEntry(name: Option<string>): seq<string> {
    if name.Some? && name.value != "" then ["ollama:" + name.value] else []
  }

  /** The entries of the Ollama model records, in order. */
  function OllamaEntries(names: seq<Option<string>>): seq<string> {
    if names == [] then []
    else OllamaEntries(names[..|names| - 1]) + OllamaEntry(names[|names| - 1])
  }

  /** What is collected before sorting: the chat models of a successful OpenAI listing, then the named models of a successful Ollama listing. */
  function Collected(openaiIds: Option<seq<string>>, ollamaNames: Option<seq<Option<string>>>): seq<string> {
    (if openaiIds.Some? then OpenaiEntries(SortBy(Kept(openaiIds.value), IdOf)) else [])
    + (if ollamaNames.Some? then OllamaEntries(ollamaNames.value) else [])
  }

  lemma OpenaiStep(chat: seq<ModelInfo>, i: nat)
    requires i < |chat|
    ensures OpenaiEntries(chat[..i + 1]) == OpenaiEntries(chat[..i]) + ["openai:" + chat[i].id]
  {
    assert chat[..i + 1][..i] == chat[..i];
  }

  lemma OllamaStep(names: seq<Option<string>>, i: nat)
    requires i < |names|
    ensures OllamaEntries(names[..i + 1]) == OllamaEntries(names[..i]) + OllamaEntry(names[i])
  {
    assert names[..i + 1][..i] == names[..i];
  }

  lemma Assoc(a: seq<string>, b: seq<string>, c: seq<string>)
    ensures a + b + c == a + (b + c)
  {
  }

  /** The OpenAI part of the collection loop. */
  method AddOpenai(models: seq<string>, chat: seq<ModelInfo>) returns (out: seq<string>)
    ensures out == models + OpenaiEntries(chat)
  {
    out := models;
    for i := 0 to |chat|
      invariant out == models + OpenaiEntries(chat[..i])
    {
      OpenaiStep(chat, i);
      Assoc(models, OpenaiEntries(chat[..i]), ["openai:" + chat[i].id]);
      out := out + ["openai:" + chat[i].id];
    }
    assert chat[..|chat|] == chat;
  }

  /** The Ollama part of the collection loop. */
  method AddOllama(models: seq<string>, names: seq<Option<string>>) returns (out: seq<string>)
    ensures out == models + OllamaEntries(names)
  {
    out := models;
    for i := 0 to |names|
      invariant out == models + OllamaEntries(names[..i])
    {
      OllamaStep(names, i);
      Assoc(models, OllamaEntries(names[..i]), OllamaEntry(names[i]));
      var name := names[i];
      if name.Some? && name.value != "" {
        out := out + ["ollama:" + name.value];
      } else {
        assert out + [] == out;
      }
    }
    assert names[..|names|] == names;
  }

  /** `get_available_models` after the two listings arrived: collect, then `sorted(set(...))`. */
  method GetAvailableModels(openaiIds: Option<seq<string>>, ollamaNames: Option<seq<Option<string>>>) returns (r: seq<string>)
    ensures r == SortedSet(Collected(openaiIds, ollamaNames))
  {
    ghost var openaiPart := if openaiIds.Some? then OpenaiEntries(SortBy(Kept(openaiIds.value), IdOf)) else [];
    ghost var ollamaPart := if ollamaNames.Some? then OllamaEntries(ollamaNames.value) else [];
    var models: seq<string> := [];
    if openaiIds.Some? {
      var chat := ListOpenaiChatModels(openaiIds.value);
      models := AddOpenai(models, chat);
      assert models == openaiPart;
    }
    assert models == openaiPart;
    if ollamaNames.Some? {
      models := AddOllama(models, ollamaNames.value);
    } else {
      assert models == models + ollamaPart;
    }
    assert models == openaiPart + ollamaPart;
    r := SortedSet(models);
  }

  /** Every OpenAI entry is "openai:" + a chat model's id, and every chat model has its entry. */
  lemma {:induction false} OpenaiEntriesExact(chat: seq<ModelInfo>)
    ensures forall x | x in OpenaiEntries(chat) :: StartsWith(x, "openai:") && ModelInfo(x[7..]) in chat
    ensures forall m | m in chat :: "openai:" + m.id in OpenaiEntries(chat)
  {
    if chat != [] {
      var init, last := chat[..|chat| - 1], chat[|chat| - 1];
      OpenaiEntriesExact(init);
      assert forall m | m in init :: m in chat;
      var e := "openai:" + last.id;
      assert e[..7] == "openai:" && e[7..] == last.id;
      forall m | m in chat ensures "openai:" + m.id in OpenaiEntries(chat) {
        if m != last { assert m in init; }
      }
    }
  }

  /** Every Ollama entry is "ollama:" + a non-empty name of a record, and every such name has its entry. */
  lemma {:induction false} OllamaEntriesExact(names: seq<Option<string>>)
    ensures forall x | x in OllamaEntries(names) :: StartsWith(x, "ollama:") && x[7..] != "" && Some(x[7..]) in names
    ensures forall n | Some(n) in names && n != "" :: "ollama:" + n in OllamaEntries(names)
  {
    if names != [] {
      var init, last := names[..|names| - 1], names[|names| - 1];
      OllamaEntriesExact(init);
      assert forall m | m in init :: m in names;
      if last.Some? && last.value != "" {
        var e := "ollama:" + last.value;
        assert e[..7] == "ollama:" && e[7..] == last.value;
      }
      forall n | Some(n) in names && n != "" ensures "ollama:" + n in OllamaEntries(names) {
        if Some(n) != last { assert Some(n) in init; }
      }
    }
  }

  /** The membership facts of what is collected before sorting. */
  lemma CollectedExact(openaiIds: Option<seq<string>>, ollamaNames: Option<seq<Option<string>>>)
    ensures var all := Collected(openaiIds, ollamaNames);
      && (forall x | x in all ::
            || (openaiIds.Some? && StartsWith(x, "openai:") && x[7..] in openaiIds.value && Keep(x[7..]))
            || (ollamaNames.Some? && StartsWith(x, "ollama:") && x[7..] != "" && Some(x[7..]) in ollamaNames.value))
      && (openaiIds.Some? ==> forall mid | mid in openaiIds.value && Keep(mid) :: "openai:" + mid in all)
      && (ollamaNames.Some? ==> forall n | Some(n) in ollamaNames.value && n != "" :: "ollama:" + n in all)
  {
    if openaiIds.Some? {
      var kept := Kept(openaiIds.value);
      var chat := SortBy(kept, IdOf);
      ChatModelsSpec(openaiIds.value);
      OpenaiEntriesExact(chat);
    }
    if ollamaNames.Some? {
      OllamaEntriesExact(ollamaNames.value);
    }
  }

  /**
    The models offered: sorted without duplicates; each is "openai:" + an
    OpenAI chat model id or "ollama:" + a non-empty Ollama model name; and
    every chat model and every named Ollama model of a successful listing is
    offered.
   */
  lemma AvailableModelsSpec(openaiIds: Option<seq<string>>, ollamaNames: Option<seq<Option<string>>>)
    ensures var r := SortedSet(Collected(openaiIds, ollamaNames));
      && StrictlyIncreasing(r)
      && (forall x | x in r ::
            || (openaiIds.Some? && StartsWith(x, "openai:") && x[7..] in openaiIds.value && Keep(x[7..]))
            || (ollamaNames.Some? && StartsWith(x, "ollama:") && x[7..] != "" && Some(x[7..]) in ollamaNames.value))
      && (openaiIds.Some? ==> forall mid | mid in openaiIds.value && Keep(mid) :: "openai:" + mid in r)
      && (ollamaNames.Some? ==> forall n | Some(n) in ollamaNames.value && n != "" :: "ollama:" + n in r)
  {
    var all := Collected(openaiIds, ollamaNames);
    var r := SortedSet(all);
    CollectedExact(openaiIds, ollamaNames);
    assert forall x :: x in r <==> x in Elems(r);
    assert forall x :: x in all <==> x in Elems(all);
  }
}
