/**
  Choosing the OpenAI models usable for chat (src/model_registry.py): ids of
  other model kinds are dropped by prefix or by substring, the known chat
  families are kept, and the result is sorted by id.
 */
module ModelRegistry {
  import opened Text
  import opened Sorting

  /** A model offered for chat, by its id. */
  datatype ModelInfo = ModelInfo(id: string)

  function IdOf(m: ModelInfo): string { m.id }

  const DenyPrefixes: seq<string> :=
    ["whisper-", "tts-", "gpt-image-", "omni-moderation-", "text-embedding-", "text-search-", "dall-e-"]

  const DenySubstrings: seq<string> :=
    ["embedding", "moderation", "realtime", "audio", "vision-preview"]

  /** The id starts with one of the denied prefixes. */
  predicate DeniedPrefix(mid: string) {
    exists p | p in DenyPrefixes :: StartsWith(mid, p)
  }

  /** The id contains one of the denied substrings. */
  predicate DeniedSubstring(mid: string) {
    exists s | s in DenySubstrings :: Contains(mid, s)
  }

  /** The id names a known chat family. */
  predicate ChatFamily(mid: string) {
    StartsWith(mid, "gpt-") || StartsWith(mid, "o")
  }

  /** The loop's test for keeping an id. */
  predicate Keep(mid: string) {
    !DeniedPrefix(mid) && !DeniedSubstring(mid) && ChatFamily(mid)
  }

  /** The ids kept by the loop, in input order. */
  function Kept(ids: seq<string>): seq<ModelInfo> {
    if ids == [] then []
    else
      var mid := ids[|ids| - 1];
      Kept(ids[..|ids| - 1]) + (if Keep(mid) then [ModelInfo(mid)] else [])
  }

  lemma KeptStep(ids: seq<string>, i: nat)
    requires i < |ids|
    ensures Kept(ids[..i + 1]) == Kept(ids[..i]) + (if Keep(ids[i]) then [ModelInfo(ids[i])] else [])
  {
    assert ids[..i + 1][..i] == ids[..i];
  }

  /** A model is kept exactly when its id is an input id that passes the test. */
  lemma {:induction false} KeptExact(ids: seq<string>)
    ensures forall m | m in Kept(ids) :: m.id in ids && Keep(m.id)
    ensures forall mid | mid in ids && Keep(mid) :: ModelInfo(mid) in Kept(ids)
  {
    if ids != [] {
      var init, last := ids[..|ids| - 1], ids[|ids| - 1];
      KeptExact(init);
      assert forall x | x in init :: x in ids;
      forall mid | mid in ids && Keep(mid) ensures ModelInfo(mid) in Kept(ids) {
        if mid != last {
          assert mid in init;
        }
      }
    }
  }

  /** `list_openai_chat_models`: the loop with its two `continue`s, then the sort by id. */
  method ListOpenaiChatModels(modelIds: seq<string>) returns (out: seq<ModelInfo>)
    ensures out == SortBy(Kept(modelIds), IdOf)
  {
    out := [];
    for i := 0 to |modelIds|
      invariant out == Kept(modelIds[..i])
    {
      var mid := modelIds[i];
      KeptStep(modelIds, i);
      if exists p | p in DenyPrefixes :: StartsWith(mid, p) {
        continue;
      }
      if exists s | s in DenySubstrings :: Contains(mid, s) {
        continue;
      }
      if StartsWith(mid, "gpt-") || StartsWith(mid, "o") {
        out := out + [ModelInfo(mid)];
      }
    }
    assert modelIds[..|modelIds|] == modelIds;
    out := SortBy(out, IdOf);
  }

  /**
    What the chat models are: sorted by id; every one is an input id that
    starts with no denied prefix, contains no denied substring and starts with
    "gpt-" or "o"; and every input id passing those tests is offered.
   */
  lemma ChatModelsSpec(modelIds: seq<string>)
    ensures var out := SortBy(Kept(modelIds), IdOf);
      && SortedBy(out, IdOf)
      && (forall m | m in out :: m.id in modelIds && !DeniedPrefix(m.id) && !DeniedSubstring(m.id) && ChatFamily(m.id))
      && (forall mid | mid in modelIds && Keep(mid) :: ModelInfo(mid) in out)
  {
    var kept := Kept(modelIds);
    var out := SortBy(kept, IdOf);
    KeptExact(modelIds);
    assert forall m :: m in out <==> m in multiset(out);
    assert forall m :: m in kept <==> m in multiset(kept);
  }

  /** An id starting with a listed prefix is not kept. */
  lemma DroppedByPrefix(mid: string, i: nat)
    requires i < |DenyPrefixes| && StartsWith(mid, DenyPrefixes[i])
    ensures !Keep(mid)
  {
    assert DenyPrefixes[i] in DenyPrefixes;
  }

  /** The ids the repository's tests expect to be dropped. */
  lemma DroppedExamples()
    ensures !Keep("whisper-1") && !Keep("gpt-image-1") && !Keep("omni-moderation-latest")
    ensures !Keep("text-embedding-3-small") && !Keep("some-unknown-model")
  {
    DroppedByPrefix("whisper-1", 0);
    DroppedByPrefix("gpt-image-1", 2);
    DroppedByPrefix("omni-moderation-latest", 3);
    DroppedByPrefix("text-embedding-3-small", 4);
    assert !ChatFamily("some-unknown-model") by {
      assert "some-unknown-model"[0] != "o"[0] && "some-unknown-model"[0] != "gpt-"[0];
    }
  }
}
