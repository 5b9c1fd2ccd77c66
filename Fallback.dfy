/** Translating a request for the secondary provider and asking it once:
    list items become prompt strings (audio through speech-to-text), the
    strings are joined with single spaces and sent as one chat message. */
module Fallback {
  import opened Strings
  import opened Requests
  import opened AudioSuffix

  type Transcriber = (string, seq<Byte>) -> Option<string>

  /** The prompt string that stands in for a transcribed audio part. */
  function Tagged(transcript: string): string
  {
    "\n[Audio Transcription]: " + transcript + "\n"
  }

  /** The prompt strings one list item contributes: a string is kept, an
      audio part becomes its tagged transcription (nothing when processing
      it fails), anything else contributes nothing. */
  function ItemPart(item: Item, transcribe: Transcriber): seq<string>
  {
    match item
    case Text(s) => [s]
    case Audio(mimeType, data) =>
      (match transcribe(SuffixFor(mimeType), data)
       case Some(t) => [Tagged(t)]
       case None => [])
    case Unrecognised() => []
  }

  /** The prompt strings of a list of items, in list order. */
  function ItemsParts(items: seq<Item>, transcribe: Transcriber): seq<string>
  {
    if items == [] then [] else ItemPart(items[0], transcribe) + ItemsParts(items[1..], transcribe)
  }

  /** The prompt strings of a request: a list is translated item by item,
      anything else is used whole. */
  function PromptParts(content: Content, transcribe: Transcriber): seq<string>
  {
    match content
    case Whole(p) => [p]
    case Parts(items) => ItemsParts(items, transcribe)
  }

  /** The single user message sent to the secondary provider. */
  function FallbackPrompt(content: Content, transcribe: Transcriber): string
  {
    Join(PromptParts(content, transcribe))
  }

  /** What asking the secondary provider gives: nothing when none is
      configured or when any step raises, otherwise the completion's text. */
  function FallbackAnswer(client: Option<Secondary>, content: Content): Option<string>
  {
    match client
    case None => None
    case Some(secondary) => secondary.complete(FallbackPrompt(content, secondary.transcribe))
  }

  /** Translating a list piece by piece: the parts of a concatenation are
      the parts of its pieces, in order. */
  lemma {:induction false} ItemsPartsConcat(a: seq<Item>, b: seq<Item>, transcribe: Transcriber)
    ensures ItemsParts(a + b, transcribe) == ItemsParts(a, transcribe) + ItemsParts(b, transcribe)
  {
    if a == [] {
      assert a + b == b;
    } else {
      assert (a + b)[1..] == a[1..] + b;
      ItemsPartsConcat(a[1..], b, transcribe);
    }
  }

  lemma ItemsPartsSingle(item: Item, transcribe: Transcriber)
    ensures ItemsParts([item], transcribe) == ItemPart(item, transcribe)
  {
    assert [item][1..] == [];
  }

  /** A list of strings is passed on unchanged, in order. */
  lemma {:induction false} TextItemsKept(items: seq<Item>, transcribe: Transcriber)
    requires forall i :: 0 <= i < |items| ==> items[i].Text?
    ensures ItemsParts(items, transcribe) == seq(|items|, i requires 0 <= i < |items| => items[i].text)
  {
    if items != [] {
      TextItemsKept(items[1..], transcribe);
    }
  }

  /** An item that is neither a string nor an audio part leaves the prompt
      as if it were absent. */
  lemma UnrecognisedIgnored(a: seq<Item>, b: seq<Item>, transcribe: Transcriber)
    ensures ItemsParts(a + [Unrecognised] + b, transcribe) == ItemsParts(a + b, transcribe)
  {
    ItemsPartsConcat(a + [Unrecognised], b, transcribe);
    ItemsPartsConcat(a, [Unrecognised], transcribe);
    ItemsPartsSingle(Unrecognised, transcribe);
    ItemsPartsConcat(a, b, transcribe);
  }

  /** An audio part whose processing fails is dropped; one that is
      transcribed contributes exactly its tagged transcription in its place. */
  lemma AudioReplaced(a: seq<Item>, mimeType: Option<string>, data: seq<Byte>, b: seq<Item>, transcribe: Transcriber)
    ensures var tr := transcribe(SuffixFor(mimeType), data);
      ItemsParts(a + [Audio(mimeType, data)] + b, transcribe)
      == ItemsParts(a, transcribe) + (if tr.Some? then [Tagged(tr.value)] else []) + ItemsParts(b, transcribe)
  {
    ItemsPartsConcat(a + [Audio(mimeType, data)], b, transcribe);
    ItemsPartsConcat(a, [Audio(mimeType, data)], transcribe);
    ItemsPartsSingle(Audio(mimeType, data), transcribe);
  }

  /** Each prompt string comes from some item: it is a string item itself
      or the tagged transcription of an audio item. */
  ghost predicate ComesFrom(item: Item, part: string, transcribe: Transcriber)
  {
    item == Text(part)
    || (item.Audio? && exists t :: part == Tagged(t) && transcribe(SuffixFor(item.mimeType), item.data) == Some(t))
  }

  lemma {:induction false} NothingInvented(items: seq<Item>, transcribe: Transcriber, k: nat)
    requires k < |ItemsParts(items, transcribe)|
    ensures exists i :: 0 <= i < |items| && ComesFrom(items[i], ItemsParts(items, transcribe)[k], transcribe)
  {
    var head := ItemPart(items[0], transcribe);
    if k < |head| {
      var part := ItemsParts(items, transcribe)[k];
      assert part == head[k];
      if items[0].Text? {
        assert ComesFrom(items[0], part, transcribe);
      } else {
        assert items[0].Audio?;
        var t := transcribe(SuffixFor(items[0].mimeType), items[0].data).value;
        assert part == Tagged(t);
        assert ComesFrom(items[0], part, transcribe);
      }
    } else {
      NothingInvented(items[1..], transcribe, k - |head|);
      var i :| 0 <= i < |items[1..]| && ComesFrom(items[1..][i], ItemsParts(items[1..], transcribe)[k - |head|], transcribe);
      assert ComesFrom(items[i + 1], ItemsParts(items, transcribe)[k], transcribe);
    }
  }

  /** A request that is a single string is sent as it is. */
  lemma WholePromptUnchanged(p: string, transcribe: Transcriber)
    ensures FallbackPrompt(Whole(p), transcribe) == p
  {
  }

  /** The two-item request of the audio callers, an instruction followed by
      one audio part: the message is the instruction, then one space and the
      tagged transcription when the audio could be transcribed. */
  lemma InstructionWithAudio(p: string, mimeType: string, data: seq<Byte>, transcribe: Transcriber)
    ensures FallbackPrompt(Parts([Text(p), Audio(Some(mimeType), data)]), transcribe)
      == match transcribe(SuffixFor(Some(mimeType)), data)
         case Some(t) => p + " " + Tagged(t)
         case None => p
  {
    var items := [Text(p), Audio(Some(mimeType), data)];
    assert items == [Text(p)] + [Audio(Some(mimeType), data)];
    ItemsPartsConcat([Text(p)], [Audio(Some(mimeType), data)], transcribe);
    ItemsPartsSingle(Text(p), transcribe);
    ItemsPartsSingle(Audio(Some(mimeType), data), transcribe);
    match transcribe(SuffixFor(Some(mimeType)), data)
    case Some(t) =>
      JoinConcat([p], [Tagged(t)]);
    case None =>
  }

  /** The loop that builds the fallback prompt: strings are appended as
      they are, audio parts are transcribed one at a time and appended when
      that succeeds, and the parts are joined with single spaces. */
  method AssemblePrompt(content: Content, transcribe: Transcriber) returns (prompt: string)
    ensures prompt == FallbackPrompt(content, transcribe)
  {
    var parts: seq<string> := [];
    match content {
      case Whole(p) =>
        parts := parts + [p];
      case Parts(items) =>
        for i := 0 to |items|
          invariant parts == ItemsParts(items[..i], transcribe)
        {
          match items[i] {
            case Text(s) =>
              parts := parts + [s];
            case Audio(mimeType, data) =>
              var suffix := SuffixFor(mimeType);
              var transcription := transcribe(suffix, data);
              if transcription.Some? {
                parts := parts + [Tagged(transcription.value)];
              }
            case Unrecognised() =>
          }
          assert items[..i + 1] == items[..i] + [items[i]];
          ItemsPartsConcat(items[..i], [items[i]], transcribe);
          ItemsPartsSingle(items[i], transcribe);
        }
        assert items[..|items|] == items;
    }
    prompt := Join(parts);
  }

  /** generate_with_openai_fallback: without a secondary client nothing is
      asked; otherwise the assembled prompt is sent once. */
  method GenerateWithFallback(client: Option<Secondary>, content: Content) returns (answer: Option<string>)
    ensures answer == FallbackAnswer(client, content)
  {
    if client.None? {
      return None;
    }
    var prompt := AssemblePrompt(content, client.value.transcribe);
    answer := client.value.complete(prompt);
  }
}
