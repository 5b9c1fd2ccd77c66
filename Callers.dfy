/** The four operations of the page that go through the request policy.
    Each sends one request and either strips the response text or, when the
    policy gives up, falls back to a fixed value. The instruction wording
    wrapped around the user's text is not modelled: each operation takes
    the finished instruction as `prompt`. */
module Callers {
  import opened Strings
  import opened Requests
  import opened AudioSuffix
  import opened Fallback
  import opened RetryPolicy

  /** `response.text.strip()` when there is a response, `default` otherwise. */
  function StrippedOr(response: Option<string>, default: string): (r: string)
    ensures response.None? ==> r == default
    ensures response.Some? ==> Stripped(r) && exists i :: PaddedAt(response.value, r, i)
  {
    match response
    case Some(text) => Strip(text)
    case None => default
  }

  /** The request of extract_lyrics_from_audio: the instruction, then the
      uploaded audio with the MIME type the upload reported. */
  function LyricsRequest(prompt: string, audio: seq<Byte>, mimeType: string): Content
  {
    Parts([Text(prompt), Audio(Some(mimeType), audio)])
  }

  /** The request of process_voice_correction: the instruction, then the
      recorded audio, always labelled "audio/wav". */
  function VoiceRequest(prompt: string, audio: seq<Byte>): Content
  {
    Parts([Text(prompt), Audio(Some("audio/wav"), audio)])
  }

  /** generate_diacritics: the input text itself when the policy gives up. */
  method GenerateDiacritics(text: string, prompt: string, primary: seq<Outcome>, client: Option<Secondary>)
    returns (diacritised: string)
    requires |primary| == Retries
    ensures diacritised == StrippedOr(Policy(primary, client, Whole(prompt)).response, text)
  {
    var response, _ := SafeGenerateContent(Whole(prompt), primary, client);
    if response.Some? {
      return Strip(response.value);
    }
    return text;
  }

  /** generate_finglish: the empty string when the policy gives up. */
  method GenerateFinglish(prompt: string, primary: seq<Outcome>, client: Option<Secondary>)
    returns (finglish: string)
    requires |primary| == Retries
    ensures finglish == StrippedOr(Policy(primary, client, Whole(prompt)).response, "")
  {
    var response, _ := SafeGenerateContent(Whole(prompt), primary, client);
    if response.Some? {
      return Strip(response.value);
    }
    return "";
  }

  /** extract_lyrics_from_audio: the empty string when the policy gives up. */
  method ExtractLyricsFromAudio(prompt: string, audio: seq<Byte>, mimeType: string,
                                primary: seq<Outcome>, client: Option<Secondary>)
    returns (lyrics: string)
    requires |primary| == Retries
    ensures lyrics == StrippedOr(Policy(primary, client, LyricsRequest(prompt, audio, mimeType)).response, "")
  {
    var response, _ := SafeGenerateContent(LyricsRequest(prompt, audio, mimeType), primary, client);
    if response.Some? {
      return Strip(response.value);
    }
    return "";
  }

  /** process_voice_correction: the current text unchanged when the policy
      gives up. */
  method ProcessVoiceCorrection(currentText: string, prompt: string, audio: seq<Byte>,
                                primary: seq<Outcome>, client: Option<Secondary>)
    returns (corrected: string)
    requires |primary| == Retries
    ensures corrected == StrippedOr(Policy(primary, client, VoiceRequest(prompt, audio)).response, currentText)
  {
    var response, _ := SafeGenerateContent(VoiceRequest(prompt, audio), primary, client);
    if response.Some? {
      return Strip(response.value);
    }
    return currentText;
  }

  /** A response that is already stripped is passed on unchanged. */
  lemma StrippedResponseKept(text: string, default: string)
    requires Stripped(text)
    ensures StrippedOr(Some(text), default) == text
  {
    assert [] + text + [] == text;
    StripUnique([], text, []);
  }

  /** A MIME type without any of the letters 'p', 'g', 'b', 'f' and the
      digit '4' contains no keyword of the first five rules. */
  lemma NoEarlierRuleKeyword(mt: string)
    requires 'p' !in mt && 'g' !in mt && 'b' !in mt && 'f' !in mt && '4' !in mt
    ensures !Contains(mt, "mpeg") && !Contains(mt, "mp3") && !Contains(mt, "ogg") && !Contains(mt, "webm")
    ensures !Contains(mt, "mp4") && !Contains(mt, "m4a") && !Contains(mt, "flac")
  {
    MissingCharNotContained(mt, "mpeg", 1);
    MissingCharNotContained(mt, "mp3", 1);
    MissingCharNotContained(mt, "ogg", 1);
    MissingCharNotContained(mt, "webm", 2);
    MissingCharNotContained(mt, "mp4", 1);
    MissingCharNotContained(mt, "m4a", 1);
    MissingCharNotContained(mt, "flac", 0);
  }

  /** A MIME type that mentions "wav" and none of those letters gets the
      suffix of the last rule. */
  lemma OnlyLastRule(t: string)
    requires var mt := Lower(t);
      'p' !in mt && 'g' !in mt && 'b' !in mt && 'f' !in mt && '4' !in mt && Contains(mt, "wav")
    ensures SuffixFor(Some(t)) == ".wav"
  {
    NoEarlierRuleKeyword(Lower(t));
  }

  /** The label process_voice_correction puts on its recording selects the
      last rule of the chain. */
  lemma WavLabelGetsWavSuffix()
    ensures SuffixFor(Some("audio/wav")) == ".wav"
  {
    var mt := Lower("audio/wav");
    assert mt == "audio/wav";
    assert mt[6..9] == "wav";
    OccursIsContained(mt, "wav", 6);
    OnlyLastRule("audio/wav");
  }

  /** When a voice correction goes to the secondary provider, its recording
      is transcribed from a ".wav" file and the message is the instruction
      followed by the tagged transcription (the instruction alone when the
      transcription fails). */
  lemma VoiceCorrectionFallbackMessage(prompt: string, audio: seq<Byte>, transcribe: Transcriber)
    ensures FallbackPrompt(VoiceRequest(prompt, audio), transcribe)
      == match transcribe(".wav", audio)
         case Some(t) => prompt + " " + Tagged(t)
         case None => prompt
  {
    WavLabelGetsWavSuffix();
    InstructionWithAudio(prompt, "audio/wav", audio, transcribe);
  }

  /** A voice correction whose first primary call fails for a reason other
      than quota leaves the text as it was. */
  lemma VoiceCorrectionKeepsTextOnError(currentText: string, prompt: string, audio: seq<Byte>,
                                        primary: seq<Outcome>, client: Option<Secondary>)
    requires |primary| == Retries && primary[0].Err? && !Classify.IsQuotaError(primary[0].message)
    ensures StrippedOr(Policy(primary, client, VoiceRequest(prompt, audio)).response, currentText) == currentText
  {
    OtherErrorFailsFast(primary, client, VoiceRequest(prompt, audio));
  }
}
