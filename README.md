# Request policy of the Persian lyrics assistant

This project models how `grab.py`, the Streamlit page of the Persian lyrics
assistant, sends its requests to the language models. The model covers three parts:

- **`safe_generate_content`**, the retry policy.
  - It calls the primary provider (Gemini) at most twice.
  - After each quota-class failure it sleeps, 1 s and then 2 s.
  - It gives up at once on any other failure.
  - After the loop, a quota-class last error hands the request once to the secondary provider (OpenAI), when one is configured.
- **`generate_with_openai_fallback`**, which translates the request for the secondary provider.
  - Each audio part is written to a temporary file whose suffix comes from its MIME type, then transcribed.
  - Strings and tagged transcriptions are joined with single spaces into one chat message.
- **The four page operations** that go through the policy: `generate_diacritics`, `generate_finglish`, `extract_lyrics_from_audio` and `process_voice_correction`.
  - Each one strips the response text.
  - When the policy gives up, each one falls back to a default: the input text, the current text, or the empty string.

The providers are data, not calls:

- `primary[k]` is what the k-th Gemini call does: a text or an error message.
- The secondary provider is an optional pair of functions, one for speech-to-text and one for chat completion. `None` from either means that step raised.
- Sleeps and calls are recorded in a trace of `Event`s.
- `RetryPolicy.SafeGenerateContent` runs the loop as the source does. It is proved equal to the recursive specification `RetryPolicy.Policy`. The lemmas state the promises of the policy about that specification.

Modules:

- `Strings`: the Python string built-ins the core relies on, namely `lower`, `in` on strings, `strip` and `" ".join`.
- `Requests`: request contents, list items and primary outcomes.
- `Classify`: the quota keyword test.
- `AudioSuffix`: the MIME-type to suffix chain.
- `Fallback`: prompt assembly and the single request to the secondary provider.
- `RetryPolicy`: the loop and its specification.
- `Callers`: the four page operations.

Behaviours of `grab.py` that the model keeps as written:

- Failures are reported as `None`, with no error value.
- The loop also sleeps after the last quota-class failure, before it moves on to the fallback decision.
- The temporary audio file is removed only when transcription succeeds. When it fails, the file stays behind.
- The two keyword lists of `safe_generate_content` hold the same five words in different orders. `Classify.FallbackTestIsLoopTest` proves that the two tests agree.

## Model

| member | source | states |
|---|---|---|
| RetryPolicy.SafeGenerateContent | grab.py:203-242 | the loop and the fallback decision give exactly the response and trace of the policy specification for every primary behaviour and every secondary provider |
| RetryPolicy.Attempts | grab.py:212-224 | the remaining attempts only ever append to the trace of what happened before them |
| RetryPolicy.AfterPrimaryDecision | grab.py:227-242 | after the loop, the secondary provider is asked exactly when the last error is quota-class and a client is configured; otherwise the result is None with no further step |
| RetryPolicy.PolicyUnrolled | grab.py:207-224 | the two attempts, with delays 1 and 2, written out: a success returns at once, a non-quota failure stops the loop, a quota failure sleeps and goes on |
| RetryPolicy.Decided | grab.py:203-242 | the complete outcome of a request in four cases: first outcome not a quota failure; second not a quota failure; two quota failures with a client; two without one |
| RetryPolicy.AttemptStep | grab.py:212-234 | one iteration adds a primary call, then a sleep of the current delay if and only if the call failed on quota, then the fallback call if and only if that was the last attempt and a client is configured; the loop continues, with the delay doubled, if and only if the call failed on quota and was not the last attempt |
| RetryPolicy.AttemptsBounded | grab.py:207-234 | from any attempt on, the primary provider is called at least once and at most once per remaining attempt, and the fallback at most once |
| RetryPolicy.CallsBounded | grab.py:207-234 | one request calls the primary provider once or twice and the secondary provider at most once |
| RetryPolicy.TraceShapes | grab.py:207-242 | the four possible traces and, in both directions, the conditions under which each happens |
| RetryPolicy.FallbackOnlyAfterQuota | grab.py:219-232 | the fallback runs if and only if both attempts failed on quota and a secondary provider is configured |
| RetryPolicy.ResponseSources | grab.py:212-242 | the response is the first successful primary text, or the fallback's answer once it ran, and nothing else |
| RetryPolicy.FirstSuccessReturned | grab.py:213-214 | a first success is returned after one call, with no sleep and no fallback |
| RetryPolicy.OtherErrorFailsFast | grab.py:222-224 | a first failure that is not quota-class gives None after one call, even with a secondary provider configured |
| RetryPolicy.QuotaThenOtherErrorNoFallback | grab.py:227-242 | a quota failure followed by another failure gives None without the fallback, because only the last error is tested |
| RetryPolicy.QuotaWithoutSecondary | grab.py:235-237 | two quota failures without a client give None after both sleeps |
| RetryPolicy.QuotaWithSecondary | grab.py:229-234 | two quota failures with a client ask the secondary provider once, and its answer, present or absent, is the response |
| RetryPolicy.RateLimitedTwiceFallbackAnswers | grab.py:219-234 | two "429 Too Many Requests" errors and a secondary provider answering "ABC" give "ABC" after two calls, two sleeps and one fallback call |
| RetryPolicy.NotFoundFailsFast | grab.py:219-224 | a "404 Not Found" error is not retried and no fallback is asked |
| Classify.QuotaIffKeyword | grab.py:217-219 | an error is quota-class if and only if its lower-cased message contains one of "429", "quota", "resource", "exhausted", "limit" |
| Classify.FallbackTestIsLoopTest | grab.py:219-229 | the fallback trigger and the retry test agree on every message, although their keyword lists are ordered differently |
| Classify.QuotaIgnoresCase | grab.py:217-219 | lower-casing or upper-casing the message does not change the verdict |
| Classify.TooManyRequestsIsQuota | grab.py:217-219 | "429 Too Many Requests" is quota-class |
| Classify.ResourceExhaustedIsQuota | grab.py:217-219 | "RESOURCE_EXHAUSTED" is quota-class, whatever its case |
| Classify.NoKeywordLetters | grab.py:219 | a message lacking '2', 'q', 'r', 'x' and 'l' contains none of the five keywords |
| Classify.NotFoundIsNotQuota | grab.py:217-219 | "404 Not Found" is not quota-class |
| AudioSuffix.SuffixFor | grab.py:154-162 | the suffix is always one of .mp3, .ogg, .webm, .m4a, .flac, .wav, and an audio part without a "mime_type" key gets ".wav" |
| AudioSuffix.SuffixIsFirstMatch | grab.py:154-162 | the if/elif chain on the lower-cased MIME type equals the first-match reading of the rule table |
| AudioSuffix.FirstMatchPrecedence | grab.py:157-162 | in the rule table, the earliest matching rule decides, whatever later rules would say |
| AudioSuffix.FirstMatchNone | grab.py:154 | when no rule matches, the default ".wav" is used |
| AudioSuffix.SuffixPrecedence | grab.py:154-162 | a MIME type gets the suffix of the first rule one of whose keywords it contains |
| AudioSuffix.SuffixWithoutMatch | grab.py:154-162 | a MIME type matching no rule gets ".wav" |
| AudioSuffix.OggWithMp3CodecIsMp3 | grab.py:156-158 | "audio/OGG; codecs=MP3" gets ".mp3": the case is ignored and the MPEG rule comes before the Ogg rule |
| Fallback.AssemblePrompt | grab.py:142-188 | the loop over the request yields the joined prompt parts of the specification |
| Fallback.GenerateWithFallback | grab.py:136-201 | without a client nothing is asked; otherwise the assembled prompt is sent once and the answer returned |
| Fallback.ItemsPartsConcat | grab.py:146-184 | a list is translated piece by piece, in order |
| Fallback.TextItemsKept | grab.py:147-148 | a list of strings is passed on unchanged and in order |
| Fallback.UnrecognisedIgnored | grab.py:147-149 | an item that is neither a string nor a dict with "data" is left out as if absent |
| Fallback.AudioReplaced | grab.py:149-184 | an audio part contributes its tagged transcription in its place, or nothing when processing it fails |
| Fallback.NothingInvented | grab.py:146-184 | every prompt string is a string item of the request or the tagged transcription of one of its audio items |
| Fallback.WholePromptUnchanged | grab.py:185-188 | a request that is not a list is sent as it is |
| Fallback.InstructionWithAudio | grab.py:145-188 | an instruction followed by one audio part becomes the instruction, one space and the tagged transcription, or the instruction alone when transcription fails |
| Callers.StrippedOr | grab.py:264-266 | a response gives its text stripped, meaning no surrounding whitespace with only whitespace removed; no response gives the default |
| Callers.GenerateDiacritics | grab.py:263-266 | the stripped response of the policy, or the input text itself when the policy gives up |
| Callers.GenerateFinglish | grab.py:282-285 | the stripped response of the policy, or the empty string |
| Callers.ExtractLyricsFromAudio | grab.py:303-312 | the stripped response to the instruction plus the uploaded audio with its MIME type, or the empty string |
| Callers.ProcessVoiceCorrection | grab.py:335-344 | the stripped response to the instruction plus the recording labelled "audio/wav", or the current text unchanged |
| Callers.StrippedResponseKept | grab.py:264-265 | an already stripped response is passed on unchanged |
| Callers.NoEarlierRuleKeyword | grab.py:157-161 | a MIME type without 'p', 'g', 'b', 'f' and '4' contains no keyword of the first five rules |
| Callers.OnlyLastRule | grab.py:154-162 | a MIME type whose lower-cased form mentions "wav" and none of those characters gets ".wav" from the last rule |
| Callers.WavLabelGetsWavSuffix | grab.py:338 | the voice recording goes to speech-to-text as a ".wav" file |
| Callers.VoiceCorrectionFallbackMessage | grab.py:335-341 | a voice correction sent to the secondary provider becomes the instruction followed by the tagged transcription of the ".wav" recording, or the instruction alone |
| Callers.VoiceCorrectionKeepsTextOnError | grab.py:343-344 | a non-quota first failure leaves the current text unchanged |
| Strings.Lower | grab.py:217 | lower-casing keeps the length and maps each character by itself |
| Strings.ContainsIffOccurs | grab.py:219 | the substring test holds if and only if the keyword occurs at some position |
| Strings.AnyInIff | grab.py:219 | `any(k in s for k in keywords)` holds if and only if some keyword of the list is contained in s |
| Strings.Strip | grab.py:265 | the stripped text has no whitespace at either end, and the original is it padded with whitespace only |
| Strings.StripUnique | grab.py:265 | stripping whitespace padding from a stripped text gives that text back |
| Strings.StripIdempotent | grab.py:265 | stripping twice is stripping once |
| Strings.JoinConcat | grab.py:188 | joining two non-empty lists joins their joins with one space |

## Left out

- The Streamlit page, its widgets, session state and the loading of API keys are not modelled. Whether a secondary client exists is the `Option<Secondary>` parameter.
- Network calls are not modelled. Each Gemini call is an outcome in `primary`, and each OpenAI call is a function of the secondary provider.
- `time.sleep` is not modelled: each sleep is an entry with its length in the trace.
- The warnings and errors written to the page are not modelled, and neither is the instruction wording of the four operations, which they take as a finished `prompt`.
- The temporary file is not modelled: its creation, its writing, and its removal only on the success path. Speech-to-text receives the suffix and the bytes directly.
- Extra `**kwargs` passed to the Gemini call are not modelled.
- The system message and model names sent to OpenAI are not modelled.
- RetryPolicy.SafeGenerateContent: the primary behaviour has exactly two entries, one per possible call. The loop never reads an entry after a success or a non-quota failure.
- A completion whose content is `None` is wrapped into a response object that is still truthy. The callers' `.strip()` on it would raise. The model's completion function returns an optional string and does not model that crash.
- A Gemini response whose `.text` raises in a caller is not modelled.
- Other exceptions raised in the callers are not modelled either.
- A `mime_type` entry that is not a string raises inside the audio branch, which drops that part. The model types it as an optional string.
- Fallback.ItemPart: a request item that is a dict with "data" is an audio part. Any other non-string item is `Unrecognised`. Contents that are neither a list nor a string are not modelled.
- Strings.Lower: only ASCII capitals are lower-cased. Python's full Unicode `lower` maps non-ASCII characters to ASCII in two cases only: the Kelvin sign becomes 'k', and U+0130 becomes 'i' followed by a combining dot. No keyword contains a 'k'. A dotted 'i' can never complete a keyword. So no verdict and no suffix differs.
