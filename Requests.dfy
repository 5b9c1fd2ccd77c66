/** The values that flow through the request policy: what a caller asks
    for, what the primary provider answers, and the secondary provider's
    two capabilities, both seen from outside as functions that may fail. */
module Requests {

  datatype Option<+T> = None | Some(value: T)

  type Byte = b: int | 0 <= b < 256

  /** One element of a list-shaped request: a plain string, a dictionary
      carrying audio bytes under "data" (and perhaps a "mime_type"), or
      anything else, which the fallback translation ignores. */
  datatype Item =
    | Text(text: string)
    | Audio(mimeType: Option<string>, data: seq<Byte>)
    | Unrecognised

  /** A request is either a single prompt string or a list of items. */
  datatype Content = Whole(prompt: string) | Parts(items: seq<Item>)

  /** What one call to the primary provider does: answer with a response
      carrying text, or raise an error whose message is all the policy sees. */
  datatype Outcome = Ok(text: string) | Err(message: string)

  /** A configured secondary provider. `transcribe` stands for writing the
      audio bytes to a temporary file with the given suffix and sending it
      to speech-to-text; `complete` for one chat completion of the user
      message. `None` stands for any exception raised on the way. */
  datatype Secondary = Secondary(
    transcribe: (string, seq<Byte>) -> Option<string>,
    complete: string -> Option<string>)
}
