/** The `text-to-speech` serverless function: request validation, the voice
    fallback, the upstream error message, and the loop that turns the audio
    bytes into a binary string 1024 bytes at a time before base64 encoding.
    The speech API and the base64 encoder are parameters. */
module TextToSpeech {
  import opened Wrappers

  newtype byte = x: int | 0 <= x < 256

  /** `VALID_VOICES`. */
  const ValidVoices: seq<string> := ["alloy", "echo", "fable", "onyx", "nova", "shimmer", "ash", "sage", "coral"]

  const DefaultVoice := "alloy"

  /** The settings selector's `OPENAI_VOICES`, and its default choice. */
  const SelectorVoices: seq<string> := ["nova", "shimmer", "echo", "fable", "coral", "alloy", "ash", "sage", "onyx"]

  const SelectorDefault := "nova"

  const ChunkSize: nat := 1024

  /** The voice sent upstream: the requested one if valid, else `alloy`. */
  function ChooseVoice(voice: Option<string>): (v: string)
    ensures v in ValidVoices
    ensures voice.Some? && voice.value in ValidVoices ==> v == voice.value
    ensures !(voice.Some? && voice.value in ValidVoices) ==> v == DefaultVoice
  {
    if voice.Some? && voice.value in ValidVoices then voice.value else DefaultVoice
  }

  /** Every voice the settings offer, the default included, is accepted as
      is: none of them falls back to `alloy`. */
  lemma SelectorVoicesAccepted()
    ensures forall k :: 0 <= k < |SelectorVoices| ==> ChooseVoice(Some(SelectorVoices[k])) == SelectorVoices[k]
    ensures ChooseVoice(Some(SelectorDefault)) == SelectorDefault
    ensures |SelectorVoices| == |ValidVoices|
  {
    forall k | 0 <= k < |SelectorVoices|
      ensures SelectorVoices[k] in ValidVoices
    {
    }
  }

  /** The request body: unreadable JSON, or its (possibly missing) fields. */
  datatype Request = Malformed(message: string) | Fields(text: Option<string>, voice: Option<string>)

  /** The speech API's answer: the audio bytes, or an error body that may
      carry `error.message`. */
  datatype Upstream = Audio(bytes: seq<byte>) | Failed(message: Option<string>)

  /** The function's answer: `{ audioContent }`, or `{ error }` with status 400. */
  datatype Reply = AudioContent(base64: string) | ErrorReply(status: int, error: string)

  const TextRequired := "Text is required"
  const SpeechFailed := "Failed to generate speech"

  /** `String.fromCharCode` of one byte. */
  function ByteChar(b: byte): char {
    (b as int) as char
  }

  /** One character per byte, in order. */
  function Chars(bytes: seq<byte>): (s: string)
    ensures |s| == |bytes| && forall k :: 0 <= k < |bytes| ==> s[k] == ByteChar(bytes[k])
  {
    seq(|bytes|, k requires 0 <= k < |bytes| => ByteChar(bytes[k]))
  }

  function Flatten(chunks: seq<seq<byte>>): seq<byte> {
    if |chunks| == 0 then [] else Flatten(chunks[..|chunks| - 1]) + chunks[|chunks| - 1]
  }

  function Min(a: int, b: int): int {
    if a <= b then a else b
  }

  /** The slice `uint8Array.slice(i, i + chunkSize)`, clamped at the end. */
  function ChunkAt(bytes: seq<byte>, k: nat): seq<byte>
    requires ChunkSize * k <= |bytes|
  {
    bytes[ChunkSize * k..Min(ChunkSize * k + ChunkSize, |bytes|)]
  }

  lemma FlattenAppend(chunks: seq<seq<byte>>, chunk: seq<byte>)
    ensures Flatten(chunks + [chunk]) == Flatten(chunks) + chunk
  {
    assert (chunks + [chunk])[..|chunks|] == chunks;
  }

  lemma CharsAppend(a: seq<byte>, b: seq<byte>)
    ensures Chars(a + b) == Chars(a) + Chars(b)
  {
  }

  lemma PrefixAppend(bytes: seq<byte>, i: nat, j: nat)
    requires i <= j <= |bytes|
    ensures bytes[..i] + bytes[i..j] == bytes[..j]
  {
  }

  /** The byte-to-character conversion loop: visits offsets 0, 1024, 2048, ...,
      appends each chunk's characters, and returns the chunks it sliced. */
  method BinaryString(bytes: seq<byte>) returns (binary: string, chunks: seq<seq<byte>>)
    ensures binary == Chars(bytes)
    ensures Flatten(chunks) == bytes
    ensures forall k :: 0 <= k < |chunks| ==> ChunkSize * k < |bytes| && chunks[k] == ChunkAt(bytes, k)
    ensures forall k :: 0 <= k < |chunks| ==> 0 < |chunks[k]| <= ChunkSize
    ensures forall k :: 0 <= k < |chunks| - 1 ==> |chunks[k]| == ChunkSize
    ensures ChunkSize * |chunks| >= |bytes|
  {
    binary := "";
    chunks := [];
    var i := 0;
    while i < |bytes|
      invariant i == ChunkSize * |chunks|
      invariant Flatten(chunks) == bytes[..Min(i, |bytes|)]
      invariant binary == Chars(Flatten(chunks))
      invariant forall k :: 0 <= k < |chunks| ==> ChunkSize * k < |bytes| && chunks[k] == ChunkAt(bytes, k)
      invariant forall k :: 0 <= k < |chunks| ==> 0 < |chunks[k]| <= ChunkSize
      invariant forall k :: 0 <= k < |chunks| - 1 ==> |chunks[k]| == ChunkSize
      invariant |chunks| > 0 && i <= |bytes| ==> |chunks[|chunks| - 1]| == ChunkSize
    {
      var end := Min(i + ChunkSize, |bytes|);
      var chunk := bytes[i..end];
      FlattenAppend(chunks, chunk);
      PrefixAppend(bytes, i, end);
      CharsAppend(Flatten(chunks), chunk);
      binary := binary + Chars(chunk);
      chunks := chunks + [chunk];
      i := i + ChunkSize;
    }
    assert bytes[..|bytes|] == bytes;
  }

  /** The request handler after CORS: reject unreadable or text-less
      requests, pick the voice, ask for speech, report its error message or
      the default one, and encode the audio. Every failure is a 400 reply. */
  method HandleTextToSpeech(request: Request, speech: (string, string) -> Upstream, base64: string -> string)
    returns (reply: Reply)
    ensures reply.ErrorReply? ==> reply.status == 400
    ensures request.Malformed? ==> reply == ErrorReply(400, request.message)
    ensures request.Fields? && (request.text.None? || request.text.value == "") ==> reply == ErrorReply(400, TextRequired)
    ensures reply.AudioContent? <==>
      && request.Fields? && request.text.Some? && request.text.value != ""
      && speech(request.text.value, ChooseVoice(request.voice)).Audio?
    ensures reply.AudioContent? ==>
      reply.base64 == base64(Chars(speech(request.text.value, ChooseVoice(request.voice)).bytes))
    ensures request.Fields? && request.text.Some? && request.text.value != "" ==>
      match speech(request.text.value, ChooseVoice(request.voice))
      case Failed(message) =>
        reply == ErrorReply(400, if message.Some? && message.value != "" then message.value else SpeechFailed)
      case Audio(_) => reply.AudioContent?
  {
    match request
    case Malformed(message) =>
      reply := ErrorReply(400, message);
    case Fields(text, voice) =>
      if text.None? || text.value == "" {
        reply := ErrorReply(400, TextRequired);
      } else {
        match speech(text.value, ChooseVoice(voice))
        case Failed(message) =>
          reply := ErrorReply(400, if message.Some? && message.value != "" then message.value else SpeechFailed);
        case Audio(bytes) =>
          var binary, _ := BinaryString(bytes);
          reply := AudioContent(base64(binary));
      }
  }
}
