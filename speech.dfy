/** Speaking the final answer (`tts`): the text sent for synthesis is cut to
    200 characters, and the 44-byte WAV header is skipped in the audio stream
    before it reaches the player. The synthesis service and the audio device
    are not run: a call is given the chunks the stream would deliver. */
module Speech {
  import opened Wrappers

  type Bytes = seq<bv8>

  const MaxSpeechChars: nat := 200
  const WavHeaderSize: nat := 44

  /** What the streaming synthesis call did: it delivered these chunks and
      then either finished or raised; or it failed before any audio. */
  datatype AudioOutcome = Streamed(chunks: seq<Bytes>, completed: bool) | SynthesisError

  /** What one `tts` call did: the text it sent, the chunks written to the
      player in order, and whether the player was closed at the end. */
  datatype Playback = Playback(sent: string, written: seq<Bytes>, closed: bool)

  /** `speech[:200]`. */
  function Truncate(s: string): (r: string)
    ensures |r| == if |s| <= MaxSpeechChars then |s| else MaxSpeechChars
    ensures r == s[..|r|]
  {
    if |s| <= MaxSpeechChars then s else s[..MaxSpeechChars]
  }

  /** The index of the first chunk longer than the header, or `|chunks|` if
      there is none. */
  function FirstLong(chunks: seq<Bytes>): (k: nat)
    ensures k <= |chunks|
    ensures forall j :: 0 <= j < k ==> |chunks[j]| <= WavHeaderSize
    ensures k < |chunks| ==> |chunks[k]| > WavHeaderSize
    decreases |chunks|
  {
    if chunks == [] then 0
    else if |chunks[0]| > WavHeaderSize then 0
    else 1 + FirstLong(chunks[1..])
  }

  /** The stream as played: the first chunk longer than the header loses the
      header, and only that chunk. */
  function WithoutHeader(chunks: seq<Bytes>): (r: seq<Bytes>)
    ensures |r| == |chunks|
    ensures forall j :: 0 <= j < |chunks| ==>
      r[j] == if j == FirstLong(chunks) then chunks[j][WavHeaderSize..] else chunks[j]
    decreases |chunks|
  {
    if chunks == [] then []
    else if |chunks[0]| > WavHeaderSize then [chunks[0][WavHeaderSize..]] + chunks[1..]
    else [chunks[0]] + WithoutHeader(chunks[1..])
  }

  /** The `async for chunk in response.iter_bytes()` loop with its
      `header_skipped` flag: what it writes to the player. */
  method PlayStream(chunks: seq<Bytes>) returns (written: seq<Bytes>)
    ensures written == WithoutHeader(chunks)
  {
    ghost var played := WithoutHeader(chunks);
    ghost var first := FirstLong(chunks);
    written := [];
    var headerSkipped := false;
    var i := 0;
    while i < |chunks|
      invariant 0 <= i <= |chunks|
      invariant headerSkipped <==> first < i
      invariant |written| == i
      invariant forall j :: 0 <= j < i ==> written[j] == played[j]
    {
      var chunk := chunks[i];
      if !headerSkipped && |chunk| > WavHeaderSize {
        assert first == i;
        written := written + [chunk[WavHeaderSize..]];
        headerSkipped := true;
      } else {
        assert first != i;
        written := written + [chunk];
      }
      assert written[i] == played[i];
      i := i + 1;
    }
    assert written == played;
  }

  /** `tts(speech)`. Slicing happens before the `try`, so a missing text
      raises out of `tts`; every failure of the synthesis stream is caught. */
  function Tts(speech: Option<string>, audio: AudioOutcome): Call<Playback>
  {
    match speech
    case None => Raises
    case Some(text) =>
      match audio
      case SynthesisError => Returns(Playback(Truncate(text), [], false))
      case Streamed(chunks, completed) => Returns(Playback(Truncate(text), WithoutHeader(chunks), completed))
  }

  /** `tts(speech)` step by step: it raises exactly when there is no text,
      sends at most the first 200 characters, and plays the stream with the
      header cut from its first long chunk, closing the player only when the
      stream finished. */
  method Speak(speech: Option<string>, audio: AudioOutcome) returns (r: Call<Playback>)
    ensures r == Tts(speech, audio)
    ensures r.Raises? <==> speech.None?
    ensures r.Returns? ==> r.value.sent == Truncate(speech.value)
    ensures r.Returns? && audio.Streamed? ==>
      r.value.written == WithoutHeader(audio.chunks) && r.value.closed == audio.completed
    ensures r.Returns? && audio.SynthesisError? ==> r.value.written == [] && !r.value.closed
  {
    if speech.None? {
      return Raises;
    }
    var safeSpeech := Truncate(speech.value);
    match audio
    case SynthesisError =>
      r := Returns(Playback(safeSpeech, [], false));
    case Streamed(chunks, completed) =>
      var written := PlayStream(chunks);
      r := Returns(Playback(safeSpeech, written, completed));
  }
}
