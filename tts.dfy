/**
 * The Kokoro text-to-speech wrapper: the text is split into sentences,
 * each sentence is synthesised into chunks, and every chunk becomes one
 * numbered entry carrying its graphemes, phonemes and WAV audio in base64.
 * The sentence splitter, the synthesiser and the WAV writer are parameters.
 */
module Tts {
  import Base64
  import opened Wrappers

  /** What the synthesiser yields per chunk: graphemes, phonemes, audio samples. */
  datatype Chunk<A> = Chunk(gs: string, ps: string, audio: A)

  /** One element of `audio_data_list`. */
  datatype Entry = Entry(index: nat, text: string, phonemes: string, audioBase64: string)

  /** `KokoroTTS(lang_code="a", voice="af_heart", speed=1)`. */
  datatype Voice = Voice(langCode: string, voice: string, speed: int)

  const DefaultVoice: Voice := Voice("a", "af_heart", 1)

  /** The sample rate the WAV writer is given. */
  const SampleRate: nat := 24000

  /** The chunks of all sentences: sentence order, then chunk order within a sentence. */
  function AllChunks<A>(sentences: seq<string>, v: Voice, pipeline: (string, Voice) -> seq<Chunk<A>>): (chunks: seq<Chunk<A>>)
    ensures forall i :: 0 <= i < |sentences| ==> |pipeline(sentences[i], v)| <= |chunks|
  {
    if sentences == [] then []
    else AllChunks(sentences[..|sentences| - 1], v, pipeline) + pipeline(sentences[|sentences| - 1], v)
  }

  /** The entry for the `k`-th chunk overall. */
  function MakeEntry<A>(k: nat, c: Chunk<A>, wav: (A, nat) -> seq<Base64.byte>): (e: Entry)
    ensures Base64.Decode(e.audioBase64) == Ok(wav(c.audio, SampleRate))
  {
    Base64.RoundTrip(wav(c.audio, SampleRate));
    Entry(k, c.gs, c.ps, Base64.Encode(wav(c.audio, SampleRate)))
  }

  /** `text_to_audio`: one entry per chunk, numbered by a running index. */
  method TextToAudio<A>(text: string, v: Voice, sentTokenize: string -> seq<string>,
                        pipeline: (string, Voice) -> seq<Chunk<A>>, wav: (A, nat) -> seq<Base64.byte>)
    returns (entries: seq<Entry>)
    ensures var chunks := AllChunks(sentTokenize(text), v, pipeline);
            |entries| == |chunks|
            && forall k :: 0 <= k < |entries| ==> entries[k] == MakeEntry(k, chunks[k], wav)
  {
    var sentences := sentTokenize(text);
    entries := [];
    var idx := 0;
    var i := 0;
    while i < |sentences|
      invariant 0 <= i <= |sentences|
      invariant idx == |entries| == |AllChunks(sentences[..i], v, pipeline)|
      invariant forall k :: 0 <= k < idx ==> entries[k] == MakeEntry(k, AllChunks(sentences[..i], v, pipeline)[k], wav)
    {
      ghost var before := AllChunks(sentences[..i], v, pipeline);
      var generator := pipeline(sentences[i], v);
      var j := 0;
      while j < |generator|
        invariant 0 <= j <= |generator|
        invariant idx == |entries| == |before| + j
        invariant forall k :: 0 <= k < idx ==> entries[k] == MakeEntry(k, (before + generator[..j])[k], wav)
      {
        var c := generator[j];
        assert before + generator[..j + 1] == (before + generator[..j]) + [c];
        entries := entries + [Entry(idx, c.gs, c.ps, Base64.Encode(wav(c.audio, SampleRate)))];
        idx := idx + 1;
        j := j + 1;
      }
      assert generator[..j] == generator;
      assert sentences[..i + 1][..i] == sentences[..i];
      i := i + 1;
    }
    assert sentences[..i] == sentences;
  }

  /** The chunks of two runs of sentences are the chunks of the first, then those of the second. */
  lemma {:induction false} AllChunksAppend<A>(xs: seq<string>, ys: seq<string>, v: Voice, pipeline: (string, Voice) -> seq<Chunk<A>>)
    ensures AllChunks(xs + ys, v, pipeline) == AllChunks(xs, v, pipeline) + AllChunks(ys, v, pipeline)
    decreases |ys|
  {
    if ys == [] {
      assert xs + ys == xs;
    } else {
      var ys' := ys[..|ys| - 1];
      assert (xs + ys)[..|xs + ys| - 1] == xs + ys';
      AllChunksAppend(xs, ys', v, pipeline);
    }
  }

  /** The number of chunks the synthesiser yields over all sentences. */
  function ChunkCount<A>(sentences: seq<string>, v: Voice, pipeline: (string, Voice) -> seq<Chunk<A>>): nat {
    if sentences == [] then 0 else |pipeline(sentences[0], v)| + ChunkCount(sentences[1..], v, pipeline)
  }

  /** There are exactly as many entries as chunks over all sentences. */
  lemma {:induction false} EntryCount<A>(sentences: seq<string>, v: Voice, pipeline: (string, Voice) -> seq<Chunk<A>>)
    ensures |AllChunks(sentences, v, pipeline)| == ChunkCount(sentences, v, pipeline)
    decreases |sentences|
  {
    if sentences != [] {
      EntryCount(sentences[1..], v, pipeline);
      assert sentences == [sentences[0]] + sentences[1..];
      AllChunksAppend([sentences[0]], sentences[1..], v, pipeline);
      assert [sentences[0]][..0] == [];
    }
  }

  /**
   * Chunk `j` of sentence `i` is entry number "chunks of the sentences
   * before `i`, plus `j`": sentence order first, then chunk order.
   */
  lemma ChunkPosition<A>(sentences: seq<string>, v: Voice, pipeline: (string, Voice) -> seq<Chunk<A>>, i: nat, j: nat)
    requires i < |sentences| && j < |pipeline(sentences[i], v)|
    ensures var off := |AllChunks(sentences[..i], v, pipeline)|;
            off + j < |AllChunks(sentences, v, pipeline)|
            && AllChunks(sentences, v, pipeline)[off + j] == pipeline(sentences[i], v)[j]
  {
    assert sentences == sentences[..i + 1] + sentences[i + 1..];
    assert sentences[..i + 1][..i] == sentences[..i];
    AllChunksAppend(sentences[..i + 1], sentences[i + 1..], v, pipeline);
  }

  /** The bytes `b"audio"`. */
  const AudioBytes: seq<Base64.byte> := [97, 117, 100, 105, 111]

  /**
   * With a splitter that keeps the text whole, a synthesiser yielding one
   * chunk `(text, "ph", b"audio")` and a WAV writer that writes the samples
   * as they are, `"hello"` gives one entry whose text is `"hello"` and whose
   * audio decodes to `b"audio"`.
   */
  lemma Hello()
    ensures var chunks := AllChunks(["hello"], DefaultVoice, (s: string, v: Voice) => [Chunk(s, "ph", AudioBytes)]);
            var e := MakeEntry(0, chunks[0], (a: seq<Base64.byte>, rate: nat) => a);
            |chunks| == 1 && e.index == 0 && e.text == "hello" && e.phonemes == "ph"
            && Base64.Decode(e.audioBase64) == Ok(AudioBytes)
  {
    var pipeline := (s: string, v: Voice) => [Chunk(s, "ph", AudioBytes)];
    var wav := (a: seq<Base64.byte>, rate: nat) => a;
    assert ["hello"][..0] == [];
  }
}
