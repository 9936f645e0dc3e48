# neku_bot media pipeline — a Dafny model

neku_bot answers a chat message with a short talking-avatar video. A chat
backend produces the reply, split into segments. Each segment has a
sentence of text and its synthesised audio, as base64 text. The media
pipeline then does the following:

- It merges the segment audio into one track.
- It writes SubRip subtitles whose cues follow the segment durations.
- It labels every 1/16-second window of the track quiet, medium or loud.
- It picks, for every label, a frame from the matching row of a
  pre-loaded animation grid.
- It muxes and subtitles the resulting video.

Three small pieces of state sit around the pipeline:

- the conversation history store;
- the packet pairing of the Inworld chat bridge (`bin/iw.js`);
- the text-to-speech wrapper that numbers the synthesised chunks.

This project models that logic. External tools stay outside the model:
sox, ffprobe, ffmpeg, OpenCV, librosa, Kokoro, Ollama and Inworld. Where a
step calls one of them, the model takes a function parameter instead:

- the duration probe;
- the concatenation;
- the audio loader;
- the video reader;
- the sentence splitter;
- the synthesiser;
- the WAV writer;
- the generator;
- each injected stage of the offline pipeline.

The duration probe, the concatenation and the audio loader return
`Option`, standing for the calls that can raise; the other collaborators
are total functions. Python
`timedelta` values are whole microseconds, so cue times are `nat`
microseconds. Base64 is the alphabet and padding of section 4 of RFC 4648.
Decoding is strict.

Modules, one per file:

- `Wrappers`: `Option` and `Result`.
- `Base64`: encoding and strict decoding, with the round trip.
- `Decimal`: `str(n)`, zero padding, and parsing it back.
- `Timestamp`: `format_timedelta` and a reader for its output.
- `Paths`: `os.path.join` for two components.
- `Seqs`: concatenation over a sequence, and first-occurrence search.
- `Subtitles`: the cue builder `merge_base64_mp3s_sox`, `write_srt_file`,
  `do_tts`, and a SubRip reader used to state what the writer produces.
- `Loudness`: the windowing and the three-way classifier of
  `audio_analysis`.
- `Grid`: the grid loading of `FGKBot.__init__` and `load_grid`, and the
  frame selection of `create_grid_video`.
- `Texts`: `concatenate_texts`, in both its versions: the join and the
  legacy accumulator loop.
- `Context`: `ContextStore`.
- `Inworld`: `bin/iw.js`, meaning the argument check, the session key,
  `Storage`, and the message handler.
- `Tts`: `KokoroTTS.text_to_audio`.
- `GenerateMedia`: `build_media_assets`.

`fgk_neku.py` holds legacy copies of most media functions inside the
`FGKBot` class. Its copies have the same bodies as those in
`nekubot/media.py`:

- `audio_analysis` (fgk_neku.py:52-73);
- `create_grid_video`'s frame loop (fgk_neku.py:81-85);
- `merge_base64_mp3s_sox` (fgk_neku.py:109-141);
- `format_timedelta` (fgk_neku.py:160-165);
- `write_srt_file` (fgk_neku.py:167-172).

They are modelled once, by the members cited for `nekubot/media.py`, so
every property stated for those members holds for the legacy copies too.
Two pieces of `fgk_neku.py` differ in form and have members of their own:

- the grid initialisation, modelled by `Grid.LegacyGrid`, which is `Grid.LoadGrid` with three rows and
  folder `vids`;
- the accumulator loop of `concatenate_texts`, modelled by
  `Texts.ConcatenateTextsLoop`.

Behaviour of the code worth knowing:

- **Window length.** The window length is `int(sr / 16)` samples, so there
  are `ceil(len(y) / int(sr / 16))` windows. That can be more than
  `ceil(seconds * 16)`: at 22050 Hz, ten seconds give 161 windows
  (`Loudness.TenSecondsAtDefaultRate`).
- **Empty input.** The cue builder has no empty-input error of its own.
  With no segments it asks the concatenation for an empty merge. The
  empty reply is rejected earlier, by `build_media_assets`, before any
  media stage (`GenerateMedia.BuildMediaAssets`).
- **Short grid rows.** Frame selection fails only when the chosen row holds
  no more than `i % 32` frames. A short sequence can therefore render from
  a row shorter than 32 frames. A negative label selects a row counting
  from the end, as Python indexing does (`Grid.PyIndex`).

## Model

| member | source | states |
|---|---|---|
| `Subtitles.ProbeSegment` | nekubot/media.py:64-70 | A segment succeeds exactly when its audio decodes and the probe gives a duration for the decoded bytes, and then it yields exactly those bytes and that duration. `MergeSegments` and `MergeOutcomeExclusive` state the merge built on it. |
| `Subtitles.MergeSegments` | nekubot/media.py:57-75 | On success there is one decoded file, one probed duration and one cue per segment, in input order. Cue i has index i+1 and the segment's text verbatim. The first cue starts at 0, each cue ends at its start plus its segment's duration, and the next cue starts where it ended. The track is the concatenation of the decoded files, and the SubRip text is exactly the writer's output for the cues. On failure the error names the first segment whose audio does not decode or probe, with all earlier segments fine, or the concatenation, which failed on the decoded files after every segment succeeded. |
| `Subtitles.MergeOutcomeExclusive` | nekubot/media.py:57-75 | No merge result and no merge error can both describe the same segments, probe and concatenation: the merge fails exactly when a segment or sox fails. |
| `Subtitles.NextCue` | nekubot/media.py:69-72 | Appending the next segment's cue, from the current time to the current time plus its duration, keeps the cues 1-based, text-preserving and contiguous. |
| `Subtitles.DoTts` | nekubot/media.py:159-167 | The returned paths are `merged_sox.mp3` and `subs.srt` joined onto the work directory, and they differ. The merge result is as for `MergeSegments`. |
| `Subtitles.CueTimes` | nekubot/media.py:62-72 | Cue k starts at the sum of the durations before it and ends at the sum including its own. |
| `Subtitles.LastCueEnd` | nekubot/media.py:62-72 | The last cue ends at the total duration of all segments. |
| `Subtitles.CuesOrdered` | nekubot/media.py:70-72 | Any earlier cue ends no later than a later cue starts: the cues are in time order and never overlap. |
| `Subtitles.SrtText` | nekubot/media.py:102-107 | The SubRip text of a list of cues: its length is the sum of the lengths of the cues' entries. `WriteSrt` is proved to produce it, and `ParseSrtText` to read back from it. |
| `Subtitles.WriteSrt` | nekubot/media.py:102-107 | The written text is exactly the in-order concatenation of `index\n`, `start --> end\n` and `text\n\n` per cue, and nothing else. |
| `Subtitles.AppendEntry` | nekubot/media.py:104-107 | Writing one more cue appends exactly that cue's three lines. |
| `Subtitles.ParseEntryOf` | nekubot/media.py:104-107 | One written entry reads back as its index, the clock fields of its start and end, and its text, followed by what comes after it. |
| `Subtitles.ParseSrtText` | nekubot/media.py:102-107 | When no cue text contains a line break, the written SubRip text reads back as one entry per cue, in order. Each entry has the cue's index and text, and its times truncated to milliseconds. |
| `Timestamp.Split` | nekubot/media.py:94-98 | The clock fields of a time have minutes and seconds below 60 and milliseconds below 1000. `SplitFields` and `MillisOfSplit` state that they add back up to the time. |
| `Timestamp.Format` | nekubot/media.py:94-99 | `format_timedelta` gives at least 12 characters. `ParseFormat`, `FormatRoundTrip` and `FormatLength` state what the text reads back as and its exact width. |
| `Timestamp.SplitFields` | nekubot/media.py:94-98 | Minutes and seconds are in 0..59 and milliseconds in 0..999. `hours*3600 + minutes*60 + seconds` is the whole number of seconds, and milliseconds are the microsecond part divided by 1000. |
| `Timestamp.FieldWidths` | nekubot/media.py:99 | Minutes and seconds are printed with exactly two digits and milliseconds with exactly three. |
| `Timestamp.ParseFormat` | nekubot/media.py:94-99 | Reading `HH:MM:SS,mmm` back gives exactly the split fields: the format loses nothing beyond the truncation to milliseconds. |
| `Timestamp.FormatRoundTrip` | nekubot/media.py:94-99 | The formatted text denotes the time truncated to whole milliseconds. |
| `Timestamp.MillisOfSplit` | nekubot/media.py:95-98 | The fields of a time, as milliseconds, are the time divided by 1000 and rounded down. |
| `Timestamp.FormatLength` | nekubot/media.py:99 | Below 100 hours the text is exactly 12 characters, `HH:MM:SS,mmm`. |
| `Timestamp.Parse` | nekubot/media.py:99 | A time text that reads back has minutes and seconds below 60. It is the reader of the layout `format_timedelta` writes, and `ParseFormat` states that it inverts `Format`. |
| `Decimal.Digits` | nekubot/media.py:99 | `str(n)` is a non-empty string of decimal digits. |
| `Decimal.DigitsValue` | nekubot/media.py:99 | `str(n)` denotes n. |
| `Decimal.Padded` | nekubot/media.py:99 | `f"{n:0{w}d}"` is all digits and at least `w` (and at least one) characters long. `PaddedValue` and `PaddedWidth` state its value and exact width. |
| `Decimal.PaddedValue` | nekubot/media.py:99 | Zero padding to a width never changes the number the text denotes. |
| `Decimal.PaddedWidth` | nekubot/media.py:99 | A number below 10^width fills exactly width digits. |
| `Decimal.Parse` | nekubot/media.py:99 | Parsing succeeds exactly on non-empty all-digit text. `PaddedValue` states that it inverts `Padded`. |
| `Base64.Encode` | nekubot/tts.py:41 | The encoding is 4*ceil(n/3) characters long. |
| `Base64.Decode` | nekubot/media.py:64 | A text of n characters decodes to at most 3n/4 bytes. |
| `Base64.RoundTrip` | nekubot/tts.py:39-41 | Decoding the encoding gives back the bytes. |
| `Base64.EncodeAlphabet` | nekubot/tts.py:41 | Every encoded character is in the alphabet, except `=` in the last two places. |
| `Paths.Join` | nekubot/media.py:164-165 | An absolute name replaces the directory. `JoinRelative` and `JoinInjective` state the relative case. |
| `Paths.JoinRelative` | nekubot/media.py:164-165 | Joining a relative name puts it under the directory and at the end of the path. |
| `Paths.JoinInjective` | nekubot/media.py:164-165 | Different relative names in one directory give different paths. |
| `Loudness.Windows` | nekubot/media.py:44 | Every window holds at least one and at most `step` samples. `WindowAt`, `WindowCount`, `WindowsFull` and `WindowsCover` state which samples each holds. |
| `Loudness.WindowAt` | nekubot/media.py:43-44 | Window k starts at sample `k * step` and is the slice up to the next multiple or the end of the signal. |
| `Loudness.WindowCount` | nekubot/media.py:43-44 | There are `ceil(len(y) / step)` windows. |
| `Loudness.WindowsFull` | nekubot/media.py:44 | All windows are full except possibly the last, which is never empty. |
| `Loudness.WindowsCover` | nekubot/media.py:44 | Concatenated, the windows reproduce the signal exactly. |
| `Loudness.ClassifyMonotone` | nekubot/media.py:48 | Labels are in 0..2, and a louder window never gets a lower label. |
| `Loudness.MeanSquare` | nekubot/media.py:47 | `np.mean(frame ** 2)` is never negative. |
| `Loudness.ClassifyMeanSquare` | nekubot/media.py:47-48 | The label is 0, 1 or 2. `ClassifyBySquare` states that it agrees with the RMS rule of the code. |
| `Loudness.ClassifyBySquare` | nekubot/media.py:47-48 | Classifying the RMS against 0.1 and 0.125 is classifying the mean square against 1/100 and 1/64. |
| `Loudness.AudioAnalysis` | nekubot/media.py:38-49 | An unreadable file gives the read error. A sample rate below 16 gives the zero-step error. Otherwise there is exactly one label per window, in order, each being the classification of that window's mean square. |
| `Loudness.SilentIsQuiet` | tests/test_media.py:28-38 | Every window of a silent signal is labelled 0. |
| `Loudness.FullScaleIsLoud` | tests/test_media.py:28-38 | A window of full-scale samples is labelled 2. |
| `Loudness.TenSecondsAtDefaultRate` | nekubot/media.py:40-44 | Ten seconds at 22050 Hz give 161 windows. |
| `Grid.LoadGrid` | nekubot/media.py:17-33 | The grid has exactly `rows` rows, and none when `rows` is negative. Row i holds every frame of `{folder}/{i}.mp4` in order, or is empty when that file is missing, and loading goes on with the next row. |
| `Grid.PyIndex` | nekubot/media.py:123 | A list index that Python accepts, negative ones counting from the end, lands inside the list. |
| `Grid.CreateGridVideo` | nekubot/media.py:122-124 | Frames are written in order, and written frame i is `grid[seq[i]][i % 32]`. Either all `len(seq)` frames are written, or writing stops at the first position whose frame cannot be selected. |
| `Grid.Select` | nekubot/media.py:123 | A selected frame comes from the row the label names (from the end if negative), at position `i % 32` of that row. `SelectDefined` states when it exists. |
| `Grid.LegacyGrid` | fgk_neku.py:27-48 | The legacy bot's grid has three rows, and row i holds the frames of its video in `vids`, or none when that file is missing. |
| `Grid.LegacyPaths` | fgk_neku.py:33 | Row i of the legacy grid is read from `vids/{i}.mp4`. |
| `Grid.SelectDefined` | nekubot/media.py:122-124 | Every frame can be selected exactly when every label used names a row (from the end if negative) holding more than `i % 32` frames. |
| `Grid.FullGridRenders` | fgk_neku.py:81-85 | With three rows of at least 32 frames and labels in 0..2, frame i is `grid[label][i % 32]`. |
| `Grid.MissingRowFails` | fgk_neku.py:35-38 | A row left empty by a missing video can never be selected from. |
| `Texts.ConcatenateTexts` | nekubot/media.py:52-54 | The result is exactly as long as all the texts together. |
| `Texts.ConcatenateTextsLoop` | fgk_neku.py:103-107 | The left-to-right accumulator gives the same string as the join. |
| `Texts.ConcatenateAppend` | nekubot/media.py:52-54 | Joining two lists joins their results. |
| `Texts.TextAt` | nekubot/media.py:52-54 | Each text appears verbatim, right after the texts before it. |
| `Texts.FooBar` | tests/test_media.py:22-25 | `["foo", "bar"]` gives `"foobar"`, and an empty list gives `""`. |
| `Context.Recent` | nekubot/context.py:48-49 | The result is the last min(n, 8) messages, a suffix of the input. |
| `Context.ContextStore.constructor` | nekubot/context.py:13-30 | The store holds the history already in the database. |
| `Context.ContextStore.SaveMessage` | nekubot/context.py:32-38 | Exactly one `(user_id, role, content)` record is appended, and nothing else changes. |
| `Context.ContextStore.GetContext` | nekubot/context.py:40-50 | Without changing the store, returns the last eight of the user's messages in insertion order. |
| `Context.UserMessages` | nekubot/context.py:42-47 | The `SELECT ... WHERE user_id = ?` never returns more rows than the table holds. `UserMessagesExactly`, `OthersIgnored` and `AllOwn` state which rows it returns, and in what order. |
| `Context.UserMessagesAppend` | nekubot/context.py:42-47 | Reading a log made of two parts reads each part in turn. |
| `Context.UserMessagesExactly` | nekubot/context.py:42-47 | A message is read for a user exactly when one of that user's records carries its role and content unchanged. |
| `Context.OthersIgnored` | nekubot/context.py:42-47 | Records of other users, wherever they sit, never change what a user reads. |
| `Context.AllOwn` | nekubot/context.py:42-47 | When every record is the user's, the user reads every record, in order. |
| `Context.SaveThenRead` | nekubot/context.py:32-50 | After a save, the same user's read ends with the saved message. |
| `Context.TenSaves` | tests/test_context_store.py:16-23 | After ten saves by one user, the read holds eight messages, the first being `msg2`. |
| `Inworld.CheckArgs` | bin/iw.js:3-22 | Fewer than seven user arguments exits with status 1. Otherwise the seven arguments are taken in order. |
| `Inworld.SessionKey` | bin/iw.js:24 | The key is the channel, then `_`, then the user id. `SessionKeyInjective` states when different users get different keys. |
| `Inworld.SessionKeyInjective` | bin/iw.js:24 | While channels contain no `_`, the key `channel_user` determines the channel and the user. |
| `Inworld.Storage.constructor` | bin/iw.js:27-34 | Opening the persisted table gives a store holding exactly what earlier runs stored. |
| `Inworld.Storage.Get` | bin/iw.js:36-43 | Returns the stored value, or null when the key is absent. |
| `Inworld.Storage.Set` | bin/iw.js:45-47 | The key maps to the new value, and no other key changes. |
| `Inworld.Storage.Delete` | bin/iw.js:49-51 | The key is removed, and no other key changes. |
| `Inworld.Pairing.constructor` | bin/iw.js:11-15 | No output and an empty pending pair. |
| `Inworld.Pairing.OnMessage` | bin/iw.js:80-109 | The new state is the handler's step on the old state. |
| `Inworld.Step` | bin/iw.js:80-108 | One packet appends at most one completed pair and prints at most one array, and never removes either. `Flush`, `LastWins`, `EndPrints` and `StepValid` state which packet does what. |
| `Inworld.StepValid` | bin/iw.js:86-108 | One packet keeps the invariant: the pending pair is never complete, and no completed pair is entirely empty. |
| `Inworld.RunValid` | bin/iw.js:86-108 | Any packet stream keeps that invariant. |
| `Inworld.RunExtends` | bin/iw.js:82-108 | The output only grows by appending, and printed arrays are never retracted. |
| `Inworld.Flush` | bin/iw.js:86-108 | A pair is completed exactly when a text arrives with audio pending, or an audio chunk with text pending. It carries the latest text and audio, and the pending pair starts over empty. |
| `Inworld.LastWins` | bin/iw.js:86-98 | A second text before any audio replaces the first, and likewise for audio. |
| `Inworld.EndPrints` | bin/iw.js:82-84 | Interaction end prints exactly the completed pairs. The pending half-pair is not printed. |
| `Inworld.Exchange` | bin/iw.js:80-109 | A text then its audio, or an audio then its text, then the end, prints one pair. |
| `Tts.TextToAudio` | nekubot/tts.py:25-51 | There is one entry per chunk over all sentences, in sentence then chunk order. Entry k has index k, the chunk's graphemes and phonemes, and the base64 of the WAV bytes of its audio. |
| `Tts.AllChunks` | nekubot/tts.py:31-38 | The chunks of all sentences include every chunk of each sentence. `AllChunksAppend` and `ChunkPosition` state where they sit. |
| `Tts.AllChunksAppend` | nekubot/tts.py:31-38 | The chunks of two runs of sentences are those of the first, then those of the second. |
| `Tts.EntryCount` | nekubot/tts.py:31-50 | The number of entries is the total number of chunks the synthesiser yields. |
| `Tts.ChunkPosition` | nekubot/tts.py:30-50 | Chunk j of sentence i is entry number (chunks of the earlier sentences) + j. |
| `Tts.MakeEntry` | nekubot/tts.py:39-48 | An entry's `audio_base64` decodes to the WAV bytes written for its chunk. |
| `Tts.Hello` | tests/test_tts.py:37-41 | With stub collaborators, `"hello"` gives one entry with text `"hello"` whose audio decodes to `b"audio"`. |
| `GenerateMedia.BuildMediaAssets` | nekubot/generate_media.py:48-122 | The steps run in this order: create the output directory, then load the grid once when none is given, then call the generator exactly once with `(user_id, prompt)`. Missing or empty audio data gives the error before any media stage. Otherwise these stages run in order, each fed the earlier results: creating the temporary work directory, `do_tts`, `audio_analysis` on its mp3, `create_grid_video` with that frame sequence and grid, `add_vid_subs` to `response.mp4`, the two copies, work-directory removal and the JSON dump. The result maps video, audio, srt and segments to the four output paths, and emotion to the generator's or `{}`. |
| `GenerateMedia.Serializable` | nekubot/generate_media.py:97-100 | One segment per generated entry. |
| `GenerateMedia.SerializableKeeps` | nekubot/generate_media.py:97-100 | Segment i has entry i's text and its `audio_base64` as `audio`. |
| `GenerateMedia.OutputsDistinct` | nekubot/generate_media.py:92-95 | The four output files are four different paths. |
| `GenerateMedia.SynthesisedSegmentsDecode` | nekubot/generate_media.py:97-103 | Segments made from synthesised entries decode back to each chunk's WAV bytes, so the merger can fail on them only at the probe. |

## Left out

- External processes are function parameters, not models: sox, ffprobe, ffmpeg (mux and subtitle burn-in), OpenCV reading and writing, librosa decoding and resampling, Kokoro, nltk, Ollama and the Inworld SDK. The files they read and write are not modelled beyond the calls recorded in the orchestrator's trace.
- Floating point: durations are given `nat` microseconds, so the rounding of `timedelta(seconds=float)` is not modelled. Samples and mean squares are exact reals, so `np.sqrt`/`np.mean` rounding is not modelled either.
- Base64.Decode: `base64.b64decode` is lenient, silently dropping characters outside the alphabet. The model decodes strictly and reports such input as malformed.
- Paths.Join: models `os.path.join` for two components, and stands in for pathlib's `/` in the orchestrator. Pathlib's normalisation is not modelled: it collapses repeated separators, drops trailing ones and drops `.` components, so `Path("./out") / "response.mp3"` is `out/response.mp3` where `Join` gives `./out/response.mp3`.
- Context.ContextStore.GetContext: rows come back in insertion order. SQLite's `ORDER BY timestamp` with second-resolution timestamps orders ties arbitrarily, and that is not modelled.
- GenerateMedia.BuildMediaAssets: an exception raised by an injected stage, or by the generator's construction when none is given, is not modelled. The lazy import of the media module is not modelled. The generator is always a parameter.
- Tts.TextToAudio: the sentence splitter, the synthesis pipeline and the WAV writer are total functions here; an exception raised by nltk, Kokoro or `sf.write` is not modelled.
- `ensure_tokenizer` (the nltk download), `KokoroTTS.__init__` configuration beyond the voice values, and the confidence-score formatting of `main` are not modelled.
- bin/iw.js: the network client, the retry on error (`setOnError`), the session get and set wiring, and the asynchrony of sqlite are not modelled. `Storage` is a plain map.
- Discord front ends (nekubot/discord_bot.py, neku.py, fgk_neku.py:174-222), nekubot/fgk_bot.py, nekubot/outworld.py and nekubot/config.py are not part of this model.
- The JSON text printed by the bridge and dumped by the orchestrator is represented by the values themselves, not by their serialisation.
