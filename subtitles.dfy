/**
 * The segment merger of the media pipeline (`merge_base64_mp3s_sox`,
 * `write_srt_file`, `do_tts`): per-segment audio is decoded and probed,
 * the probed durations are folded into contiguous, 1-based subtitle cues,
 * the decoded files are concatenated by an external tool, and the cues are
 * written as a SubRip text.
 */
module Subtitles {
  import opened Wrappers
  import Base64
  import Decimal
  import Timestamp
  import Paths
  import opened Seqs

  /** One element of `mp3_dict_list`: a sentence and its audio as base64 text. */
  datatype Segment = Segment(text: string, audio: string)

  /** One SubRip cue: 1-based index, start and end in microseconds, text. */
  datatype Cue = Cue(index: nat, start: nat, end: nat, text: string)

  datatype SegmentFailure = MalformedAudio(reason: Base64.DecodeError) | ProbeFailed

  datatype MergeError =
    | SegmentFailed(segment: nat, failure: SegmentFailure)  // b64decode or ffprobe raised
    | ConcatFailed                                          // sox exited non-zero

  /** What one merge produced: the decoded segment files, their durations, the cues, the merged track and the SubRip text. */
  datatype Merged = Merged(files: seq<seq<Base64.byte>>, durations: seq<nat>, cues: seq<Cue>,
                           track: seq<Base64.byte>, srt: string)

  /** Decodes a segment's audio and probes its duration (microseconds). */
  function ProbeSegment(s: Segment, probe: seq<Base64.byte> -> Option<nat>): (r: Result<(seq<Base64.byte>, nat), SegmentFailure>)
    ensures r.Ok? <==> Base64.Decode(s.audio).Ok? && probe(Base64.Decode(s.audio).value).Some?
    ensures r.Ok? ==> Base64.Decode(s.audio) == Ok(r.value.0) && probe(r.value.0) == Some(r.value.1)
  {
    match Base64.Decode(s.audio)
    case Err(e) => Err(MalformedAudio(e))
    case Ok(bytes) =>
      match probe(bytes)
      case None => Err(ProbeFailed)
      case Some(d) => Ok((bytes, d))
  }

  /** Cue `i` has index `i + 1` and carries segment `i`'s text verbatim. */
  predicate Numbered(cues: seq<Cue>, segments: seq<Segment>) {
    |cues| == |segments|
    && forall i :: 0 <= i < |cues| ==> cues[i].index == i + 1 && cues[i].text == segments[i].text
  }

  /** The cues tile the timeline: the first starts at 0, each lasts its segment's duration, the next starts where it ended. */
  predicate Contiguous(cues: seq<Cue>, durations: seq<nat>) {
    |cues| == |durations|
    && (|cues| > 0 ==> cues[0].start == 0)
    && (forall i :: 0 <= i < |cues| ==> cues[i].end == cues[i].start + durations[i])
    && (forall i :: 0 <= i < |cues| - 1 ==> cues[i + 1].start == cues[i].end)
  }

  function Sum(d: seq<nat>): nat {
    if d == [] then 0 else Sum(d[..|d| - 1]) + d[|d| - 1]
  }

  /** `m` is what merging `segments` yields when every segment decodes and probes and the concatenation succeeds. */
  predicate MergedFrom(segments: seq<Segment>, probe: seq<Base64.byte> -> Option<nat>,
                       concat: seq<seq<Base64.byte>> -> Option<seq<Base64.byte>>, m: Merged)
  {
    && |m.files| == |segments| && |m.durations| == |segments|
    && (forall i :: 0 <= i < |segments| ==> ProbeSegment(segments[i], probe) == Ok((m.files[i], m.durations[i])))
    && Numbered(m.cues, segments)
    && Contiguous(m.cues, m.durations)
    && concat(m.files) == Some(m.track)
    && m.srt == SrtText(m.cues)
  }

  /** The decoded files of the segments, when every one of them decodes and probes. */
  function ProbedFiles(segments: seq<Segment>, probe: seq<Base64.byte> -> Option<nat>): (files: seq<seq<Base64.byte>>)
    requires forall i :: 0 <= i < |segments| ==> ProbeSegment(segments[i], probe).Ok?
    ensures |files| == |segments|
    ensures forall i :: 0 <= i < |segments| ==> files[i] == ProbeSegment(segments[i], probe).value.0
    decreases |segments|
  {
    if segments == [] then []
    else [ProbeSegment(segments[0], probe).value.0] + ProbedFiles(segments[1..], probe)
  }

  /**
   * `e` is the error merging `segments` raises: the first segment that
   * fails, or, once all of them succeeded, the concatenation of their files.
   */
  predicate FailedWith(segments: seq<Segment>, probe: seq<Base64.byte> -> Option<nat>,
                       concat: seq<seq<Base64.byte>> -> Option<seq<Base64.byte>>, e: MergeError)
  {
    match e
    case SegmentFailed(k, failure) =>
      && k < |segments|
      && ProbeSegment(segments[k], probe) == Err(failure)
      && forall j :: 0 <= j < k ==> ProbeSegment(segments[j], probe).Ok?
    case ConcatFailed =>
      && (forall i :: 0 <= i < |segments| ==> ProbeSegment(segments[i], probe).Ok?)
      && concat(ProbedFiles(segments, probe)) == None
  }

  /** Files and durations that are each segment's probe result are the probed files. */
  lemma FilesOfProbes(segments: seq<Segment>, probe: seq<Base64.byte> -> Option<nat>,
                      files: seq<seq<Base64.byte>>, durations: seq<nat>)
    requires |files| == |segments| && |durations| == |segments|
    requires forall i :: 0 <= i < |segments| ==> ProbeSegment(segments[i], probe) == Ok((files[i], durations[i]))
    ensures forall i :: 0 <= i < |segments| ==> ProbeSegment(segments[i], probe).Ok?
    ensures files == ProbedFiles(segments, probe)
  {
    var probed := ProbedFiles(segments, probe);
    assert forall i :: 0 <= i < |segments| ==> files[i] == probed[i];
  }

  /** The files of a successful merge are exactly the probed files. */
  lemma MergedFiles(segments: seq<Segment>, probe: seq<Base64.byte> -> Option<nat>,
                    concat: seq<seq<Base64.byte>> -> Option<seq<Base64.byte>>, m: Merged)
    requires MergedFrom(segments, probe, concat, m)
    ensures forall i :: 0 <= i < |segments| ==> ProbeSegment(segments[i], probe).Ok?
    ensures m.files == ProbedFiles(segments, probe)
  {
    FilesOfProbes(segments, probe, m.files, m.durations);
  }

  /**
   * The outcome of a merge is determined by its inputs: no result and
   * error can both describe the same segments, so a merge can fail only
   * where one of the segments or the concatenation does.
   */
  lemma MergeOutcomeExclusive(segments: seq<Segment>, probe: seq<Base64.byte> -> Option<nat>,
                              concat: seq<seq<Base64.byte>> -> Option<seq<Base64.byte>>, m: Merged, e: MergeError)
    ensures !(MergedFrom(segments, probe, concat, m) && FailedWith(segments, probe, concat, e))
  {
    if MergedFrom(segments, probe, concat, m) && FailedWith(segments, probe, concat, e) {
      MergedFiles(segments, probe, concat, m);
    }
  }

  /** After `i` segments: their files, durations and cues, built in order. */
  predicate Prefix(segments: seq<Segment>, probe: seq<Base64.byte> -> Option<nat>, i: nat,
                   files: seq<seq<Base64.byte>>, durations: seq<nat>, cues: seq<Cue>)
  {
    && i <= |segments| && |files| == i && |durations| == i
    && (forall j :: 0 <= j < i ==> ProbeSegment(segments[j], probe) == Ok((files[j], durations[j])))
    && Numbered(cues, segments[..i])
    && Contiguous(cues, durations)
  }

  /** Appending segment `i`'s file, duration and cue extends the prefix by one. */
  lemma PrefixStep(segments: seq<Segment>, probe: seq<Base64.byte> -> Option<nat>, i: nat,
                   files: seq<seq<Base64.byte>>, durations: seq<nat>, cues: seq<Cue>, bytes: seq<Base64.byte>, d: nat)
    requires Prefix(segments, probe, i, files, durations, cues) && i < |segments|
    requires ProbeSegment(segments[i], probe) == Ok((bytes, d))
    ensures var start := if i == 0 then 0 else cues[i - 1].end;
            Prefix(segments, probe, i + 1, files + [bytes], durations + [d],
                   cues + [Cue(i + 1, start, start + d, segments[i].text)])
  {
    NextCue(cues, durations, segments, i, d);
  }

  /** A segment that fails after `i` successful ones is the merge's error. */
  lemma FailsAt(segments: seq<Segment>, probe: seq<Base64.byte> -> Option<nat>,
                concat: seq<seq<Base64.byte>> -> Option<seq<Base64.byte>>, i: nat,
                files: seq<seq<Base64.byte>>, durations: seq<nat>, cues: seq<Cue>)
    requires Prefix(segments, probe, i, files, durations, cues) && i < |segments|
    requires ProbeSegment(segments[i], probe).Err?
    ensures FailedWith(segments, probe, concat, SegmentFailed(i, ProbeSegment(segments[i], probe).error))
  {
  }

  /** Once every segment succeeded, the concatenation decides between the result and `ConcatFailed`. */
  lemma Completed(segments: seq<Segment>, probe: seq<Base64.byte> -> Option<nat>,
                  concat: seq<seq<Base64.byte>> -> Option<seq<Base64.byte>>,
                  files: seq<seq<Base64.byte>>, durations: seq<nat>, cues: seq<Cue>)
    requires Prefix(segments, probe, |segments|, files, durations, cues)
    ensures concat(files).None? ==> FailedWith(segments, probe, concat, ConcatFailed)
    ensures concat(files).Some? ==>
      MergedFrom(segments, probe, concat, Merged(files, durations, cues, concat(files).value, SrtText(cues)))
  {
    assert segments[..|segments|] == segments;
    FilesOfProbes(segments, probe, files, durations);
  }

  /**
   * `merge_base64_mp3s_sox`: one pass over the segments in order; the
   * concatenation (sox) and the duration probe (ffprobe) are parameters.
   */
  method MergeSegments(segments: seq<Segment>, probe: seq<Base64.byte> -> Option<nat>,
                       concat: seq<seq<Base64.byte>> -> Option<seq<Base64.byte>>)
    returns (r: Result<Merged, MergeError>)
    ensures r.Ok? ==> MergedFrom(segments, probe, concat, r.value)
    ensures r.Err? ==> FailedWith(segments, probe, concat, r.error)
  {
    var files: seq<seq<Base64.byte>> := [];
    var durations: seq<nat> := [];
    var cues: seq<Cue> := [];
    var currentTime: nat := 0;
    var i := 0;
    while i < |segments|
      invariant Prefix(segments, probe, i, files, durations, cues)
      invariant currentTime == if i == 0 then 0 else cues[i - 1].end
    {
      var probed := ProbeSegment(segments[i], probe);
      if probed.Err? {
        FailsAt(segments, probe, concat, i, files, durations, cues);
        return Err(SegmentFailed(i, probed.error));
      }
      var (bytes, duration) := probed.value;
      PrefixStep(segments, probe, i, files, durations, cues, bytes, duration);
      files := files + [bytes];
      var endTime := currentTime + duration;
      cues := cues + [Cue(i + 1, currentTime, endTime, segments[i].text)];
      durations := durations + [duration];
      currentTime := endTime;
      i := i + 1;
    }
    Completed(segments, probe, concat, files, durations, cues);
    var track := concat(files);
    if track.None? {
      return Err(ConcatFailed);
    }
    var srt := WriteSrt(cues);
    r := Ok(Merged(files, durations, cues, track.value, srt));
  }

  /** Appending the next segment's cue keeps the cues numbered and contiguous. */
  lemma NextCue(cues: seq<Cue>, durations: seq<nat>, segments: seq<Segment>, i: nat, d: nat)
    requires i < |segments| && Numbered(cues, segments[..i]) && Contiguous(cues, durations)
    ensures var start := if i == 0 then 0 else cues[i - 1].end;
            var next := cues + [Cue(i + 1, start, start + d, segments[i].text)];
            Numbered(next, segments[..i + 1]) && Contiguous(next, durations + [d])
  {
  }

  const MergedName := "merged_sox.mp3"
  const SubtitleName := "subs.srt"

  datatype TtsFiles = TtsFiles(mp3Path: string, srtPath: string, merged: Merged)

  /** `do_tts`: merges the segments into `merged_sox.mp3` and `subs.srt` under the work directory. */
  method DoTts(segments: seq<Segment>, workDir: string, probe: seq<Base64.byte> -> Option<nat>,
               concat: seq<seq<Base64.byte>> -> Option<seq<Base64.byte>>)
    returns (r: Result<TtsFiles, MergeError>)
    ensures r.Ok? ==> && r.value.mp3Path == Paths.Join(workDir, MergedName)
                      && r.value.srtPath == Paths.Join(workDir, SubtitleName)
                      && r.value.mp3Path != r.value.srtPath
                      && MergedFrom(segments, probe, concat, r.value.merged)
    ensures r.Err? ==> FailedWith(segments, probe, concat, r.error)
  {
    var mp3Path := Paths.Join(workDir, MergedName);
    var srtPath := Paths.Join(workDir, SubtitleName);
    var merged := MergeSegments(segments, probe, concat);
    if merged.Err? {
      return Err(merged.error);
    }
    if mp3Path == srtPath {
      Paths.JoinInjective(workDir, MergedName, SubtitleName);
    }
    r := Ok(TtsFiles(mp3Path, srtPath, merged.value));
  }

  /** Cue `k` spans the running total of the durations before it up to the total including it. */
  lemma {:induction false} CueTimes(cues: seq<Cue>, durations: seq<nat>, k: nat)
    requires Contiguous(cues, durations) && k < |cues|
    ensures cues[k].start == Sum(durations[..k])
    ensures cues[k].end == Sum(durations[..k + 1])
  {
    if k > 0 {
      CueTimes(cues, durations, k - 1);
    }
    assert durations[..k + 1][..k] == durations[..k];
  }

  /** The last cue ends at the sum of all durations: the subtitles cover the whole merged track. */
  lemma LastCueEnd(cues: seq<Cue>, durations: seq<nat>)
    requires Contiguous(cues, durations) && |cues| > 0
    ensures cues[|cues| - 1].end == Sum(durations)
  {
    CueTimes(cues, durations, |cues| - 1);
    assert durations[..|cues|] == durations;
  }

  /** Cues come in time order and never overlap. */
  lemma CuesOrdered(cues: seq<Cue>, durations: seq<nat>, i: nat, j: nat)
    requires Contiguous(cues, durations) && i < j < |cues|
    ensures cues[i].start <= cues[i].end <= cues[j].start <= cues[j].end
    decreases j - i
  {
    if i + 1 < j {
      CuesOrdered(cues, durations, i + 1, j);
    }
  }

  // ---- SubRip text ----

  /** The three writes `write_srt_file` makes for one cue. */
  function IndexLine(c: Cue): string {
    Decimal.Digits(c.index) + "\n"
  }

  function TimingLine(c: Cue): string {
    Timestamp.Format(c.start) + " --> " + Timestamp.Format(c.end) + "\n"
  }

  function TextLines(c: Cue): string {
    c.text + "\n\n"
  }

  /** One cue as `write_srt_file` writes it. */
  function Entry(c: Cue): string {
    IndexLine(c) + TimingLine(c) + TextLines(c)
  }

  /** The whole SubRip file: the entries in order and nothing else. */
  function SrtText(cues: seq<Cue>): (text: string)
    ensures |text| == Seqs.SumLengths(cues, Entry)
  {
    Seqs.ConcatMapLength(cues, Entry);
    Seqs.ConcatMap(cues, Entry)
  }

  lemma Assoc(x: string, a: string, b: string, d: string)
    ensures ((x + a) + b) + d == x + ((a + b) + d)
  {
  }

  /** Writing one more cue's three parts after the text of the cues before it gives the text of all of them. */
  lemma AppendParts(before: string, written: seq<Cue>, c: Cue)
    requires before == SrtText(written)
    ensures ((before + IndexLine(c)) + TimingLine(c)) + TextLines(c) == SrtText(written + [c])
  {
    Assoc(before, IndexLine(c), TimingLine(c), TextLines(c));
    Seqs.ConcatMapSnoc(written, c, Entry);
  }

  /** The same, for the cue at position `i` of the cues being written. */
  lemma AppendEntry(before: string, cues: seq<Cue>, i: nat)
    requires i < |cues| && before == SrtText(cues[..i])
    ensures ((before + IndexLine(cues[i])) + TimingLine(cues[i])) + TextLines(cues[i]) == SrtText(cues[..i + 1])
  {
    Seqs.PrefixSnoc(cues, i);
    AppendParts(before, cues[..i], cues[i]);
  }

  /** `write_srt_file`: writes each cue's three parts in turn. */
  method WriteSrt(cues: seq<Cue>) returns (out: string)
    ensures out == SrtText(cues)
  {
    out := "";
    var i := 0;
    while i < |cues|
      invariant 0 <= i <= |cues|
      invariant out == SrtText(cues[..i])
    {
      AppendEntry(out, cues, i);
      out := out + IndexLine(cues[i]);
      out := out + TimingLine(cues[i]);
      out := out + TextLines(cues[i]);
      i := i + 1;
    }
    assert cues[..i] == cues;
  }

  // ---- Reading a SubRip text back ----

  /** A cue as read back: index, clock fields of start and end, text. */
  datatype ParsedCue = ParsedCue(index: nat, start: Timestamp.Fields, end: Timestamp.Fields, text: string)

  /** What a writer-produced cue reads back as: times are kept to the millisecond. */
  function Expected(c: Cue): ParsedCue {
    ParsedCue(c.index, Timestamp.Split(c.start), Timestamp.Split(c.end), c.text)
  }

  /** The text before the first line break, and the text after it. */
  function CutLine(s: string): (r: Option<(string, string)>)
    ensures r.Some? ==> |r.value.1| < |s|
  {
    var i := Find(s, '\n');
    if i == |s| then None else Some((s[..i], s[i + 1..]))
  }

  /** A timing line `start --> end` cut at its first space. */
  function CutArrow(t: string): Option<(string, string)> {
    var k := Find(t, ' ');
    if k + 5 <= |t| && t[k..k + 5] == " --> " then Some((t[..k], t[k + 5..])) else None
  }

  /** Cuts one entry into its index text, start text, end text and text, and returns what follows it. */
  function CutEntry(s: string): (r: Option<(string, string, string, string, string)>)
    ensures r.Some? ==> |r.value.4| < |s|
  {
    match CutLine(s)
    case None => None
    case Some((indexText, r1)) =>
      match CutLine(r1)
      case None => None
      case Some((timing, r2)) =>
        match CutArrow(timing)
        case None => None
        case Some((startText, endText)) =>
          match CutLine(r2)
          case None => None
          case Some((text, r3)) =>
            if r3 != [] && r3[0] == '\n' then Some((indexText, startText, endText, text, r3[1..])) else None
  }

  function ParseEntry(s: string): (r: Option<(ParsedCue, string)>)
    ensures r.Some? ==> |r.value.1| < |s|
  {
    match CutEntry(s)
    case None => None
    case Some((indexText, startText, endText, text, rest)) =>
      match (Decimal.Parse(indexText), Timestamp.Parse(startText), Timestamp.Parse(endText))
      case (Some(index), Some(start), Some(end)) => Some((ParsedCue(index, start, end, text), rest))
      case _ => None
  }

  /** Reads a whole SubRip text; None when it is not a sequence of well-formed entries. */
  function ParseSrt(s: string): Option<seq<ParsedCue>>
    decreases |s|
  {
    if s == [] then Some([])
    else
      match ParseEntry(s)
      case None => None
      case Some((cue, rest)) =>
        match ParseSrt(rest)
        case None => None
        case Some(cues) => Some([cue] + cues)
  }

  lemma CutLineOf(a: string, b: string)
    requires Lacks(a, '\n')
    ensures CutLine(a + "\n" + b) == Some((a, b))
  {
    CutAt(a, '\n', b);
  }

  lemma CutArrowOf(t1: string, t2: string)
    requires Lacks(t1, ' ')
    ensures CutArrow(t1 + " --> " + t2) == Some((t1, t2))
  {
    var timing := t1 + " --> " + t2;
    assert timing == t1 + [' '] + ("-->" + " " + t2);
    CutAt(t1, ' ', "-->" + " " + t2);
    assert timing[|t1|..|t1| + 5] == " --> ";
    assert timing[|t1| + 5..] == t2;
  }

  lemma ArrowLine(t1: string, t2: string)
    requires Lacks(t1, '\n') && Lacks(t2, '\n')
    ensures Lacks(t1 + " --> " + t2, '\n')
  {
    var timing := t1 + " --> " + t2;
    forall i | 0 <= i < |timing| ensures timing[i] != '\n' {
      if i < |t1| { assert timing[i] == t1[i]; }
      else if i >= |t1| + 5 { assert timing[i] == t2[i - |t1| - 5]; }
    }
  }

  /** An entry whose lines cut as expected is cut into those parts. */
  lemma CutEntryOf(s: string, d: string, r1: string, timing: string, r2: string, t1: string, t2: string,
                   text: string, rest: string)
    requires CutLine(s) == Some((d, r1)) && CutLine(r1) == Some((timing, r2))
    requires CutArrow(timing) == Some((t1, t2)) && CutLine(r2) == Some((text, "\n" + rest))
    ensures CutEntry(s) == Some((d, t1, t2, text, rest))
  {
    assert ("\n" + rest)[1..] == rest;
  }

  /** The syntactic layout of an entry is cut back into its parts. */
  lemma CutLayout(d: string, t1: string, t2: string, text: string, rest: string)
    requires Lacks(d, '\n') && Lacks(t1, ' ') && Lacks(t1, '\n') && Lacks(t2, '\n') && Lacks(text, '\n')
    ensures CutEntry((d + "\n") + (t1 + " --> " + t2 + "\n") + (text + "\n\n") + rest) == Some((d, t1, t2, text, rest))
  {
    var timing := t1 + " --> " + t2;
    var r3 := "\n" + rest;
    var r2 := text + "\n" + r3;
    var r1 := timing + "\n" + r2;
    var s := (d + "\n") + (t1 + " --> " + t2 + "\n") + (text + "\n\n") + rest;
    assert s == d + "\n" + r1;
    CutLineOf(d, r1);
    ArrowLine(t1, t2);
    CutLineOf(timing, r2);
    CutArrowOf(t1, t2);
    CutLineOf(text, r3);
    CutEntryOf(s, d, r1, timing, r2, t1, t2, text, rest);
  }

  lemma DigitsLackSeparators(n: nat)
    ensures Lacks(Decimal.Digits(n), '\n')
  {
    var d := Decimal.Digits(n);
    forall i | 0 <= i < |d| ensures d[i] != '\n' {
      assert Decimal.IsDigit(d[i]);
    }
  }

  lemma FormatLacksSeparators(us: nat)
    ensures Lacks(Timestamp.Format(us), ' ') && Lacks(Timestamp.Format(us), '\n')
  {
    var f := Timestamp.Split(us);
    TimeText(Decimal.Padded(f.hours, 2), Decimal.Padded(f.minutes, 2), Decimal.Padded(f.seconds, 2),
             Decimal.Padded(f.millis, 3));
  }

  lemma TimeText(h: string, m: string, s: string, ms: string)
    requires Decimal.AllDigits(h) && Decimal.AllDigits(m) && Decimal.AllDigits(s) && Decimal.AllDigits(ms)
    ensures var t := h + ":" + m + ":" + s + "," + ms; Lacks(t, ' ') && Lacks(t, '\n')
  {
    var t := h + ":" + m + ":" + s + "," + ms;
    forall i | 0 <= i < |t| ensures t[i] != ' ' && t[i] != '\n' {
      var a := |h|;
      var b := a + 1 + |m|;
      var c := b + 1 + |s|;
      if i < a { assert t[i] == h[i]; }
      else if i == a { assert t[i] == ':'; }
      else if i < b { assert t[i] == m[i - a - 1]; }
      else if i == b { assert t[i] == ':'; }
      else if i < c { assert t[i] == s[i - b - 1]; }
      else if i == c { assert t[i] == ','; }
      else { assert t[i] == ms[i - c - 1]; }
    }
  }

  /** An entry whose parts cut and read as expected reads as the cue they make. */
  lemma ParseEntryFrom(s: string, d: string, t1: string, t2: string, text: string, rest: string,
                       index: nat, start: Timestamp.Fields, end: Timestamp.Fields)
    requires CutEntry(s) == Some((d, t1, t2, text, rest))
    requires Decimal.Parse(d) == Some(index) && Timestamp.Parse(t1) == Some(start) && Timestamp.Parse(t2) == Some(end)
    ensures ParseEntry(s) == Some((ParsedCue(index, start, end, text), rest))
  {
  }

  /** One written entry reads back as its cue, leaving what follows untouched. */
  lemma ParseEntryOf(c: Cue, rest: string)
    requires Lacks(c.text, '\n')
    ensures ParseEntry(Entry(c) + rest) == Some((Expected(c), rest))
  {
    var d, t1, t2 := Decimal.Digits(c.index), Timestamp.Format(c.start), Timestamp.Format(c.end);
    var s := Entry(c) + rest;
    assert s == (d + "\n") + (t1 + " --> " + t2 + "\n") + (c.text + "\n\n") + rest;
    DigitsLackSeparators(c.index);
    FormatLacksSeparators(c.start);
    FormatLacksSeparators(c.end);
    CutLayout(d, t1, t2, c.text, rest);
    Decimal.PaddedValue(c.index, 0);
    Timestamp.ParseFormat(c.start);
    Timestamp.ParseFormat(c.end);
    ParseEntryFrom(s, d, t1, t2, c.text, rest, c.index, Timestamp.Split(c.start), Timestamp.Split(c.end));
  }

  /** `p` is what reading back the text written from `cues` should give. */
  predicate ReadsAs(p: seq<ParsedCue>, cues: seq<Cue>) {
    |p| == |cues| && forall i :: 0 <= i < |cues| ==> p[i] == Expected(cues[i])
  }

  /**
   * The SubRip text reads back as the cues it was written from, in order
   * and nothing else, provided no cue text contains a line break.
   */
  lemma {:induction false} ParseSrtText(cues: seq<Cue>)
    requires forall i :: 0 <= i < |cues| ==> Lacks(cues[i].text, '\n')
    ensures ParseSrt(SrtText(cues)).Some? && ReadsAs(ParseSrt(SrtText(cues)).value, cues)
  {
    if cues != [] {
      var c, rest := cues[0], SrtText(cues[1..]);
      ParseSrtText(cues[1..]);
      var tail := ParseSrt(rest).value;
      assert SrtText(cues) == Entry(c) + rest;
      ParseEntryOf(c, rest);
      ParseSrtStep(Entry(c) + rest, Expected(c), rest, tail);
      ReadsAsCons(tail, cues);
    }
  }

  lemma ReadsAsCons(tail: seq<ParsedCue>, cues: seq<Cue>)
    requires cues != [] && ReadsAs(tail, cues[1..])
    ensures ReadsAs([Expected(cues[0])] + tail, cues)
  {
  }

  /** A well-formed entry followed by a readable rest reads as that entry, then the rest. */
  lemma ParseSrtStep(s: string, cue: ParsedCue, rest: string, tail: seq<ParsedCue>)
    requires ParseEntry(s) == Some((cue, rest)) && ParseSrt(rest) == Some(tail)
    ensures ParseSrt(s) == Some([cue] + tail)
  {
    assert |s| > |rest|;
  }
}
