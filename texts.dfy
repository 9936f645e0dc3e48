/** Joining the `text` fields of the segments a chat reply is made of. */
module Texts {
  import Seqs
  import Subtitles

  function TextOf(s: Subtitles.Segment): string {
    s.text
  }

  /** `"".join(obj["text"] for obj in objects_list)`. */
  function ConcatenateTexts(objects: seq<Subtitles.Segment>): (r: string)
    ensures |r| == Seqs.SumLengths(objects, TextOf)
  {
    Seqs.ConcatMapLength(objects, TextOf);
    Seqs.ConcatMap(objects, TextOf)
  }

  /** The legacy accumulator loop: texts are appended left to right to an initially empty string. */
  method ConcatenateTextsLoop(objects: seq<Subtitles.Segment>) returns (concatenated: string)
    ensures concatenated == ConcatenateTexts(objects)
  {
    concatenated := "";
    var i := 0;
    while i < |objects|
      invariant 0 <= i <= |objects|
      invariant concatenated == ConcatenateTexts(objects[..i])
    {
      assert objects[..i + 1] == objects[..i] + [objects[i]];
      Seqs.ConcatMapSnoc(objects[..i], objects[i], TextOf);
      concatenated := concatenated + objects[i].text;
      i := i + 1;
    }
    assert objects[..i] == objects;
  }

  /** Joining two lists joins their texts. */
  lemma ConcatenateAppend(xs: seq<Subtitles.Segment>, ys: seq<Subtitles.Segment>)
    ensures ConcatenateTexts(xs + ys) == ConcatenateTexts(xs) + ConcatenateTexts(ys)
  {
    Seqs.ConcatMapAppend(xs, ys, TextOf);
  }

  /**
   * Each segment's text appears verbatim in the result, right after the
   * texts of the segments before it.
   */
  lemma TextAt(objects: seq<Subtitles.Segment>, i: nat)
    requires i < |objects|
    ensures var off := |ConcatenateTexts(objects[..i])|;
            off + |objects[i].text| <= |ConcatenateTexts(objects)|
            && ConcatenateTexts(objects)[off..off + |objects[i].text|] == objects[i].text
  {
    var pre, cur, post := objects[..i], objects[i], objects[i + 1..];
    assert objects == pre + [cur] + post;
    ConcatenateAppend(pre + [cur], post);
    Seqs.ConcatMapSnoc(pre, cur, TextOf);
  }

  /** `["foo", "bar"]` gives `"foobar"`; no segments give `""`. */
  lemma FooBar()
    ensures ConcatenateTexts([Subtitles.Segment("foo", ""), Subtitles.Segment("bar", "")]) == "foobar"
    ensures ConcatenateTexts([]) == ""
  {
    var xs := [Subtitles.Segment("foo", ""), Subtitles.Segment("bar", "")];
    assert xs[1..][1..] == [];
  }
}
