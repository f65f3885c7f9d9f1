/**
 * Transcript assembly, `extract_transcript_details` (main.py:42-52): the link is
 * parsed, the transcript provider is asked for the caption segments of that
 * video id, and the segment texts are joined in order with single spaces.
 */
module Transcript {
  import opened Wrappers
  import VideoId

  /** One caption segment; only its `text` entry is read. */
  datatype Segment = Segment(text: string)

  /**
   * `YouTubeTranscriptApi.get_transcript`: given a video id, the segments, or
   * None when the call raises (no captions, video unavailable, network error).
   */
  type TranscriptProvider = string -> Option<seq<Segment>>

  /** `[i["text"] for i in segments]` */
  function Texts(segments: seq<Segment>): (texts: seq<string>)
    ensures |texts| == |segments|
    ensures forall i :: 0 <= i < |segments| ==> texts[i] == segments[i].text
  {
    seq(|segments|, i requires 0 <= i < |segments| => segments[i].text)
  }

  /** `" ".join(texts)` */
  function Join(texts: seq<string>): string {
    if |texts| == 0 then ""
    else if |texts| == 1 then texts[0]
    else texts[0] + " " + Join(texts[1..])
  }

  /** `s.split(" ")`: the pieces between single spaces, empty pieces included. */
  function Split(s: string): (parts: seq<string>)
    ensures |parts| >= 1
  {
    if s == [] then [""]
    else if s[0] == ' ' then [""] + Split(s[1..])
    else
      var parts := Split(s[1..]);
      [[s[0]] + parts[0]] + parts[1..]
  }

  /** Joining with single spaces loses nothing: splitting at the spaces gives the join back. */
  lemma {:induction false} JoinSplit(s: string)
    ensures Join(Split(s)) == s
  {
    if s == [] {
    } else if s[0] == ' ' {
      JoinSplit(s[1..]);
      assert s == " " + s[1..];
    } else {
      var parts := Split(s[1..]);
      JoinSplit(s[1..]);
      var first := [s[0]] + parts[0];
      assert Split(s) == [first] + parts[1..];
      if |parts| == 1 {
        assert Join(parts) == parts[0];
        assert s == [s[0]] + s[1..];
      } else {
        assert Join(parts) == parts[0] + " " + Join(parts[1..]);
        assert ([first] + parts[1..])[1..] == parts[1..];
        assert s == [s[0]] + s[1..];
      }
    }
  }

  /** A text without spaces splits into itself. */
  lemma {:induction false} SplitNoSpace(a: string)
    requires ' ' !in a
    ensures Split(a) == [a]
  {
    if a != [] {
      SplitNoSpace(a[1..]);
      assert a == [a[0]] + a[1..];
    }
  }

  /** A text without spaces, a space, and anything: the text is the first piece. */
  lemma {:induction false} SplitAfterText(a: string, b: string)
    requires ' ' !in a
    ensures Split(a + " " + b) == [a] + Split(b)
  {
    var s := a + " " + b;
    if a == [] {
      assert s[1..] == b;
    } else {
      SplitAfterText(a[1..], b);
      assert s[1..] == a[1..] + " " + b;
      assert a == [a[0]] + a[1..];
    }
  }

  /**
   * The joined transcript determines its segments when no segment text
   * contains a space: splitting recovers them in order.
   */
  lemma {:induction false} SplitJoin(texts: seq<string>)
    requires |texts| > 0
    requires forall i :: 0 <= i < |texts| ==> ' ' !in texts[i]
    ensures Split(Join(texts)) == texts
  {
    if |texts| == 1 {
      SplitNoSpace(texts[0]);
    } else {
      SplitJoin(texts[1..]);
      SplitAfterText(texts[0], Join(texts[1..]));
      assert texts == [texts[0]] + texts[1..];
    }
  }

  /** The number of characters in all the texts together. */
  function TotalLength(texts: seq<string>): nat {
    if texts == [] then 0 else |texts[0]| + TotalLength(texts[1..])
  }

  /** Each text after the first adds exactly one separating space. */
  lemma {:induction false} JoinLength(texts: seq<string>)
    requires |texts| > 0
    ensures |Join(texts)| == TotalLength(texts) + |texts| - 1
  {
    if |texts| > 1 {
      JoinLength(texts[1..]);
    }
  }

  /**
   * The value of `extract_transcript_details(url)`: None for a link no pattern
   * accepts, in which case the provider is not consulted at all, and None when
   * the provider fails; otherwise the joined segment texts.
   */
  function FetchTranscript(url: string, provider: TranscriptProvider): (r: Option<string>)
    ensures r.Some? <==> VideoId.VideoIdOf(url).Some? && provider(VideoId.VideoIdOf(url).value).Some?
    ensures r.Some? ==> r.value == Join(Texts(provider(VideoId.VideoIdOf(url).value).value))
  {
    match VideoId.VideoIdOf(url)
    case None => None
    case Some(videoId) =>
      match provider(videoId)
      case None => None
      case Some(segments) => Some(Join(Texts(segments)))
  }

  /** Only the provider's answer for the extracted id matters. */
  lemma FetchAsksOnlyForExtractedId(url: string, p1: TranscriptProvider, p2: TranscriptProvider)
    requires VideoId.VideoIdOf(url).None? || p1(VideoId.VideoIdOf(url).value) == p2(VideoId.VideoIdOf(url).value)
    ensures FetchTranscript(url, p1) == FetchTranscript(url, p2)
  {
  }
}
