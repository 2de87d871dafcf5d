/** yt-dlp format selectors as the downloader writes them: alternatives separated
    by '/', tried left to right, each one "best" (or "bestaudio") optionally narrowed
    by a height cap "[height<=N]" and a container filter "[ext=mp4]".  The selector
    strings are rendered from, and parsed back into, a list of `StreamFilter`s, so
    what a selector string asks for can be stated and proved. */
module Selectors {
  import opened Wrappers
  import opened Text

  /** One alternative of a selector. */
  datatype StreamFilter = StreamFilter(audioOnly: bool, maxHeight: Option<string>, mp4Only: bool)

  /** "best" with no narrowing: the best stream overall. */
  const BestOverall := StreamFilter(false, None, false)

  /** A height cap can be written inside "[height<=...]" and between '/' separators. */
  predicate PlainHeight(h: string) {
    '/' !in h && ']' !in h
  }

  predicate WellFormed(f: StreamFilter) {
    f.maxHeight.Some? ==> PlainHeight(f.maxHeight.value)
  }

  function RenderFilter(f: StreamFilter): string {
    (if f.audioOnly then "bestaudio" else "best")
    + (if f.maxHeight.Some? then "[height<=" + f.maxHeight.value + "]" else "")
    + (if f.mp4Only then "[ext=mp4]" else "")
  }

  function RenderAll(fs: seq<StreamFilter>): (r: seq<string>)
    ensures |r| == |fs|
    ensures forall i :: 0 <= i < |fs| ==> r[i] == RenderFilter(fs[i])
  {
    if fs == [] then [] else [RenderFilter(fs[0])] + RenderAll(fs[1..])
  }

  /** The spelling of each alternative the downloader uses. */
  lemma RenderShapes(h: string)
    ensures RenderFilter(BestOverall) == "best"
    ensures RenderFilter(StreamFilter(true, None, false)) == "bestaudio"
    ensures RenderFilter(StreamFilter(false, None, true)) == "best[ext=mp4]"
    ensures RenderFilter(StreamFilter(false, Some(h), false)) == "best[height<=" + h + "]"
    ensures RenderFilter(StreamFilter(false, Some(h), true)) == "best[height<=" + h + "][ext=mp4]"
  {
    assert "best" + "" + "" == "best";
    assert "bestaudio" + "" + "" == "bestaudio";
    assert "best" + "" + "[ext=mp4]" == "best[ext=mp4]";
  }

  /** The selector string for a fallback chain. */
  function RenderSelector(fs: seq<StreamFilter>): string {
    JoinWith(RenderAll(fs), "/")
  }

  /** The optional "[ext=mp4]" that ends an alternative. */
  function ParseContainer(audio: bool, height: Option<string>, rest: string): Option<StreamFilter> {
    if rest == "" then Some(StreamFilter(audio, height, false))
    else if rest == "[ext=mp4]" then Some(StreamFilter(audio, height, true))
    else None
  }

  /** What follows "best" or "bestaudio": an optional height cap, then the container filter. */
  function ParseNarrowing(audio: bool, rest: string): Option<StreamFilter> {
    if StartsWith(rest, "[height<=") then
      var tail := rest[9..];
      match IndexOf(tail, "]")
      case None => None
      case Some(i) => ParseContainer(audio, Some(tail[..i]), tail[i + 1..])
    else ParseContainer(audio, None, rest)
  }

  function ParseFilter(t: string): Option<StreamFilter> {
    if StartsWith(t, "bestaudio") then ParseNarrowing(true, t[9..])
    else if StartsWith(t, "best") then ParseNarrowing(false, t[4..])
    else None
  }

  function ParseAll(ts: seq<string>): Option<seq<StreamFilter>> {
    if ts == [] then Some([])
    else match (ParseFilter(ts[0]), ParseAll(ts[1..]))
      case (Some(f), Some(fs)) => Some([f] + fs)
      case _ => None
  }

  /** The fallback chain a selector string denotes, if it is one of this shape. */
  function ParseSelector(s: string): Option<seq<StreamFilter>> {
    ParseAll(Split(s, "/"))
  }

  lemma ParseNarrowingRoundTrip(f: StreamFilter)
    requires WellFormed(f)
    ensures ParseNarrowing(f.audioOnly,
              (if f.maxHeight.Some? then "[height<=" + f.maxHeight.value + "]" else "")
              + (if f.mp4Only then "[ext=mp4]" else "")) == Some(f)
  {
    var container := if f.mp4Only then "[ext=mp4]" else "";
    if f.maxHeight.Some? {
      var h := f.maxHeight.value;
      var rest := "[height<=" + h + "]" + container;
      assert rest[..9] == "[height<=";
      var tail := rest[9..];
      assert tail == h + "]" + container;
      FirstCharOccurrence(h, ']', container);
      assert tail[..|h|] == h;
      assert tail[|h| + 1..] == container;
    } else {
      assert !StartsWith(container, "[height<=") by {
        if f.mp4Only { assert container[1] != "[height<="[1]; }
      }
    }
  }

  /** Parsing a rendered alternative gives the alternative back. */
  lemma ParseRenderFilter(f: StreamFilter)
    requires WellFormed(f)
    ensures ParseFilter(RenderFilter(f)) == Some(f)
  {
    var narrowing := (if f.maxHeight.Some? then "[height<=" + f.maxHeight.value + "]" else "")
                     + (if f.mp4Only then "[ext=mp4]" else "");
    var head := if f.audioOnly then "bestaudio" else "best";
    var t := RenderFilter(f);
    assert t == head + narrowing;
    ParseNarrowingRoundTrip(f);
    if f.audioOnly {
      assert t[..9] == "bestaudio" && t[9..] == narrowing;
    } else {
      assert t[..4] == "best" && t[4..] == narrowing;
      assert !StartsWith(t, "bestaudio") by {
        if |t| >= 9 { assert narrowing != [] && narrowing[0] == '['; assert t[4] == '[' != 'a'; }
      }
    }
  }

  lemma NoSlashInRendering(f: StreamFilter)
    requires WellFormed(f)
    ensures '/' !in RenderFilter(f)
  {
  }

  lemma {:induction false} ParseAllRenderAll(fs: seq<StreamFilter>)
    requires forall i :: 0 <= i < |fs| ==> WellFormed(fs[i])
    ensures ParseAll(RenderAll(fs)) == Some(fs)
  {
    if fs != [] {
      ParseRenderFilter(fs[0]);
      assert RenderAll(fs)[1..] == RenderAll(fs[1..]);
      ParseAllRenderAll(fs[1..]);
      assert fs == [fs[0]] + fs[1..];
    }
  }

  /** A selector string rendered from a non-empty chain of well-formed alternatives
      is read back as exactly that chain, in the same order. */
  lemma SelectorRoundTrip(fs: seq<StreamFilter>)
    requires |fs| >= 1
    requires forall i :: 0 <= i < |fs| ==> WellFormed(fs[i])
    ensures ParseSelector(RenderSelector(fs)) == Some(fs)
  {
    var ts := RenderAll(fs);
    forall k | 0 <= k < |ts|
      ensures '/' !in ts[k]
    {
      NoSlashInRendering(fs[k]);
    }
    SplitJoin(ts, '/');
    ParseAllRenderAll(fs);
  }
}
