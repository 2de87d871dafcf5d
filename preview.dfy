/** The video id the preview panel embeds for a YouTube link: the text after
    "watch?v=" up to the next '&' for a long link, or the text after "youtu.be/" up
    to the next '?' for a short one.  Unlike platform detection, this search is
    case-sensitive. */
module Preview {
  import opened Wrappers
  import opened Text
  import opened Platforms

  const WatchMarker := "youtube.com/watch?v="
  const ShortMarker := "youtu.be/"

  /** The extracted id; `None` when the URL has neither marker. */
  function VideoId(url: string): (id: Option<string>)
    ensures id.Some? <==> Contains(url, WatchMarker) || Contains(url, ShortMarker)
    ensures id.Some? && Contains(url, WatchMarker) ==> '&' !in id.value
    ensures id.Some? && !Contains(url, WatchMarker) ==> '?' !in id.value
  {
    if Contains(url, WatchMarker) then
      assert "youtube.com/" + "watch?v=" == WatchMarker;
      ContainsTail(url, "youtube.com/", "watch?v=");
      var after := Split(url, "watch?v=")[1];
      SplitHeadFree(after, '&');
      Some(Split(after, "&")[0])
    else if Contains(url, ShortMarker) then
      var after := Split(url, ShortMarker)[1];
      SplitHeadFree(after, '?');
      Some(Split(after, "?")[0])
    else None
  }

  /** The preview embeds a player only for a YouTube URL with a non-empty id. */
  predicate ShowsPlayer(platform: PlatformId, url: string) {
    platform == YouTube && VideoId(url).Some? && VideoId(url).value != ""
  }

  /** Any URL an id is extracted from is classified as YouTube, so for detected
      platforms the player is shown exactly when a non-empty id is extracted. */
  lemma IdImpliesYouTube(url: string)
    ensures VideoId(url).Some? ==> Classify(url) == YouTube
    ensures ShowsPlayer(Classify(url), url) <==> VideoId(url).Some? && VideoId(url).value != ""
  {
    if Contains(url, WatchMarker) {
      assert "youtube.com" + "/watch?v=" == WatchMarker;
      ContainsHead(url, "youtube.com", "/watch?v=");
      LowerKeepsOccurrence(url, "youtube.com");
      ClassifyYouTube(url);
    } else if Contains(url, ShortMarker) {
      assert "youtu.be" + "/" == ShortMarker;
      ContainsHead(url, "youtu.be", "/");
      LowerKeepsOccurrence(url, "youtu.be");
      ClassifyYouTube(url);
    }
  }

  /** A long link: everything after the first "watch?v=" up to the first '&' is the
      id, when the text before the marker cannot begin an earlier "watch?v=" and the
      marker does not appear again. */
  lemma WatchLinkId(prefix: string, id: string, tail: string)
    requires EndsWith(prefix, "youtube.com/") && '=' !in prefix
    requires '&' !in id && (tail == "" || tail[0] == '&')
    requires !Contains(id + tail, "watch?v=")
    ensures VideoId(prefix + "watch?v=" + id + tail) == Some(id)
  {
    var url := prefix + "watch?v=" + id + tail;
    assert url == prefix + "watch?v=" + (id + tail);
    assert OccursAt(url, WatchMarker, |prefix| - 12) by {
      assert prefix[|prefix| - 12..] == "youtube.com/";
      assert url[|prefix| - 12..|prefix| + 8] == prefix[|prefix| - 12..] + "watch?v=";
    }
    assert '=' !in prefix + "watch?v";
    FirstOccurrenceAfter(prefix, "watch?v=", id + tail);
    SplitSecond(prefix, "watch?v=", id + tail);
    if tail == "" {
      assert id + tail == id;
      SplitHead(id, '&', "");
    } else {
      assert id + tail == id + ['&'] + tail[1..];
      SplitHead(id, '&', tail[1..]);
    }
  }

  /** A short link: everything after the first "youtu.be/" up to the first '?' is the
      id, when the URL is not also a long link, the text before the marker has no
      'y' and the marker does not appear again. */
  lemma ShortLinkId(prefix: string, id: string, tail: string)
    requires 'y' !in prefix
    requires '?' !in id && (tail == "" || tail[0] == '?')
    requires !Contains(id + tail, ShortMarker)
    requires !Contains(prefix + ShortMarker + id + tail, WatchMarker)
    ensures VideoId(prefix + ShortMarker + id + tail) == Some(id)
  {
    var url := prefix + ShortMarker + id + tail;
    assert url == prefix + ShortMarker + (id + tail);
    FirstOccurrenceAfter(prefix, ShortMarker, id + tail);
    SplitSecond(prefix, ShortMarker, id + tail);
    if tail == "" {
      assert id + tail == id;
      SplitHead(id, '?', "");
    } else {
      assert id + tail == id + ['?'] + tail[1..];
      SplitHead(id, '?', tail[1..]);
    }
  }
}
