/** Option resolution: the configuration handed to yt-dlp for one request, built
    from the platform, the requested format type ("mp3" or a video container) and
    the quality ("best" or a height such as "720"). */
module ExtractorOptions {
  import opened Wrappers
  import opened Text
  import opened Platforms
  import opened Selectors

  /** One entry of the 'postprocessors' list. */
  datatype PostProcessor = PostProcessor(key: string, preferredCodec: string, preferredQuality: string)

  /** The options dictionary, one field per key the downloader may set; `None`
      where the key is absent from the dictionary. */
  datatype Options = Options(
    quiet: bool,
    noWarnings: bool,
    facebookSkipDashManifest: Option<bool>,   // extractor_args -> facebook -> skip_dash_manifest
    userAgent: Option<string>,                // http_headers -> User-Agent
    outtmpl: Option<string>,
    format: Option<string>,
    postprocessors: Option<seq<PostProcessor>>)

  const LinkedInUserAgent := "Mozilla/5.0 (Windows NT 10.0; Win64; x64) AppleWebKit/537.36"
  const OutputTemplate := "%(title)s.%(ext)s"
  const AudioSelector := "bestaudio/best"
  const Mp3Extraction := PostProcessor("FFmpegExtractAudio", "mp3", "192")

  /** What Python 3.11 and later say when the video branch reads `format_selector`
      for a platform none of its branches assigned it for. */
  const UnboundSelectorMessage := "cannot access local variable 'format_selector' where it is not associated with a value"

  /** The options every request starts from: quiet, without warnings, nothing else. */
  const BaseOptions := Options(true, true, None, None, None, None, None)

  /** The per-platform options: the base, plus the Facebook extractor flag or the
      LinkedIn User-Agent. */
  function PlatformOptions(platform: PlatformId): (opts: Options)
    ensures opts.quiet && opts.noWarnings
    ensures opts.facebookSkipDashManifest.Some? <==> platform == Facebook
    ensures opts.userAgent.Some? <==> platform == LinkedIn
    ensures opts.outtmpl.None? && opts.format.None? && opts.postprocessors.None?
  {
    BaseOptions.(
      facebookSkipDashManifest := if platform == Facebook then Some(true) else None,
      userAgent := if platform == LinkedIn then Some(LinkedInUserAgent) else None)
  }

  /** Builds the per-platform options as the downloader does: the base dictionary,
      updated in place for Facebook or LinkedIn. */
  method GetPlatformSpecificOptions(platform: PlatformId) returns (opts: Options)
    ensures opts == PlatformOptions(platform)
  {
    opts := BaseOptions;
    if platform == Facebook {
      opts := opts.(facebookSkipDashManifest := Some(true));
    } else if platform == LinkedIn {
      opts := opts.(userAgent := Some(LinkedInUserAgent));
    }
  }

  /** Every platform gets quiet and no-warnings; Facebook adds exactly the
      manifest-skipping flag, LinkedIn exactly the User-Agent header, and YouTube
      and unknown URLs get the base options and nothing else. */
  lemma PlatformOptionsContents(platform: PlatformId)
    ensures PlatformOptions(platform).quiet && PlatformOptions(platform).noWarnings
    ensures platform == Facebook ==> PlatformOptions(platform) == BaseOptions.(facebookSkipDashManifest := Some(true))
    ensures platform == LinkedIn ==> PlatformOptions(platform) == BaseOptions.(userAgent := Some(LinkedInUserAgent))
    ensures platform == YouTube || platform == Unknown ==> PlatformOptions(platform) == BaseOptions
  {
  }

  /** The video format selector as the downloader spells it; `None` for an unknown
      platform, for which no branch assigns one. */
  function VideoSelector(platform: PlatformId, quality: string): (r: Option<string>)
    ensures r.Some? <==> platform != Unknown
  {
    match platform
    case YouTube =>
      if quality == "best" then Some("best[ext=mp4]/best")
      else Some("best[height<=" + quality + "][ext=mp4]/best[height<=" + quality + "]/best[ext=mp4]/best")
    case Facebook =>
      if quality == "best" then Some("best")
      else Some("best[height<=" + quality + "]/best")
    case LinkedIn => Some("best")
    case Unknown => None
  }

  /** The fallback chain each platform is meant to ask for.  YouTube prefers mp4
      and, below "best", first keeps the height cap (with mp4, then without), then
      drops it (mp4 at any height); Facebook caps the height when asked to;
      LinkedIn ignores the quality.  Every chain ends with the best stream overall. */
  function IntendedFallbacks(platform: PlatformId, quality: string): seq<StreamFilter> {
    match platform
    case YouTube =>
      if quality == "best" then [StreamFilter(false, None, true), BestOverall]
      else [StreamFilter(false, Some(quality), true), StreamFilter(false, Some(quality), false),
            StreamFilter(false, None, true), BestOverall]
    case Facebook =>
      if quality == "best" then [BestOverall]
      else [StreamFilter(false, Some(quality), false), BestOverall]
    case LinkedIn => [BestOverall]
    case Unknown => []
  }

  /** The capped YouTube chain renders to its four alternatives, '/'-joined. */
  lemma CappedRendering(p: string, q: string)
    requires p == "best[height<="
    ensures RenderSelector([StreamFilter(false, Some(q), true), StreamFilter(false, Some(q), false),
                            StreamFilter(false, None, true), BestOverall])
         == (p + q + "][ext=mp4]") + "/" + ((p + q + "]") + "/" + ("best[ext=mp4]" + "/" + "best"))
  {
    var fs := [StreamFilter(false, Some(q), true), StreamFilter(false, Some(q), false),
               StreamFilter(false, None, true), BestOverall];
    RenderShapes(q);
    var a, b := p + q + "][ext=mp4]", p + q + "]";
    assert RenderAll(fs) == [a, b, "best[ext=mp4]", "best"];
    JoinFour(a, b, "best[ext=mp4]", "best", "/");
  }

  /** The capped YouTube selector is the four-alternative chain, '/'-joined. */
  lemma YouTubeCappedSpelling(q: string)
    ensures "best[height<=" + q + "][ext=mp4]/best[height<=" + q + "]/best[ext=mp4]/best"
         == RenderSelector([StreamFilter(false, Some(q), true), StreamFilter(false, Some(q), false),
                            StreamFilter(false, None, true), BestOverall])
  {
    var p := "best[height<=";
    CappedRendering(p, q);
    assert p + q + "][ext=mp4]/" + p + q + "]/best[ext=mp4]/best"
        == (p + q + "][ext=mp4]") + "/" + ((p + q + "]") + "/" + ("best[ext=mp4]" + "/" + "best"));
  }

  /** The capped Facebook selector is the capped alternative, then "best". */
  lemma FacebookCappedSpelling(q: string)
    ensures "best[height<=" + q + "]/best" == RenderSelector([StreamFilter(false, Some(q), false), BestOverall])
  {
    RenderShapes(q);
    var b := "best[height<=" + q + "]";
    assert RenderAll([StreamFilter(false, Some(q), false), BestOverall]) == [b, "best"];
    JoinTwo(b, "best", "/");
    assert "]/best" == "]" + "/" + "best";
  }

  /** The selector strings say exactly what the fallback chains say, in the same
      order; an unknown platform has no selector. */
  lemma VideoSelectorMeaning(platform: PlatformId, quality: string)
    requires PlainHeight(quality)
    ensures VideoSelector(platform, quality).Some? <==> platform != Unknown
    ensures VideoSelector(platform, quality).Some? ==>
            ParseSelector(VideoSelector(platform, quality).value) == Some(IntendedFallbacks(platform, quality))
  {
    var fs := IntendedFallbacks(platform, quality);
    if platform != Unknown {
      RenderShapes(quality);
      if platform == YouTube && quality != "best" {
        YouTubeCappedSpelling(quality);
      } else if platform == YouTube {
        assert RenderAll(fs) == ["best[ext=mp4]", "best"];
        JoinTwo("best[ext=mp4]", "best", "/");
      } else if platform == Facebook && quality != "best" {
        FacebookCappedSpelling(quality);
      } else {
        assert RenderAll(fs) == ["best"];
      }
      assert VideoSelector(platform, quality).value == RenderSelector(fs);
      SelectorRoundTrip(fs);
    }
  }

  /** The audio selector asks for the best audio-only stream, falling back to the best stream. */
  lemma AudioSelectorMeaning()
    ensures ParseSelector(AudioSelector) == Some([StreamFilter(true, None, false), BestOverall])
  {
    var fs := [StreamFilter(true, None, false), BestOverall];
    RenderShapes("");
    assert RenderAll(fs) == ["bestaudio", "best"];
    JoinTwo("bestaudio", "best", "/");
    assert RenderSelector(fs) == AudioSelector;
    SelectorRoundTrip(fs);
  }

  /** The options a download runs with, or the error that building them raises. */
  function ResolveOptions(platform: PlatformId, quality: string, formatType: string, tempDir: string): (r: Result<Options, string>)
    ensures r.Failure? <==> formatType != "mp3" && platform == Unknown
    ensures r.Success? ==> r.value.format.Some? && r.value.outtmpl == Some(PathJoin(tempDir, OutputTemplate))
  {
    var withTemplate := PlatformOptions(platform).(outtmpl := Some(PathJoin(tempDir, OutputTemplate)));
    if formatType == "mp3" then
      Success(withTemplate.(format := Some(AudioSelector), postprocessors := Some([Mp3Extraction])))
    else
      match VideoSelector(platform, quality)
      case None => Failure(UnboundSelectorMessage)
      case Some(selector) => Success(withTemplate.(format := Some(selector)))
  }

  /** Builds the download options in the downloader's order: per-platform options,
      then the output template, then either the audio settings or the video selector
      chosen by platform and quality.  Reading the selector when no branch set it
      fails with the unbound-variable error. */
  method BuildDownloadOptions(platform: PlatformId, quality: string, formatType: string, tempDir: string)
    returns (r: Result<Options, string>)
    ensures r == ResolveOptions(platform, quality, formatType, tempDir)
  {
    var opts := GetPlatformSpecificOptions(platform);
    opts := opts.(outtmpl := Some(PathJoin(tempDir, OutputTemplate)));
    if formatType == "mp3" {
      opts := opts.(format := Some(AudioSelector), postprocessors := Some([Mp3Extraction]));
    } else {
      var formatSelector: Option<string> := None;
      if platform == YouTube {
        if quality == "best" {
          formatSelector := Some("best[ext=mp4]/best");
        } else {
          formatSelector := Some("best[height<=" + quality + "][ext=mp4]/best[height<=" + quality + "]/best[ext=mp4]/best");
        }
      } else if platform == Facebook {
        if quality == "best" {
          formatSelector := Some("best");
        } else {
          formatSelector := Some("best[height<=" + quality + "]/best");
        }
      } else if platform == LinkedIn {
        formatSelector := Some("best");
      }
      if formatSelector.None? {
        return Failure(UnboundSelectorMessage);
      }
      opts := opts.(format := formatSelector);
    }
    return Success(opts);
  }

  /** Every successful resolution is quiet and without warnings, keeps the
      platform's own additions, and writes to the title-and-extension template
      inside the given directory. */
  lemma ResolvedCommon(platform: PlatformId, quality: string, formatType: string, tempDir: string)
    ensures var r := ResolveOptions(platform, quality, formatType, tempDir);
      r.Success? ==>
        r.value.quiet && r.value.noWarnings &&
        r.value.facebookSkipDashManifest == PlatformOptions(platform).facebookSkipDashManifest &&
        r.value.userAgent == PlatformOptions(platform).userAgent &&
        r.value.outtmpl == Some(PathJoin(tempDir, OutputTemplate)) &&
        Basename(r.value.outtmpl.value) == OutputTemplate &&
        StartsWith(r.value.outtmpl.value, tempDir)
  {
    BasenameOfJoin(tempDir, OutputTemplate);
    assert OutputTemplate[..1] == "%";
  }

  /** "mp3" always resolves, whatever the platform and quality, to the best-audio
      selector and exactly one post-processor: the 192 kbps MP3 extraction. */
  lemma ResolvedAudio(platform: PlatformId, quality: string, tempDir: string)
    ensures var r := ResolveOptions(platform, quality, "mp3", tempDir);
      r.Success? && r.value.format == Some(AudioSelector) &&
      ParseSelector(r.value.format.value) == Some([StreamFilter(true, None, false), BestOverall]) &&
      r.value.postprocessors == Some([PostProcessor("FFmpegExtractAudio", "mp3", "192")])
  {
    AudioSelectorMeaning();
  }

  /** Any other format type fails exactly for an unknown platform, with the
      unbound-variable error; otherwise it has no post-processor and its selector
      asks for the platform's intended fallback chain. */
  lemma ResolvedVideo(platform: PlatformId, quality: string, formatType: string, tempDir: string)
    requires formatType != "mp3"
    requires PlainHeight(quality)
    ensures var r := ResolveOptions(platform, quality, formatType, tempDir);
      (r.Failure? <==> platform == Unknown) &&
      (r.Failure? ==> r.error == UnboundSelectorMessage) &&
      (r.Success? ==> r.value.postprocessors == None && r.value.format.Some? &&
                      ParseSelector(r.value.format.value) == Some(IntendedFallbacks(platform, quality)))
  {
    VideoSelectorMeaning(platform, quality);
  }

  /** LinkedIn downloads do not depend on the requested quality. */
  lemma LinkedInIgnoresQuality(quality: string, other: string, formatType: string, tempDir: string)
    ensures ResolveOptions(LinkedIn, quality, formatType, tempDir) == ResolveOptions(LinkedIn, other, formatType, tempDir)
  {
  }

  /** The page enables its info and download buttons only for a non-empty URL that
      is classified as a supported platform; such a request always resolves, so the
      unbound-selector error is reachable only by calling the downloader directly. */
  lemma EnabledRequestsResolve(url: string, quality: string, formatType: string, tempDir: string)
    requires url != "" && Classify(url) != Unknown
    ensures ResolveOptions(Classify(url), quality, formatType, tempDir).Success?
  {
  }
}
