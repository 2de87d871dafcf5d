/** One download request end to end, as far as the downloader decides it: build the
    options, hand them to yt-dlp, then pick the media file out of the temporary
    directory, turning every exception into an error message.  yt-dlp itself is a
    parameter: a function from the URL, the options and the download flag to the
    extracted metadata (with the names the temporary directory lists afterwards)
    or to the message of the exception it raised. */
module Downloader {
  import opened Wrappers
  import opened Text
  import opened Platforms
  import opened ExtractorOptions

  /** One entry of the metadata's 'formats' list: its video codec and its height. */
  datatype FormatDesc = FormatDesc(vcodec: Option<string>, height: Option<int>)

  /** The metadata fields the downloader reads; `None` where the key is missing. */
  datatype VideoInfo = VideoInfo(
    title: Option<string>,
    uploader: Option<string>,
    duration: Option<int>,
    uploadDate: Option<string>,
    formats: Option<seq<FormatDesc>>)

  /** The outcome of one yt-dlp call. */
  datatype Extraction = Extracted(info: VideoInfo, listing: seq<string>) | Raised(message: string)

  /** yt-dlp as the downloader sees it: URL, options, and whether to download. */
  type Engine = (string, Options, bool) -> Extraction

  /** The file extensions the downloader accepts as a finished download. */
  const MediaExtensions: seq<string> := [".mp4", ".mp3", ".webm", ".mkv", ".avi", ".mov"]

  const NoFileMessage := "No file found after download"

  /** The name ends in one of the six media extensions. */
  predicate IsMediaFile(name: string)
    ensures IsMediaFile(name) <==>
      EndsWith(name, ".mp4") || EndsWith(name, ".mp3") || EndsWith(name, ".webm") ||
      EndsWith(name, ".mkv") || EndsWith(name, ".avi") || EndsWith(name, ".mov")
  {
    exists e :: e in MediaExtensions && EndsWith(name, e)
  }

  /** Entry `k` is the first media file of the listing. */
  ghost predicate FirstMediaAt(listing: seq<string>, k: int) {
    0 <= k < |listing| && IsMediaFile(listing[k]) &&
    forall j :: 0 <= j < k ==> !IsMediaFile(listing[j])
  }

  /** The `(file_path, info, error)` triple a download returns. */
  datatype DownloadResult = DownloadResult(path: Option<string>, info: Option<VideoInfo>, error: Option<string>)

  /** A file that ends in a media extension still does once a directory is put in front of it. */
  lemma JoinedMediaFile(dir: string, name: string)
    requires IsMediaFile(name)
    ensures IsMediaFile(PathJoin(dir, name))
  {
    var e :| e in MediaExtensions && EndsWith(name, e);
    var p := PathJoin(dir, name);
    assert p[|p| - |name|..] == name;
    assert p[|p| - |e|..] == name[|name| - |e|..];
  }

  /** Fetches the metadata only.  The engine runs without downloading, with the
      per-platform options; its exception becomes the error message. */
  method GetVideoInfo(url: string, platform: PlatformId, engine: Engine)
    returns (info: Option<VideoInfo>, error: Option<string>)
    ensures match engine(url, PlatformOptions(platform), false)
      case Extracted(i, _) => info == Some(i) && error == None
      case Raised(m) => info == None && error == Some(m)
  {
    var opts := GetPlatformSpecificOptions(platform);
    var outcome := engine(url, opts, false);
    if outcome.Raised? {
      return None, Some(outcome.message);
    }
    return Some(outcome.info), None;
  }

  /** Downloads into `tempDir` and reports the file found there.
      - If building the options raises (an unknown platform asking for video), the
        engine is never called and the result carries only that error.
      - If the engine raises, the result carries only its message, unchanged.
      - Otherwise the result carries the metadata and either the first listed file
        with a media extension, joined to `tempDir`, or, when there is none, the
        "No file found after download" error.
      Exactly one of a path and an error is returned, and a returned path has a
      media extension. */
  method DownloadVideo(url: string, platform: PlatformId, quality: string, formatType: string,
                       tempDir: string, engine: Engine)
    returns (r: DownloadResult)
    ensures match ResolveOptions(platform, quality, formatType, tempDir)
      case Failure(message) => r == DownloadResult(None, None, Some(message))
      case Success(opts) =>
        match engine(url, opts, true)
        case Raised(message) => r == DownloadResult(None, None, Some(message))
        case Extracted(info, files) =>
          r.info == Some(info) &&
          ((exists k :: FirstMediaAt(files, k) && r.path == Some(PathJoin(tempDir, files[k])) && r.error == None) ||
           ((forall k :: 0 <= k < |files| ==> !IsMediaFile(files[k])) &&
            r.path == None && r.error == Some(NoFileMessage)))
    ensures r.path.Some? <==> r.error.None?
    ensures r.path.Some? ==> IsMediaFile(r.path.value)
  {
    var built := BuildDownloadOptions(platform, quality, formatType, tempDir);
    if built.Failure? {
      return DownloadResult(None, None, Some(built.error));
    }
    var outcome := engine(url, built.value, true);
    if outcome.Raised? {
      return DownloadResult(None, None, Some(outcome.message));
    }
    var files := outcome.listing;
    var i := 0;
    while i < |files|
      invariant 0 <= i <= |files|
      invariant forall j :: 0 <= j < i ==> !IsMediaFile(files[j])
    {
      if IsMediaFile(files[i]) {
        assert FirstMediaAt(files, i);
        JoinedMediaFile(tempDir, files[i]);
        return DownloadResult(Some(PathJoin(tempDir, files[i])), Some(outcome.info), None);
      }
      i := i + 1;
    }
    return DownloadResult(None, Some(outcome.info), Some(NoFileMessage));
  }
}
