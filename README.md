# Video downloader core, modelled in Dafny

This project models the decision logic of a Streamlit video downloader. The
downloader takes a pasted URL and decides:

- which supported platform the URL belongs to (YouTube, Facebook, LinkedIn or unknown);
- which yt-dlp options the request runs with: the per-platform additions, the output
  template, and the audio settings or the video format selector chosen from the
  quality;
- which file in the temporary directory counts as the finished download;
- how fetched metadata is shown: the duration, the upload date and the list of
  available heights;
- which YouTube video id the preview embeds.

yt-dlp is a parameter of the model. It is a function from the URL, the options and
the download flag to either the extracted metadata together with the file names the
temporary directory then lists, or the message of the exception it raised.

Modules, one file each:

- `Wrappers`: `Option` and `Result`.
- `Text`: the Python string built-ins the code relies on, with their meaning proved.
  These are `lower()`, `in`, `split`, `join`, `str(n)`, `os.path.join` and
  `os.path.basename`.
- `Platforms`: the domain table and platform detection.
- `Selectors`: yt-dlp format-selector strings, rendered from and parsed back into
  fallback chains of stream filters.
- `ExtractorOptions`: the per-platform options and the download options.
- `Downloader`: metadata fetching and the download itself.
- `Display`: the info panel's duration, upload date and available heights.
- `Preview`: video-id extraction for the embedded player.

Behaviour of the code worth knowing:

- Option resolution is not total. In app.py:282-284 a video request for an unknown
  platform reads `format_selector` before any branch has assigned it. The
  resulting `UnboundLocalError` is caught and returned as the error message, so the
  model returns `Failure` with that message. The page never sends such a request,
  because both buttons are disabled for unknown platforms
  (`ExtractorOptions.EnabledRequestsResolve`).
- An "mp3" request for an unknown platform is not rejected by the downloader. It
  resolves like any other audio request.
- Video-id extraction for the preview is case-sensitive, while platform detection
  is not. A URL written in capitals is detected as YouTube but gets no player.

## Model

| member | source | states |
|---|---|---|
| Platforms.DetectPlatform | app.py:176-186 | The nested search over rows and domains returns exactly the table-order classification of the URL. |
| Platforms.Classify | app.py:176-186 | The empty URL is unknown. Any other answer is the platform of a table row that has a domain in the lower-cased URL. |
| Platforms.FirstMatchFromTable | app.py:182-186 | The search over any table returns unknown or the platform of a row with a domain in the text. |
| Platforms.FirstMatchMeaning | app.py:182-186 | The search returns the platform of the first row with a domain in the text. It returns unknown exactly when no row matches. |
| Platforms.ClassifyMeaning | app.py:176-186 | Unknown exactly for the empty URL or when no listed domain occurs in the lower-cased URL; otherwise the first matching row's platform. |
| Platforms.ClassifyUnrolled | app.py:170-186 | Classification with the table written out: YouTube domains first, then Facebook's, then LinkedIn's. |
| Platforms.ClassifyYouTube | app.py:170-186 | YouTube if and only if the lower-cased URL contains "youtube.com" or "youtu.be". |
| Platforms.ClassifyFacebook | app.py:170-186 | Facebook if and only if a Facebook domain occurs and no YouTube domain does. |
| Platforms.ClassifyLinkedIn | app.py:170-186 | LinkedIn if and only if "linkedin.com" occurs and no YouTube or Facebook domain does. |
| Platforms.ClassifyIgnoresCase | app.py:181-184 | URLs equal up to letter case get the same platform, and lower-casing a URL first changes nothing. |
| Text.Lower | app.py:181 | Lower-casing keeps the length and lower-cases each character in place. |
| Text.IndexOf | app.py:184 | The search finds the first occurrence of the pattern, or reports that there is none. |
| Text.Contains | app.py:184 | `sub in s` holds exactly when `sub` occurs at some position. |
| ExtractorOptions.GetPlatformSpecificOptions | app.py:200-222 | The in-place dictionary updates produce the per-platform options. |
| ExtractorOptions.PlatformOptions | app.py:200-222 | The options are quiet with no warnings and carry no template, format or post-processor. The manifest flag is set exactly for Facebook and the User-Agent exactly for LinkedIn. |
| ExtractorOptions.PlatformOptionsContents | app.py:200-222 | The options are always quiet with no warnings. Facebook adds exactly the manifest-skipping flag and LinkedIn exactly the User-Agent; YouTube and unknown get only the base. |
| ExtractorOptions.YouTubeCappedSpelling | app.py:273 | The capped YouTube selector string is the four-alternative chain "height cap and mp4", "height cap", "mp4", "best", joined by '/'. |
| ExtractorOptions.FacebookCappedSpelling | app.py:278 | The capped Facebook selector string is the chain "height cap", "best". |
| ExtractorOptions.VideoSelector | app.py:268-280 | A selector is assigned exactly for YouTube, Facebook and LinkedIn. |
| ExtractorOptions.ResolveOptions | app.py:253-284 | Resolution fails exactly for a non-"mp3" request on an unknown platform. A resolved request always has a format and writes to the title template inside the temporary directory. |
| ExtractorOptions.VideoSelectorMeaning | app.py:268-280 | A selector exists exactly for the three known platforms. It parses back to the intended fallback chain, in order. |
| ExtractorOptions.AudioSelectorMeaning | app.py:260 | "bestaudio/best" asks for the best audio-only stream, then the best stream. |
| ExtractorOptions.BuildDownloadOptions | app.py:253-284 | Starting from the platform options, the method adds the template and then the audio or video settings. The result is the resolved options, or the unbound-selector error. |
| ExtractorOptions.ResolvedCommon | app.py:255-256 | Every resolved request is quiet with no warnings and keeps its platform's additions. It writes to `%(title)s.%(ext)s` inside the temporary directory, and the template's base name is that pattern. |
| ExtractorOptions.ResolvedAudio | app.py:258-266 | "mp3" always resolves, for every platform and quality. It gets the best-audio selector and exactly one post-processor: MP3 at 192. |
| ExtractorOptions.ResolvedVideo | app.py:267-284 | Any other format type fails exactly for an unknown platform, with the unbound-variable message. Otherwise there is no post-processor and the selector asks for the intended chain. |
| ExtractorOptions.LinkedInIgnoresQuality | app.py:279-280 | The options for LinkedIn do not depend on the quality. |
| ExtractorOptions.EnabledRequestsResolve | app.py:382-397 | A request the page lets through (non-empty URL, known platform) always resolves its options. |
| Selectors.ParseRenderFilter | app.py:271-280 | Reading a rendered selector alternative gives the alternative back. |
| Selectors.SelectorRoundTrip | app.py:271-280 | Reading a '/'-joined selector gives back the same fallback chain, in the same order. |
| Text.SplitJoin | app.py:271-280 | Splitting on one character undoes joining with it, when no piece contains that character. |
| Text.PathJoin | app.py:256 | `os.path.join` ends with the file name. It starts with the directory unless the name is absolute. |
| Downloader.GetVideoInfo | app.py:240-249 | The engine runs with the platform options and without downloading. The result is its metadata, or its exception message and no metadata. |
| Downloader.DownloadVideo | app.py:251-298 | An option error or an engine exception is returned alone. Otherwise the metadata comes back with either the first listed media file, joined to the directory, or "No file found after download". Exactly one of a path and an error is returned, and a path has a media extension. |
| Downloader.JoinedMediaFile | app.py:291-293 | A listed media file keeps its extension once joined to the directory. |
| Downloader.IsMediaFile | app.py:292 | A name counts as media exactly when it ends in ".mp4", ".mp3", ".webm", ".mkv", ".avi" or ".mov". |
| Text.BasenameOfJoin | app.py:410 | The base name of the returned path is the listed file's own name. |
| Text.Basename | app.py:410 | The base name holds no '/' and ends the path. It is the whole path or exactly what follows a '/'. |
| Display.SplitDuration | app.py:229-231 | Hours, minutes and seconds recombine to the duration. Minutes and seconds lie in 0..59, and hours are not negative for a positive duration. |
| Display.DurationRoundTrip | app.py:224-238 | A positive duration is shown with three, two or one units, by whether there are hours or minutes. Reading the text back gives the duration again. |
| Display.FormatDuration | app.py:224-238 | A missing or zero duration is "Unknown". Any other duration is shown ending in a digit followed by 's'. |
| Display.Rendering | app.py:233-238 | Every rendering ends in the seconds: a digit followed by 's'. |
| Display.HoursRendering | app.py:233-234 | With hours, the rendering has three units and reads back as the duration. |
| Display.MinutesRendering | app.py:235-236 | With minutes and no hours, the rendering has two units and reads back as the duration. |
| Display.SecondsRendering | app.py:237-238 | With neither hours nor minutes, the rendering has one unit and reads back as the duration. |
| Display.HoursShape | app.py:233-234 | "Hh Mm Ss" has three units and reads back as h·3600 + m·60 + s. |
| Display.MinutesShape | app.py:235-236 | "Mm Ss" has two units and reads back as m·60 + s. |
| Display.SecondsShape | app.py:237-238 | "Ss" has one unit and reads back as s. |
| Display.DurationUnknown | app.py:226-227 | "Unknown" is shown exactly for a missing or zero duration. |
| Text.ShowRoundTrip | app.py:234 | The decimal text of a number reads back as that number. |
| Text.Show | app.py:234 | `str(n)` is a non-empty run of digits, with a leading zero only for zero. |
| Display.FormatUploadDate | app.py:522-525 | A date is shown exactly when the value is present and has eight characters. It is then shown as ten characters with dashes at positions 4 and 7, and removing the dashes gives the original. |
| Display.AvailableHeights | app.py:528-536 | The list is strictly descending, and it holds exactly the heights of formats whose codec is not 'none' and whose height is present and non-zero. |
| Display.ShowsHeight | app.py:532 | A height is listed exactly when the codec is missing or not 'none' and the height is present and non-zero. |
| Display.InsertDescending | app.py:536 | Inserting a new value keeps the list strictly descending and adds exactly that value. |
| Display.DescendingUnique | app.py:536 | Only one strictly descending list has a given set of elements, so the list is the set sorted in reverse. |
| Preview.VideoId | app.py:446-450 | An id is extracted exactly when the URL contains "youtube.com/watch?v=" or "youtu.be/". The id holds no '&' for a long link and no '?' for a short one. |
| Preview.IdImpliesYouTube | app.py:444-452 | A URL an id comes from is always detected as YouTube. The player is shown exactly when a non-empty id is extracted. |
| Preview.WatchLinkId | app.py:447-448 | For a long link, the id is the text between "watch?v=" and the first '&'. |
| Preview.ShortLinkId | app.py:449-450 | For a short link, the id is the text between "youtu.be/" and the first '?'. |
| Text.Split | app.py:448 | A split always has at least one piece, and at least two when the separator occurs. |
| Text.SplitMeaning | app.py:448 | Joining the pieces with the separator gives the text back, and no piece contains the separator. |
| Text.SplitHeadFree | app.py:448 | The first piece of a split on one character never contains that character. |

## Left out

- The Streamlit page is not modelled: layout, styling, badges (`get_platform_badge`), progress bars, session state and buttons. Only its guard on unknown platforms is stated, as a lemma.
- The temporary directory is not modelled: its creation, removal, and reading the finished file's bytes. The engine outcome carries the directory listing, which stands for `os.listdir`. The order of that listing is whatever the engine outcome gives.
- The file size in megabytes is not modelled, because it is floating-point display.
- The ", ".join of "{h}p" labels is not modelled. Only the sorted list of heights is.
- Text.Lower: only ASCII letters are lower-cased, because Unicode case mapping is out of scope.
- Display.FormatDuration: durations are integers. yt-dlp can report a float, which is not modelled.
- Display.FormatUploadDate: a present `upload_date` whose value is `None` is not modelled. In the code that raises `TypeError`.
- Display.AvailableHeights: heights are collected by inserting each new one into its place in a descending list, instead of building a set and sorting it. `Display.DescendingUnique` shows the two give the same list. Non-integer heights are not modelled.
- ExtractorOptions.ResolveOptions: the unbound-selector message is the wording of Python 3.11 and later. Older interpreters word it differently.
- ExtractorOptions.VideoSelectorMeaning: proved for qualities without '/' or ']'. Every quality the sidebar offers is such a value: "best", "1080", "720", "480", "360", "240" and "144".
- ExtractorOptions.ResolvedVideo: the same restriction to qualities without '/' or ']'.
- Preview.WatchLinkId: proved for links where the text before the marker ends with "youtube.com/" and has no '=', and the marker does not appear again.
- Preview.ShortLinkId: proved for links where the text before the marker has no 'y', the link is not also a long link, and the marker does not appear again.
- Concrete example URLs are not stated as lemmas. Functions applied to long string literals are too costly for the verifier.
- yt-dlp itself, the network and exceptions other than the engine's and the unbound selector are represented only by the engine parameter.
