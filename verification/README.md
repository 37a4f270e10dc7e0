# Announce image downloader: the per-item crawl, modelled in Dafny

The downloader has three crawlers: tweet images, YouTube live thumbnails and
YouTube video thumbnails. Each fetches a list of items from a GraphQL
endpoint. It then walks the list in order and, for each item:

1. skips the item if `{id}.json` or `{id}.error.txt` already exists in the
   output directory (the directory is a write-once ledger keyed by id);
2. derives the image URL: taken from the item (tweets),
   `https://i.ytimg.com/vi/{remote id}/{variant}.jpg` (videos), or
   `https://i.ytimg.com/vi/{remote id}/maxresdefault.jpg` (lives);
3. captures `fetched_at` and sends one GET;
4. maps the `Content-Type` header to a suffix: `image/jpeg` gives `.jpg`,
   `image/png` gives `.png`, and anything else, or no header, is a failure;
5. writes exactly one terminal outcome. A failure writes `{id}.error.txt`. A
   success writes the body to `{id}{suffix}` and then the metadata record
   (`id`, `url`, `content_type`, `file_name`, `fetched_at`) to `{id}.json`;
6. sleeps 10 seconds, on failure and success alike, but never after a skip.

The model has these modules:

- `Ledger` (ledger.dfy): the file names an id uses, the file contents (text,
  bytes, metadata record) and the ledger check `IsTerminal`. It also holds the
  ledger invariant `WellFormed`: at most one outcome per id, and a metadata
  file only next to the image it names. Finally it proves that two ids never
  share a file name.
- `ContentType` (content_type.dfy): the suffix choice and the rejection
  messages.
- `Pipeline` (pipeline.dfy): the per-item pipeline that the three loops share.
  - The HTTP result is an input (`HttpError` with its traceback text, or a
    `Response` with an optional `Content-Type` and a body).
  - `ItemWrites` gives the ordered file writes for one item. `RunItem` gives one
    pass of the loop body over the effects: directory, write log, request log
    and time slept. `Run` gives the whole loop.
  - The lemmas cover skipping, idempotent re-runs, resuming after an
    interruption, the frame, the one-outcome rule and preservation of the
    ledger invariant.
  - Class `Host` holds the state the crawler changes in place. Its method
    `ProcessItem` is the loop body written step by step, with the mutable
    `suffix` and the early returns. It is proved equal to `RunItem`.
- `YoutubeVideoThumbnails`, `YoutubeLiveThumbnails`, `TwitterTweetImages`: one
  module per crawler. Each has the item record, its URL derivation and its
  crawl method. The crawl method is a `for` loop over the items, proved equal
  to `Run` over that crawler's items.

The three metadata record classes have the same five fields. They are one
datatype, `Ledger.Metadata`. The GET result and `fetched_at` of each item are
given as sequences parallel to the item list. A skipped item does not use its
entries.

## Model

| member | source | states |
|---|---|---|
| `Ledger.TerminalExactlyWhenOutcomeFile` | amaterus_announce_image_downloader/youtube_video_thumbnail_image_cli.py:86-94 | the ledger check `IsTerminal` holds exactly when the id has a file of its own other than its image files: `{id}.json` or `{id}.error.txt`; an orphan `{id}.jpg`/`{id}.png` does not make it terminal |
| `Ledger.OwnerIsUnique` | amaterus_announce_image_downloader/youtube_video_thumbnail_image_cli.py:85-151 | a file name `{id}.json`, `{id}.error.txt`, `{id}.jpg` or `{id}.png` determines its id, so different items never write each other's files |
| `Ledger.OthersNamesNotOwned` | amaterus_announce_image_downloader/youtube_video_thumbnail_image_cli.py:85-151 | none of an id's four file names can be written for another id |
| `ContentType.SuffixFor` | amaterus_announce_image_downloader/youtube_video_thumbnail_image_cli.py:134-138 | `.jpg` exactly for `image/jpeg`, `.png` exactly for `image/png`, no suffix for any other value |
| `ContentType.UnsupportedMessage` | amaterus_announce_image_downloader/youtube_video_thumbnail_image_cli.py:140-145 | the message is the fixed prefix, then the rejected content type, then a newline; the type can be read back out of it |
| `ContentType.RejectionMessagesDistinct` | amaterus_announce_image_downloader/youtube_video_thumbnail_image_cli.py:124-145 | a missing-header error file and an unsupported-type error file never have the same text; different types give different texts |
| `Pipeline.ItemWrites` | amaterus_announce_image_downloader/youtube_video_thumbnail_image_cli.py:115-164 | only the item's own names are written; exactly one terminal file, written last; success holds exactly when the header is present and accepted; a failure writes only the error file; a success writes the body to `{id}{suffix}` before the metadata, whose id, url, content type and timestamp are the item's and whose file name is the image's |
| `Pipeline.FailureMessages` | amaterus_announce_image_downloader/youtube_video_thumbnail_image_cli.py:115-147 | the error file holds the traceback plus a newline, `Response header Content-Type cannot be None\n`, or `Unsupported Content-Type: {type}\n` |
| `Pipeline.AcceptedSuffix` | amaterus_announce_image_downloader/youtube_video_thumbnail_image_cli.py:124-140 | an item is accepted exactly when the GET succeeded and its header is present and is `image/jpeg` (suffix `.jpg`) or `image/png` (suffix `.png`) |
| `Pipeline.ErrorText` | amaterus_announce_image_downloader/youtube_video_thumbnail_image_cli.py:115-147 | every error text ends in a newline; a failed GET records its traceback, which can be read back from the text; a missing header gives the fixed missing-header text; a present but unaccepted header gives a text that starts with the unsupported prefix and differs from the missing-header text |
| `Pipeline.RunItem` | amaterus_announce_image_downloader/youtube_video_thumbnail_image_cli.py:85-166 | a terminal id is skipped with no request, no write and no delay. Otherwise there is one request to the derived URL, the item's writes land, exactly one of `{id}.json` and `{id}.error.txt` exists, and one delay of 10 is counted. Afterwards the id is terminal. No file is removed, and files of other ids are untouched |
| `Pipeline.Run` | amaterus_announce_image_downloader/youtube_video_thumbnail_image_cli.py:85-166 | after the loop every listed id is terminal, whatever failed on the way; requests are appended, at most one per item, each to a listed item's URL; the time slept is 10 per request |
| `Pipeline.TerminalFilesKept` | amaterus_announce_image_downloader/youtube_video_thumbnail_image_cli.py:86-94 | a `{id}.json` or `{id}.error.txt` present before a run keeps its presence and its content through any list: the first outcome recorded for an id wins |
| `Pipeline.NoRequestOnceTerminal` | amaterus_announce_image_downloader/youtube_video_thumbnail_image_cli.py:86-94 | an item whose id is already terminal when the loop reaches it sends no request, writes nothing and adds no delay |
| `Pipeline.RunAppend` | amaterus_announce_image_downloader/youtube_video_thumbnail_image_cli.py:85 | items are processed in list order: running a list in two parts is running it whole |
| `Pipeline.RunSkipsTerminal` | amaterus_announce_image_downloader/youtube_video_thumbnail_image_cli.py:86-94 | a list whose ids are all terminal changes nothing: no request, no write, no delay |
| `Pipeline.RerunIsIdempotent` | amaterus_announce_image_downloader/twitter_tweet_image_cli.py:84-93 | a second run over ids the first run covered changes nothing, whatever the responses would now be |
| `Pipeline.ResumeAfterInterruption` | amaterus_announce_image_downloader/youtube_video_thumbnail_image_cli.py:85-94 | after a run stopped partway, a re-run over the full list acts exactly like a run over the unreached items alone |
| `Pipeline.ResumeAfterPartialItem` | amaterus_announce_image_downloader/youtube_video_thumbnail_image_cli.py:149-164 | a crawl killed after only some of an item's writes (the image bytes, before the metadata) leaves the id not terminal and the ledger well formed, so the next run requests the item again |
| `Pipeline.RunLeavesOthersAlone` | amaterus_announce_image_downloader/youtube_video_thumbnail_image_cli.py:85-166 | a file that no listed id owns keeps its presence and its content |
| `Pipeline.RunRecordsOneOutcome` | amaterus_announce_image_downloader/youtube_live_thumbnail_image_cli.py:97-163 | a listed id that was not terminal ends with exactly one of its metadata file and its error file |
| `Pipeline.RunItemKeepsWellFormed` | amaterus_announce_image_downloader/youtube_video_thumbnail_image_cli.py:149-164 | one item keeps the ledger invariant: at most one outcome per id, and metadata only next to the `{id}.jpg`/`{id}.png` it names |
| `Pipeline.RunKeepsWellFormed` | amaterus_announce_image_downloader/youtube_video_thumbnail_image_cli.py:85-166 | the whole loop keeps the ledger invariant |
| `Pipeline.Host.WriteFile` | amaterus_announce_image_downloader/youtube_video_thumbnail_image_cli.py:151-155 | one file is created or replaced; the write is logged; nothing else changes |
| `Pipeline.Host.Get` | amaterus_announce_image_downloader/youtube_video_thumbnail_image_cli.py:107-114 | one request to the URL is logged and its outcome is returned |
| `Pipeline.Host.Sleep` | amaterus_announce_image_downloader/youtube_video_thumbnail_image_cli.py:121 | the time slept grows by the given interval; nothing else changes |
| `Pipeline.Host.ProcessItem` | amaterus_announce_image_downloader/youtube_video_thumbnail_image_cli.py:86-166 | the loop body, with its early `continue`s and its mutable suffix, changes the state exactly as `RunItem` says |
| `YoutubeVideoThumbnails.ThumbnailUrl` | amaterus_announce_image_downloader/youtube_video_thumbnail_image_cli.py:99-102 | the URL is `https://i.ytimg.com/vi/`, then the remote video id, then `/{variant}.jpg` |
| `YoutubeVideoThumbnails.ThumbnailUrlRoundTrip` | amaterus_announce_image_downloader/youtube_video_thumbnail_image_cli.py:99-102 | the remote video id can be read back out of the URL, given the variant |
| `YoutubeVideoThumbnails.Jobs` | amaterus_announce_image_downloader/youtube_video_thumbnail_image_cli.py:85-102 | one job per video, in list order, with the video's id, the supplied GET outcome and timestamp, and a URL from which the video's remote id is read back at the chosen variant |
| `YoutubeVideoThumbnails.JobsRequestThumbnails` | amaterus_announce_image_downloader/youtube_video_thumbnail_image_cli.py:99-113 | every URL the video crawl can request is the thumbnail URL of one of the listed videos |
| `YoutubeVideoThumbnails.CrawlYoutubeVideoThumbnailImages` | amaterus_announce_image_downloader/youtube_video_thumbnail_image_cli.py:83-166 | the loop leaves the state `Run` gives. Every video id ends terminal. Every request goes to a listed video's thumbnail URL. There is one delay of 10 per request. The ledger invariant is kept |
| `YoutubeVideoThumbnails.CrawlResumesAfterInterruption` | amaterus_announce_image_downloader/youtube_video_thumbnail_image_cli.py:85-94 | a video crawl killed after a prefix and started again acts like a crawl of the remaining videos alone |
| `YoutubeLiveThumbnails.ThumbnailUrl` | amaterus_announce_image_downloader/youtube_live_thumbnail_image_cli.py:98-101 | the live URL is the video thumbnail URL at the fixed variant `maxresdefault` |
| `YoutubeLiveThumbnails.ThumbnailUrlRoundTrip` | amaterus_announce_image_downloader/youtube_live_thumbnail_image_cli.py:98-101 | the live's remote video id can be read back out of its URL |
| `YoutubeLiveThumbnails.Jobs` | amaterus_announce_image_downloader/youtube_live_thumbnail_image_cli.py:84-101 | one job per live, in list order, with the live's id, the supplied GET outcome and timestamp, and a URL from which the live's remote video id is read back at `maxresdefault` |
| `YoutubeLiveThumbnails.CrawlIsMaxresVideoCrawl` | amaterus_announce_image_downloader/youtube_live_thumbnail_image_cli.py:84-163 | the live crawl has the same effects as the video crawl at variant `maxresdefault` on the same ids and remote ids |
| `YoutubeLiveThumbnails.CrawlYoutubeLiveThumbnailImages` | amaterus_announce_image_downloader/youtube_live_thumbnail_image_cli.py:82-163 | the loop leaves the state `Run` gives. A live that was not terminal ends with exactly one of `{id}.json` and `{id}.error.txt`. Every live id ends terminal. There is one delay of 10 per request. The ledger invariant is kept |
| `TwitterTweetImages.Jobs` | amaterus_announce_image_downloader/twitter_tweet_image_cli.py:84-102 | one job per image, in list order, with the image's id, its own URL unchanged, and the supplied GET outcome and timestamp |
| `TwitterTweetImages.JobsRequestImageUrls` | amaterus_announce_image_downloader/twitter_tweet_image_cli.py:101-102 | the URLs the tweet crawl can request are exactly the items' own URLs, unchanged |
| `TwitterTweetImages.CrawlTwitterTweetImages` | amaterus_announce_image_downloader/twitter_tweet_image_cli.py:82-160 | the loop leaves the state `Run` gives. Every image id ends terminal. Every request goes to a listed item's URL. There is one delay of 10 per request. The ledger invariant is kept |
| `TwitterTweetImages.SecondCrawlChangesNothing` | amaterus_announce_image_downloader/twitter_tweet_image_cli.py:84-93 | crawling the same list again over the directory the first crawl left makes no request, no write and no delay |

## Left out

- Fetching the item lists (`fetch_twitter_tweet_images`, `fetch_youtube_live_thumbnail_images`, `fetch_youtube_videos`) is left out. It is an HTTP POST to the GraphQL endpoint plus pydantic validation. Its failures abort the run before any item is processed. The list is an input of each crawl method.
- The HTTP GET itself is an input, not modelled. This covers the user agent header, the 15-second timeout and `raise_for_status`. Every `httpx.HTTPError` (transport error or non-2xx status) is one `HttpError`. Its `traceback.format_exc()` text is an opaque string.
- Exceptions other than `httpx.HTTPError` are not modelled. In the code, an I/O error from `write_text`, `write_bytes` or `mkdir` aborts the whole run. The model assumes every write succeeds.
- `fetched_at` (`datetime.now()` in Asia/Tokyo) is an opaque integer timestamp, supplied per item.
- `time.sleep` is a counter of seconds; no time passes.
- The JSON serialisation of the metadata (`model_dump_json`) is not modelled. The file holds the record value.
- `mkdir(parents=True, exist_ok=True)` is a no-op. The output directory is a flat map from file name to content. Path semantics of ids (an id containing `/` or `..`) are not modelled.
- Logging (`logger.info`), the `*_command` and `add_*_arguments` functions, `cli.py` and `app_config.py` are argparse and environment wiring. They are not modelled.
- Two invocations racing on the same directory are not modelled (concurrency).
- The three crawlers share one per-item body, `Pipeline.Host.ProcessItem`, because their loop bodies are identical apart from the URL. Each crawler keeps its own loop and URL derivation.
- The code returns nothing per item; the outcome is observable only through the files written. The model likewise has no per-item return value.
- The one-outcome-per-id invariant is stated as preserved by a crawl (`WellFormed`), not as holding of any directory. The code never deletes or checks files beyond the ledger check, so a directory that already breaks the invariant keeps breaking it for those ids. Every id the crawl itself records does get exactly one outcome (`Pipeline.RunRecordsOneOutcome`).
