/**
 * The YouTube video thumbnail crawler: every YouTube video of the list, in
 * order, through the shared pipeline, with the image URL built from the
 * video's remote id and a thumbnail variant chosen on the command line.
 */
module YoutubeVideoThumbnails {
  import opened Wrappers
  import opened Ledger
  import opened Pipeline

  /** One entry of the `youtube_videos` list. */
  datatype YoutubeVideo = YoutubeVideo(id: string, remoteYoutubeVideoId: string)

  const THUMBNAIL_URL_PREFIX := "https://i.ytimg.com/vi/"

  /** What follows the remote id in a thumbnail URL of the given variant. */
  function VariantTail(variant: string): string
  {
    "/" + variant + ".jpg"
  }

  /** The thumbnail image URL of a video, for a variant such as `maxresdefault` or `hqdefault`. */
  function ThumbnailUrl(remoteYoutubeVideoId: string, variant: string): (url: string)
    ensures |url| == |THUMBNAIL_URL_PREFIX| + |remoteYoutubeVideoId| + |VariantTail(variant)|
    ensures url[..|THUMBNAIL_URL_PREFIX|] == THUMBNAIL_URL_PREFIX
    ensures url[|THUMBNAIL_URL_PREFIX|..|url| - |VariantTail(variant)|] == remoteYoutubeVideoId
    ensures url[|url| - |VariantTail(variant)|..] == VariantTail(variant)
  {
    THUMBNAIL_URL_PREFIX + remoteYoutubeVideoId + "/" + variant + ".jpg"
  }

  /** Reads the remote video id back out of a thumbnail URL of a known variant. */
  function RemoteVideoIdOf(url: string, variant: string): Option<string>
  {
    var tail := VariantTail(variant);
    if |url| >= |THUMBNAIL_URL_PREFIX| + |tail|
       && url[..|THUMBNAIL_URL_PREFIX|] == THUMBNAIL_URL_PREFIX
       && url[|url| - |tail|..] == tail
    then Some(url[|THUMBNAIL_URL_PREFIX|..|url| - |tail|])
    else None
  }

  /** The thumbnail URL names the video it was built from. */
  lemma ThumbnailUrlRoundTrip(remoteYoutubeVideoId: string, variant: string)
    ensures RemoteVideoIdOf(ThumbnailUrl(remoteYoutubeVideoId, variant), variant) == Some(remoteYoutubeVideoId)
  {
  }

  /** Every video's thumbnail URL names that video. */
  lemma ThumbnailUrlsRoundTrip(videos: seq<YoutubeVideo>, variant: string)
    ensures forall k :: 0 <= k < |videos| ==>
      RemoteVideoIdOf(ThumbnailUrl(videos[k].remoteYoutubeVideoId, variant), variant) == Some(videos[k].remoteYoutubeVideoId)
  {
    forall k | 0 <= k < |videos| {
      ThumbnailUrlRoundTrip(videos[k].remoteYoutubeVideoId, variant);
    }
  }

  /** The loop's view of the list: each video with its URL, its GET outcome and its timestamp. */
  function Jobs(videos: seq<YoutubeVideo>, variant: string, responses: seq<HttpResult>, clock: seq<Timestamp>): (jobs: seq<Job>)
    requires |responses| == |videos| && |clock| == |videos|
    // one job per video, in list order, keyed by the video's id
    ensures |jobs| == |videos|
    ensures forall k :: 0 <= k < |jobs| ==>
      && jobs[k].id == videos[k].id
      && jobs[k].response == responses[k]
      && jobs[k].fetchedAt == clock[k]
      // the URL fetched names the video's remote id at the chosen variant
      && RemoteVideoIdOf(jobs[k].url, variant) == Some(videos[k].remoteYoutubeVideoId)
  {
    ThumbnailUrlsRoundTrip(videos, variant);
    seq(|videos|, k requires 0 <= k < |videos| =>
      Job(videos[k].id, ThumbnailUrl(videos[k].remoteYoutubeVideoId, variant), responses[k], clock[k]))
  }

  /** Every URL the crawl may request is the thumbnail of one of the videos. */
  lemma JobsRequestThumbnails(videos: seq<YoutubeVideo>, variant: string, responses: seq<HttpResult>, clock: seq<Timestamp>, url: string)
    requires |responses| == |videos| && |clock| == |videos|
    requires url in UrlsOf(Jobs(videos, variant, responses, clock))
    ensures exists v :: v in videos && url == ThumbnailUrl(v.remoteYoutubeVideoId, variant)
  {
  }

  /**
   * `crawl_youtube_video_thumbnail_images` after the list has been fetched:
   * `responses[k]` and `clock[k]` are what the GET and the clock give for
   * the k-th video if it is not skipped.
   */
  method CrawlYoutubeVideoThumbnailImages(
    host: Host, videos: seq<YoutubeVideo>, variant: string, responses: seq<HttpResult>, clock: seq<Timestamp>)
    requires |responses| == |videos| && |clock| == |videos|
    modifies host
    ensures host.State() == Run(old(host.State()), Jobs(videos, variant, responses, clock))
    ensures forall k :: 0 <= k < |videos| ==> IsTerminal(host.files, videos[k].id)
    ensures forall k :: |old(host.requests)| <= k < |host.requests| ==>
      exists v :: v in videos && host.requests[k] == ThumbnailUrl(v.remoteYoutubeVideoId, variant)
    ensures host.slept == old(host.slept) + INTERVAL_AFTER_REQUEST * (|host.requests| - |old(host.requests)|)
    ensures WellFormed(old(host.files)) ==> WellFormed(host.files)
  {
    ghost var start := host.State();
    ghost var jobs := Jobs(videos, variant, responses, clock);
    for i := 0 to |videos|
      invariant host.State() == Run(start, jobs[..i])
    {
      var video := videos[i];
      var thumbnailImageUrl := ThumbnailUrl(video.remoteYoutubeVideoId, variant);
      host.ProcessItem(Job(video.id, thumbnailImageUrl, responses[i], clock[i]));
      RunStep(start, jobs, i);
    }
    assert jobs[..|videos|] == jobs;
    assert forall k :: 0 <= k < |videos| ==> jobs[k].id == videos[k].id;
    forall k | |start.requests| <= k < |host.requests|
      ensures exists v :: v in videos && host.requests[k] == ThumbnailUrl(v.remoteYoutubeVideoId, variant)
    {
      JobsRequestThumbnails(videos, variant, responses, clock, host.requests[k]);
    }
    if WellFormed(start.files) {
      RunKeepsWellFormed(start, jobs);
    }
  }

  /**
   * A crawl killed after the videos `done` and run again over the whole list
   * makes no request and no write for `done` and resumes at the first video
   * it had not reached, whatever the responses would now be.
   */
  lemma CrawlResumesAfterInterruption(
    e: Effects, done: seq<YoutubeVideo>, rest: seq<YoutubeVideo>, variant: string,
    responses: seq<HttpResult>, clock: seq<Timestamp>,
    responsesAgain: seq<HttpResult>, clockAgain: seq<Timestamp>)
    requires |responses| == |done| && |clock| == |done|
    requires |responsesAgain| == |done| + |rest| && |clockAgain| == |done| + |rest|
    ensures
      var interrupted := Run(e, Jobs(done, variant, responses, clock));
      Run(interrupted, Jobs(done + rest, variant, responsesAgain, clockAgain))
        == Run(interrupted, Jobs(rest, variant, responsesAgain[|done|..], clockAgain[|done|..]))
  {
    var first := Jobs(done, variant, responses, clock);
    var doneAgain := Jobs(done, variant, responsesAgain[..|done|], clockAgain[..|done|]);
    var restAgain := Jobs(rest, variant, responsesAgain[|done|..], clockAgain[|done|..]);
    assert Jobs(done + rest, variant, responsesAgain, clockAgain) == doneAgain + restAgain;
    forall j | j in doneAgain
      ensures j.id in IdsOf(first)
    {
      var k :| 0 <= k < |doneAgain| && doneAgain[k] == j;
      assert first[k] in first;
    }
    ResumeAfterInterruption(e, first, doneAgain, restAgain);
  }
}
