/**
 * The YouTube live thumbnail crawler: every YouTube live of the list, in
 * order, through the shared pipeline, always fetching the `maxresdefault`
 * thumbnail of the live's video.
 */
module YoutubeLiveThumbnails {
  import opened Wrappers
  import opened Ledger
  import opened Pipeline
  import YoutubeVideoThumbnails

  /** One entry of the `youtube_lives` list. */
  datatype YoutubeLive = YoutubeLive(id: string, remoteYoutubeVideoId: string)

  /** The thumbnail image URL of a live: fixed host, the remote video id, fixed `maxresdefault.jpg`. */
  function ThumbnailUrl(remoteYoutubeVideoId: string): (url: string)
    ensures url == YoutubeVideoThumbnails.ThumbnailUrl(remoteYoutubeVideoId, "maxresdefault")
  {
    "https://i.ytimg.com/vi/" + remoteYoutubeVideoId + "/" + "maxresdefault.jpg"
  }

  /** The live's URL names the live's video. */
  lemma ThumbnailUrlRoundTrip(remoteYoutubeVideoId: string)
    ensures YoutubeVideoThumbnails.RemoteVideoIdOf(ThumbnailUrl(remoteYoutubeVideoId), "maxresdefault") == Some(remoteYoutubeVideoId)
  {
  }

  /** Every live's thumbnail URL names the live's video. */
  lemma LiveUrlsRoundTrip(lives: seq<YoutubeLive>)
    ensures forall k :: 0 <= k < |lives| ==>
      YoutubeVideoThumbnails.RemoteVideoIdOf(ThumbnailUrl(lives[k].remoteYoutubeVideoId), "maxresdefault")
        == Some(lives[k].remoteYoutubeVideoId)
  {
    forall k | 0 <= k < |lives| {
      ThumbnailUrlRoundTrip(lives[k].remoteYoutubeVideoId);
    }
  }

  /** The loop's view of the list: each live with its URL, its GET outcome and its timestamp. */
  function Jobs(lives: seq<YoutubeLive>, responses: seq<HttpResult>, clock: seq<Timestamp>): (jobs: seq<Job>)
    requires |responses| == |lives| && |clock| == |lives|
    // one job per live, in list order, keyed by the live's id
    ensures |jobs| == |lives|
    ensures forall k :: 0 <= k < |jobs| ==>
      && jobs[k].id == lives[k].id
      && jobs[k].response == responses[k]
      && jobs[k].fetchedAt == clock[k]
      // the URL fetched names the live's video at `maxresdefault`
      && YoutubeVideoThumbnails.RemoteVideoIdOf(jobs[k].url, "maxresdefault") == Some(lives[k].remoteYoutubeVideoId)
  {
    LiveUrlsRoundTrip(lives);
    seq(|lives|, k requires 0 <= k < |lives| =>
      Job(lives[k].id, ThumbnailUrl(lives[k].remoteYoutubeVideoId), responses[k], clock[k]))
  }

  /** The lives read as videos: same ids, same remote video ids. */
  function AsVideos(lives: seq<YoutubeLive>): seq<YoutubeVideoThumbnails.YoutubeVideo>
  {
    seq(|lives|, k requires 0 <= k < |lives| =>
      YoutubeVideoThumbnails.YoutubeVideo(lives[k].id, lives[k].remoteYoutubeVideoId))
  }

  /** The live crawl does what the video crawl does at variant `maxresdefault`. */
  lemma CrawlIsMaxresVideoCrawl(e: Effects, lives: seq<YoutubeLive>, responses: seq<HttpResult>, clock: seq<Timestamp>)
    requires |responses| == |lives| && |clock| == |lives|
    ensures Run(e, Jobs(lives, responses, clock))
         == Run(e, YoutubeVideoThumbnails.Jobs(AsVideos(lives), "maxresdefault", responses, clock))
  {
    assert Jobs(lives, responses, clock) == YoutubeVideoThumbnails.Jobs(AsVideos(lives), "maxresdefault", responses, clock);
  }

  /**
   * `crawl_youtube_live_thumbnail_images` after the list has been fetched:
   * `responses[k]` and `clock[k]` are what the GET and the clock give for
   * the k-th live if it is not skipped.
   */
  method CrawlYoutubeLiveThumbnailImages(
    host: Host, lives: seq<YoutubeLive>, responses: seq<HttpResult>, clock: seq<Timestamp>)
    requires |responses| == |lives| && |clock| == |lives|
    modifies host
    ensures host.State() == Run(old(host.State()), Jobs(lives, responses, clock))
    // a live that was not terminal ends with exactly one of `{id}.json` and `{id}.error.txt`
    ensures forall k :: 0 <= k < |lives| && !IsTerminal(old(host.files), lives[k].id) ==>
      (MetadataName(lives[k].id) in host.files <==> ErrorName(lives[k].id) !in host.files)
    ensures forall k :: 0 <= k < |lives| ==> IsTerminal(host.files, lives[k].id)
    ensures host.slept == old(host.slept) + INTERVAL_AFTER_REQUEST * (|host.requests| - |old(host.requests)|)
    ensures WellFormed(old(host.files)) ==> WellFormed(host.files)
  {
    ghost var start := host.State();
    ghost var jobs := Jobs(lives, responses, clock);
    for i := 0 to |lives|
      invariant host.State() == Run(start, jobs[..i])
    {
      var live := lives[i];
      var thumbnailImageUrl := ThumbnailUrl(live.remoteYoutubeVideoId);
      host.ProcessItem(Job(live.id, thumbnailImageUrl, responses[i], clock[i]));
      RunStep(start, jobs, i);
    }
    assert jobs[..|lives|] == jobs;
    assert forall k :: 0 <= k < |lives| ==> jobs[k].id == lives[k].id;
    forall k | 0 <= k < |lives| && !IsTerminal(start.files, lives[k].id)
      ensures MetadataName(lives[k].id) in host.files <==> ErrorName(lives[k].id) !in host.files
    {
      assert jobs[k] in jobs;
      RunRecordsOneOutcome(start, jobs, lives[k].id);
    }
    if WellFormed(start.files) {
      RunKeepsWellFormed(start, jobs);
    }
  }
}
