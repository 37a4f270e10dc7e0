/**
 * The tweet image crawler: every tweet image of the list, in order, through
 * the shared pipeline, fetching the URL the list gives for it.
 */
module TwitterTweetImages {
  import opened Ledger
  import opened Pipeline

  /** One entry of the `twitter_tweet_images` list. */
  datatype TwitterTweetImage = TwitterTweetImage(id: string, url: string)

  /** The loop's view of the list: each image with its own URL, its GET outcome and its timestamp. */
  function Jobs(images: seq<TwitterTweetImage>, responses: seq<HttpResult>, clock: seq<Timestamp>): (jobs: seq<Job>)
    requires |responses| == |images| && |clock| == |images|
    // one job per image, in list order, keyed by the image's id and fetching its own URL
    ensures |jobs| == |images|
    ensures forall k :: 0 <= k < |jobs| ==>
      && jobs[k].id == images[k].id
      && jobs[k].url == images[k].url
      && jobs[k].response == responses[k]
      && jobs[k].fetchedAt == clock[k]
  {
    seq(|images|, k requires 0 <= k < |images| => Job(images[k].id, images[k].url, responses[k], clock[k]))
  }

  /** The URLs the crawl may request are the images' own URLs, unchanged. */
  lemma JobsRequestImageUrls(images: seq<TwitterTweetImage>, responses: seq<HttpResult>, clock: seq<Timestamp>)
    requires |responses| == |images| && |clock| == |images|
    ensures UrlsOf(Jobs(images, responses, clock)) == set i | i in images :: i.url
  {
    var jobs := Jobs(images, responses, clock);
    forall u | u in UrlsOf(jobs)
      ensures exists i :: i in images && i.url == u
    {
      var k :| 0 <= k < |jobs| && jobs[k].url == u;
      assert images[k] in images;
    }
    forall i | i in images
      ensures i.url in UrlsOf(jobs)
    {
      var k :| 0 <= k < |images| && images[k] == i;
      assert jobs[k] in jobs;
    }
  }

  /**
   * `crawl_twitter_tweet_images` after the list has been fetched:
   * `responses[k]` and `clock[k]` are what the GET and the clock give for
   * the k-th image if it is not skipped.
   */
  method CrawlTwitterTweetImages(
    host: Host, images: seq<TwitterTweetImage>, responses: seq<HttpResult>, clock: seq<Timestamp>)
    requires |responses| == |images| && |clock| == |images|
    modifies host
    ensures host.State() == Run(old(host.State()), Jobs(images, responses, clock))
    ensures forall k :: 0 <= k < |images| ==> IsTerminal(host.files, images[k].id)
    ensures forall k :: |old(host.requests)| <= k < |host.requests| ==> exists i :: i in images && host.requests[k] == i.url
    ensures host.slept == old(host.slept) + INTERVAL_AFTER_REQUEST * (|host.requests| - |old(host.requests)|)
    ensures WellFormed(old(host.files)) ==> WellFormed(host.files)
  {
    ghost var start := host.State();
    ghost var jobs := Jobs(images, responses, clock);
    for i := 0 to |images|
      invariant host.State() == Run(start, jobs[..i])
    {
      var image := images[i];
      host.ProcessItem(Job(image.id, image.url, responses[i], clock[i]));
      RunStep(start, jobs, i);
    }
    assert jobs[..|images|] == jobs;
    assert forall k :: 0 <= k < |images| ==> jobs[k].id == images[k].id;
    JobsRequestImageUrls(images, responses, clock);
    forall k | |start.requests| <= k < |host.requests|
      ensures exists i :: i in images && host.requests[k] == i.url
    {
      assert host.requests[k] in set i | i in images :: i.url;
    }
    if WellFormed(start.files) {
      RunKeepsWellFormed(start, jobs);
    }
  }

  /**
   * Running the crawl a second time over the same list and the directory the
   * first run left makes no request, no write and no delay.
   */
  lemma SecondCrawlChangesNothing(
    e: Effects, images: seq<TwitterTweetImage>,
    responses: seq<HttpResult>, clock: seq<Timestamp>,
    responsesAgain: seq<HttpResult>, clockAgain: seq<Timestamp>)
    requires |responses| == |images| && |clock| == |images|
    requires |responsesAgain| == |images| && |clockAgain| == |images|
    ensures
      var first := Run(e, Jobs(images, responses, clock));
      Run(first, Jobs(images, responsesAgain, clockAgain)) == first
  {
    var jobs := Jobs(images, responses, clock);
    var again := Jobs(images, responsesAgain, clockAgain);
    forall j | j in again
      ensures j.id in IdsOf(jobs)
    {
      var k :| 0 <= k < |again| && again[k] == j;
      assert jobs[k] in jobs;
    }
    RerunIsIdempotent(e, jobs, again);
  }
}
