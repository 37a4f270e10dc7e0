/**
 * The per-item download-and-record pipeline shared by the three crawlers:
 * ledger check, one HTTP GET, classification of the `Content-Type`, one
 * terminal outcome written to the output directory, and the pacing delay.
 *
 * The pure functions ItemWrites, RunItem and Run say what processing one item
 * and a list of items does; class Host holds the state the crawler changes in
 * place, and its method ProcessItem is the loop body, proved against RunItem.
 */
module Pipeline {
  import opened Wrappers
  import opened Ledger
  import opened ContentType

  /** `interval_after_request`: seconds slept after every item that was not skipped. */
  const INTERVAL_AFTER_REQUEST: nat := 10

  /**
   * What the image GET gives back. `HttpError` stands for every `httpx.HTTPError`
   * raised by the request or by `raise_for_status` and carries the formatted
   * traceback; `Response` is a 2xx response with its optional header and body.
   */
  datatype HttpResult =
    | HttpError(trace: string)
    | Response(contentType: Option<string>, body: seq<bv8>)

  /**
   * One item as the loop sees it: the ledger key, the derived image URL, what
   * the GET to that URL returns and the time captured just before the GET.
   */
  datatype Job = Job(id: string, url: string, response: HttpResult, fetchedAt: Timestamp)

  /** One file write, in the order the crawler issues them. */
  datatype Write = Write(name: string, content: FileContent)

  /**
   * Everything a crawl changes: the output directory, the names written (in
   * order), the URLs requested (in order) and the total time slept.
   */
  datatype Effects = Effects(files: Directory, writes: seq<string>, requests: seq<string>, slept: nat)

  /** The suffix of an accepted response, or None when the item fails. */
  function AcceptedSuffix(response: HttpResult): (suffix: Option<string>)
    // accepted exactly when the GET succeeded with a JPEG or PNG header
    ensures suffix.Some? <==>
      response.Response? && (response.contentType == Some("image/jpeg") || response.contentType == Some("image/png"))
    ensures suffix == Some(JPEG_SUFFIX) <==> response.Response? && response.contentType == Some("image/jpeg")
    ensures suffix == Some(PNG_SUFFIX) <==> response.Response? && response.contentType == Some("image/png")
  {
    if response.Response? && response.contentType.Some? then SuffixFor(response.contentType.value) else None
  }

  /** The text of `{id}.error.txt` for a response that is not accepted. */
  function ErrorText(response: HttpResult): (text: string)
    // every error text is one line-terminated message
    ensures |text| > 0 && text[|text| - 1] == '\n'
    // a failed GET records its traceback, which can be read back
    ensures response.HttpError? ==> text[..|text| - 1] == response.trace
    // a missing header and an unaccepted header give texts that can be told apart
    ensures response.Response? && response.contentType.None? ==> text == MISSING_CONTENT_TYPE_MESSAGE
    ensures response.Response? && response.contentType.Some? ==>
      && text != MISSING_CONTENT_TYPE_MESSAGE
      && |text| > |UNSUPPORTED_PREFIX| && text[..|UNSUPPORTED_PREFIX|] == UNSUPPORTED_PREFIX
  {
    match response
    case HttpError(trace) => trace + "\n"
    case Response(None, _) => MISSING_CONTENT_TYPE_MESSAGE
    case Response(Some(contentType), _) =>
      RejectionMessagesDistinct(contentType, contentType);
      UnsupportedMessage(contentType)
  }

  function Names(ws: seq<Write>): (names: seq<string>)
    ensures |names| == |ws| && forall k :: 0 <= k < |ws| ==> names[k] == ws[k].name
  {
    seq(|ws|, k requires 0 <= k < |ws| => ws[k].name)
  }

  /** The writes issued for an item that is not skipped. */
  function ItemWrites(job: Job): (ws: seq<Write>)
    // only this item's names are written
    ensures forall k :: 0 <= k < |ws| ==> Owns(job.id, ws[k].name)
    // exactly one terminal file, and it is the last write
    ensures |ws| > 0
    ensures ws[|ws| - 1].name == MetadataName(job.id) || ws[|ws| - 1].name == ErrorName(job.id)
    ensures forall k :: 0 <= k < |ws| - 1 ==> ws[k].name != MetadataName(job.id) && ws[k].name != ErrorName(job.id)
    // success exactly when the header is present and accepted
    ensures ws[|ws| - 1].name == MetadataName(job.id) <==> AcceptedSuffix(job.response).Some?
    // a failure writes the error file and nothing else
    ensures ws[|ws| - 1].name == ErrorName(job.id) ==> ws == [Write(ErrorName(job.id), Text(ErrorText(job.response)))]
    // a success writes the body to `{id}{suffix}` first, then metadata that points at it
    ensures ws[|ws| - 1].name == MetadataName(job.id) ==>
      && |ws| == 2
      && ws[0].name == job.id + AcceptedSuffix(job.response).value
      && ws[0].content == Bytes(job.response.body)
      && ws[1].content.Json?
      && ws[1].content.meta.id == job.id
      && ws[1].content.meta.url == job.url
      && Some(ws[1].content.meta.contentType) == job.response.contentType
      && ws[1].content.meta.fileName == ws[0].name
      && ws[1].content.meta.fetchedAt == job.fetchedAt
  {
    match AcceptedSuffix(job.response)
    case None => [Write(ErrorName(job.id), Text(ErrorText(job.response)))]
    case Some(suffix) =>
      var fileName := job.id + suffix;
      var meta := Metadata(job.id, job.url, job.response.contentType.value, fileName, job.fetchedAt);
      [Write(fileName, Bytes(job.response.body)), Write(MetadataName(job.id), Json(meta))]
  }

  /** The directory after a sequence of writes; a later write to a name replaces an earlier one. */
  function Apply(files: Directory, ws: seq<Write>): (r: Directory)
    ensures forall n :: n in r <==> n in files || n in Names(ws)
    ensures forall n :: n in files && n !in Names(ws) ==> r[n] == files[n]
    ensures |ws| > 0 ==> ws[|ws| - 1].name in r && r[ws[|ws| - 1].name] == ws[|ws| - 1].content
    decreases |ws|
  {
    if ws == [] then files
    else
      var last := ws[|ws| - 1];
      assert Names(ws) == Names(ws[..|ws| - 1]) + [last.name];
      Apply(files, ws[..|ws| - 1])[last.name := last.content]
  }

  /** The writes of an item land as written: its names are pairwise distinct. */
  lemma ApplyItemWrites(files: Directory, job: Job)
    ensures forall k :: 0 <= k < |ItemWrites(job)| ==>
      ItemWrites(job)[k].name in Apply(files, ItemWrites(job)) &&
      Apply(files, ItemWrites(job))[ItemWrites(job)[k].name] == ItemWrites(job)[k].content
  {
  }

  /** One pass of the loop body over one item. */
  function RunItem(e: Effects, job: Job): (r: Effects)
    // the ledger check: a terminal id is skipped with no request, no write and no delay
    ensures IsTerminal(e.files, job.id) ==> r == e
    // otherwise one request to the derived URL, the item's writes and exactly one delay
    ensures !IsTerminal(e.files, job.id) ==>
      && r.requests == e.requests + [job.url]
      && r.slept == e.slept + INTERVAL_AFTER_REQUEST
      && r.writes == e.writes + Names(ItemWrites(job))
      && (MetadataName(job.id) in r.files <==> ErrorName(job.id) !in r.files)
      && (forall k :: 0 <= k < |ItemWrites(job)| ==>
            ItemWrites(job)[k].name in r.files && r.files[ItemWrites(job)[k].name] == ItemWrites(job)[k].content)
    // afterwards the id is terminal
    ensures IsTerminal(r.files, job.id)
    // only this id's files change, and nothing is removed
    ensures e.files.Keys <= r.files.Keys
    ensures forall n :: !Owns(job.id, n) ==> (n in r.files <==> n in e.files)
    ensures forall n :: n in e.files && !Owns(job.id, n) ==> r.files[n] == e.files[n]
  {
    if IsTerminal(e.files, job.id) then e
    else
      var ws := ItemWrites(job);
      ApplyItemWrites(e.files, job);
      assert ws[|ws| - 1].name in Names(ws);
      Effects(
        Apply(e.files, ws),
        e.writes + Names(ws),
        e.requests + [job.url],
        e.slept + INTERVAL_AFTER_REQUEST)
  }

  /**
   * A file that marks an id terminal is never rewritten by a later run: the
   * first outcome recorded for an id wins, whatever the list holds.
   */
  lemma {:induction false} TerminalFilesKept(e: Effects, jobs: seq<Job>, id: string, name: string)
    requires IsTerminal(e.files, id)
    requires name == MetadataName(id) || name == ErrorName(id)
    ensures name in Run(e, jobs).files <==> name in e.files
    ensures name in e.files ==> Run(e, jobs).files[name] == e.files[name]
    decreases |jobs|
  {
    if jobs != [] {
      var last := jobs[|jobs| - 1];
      TerminalFilesKept(e, jobs[..|jobs| - 1], id, name);
      if last.id != id {
        OthersNamesNotOwned(last.id, id);
      }
    }
  }

  /**
   * An item whose id an earlier item of the list (or an earlier run) has made
   * terminal sends no request: the requests of a list are those of its prefix.
   */
  lemma NoRequestOnceTerminal(e: Effects, jobs: seq<Job>, i: nat)
    requires i < |jobs|
    requires IsTerminal(Run(e, jobs[..i]).files, jobs[i].id)
    ensures Run(e, jobs[..i + 1]) == Run(e, jobs[..i])
  {
    RunStep(e, jobs, i);
  }

  /** RunItem on an item that fails: the error file, one request, one delay. */
  lemma RunItemFails(e: Effects, job: Job)
    requires !IsTerminal(e.files, job.id) && AcceptedSuffix(job.response).None?
    ensures RunItem(e, job) == Effects(
      e.files[ErrorName(job.id) := Text(ErrorText(job.response))],
      e.writes + [ErrorName(job.id)],
      e.requests + [job.url],
      e.slept + INTERVAL_AFTER_REQUEST)
  {
  }

  /** RunItem on an item that is fetched: the image, then its metadata, one request, one delay. */
  lemma RunItemFetches(e: Effects, job: Job)
    requires !IsTerminal(e.files, job.id) && AcceptedSuffix(job.response).Some?
    ensures
      var fileName := job.id + AcceptedSuffix(job.response).value;
      var meta := Metadata(job.id, job.url, job.response.contentType.value, fileName, job.fetchedAt);
      RunItem(e, job) == Effects(
        e.files[fileName := Bytes(job.response.body)][MetadataName(job.id) := Json(meta)],
        e.writes + [fileName, MetadataName(job.id)],
        e.requests + [job.url],
        e.slept + INTERVAL_AFTER_REQUEST)
  {
  }

  /** The URLs of a list of items. */
  function UrlsOf(jobs: seq<Job>): set<string>
  {
    set j | j in jobs :: j.url
  }

  /** The ids of a list of items. */
  function IdsOf(jobs: seq<Job>): set<string>
  {
    set j | j in jobs :: j.id
  }

  /** The crawl loop: the items in list order, none of them stopping the loop. */
  function Run(e: Effects, jobs: seq<Job>): (r: Effects)
    // every item is terminal afterwards, failed or fetched
    ensures forall k :: 0 <= k < |jobs| ==> IsTerminal(r.files, jobs[k].id)
    ensures e.files.Keys <= r.files.Keys
    // requests are appended, at most one per item, each to an item's URL
    ensures |e.requests| <= |r.requests| <= |e.requests| + |jobs|
    ensures r.requests[..|e.requests|] == e.requests
    ensures forall k :: |e.requests| <= k < |r.requests| ==> r.requests[k] in UrlsOf(jobs)
    // one delay per request, none otherwise
    ensures r.slept == e.slept + INTERVAL_AFTER_REQUEST * (|r.requests| - |e.requests|)
    decreases |jobs|
  {
    if jobs == [] then e
    else
      var init := jobs[..|jobs| - 1];
      var last := jobs[|jobs| - 1];
      var mid := Run(e, init);
      RunItemExtends(e, jobs, mid);
      RunItem(mid, last)
  }

  /** The step of Run's own proof: what holds of the prefix still holds after one more item. */
  lemma RunItemExtends(e: Effects, jobs: seq<Job>, mid: Effects)
    requires jobs != []
    requires forall k :: 0 <= k < |jobs| - 1 ==> IsTerminal(mid.files, jobs[k].id)
    requires e.files.Keys <= mid.files.Keys
    requires |e.requests| <= |mid.requests| <= |e.requests| + |jobs| - 1
    requires mid.requests[..|e.requests|] == e.requests
    requires forall k :: |e.requests| <= k < |mid.requests| ==> mid.requests[k] in UrlsOf(jobs[..|jobs| - 1])
    requires mid.slept == e.slept + INTERVAL_AFTER_REQUEST * (|mid.requests| - |e.requests|)
    ensures var r := RunItem(mid, jobs[|jobs| - 1]);
      && (forall k :: 0 <= k < |jobs| ==> IsTerminal(r.files, jobs[k].id))
      && e.files.Keys <= r.files.Keys
      && |e.requests| <= |r.requests| <= |e.requests| + |jobs|
      && r.requests[..|e.requests|] == e.requests
      && (forall k :: |e.requests| <= k < |r.requests| ==> r.requests[k] in UrlsOf(jobs))
      && r.slept == e.slept + INTERVAL_AFTER_REQUEST * (|r.requests| - |e.requests|)
  {
    var init := jobs[..|jobs| - 1];
    var last := jobs[|jobs| - 1];
    var r := RunItem(mid, last);
    assert UrlsOf(init) <= UrlsOf(jobs) by {
      forall j | j in init ensures j in jobs {
        var k :| 0 <= k < |init| && init[k] == j;
        assert jobs[k] == j;
      }
    }
    assert last.url in UrlsOf(jobs);
    if IsTerminal(mid.files, last.id) {
      assert r == mid;
    } else {
      assert r.requests == mid.requests + [last.url];
      assert forall k :: |e.requests| <= k < |mid.requests| ==> r.requests[k] == mid.requests[k];
      assert r.requests[..|e.requests|] == mid.requests[..|e.requests|];
    }
  }

  /** Running a list in two parts is running it whole. */
  lemma {:induction false} RunAppend(e: Effects, a: seq<Job>, b: seq<Job>)
    ensures Run(e, a + b) == Run(Run(e, a), b)
    decreases |b|
  {
    if b == [] {
      assert a + b == a;
    } else {
      var b' := b[..|b| - 1];
      assert (a + b)[..|a + b| - 1] == a + b';
      RunAppend(e, a, b');
    }
  }

  /** One more item after a prefix: the step the crawl loop takes. */
  lemma RunStep(e: Effects, jobs: seq<Job>, i: nat)
    requires i < |jobs|
    ensures Run(e, jobs[..i + 1]) == RunItem(Run(e, jobs[..i]), jobs[i])
  {
    assert jobs[..i + 1][..i] == jobs[..i];
  }

  /** A list whose ids are all terminal is skipped entirely: nothing requested, written or slept. */
  lemma {:induction false} RunSkipsTerminal(e: Effects, jobs: seq<Job>)
    requires forall j :: j in jobs ==> IsTerminal(e.files, j.id)
    ensures Run(e, jobs) == e
    decreases |jobs|
  {
    if jobs != [] {
      var init := jobs[..|jobs| - 1];
      assert forall j :: j in init ==> j in jobs;
      RunSkipsTerminal(e, init);
      assert jobs[|jobs| - 1] in jobs;
    }
  }

  /** Re-running the crawl over items whose ids the first run covered makes no request and no write. */
  lemma RerunIsIdempotent(e: Effects, jobs: seq<Job>, again: seq<Job>)
    requires IdsOf(again) <= IdsOf(jobs)
    ensures Run(Run(e, jobs), again) == Run(e, jobs)
  {
    var done := Run(e, jobs);
    forall j | j in again
      ensures IsTerminal(done.files, j.id)
    {
      assert j.id in IdsOf(again);
      var k :| 0 <= k < |jobs| && jobs[k].id == j.id;
    }
    RunSkipsTerminal(done, again);
  }

  /**
   * A crawl stopped after the items `done` and started again over the whole
   * list resumes at the first item it had not reached: the rerun of `done`
   * (whatever the responses would now be) changes nothing.
   */
  lemma ResumeAfterInterruption(e: Effects, done: seq<Job>, doneAgain: seq<Job>, rest: seq<Job>)
    requires IdsOf(doneAgain) <= IdsOf(done)
    ensures Run(Run(e, done), doneAgain + rest) == Run(Run(e, done), rest)
  {
    RunAppend(Run(e, done), doneAgain, rest);
    RerunIsIdempotent(e, done, doneAgain);
  }

  /** A file no item of the list owns is left exactly as it was. */
  lemma {:induction false} RunLeavesOthersAlone(e: Effects, jobs: seq<Job>, name: string)
    requires forall j :: j in jobs ==> !Owns(j.id, name)
    ensures name in Run(e, jobs).files <==> name in e.files
    ensures name in e.files ==> Run(e, jobs).files[name] == e.files[name]
    decreases |jobs|
  {
    if jobs != [] {
      var init := jobs[..|jobs| - 1];
      assert forall j :: j in init ==> j in jobs;
      RunLeavesOthersAlone(e, init, name);
      assert jobs[|jobs| - 1] in jobs;
    }
  }

  /**
   * An id that was not terminal before the crawl and is in the list ends with
   * exactly one terminal file: its metadata or its error file, never both.
   */
  lemma {:induction false} RunRecordsOneOutcome(e: Effects, jobs: seq<Job>, id: string)
    requires !IsTerminal(e.files, id)
    requires id in IdsOf(jobs)
    ensures MetadataName(id) in Run(e, jobs).files <==> ErrorName(id) !in Run(e, jobs).files
    decreases |jobs|
  {
    var init := jobs[..|jobs| - 1];
    var last := jobs[|jobs| - 1];
    var mid := Run(e, init);
    assert forall j :: j in init ==> j in jobs;
    if id in IdsOf(init) {
      RunRecordsOneOutcome(e, init, id);
      if last.id != id {
        OthersNamesNotOwned(last.id, id);
      }
    } else {
      assert last.id == id;
      forall j | j in init
        ensures !Owns(j.id, MetadataName(id)) && !Owns(j.id, ErrorName(id))
      {
        OthersNamesNotOwned(j.id, id);
      }
      RunLeavesOthersAlone(e, init, MetadataName(id));
      RunLeavesOthersAlone(e, init, ErrorName(id));
    }
  }

  /** One item keeps the ledger well formed: at most one outcome per id, metadata only beside its image. */
  lemma RunItemKeepsWellFormed(e: Effects, job: Job)
    requires WellFormed(e.files)
    ensures WellFormed(RunItem(e, job).files)
  {
    var r := RunItem(e, job);
    if !IsTerminal(e.files, job.id) {
      forall id
        ensures AtMostOneOutcome(r.files, id) && ImageBacked(r.files, id)
      {
        if id == job.id {
          var ws := ItemWrites(job);
          if AcceptedSuffix(job.response).Some? {
            assert r.files[MetadataName(id)] == ws[1].content;
            assert r.files[ws[0].name] == ws[0].content;
          }
        } else {
          OthersNamesNotOwned(job.id, id);
          assert AtMostOneOutcome(e.files, id) && ImageBacked(e.files, id);
        }
      }
    }
  }

  /** The whole crawl keeps the ledger well formed. */
  lemma {:induction false} RunKeepsWellFormed(e: Effects, jobs: seq<Job>)
    requires WellFormed(e.files)
    ensures WellFormed(Run(e, jobs).files)
    decreases |jobs|
  {
    if jobs != [] {
      RunKeepsWellFormed(e, jobs[..|jobs| - 1]);
      RunItemKeepsWellFormed(Run(e, jobs[..|jobs| - 1]), jobs[|jobs| - 1]);
    }
  }

  /**
   * Writing an image file of a non-terminal id (the first write of a
   * successful item) leaves the id non-terminal and the ledger well formed.
   */
  lemma ImageWriteKeepsWellFormed(f: Directory, id: string, name: string, content: FileContent)
    requires WellFormed(f)
    requires !IsTerminal(f, id)
    requires name == id + JPEG_SUFFIX || name == id + PNG_SUFFIX
    ensures !IsTerminal(f[name := content], id)
    ensures WellFormed(f[name := content])
  {
    var p := f[name := content];
    forall other
      ensures AtMostOneOutcome(p, other) && ImageBacked(p, other)
    {
      assert AtMostOneOutcome(f, other) && ImageBacked(f, other);
      if other != id {
        OthersNamesNotOwned(id, other);
      }
    }
  }

  /**
   * A crawl killed in the middle of an item, after only the first `k` of its
   * writes, leaves the id not terminal: the image bytes are written before
   * the metadata, so an orphan `{id}.jpg`/`{id}.png` never marks an item done,
   * and the next run requests the item again. The ledger stays well formed.
   */
  lemma ResumeAfterPartialItem(e: Effects, done: seq<Job>, job: Job, k: nat, again: Job)
    requires WellFormed(e.files)
    requires !IsTerminal(Run(e, done).files, job.id)
    requires k < |ItemWrites(job)|
    requires again.id == job.id
    ensures var killed := Run(e, done).(files := Apply(Run(e, done).files, ItemWrites(job)[..k]));
      && !IsTerminal(killed.files, job.id)
      && WellFormed(killed.files)
      && RunItem(killed, again).requests == killed.requests + [again.url]
  {
    var f := Run(e, done).files;
    var ws := ItemWrites(job);
    RunKeepsWellFormed(e, done);
    if k == 0 {
      assert ws[..k] == [];
    } else {
      assert ws[..k] == [ws[0]];
      assert Apply(f, ws[..k]) == Apply(f, [])[ws[0].name := ws[0].content];
      ImageWriteKeepsWellFormed(f, job.id, ws[0].name, ws[0].content);
    }
  }

  /** A failure message for each way an item can fail, as the crawler writes it. */
  lemma FailureMessages(job: Job)
    ensures job.response.HttpError? ==> ItemWrites(job) == [Write(ErrorName(job.id), Text(job.response.trace + "\n"))]
    ensures job.response.Response? && job.response.contentType.None? ==>
      ItemWrites(job) == [Write(ErrorName(job.id), Text("Response header Content-Type cannot be None\n"))]
    ensures job.response.Response? && job.response.contentType.Some? && SuffixFor(job.response.contentType.value).None? ==>
      ItemWrites(job) == [Write(ErrorName(job.id), Text("Unsupported Content-Type: " + job.response.contentType.value + "\n"))]
  {
  }

  /**
   * The state the crawler changes in place: the output directory, plus logs of
   * the writes and requests it issues and the time it has slept.
   */
  class Host {
    var files: Directory
    var writes: seq<string>
    var requests: seq<string>
    var slept: nat

    constructor (existing: Directory)
      ensures State() == Effects(existing, [], [], 0)
    {
      files := existing;
      writes := [];
      requests := [];
      slept := 0;
    }

    function State(): Effects
      reads this
    {
      Effects(files, writes, requests, slept)
    }

    /** `write_text` / `write_bytes`: create or replace one file. */
    method WriteFile(name: string, content: FileContent)
      modifies this
      ensures State() == old(State()).(files := old(files)[name := content], writes := old(writes) + [name])
    {
      files := files[name := content];
      writes := writes + [name];
    }

    /** `httpx.get` followed by `raise_for_status`; the outcome is supplied from outside. */
    method Get(url: string, response: HttpResult) returns (result: HttpResult)
      modifies this
      ensures result == response
      ensures State() == old(State()).(requests := old(requests) + [url])
    {
      requests := requests + [url];
      result := response;
    }

    /** `time.sleep`, counted rather than waited. */
    method Sleep(seconds: nat)
      modifies this
      ensures State() == old(State()).(slept := old(slept) + seconds)
    {
      slept := slept + seconds;
    }

    /** The body of the crawl loop for one item. */
    method ProcessItem(job: Job)
      modifies this
      ensures State() == RunItem(old(State()), job)
    {
      if MetadataName(job.id) in files {
        // already fetched
        return;
      }
      if ErrorName(job.id) in files {
        // errored
        return;
      }
      ghost var before := old(State());
      var fetchedAt := job.fetchedAt;
      var res := Get(job.url, job.response);
      if res.HttpError? {
        WriteFile(ErrorName(job.id), Text(res.trace + "\n"));
        Sleep(INTERVAL_AFTER_REQUEST);
        RunItemFails(before, job);
        return;
      }
      if res.contentType.None? {
        WriteFile(ErrorName(job.id), Text(MISSING_CONTENT_TYPE_MESSAGE));
        Sleep(INTERVAL_AFTER_REQUEST);
        RunItemFails(before, job);
        return;
      }
      var contentType := res.contentType.value;
      var suffix: Option<string> := None;
      if contentType == "image/jpeg" {
        suffix := Some(".jpg");
      } else if contentType == "image/png" {
        suffix := Some(".png");
      }
      if suffix.None? {
        WriteFile(ErrorName(job.id), Text(UnsupportedMessage(contentType)));
        Sleep(INTERVAL_AFTER_REQUEST);
        RunItemFails(before, job);
        return;
      }
      var fileName := job.id + suffix.value;
      WriteFile(fileName, Bytes(res.body));
      WriteFile(MetadataName(job.id), Json(Metadata(job.id, job.url, contentType, fileName, fetchedAt)));
      Sleep(INTERVAL_AFTER_REQUEST);
      RunItemFetches(before, job);
    }
  }
}
