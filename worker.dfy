/**
 * The crawler worker: it walks its URL list batch by batch, hands every URL of
 * a batch to the crawl engine, and once the whole batch has come back walks
 * the results in list order, saving markdown, counting completed URLs and
 * emitting progress and error signals. Between batches it checks the
 * `isRunning` flag that `Stop` clears.
 *
 * The crawl engine, the disk and the GUI thread are not modelled; what they do
 * enters as data: one `Response` per URL (what its crawl returns, and whether
 * writing its markdown would fail), the message of a failed engine start-up,
 * and the batch before whose check the GUI calls `Stop`.
 */
module Worker {
  import opened Wrappers
  import opened PyStr
  import opened UrlSplit
  import opened Batching
  import opened Seqs
  import Filename

  /** What `asyncio.gather(..., return_exceptions=True)` yields for one URL. */
  datatype Outcome =
    | Raised(message: string)              // the crawl raised; the exception object is the result
    | Succeeded(markdown: Option<string>)  // `result.success`; the markdown may be missing or empty
    | Failed(errorMessage: string)         // `result.success` is false

  /** The crawl result for one URL, and the error writing its markdown would raise, if any. */
  datatype Response = Response(outcome: Outcome, writeError: Option<string>)

  /** A signal emitted towards the GUI: `progress(int, str)` or `error(str)`. */
  datatype Event = Progress(percent: int, message: string) | Error(message: string)

  /** One call of `crawler.arun`: the URL and its session id. */
  datatype Request = Request(url: string, sessionId: string)

  /** The state the results loop updates: the `completed` counter, the emitted signals, the files written. */
  datatype Tally = Tally(completed: nat, events: seq<Event>, files: map<string, string>)

  /** Everything one `crawl_urls` run does. */
  datatype RunResult = RunResult(
    completed: nat,
    requests: seq<Request>,
    events: seq<Event>,
    files: map<string, string>,
    running: bool)

  /** The text of the ValueError `range(0, n, 0)` raises. */
  const RangeStepZero: string := "range() arg 3 must not be zero"

  function SessionId(url: string): string {
    "session_" + url
  }

  function CrawlFailedMessage(url: string, detail: string): string {
    "Failed to crawl " + url + ": " + detail
  }

  function SaveFailedMessage(url: string, detail: string): string {
    "Error saving " + url + ": " + detail
  }

  function CrawlerErrorMessage(detail: string): string {
    "Crawler error: " + detail
  }

  /**
   * The progress text "Processed <completed>/<total> URLs": split at its one
   * "/" it gives the completed count's digits and the total's digits back.
   */
  function ProgressMessage(completed: nat, total: nat): (r: string)
    ensures Split(r, '/') == ["Processed " + Decimal(completed), Decimal(total) + " URLs"]
  {
    var head, tail := "Processed " + Decimal(completed), Decimal(total) + " URLs";
    assert '/' !in head && '/' !in tail;
    SplitJoin([head, tail], '/');
    head + "/" + tail
  }

  /**
   * `int(completed * 100 / total)` for non-negative operands: the largest
   * whole percentage not above the exact ratio, 100 when all are completed.
   */
  function Percent(completed: nat, total: nat): (p: int)
    requires total > 0
    ensures 0 <= p && p * total <= completed * 100 < (p + 1) * total
    ensures completed == total ==> p == 100
  {
    FloorDiv(completed * 100, total);
    assert total * 100 / total == 100;
    completed * 100 / total
  }

  /** Whole-number division rounds down: the quotient times the divisor is within one divisor of the dividend. */
  lemma FloorDiv(x: nat, d: nat)
    requires d > 0
    ensures (x / d) * d <= x < (x / d + 1) * d
  {
    assert x == d * (x / d) + x % d;
  }

  function ProgressEvent(completed: nat, total: nat): Event
    requires total > 0
  {
    Progress(Percent(completed, total), ProgressMessage(completed, total))
  }

  /** `result.success` with markdown that is present and non-empty: the only case that writes a file. */
  predicate HasContent(o: Outcome) {
    o.Succeeded? && o.markdown.Some? && o.markdown.value != []
  }

  /** Whether this response leaves a file: it has markdown, its URL parses and the write does not raise. */
  predicate Writes(parse: UrlParser, url: string, r: Response) {
    HasContent(r.outcome) && parse(url).Success? && r.writeError.None?
  }

  /** The file name `save_markdown` derives for a URL that parses. */
  function SavedName(parse: UrlParser, url: string): string
    requires parse(url).Success?
  {
    Filename.Derive(parse(url).value.netloc, parse(url).value.path)
  }

  /** Whether saving fails for this response: the URL does not parse or the write raises. */
  predicate SaveFails(parse: UrlParser, url: string, r: Response) {
    HasContent(r.outcome) && (parse(url).Failure? || r.writeError.Some?)
  }

  // ---------------------------------------------------------------------------
  // Specification of the results loop
  // ---------------------------------------------------------------------------

  /** `save_markdown`: the files afterwards and the signals it emits. */
  function SaveEffect(files: map<string, string>, parse: UrlParser, url: string, content: string,
                      writeError: Option<string>): (r: (map<string, string>, seq<Event>))
    ensures |r.1| <= 1 && forall i :: 0 <= i < |r.1| ==> r.1[i].Error?
    ensures r.1 == [] <==> parse(url).Success? && writeError.None?
    ensures r.1 == [] ==> r.0 == files[SavedName(parse, url) := content]
    ensures r.1 != [] ==> r.0 == files
  {
    match parse(url)
    case Failure(e) => (files, [Error(SaveFailedMessage(url, e))])
    case Success(parts) =>
      if writeError.Some? then (files, [Error(SaveFailedMessage(url, writeError.value))])
      else (files[Filename.Derive(parts.netloc, parts.path) := content], [])
  }

  /** One pass of the results loop for one URL and its response. */
  function Step(t: Tally, total: nat, parse: UrlParser, url: string, r: Response): (p: Tally)
    requires total > 0
    ensures p.completed == t.completed + (if r.outcome.Raised? then 0 else 1)
    ensures t.events <= p.events
    ensures p.files == if Writes(parse, url, r) then t.files[SavedName(parse, url) := r.outcome.markdown.value]
                       else t.files
  {
    match r.outcome
    case Raised(e) =>
      Tally(t.completed, t.events + [Error(CrawlFailedMessage(url, e))], t.files)
    case Failed(e) =>
      Tally(t.completed + 1, t.events + [Error(CrawlFailedMessage(url, e))], t.files)
    case Succeeded(md) =>
      var saved := if HasContent(r.outcome) then SaveEffect(t.files, parse, url, md.value, r.writeError)
                   else (t.files, []);
      Tally(t.completed + 1, t.events + saved.1 + [ProgressEvent(t.completed + 1, total)], saved.0)
  }

  /** The results loop run over `urls` in order, starting from `t`. */
  function Process(t: Tally, total: nat, parse: UrlParser, urls: seq<string>, rs: seq<Response>): (p: Tally)
    requires |urls| == |rs|
    requires urls != [] ==> total > 0
    ensures t.completed <= p.completed <= t.completed + |urls|
    ensures t.events <= p.events
    ensures t.files.Keys <= p.files.Keys
    decreases |urls|
  {
    if urls == [] then t
    else
      var n := |urls| - 1;
      Step(Process(t, total, parse, urls[..n], rs[..n]), total, parse, urls[n], rs[n])
  }

  /** The `crawler.arun` calls issued for `urls`, in order. */
  function Requests(urls: seq<string>): (r: seq<Request>)
    ensures |r| == |urls| && forall i :: 0 <= i < |urls| ==> r[i] == Request(urls[i], SessionId(urls[i]))
    decreases |urls|
  {
    if urls == [] then []
    else Requests(urls[..|urls| - 1]) + [Request(urls[|urls| - 1], SessionId(urls[|urls| - 1]))]
  }

  /** How many batches are started: all of them, or those before the first check that finds the flag cleared. */
  function BatchesStarted(n: nat, m: nat, running: bool, stopAt: Option<nat>): nat
    requires m > 0
  {
    if !running then 0
    else if stopAt.Some? then Min(stopAt.value, BatchCount(n, m))
    else BatchCount(n, m)
  }

  /**
   * One whole `crawl_urls` run. `setupError` is the exception raised while
   * starting the crawler, `running` the flag when the run starts, and `stopAt`
   * the batch before whose check the GUI thread calls `Stop`.
   */
  function Crawl(urls: seq<string>, maxConcurrent: int, parse: UrlParser, rs: seq<Response>,
                 setupError: Option<string>, running: bool, stopAt: Option<nat>,
                 files: map<string, string>): (r: RunResult)
    requires |rs| == |urls|
    ensures r.completed <= |r.requests| <= |urls|
    ensures forall i :: 0 <= i < |r.requests| ==> r.requests[i] == Request(urls[i], SessionId(urls[i]))
    ensures files.Keys <= r.files.Keys
    ensures setupError.Some? || maxConcurrent <= 0 ==> r.completed == 0 && r.requests == [] && r.files == files
  {
    if setupError.Some? then
      RunResult(0, [], [Error(CrawlerErrorMessage(setupError.value))], files, running)
    else if maxConcurrent == 0 then
      RunResult(0, [], [Error(CrawlerErrorMessage(RangeStepZero))], files, running)
    else if maxConcurrent < 0 then
      RunResult(0, [], [], files, running)
    else
      RunBatches(urls, maxConcurrent, parse, rs, running, stopAt, files)
  }

  /** The batch loop of `crawl_urls` for a positive concurrency limit `m`. */
  function RunBatches(urls: seq<string>, m: nat, parse: UrlParser, rs: seq<Response>,
                      running: bool, stopAt: Option<nat>, files: map<string, string>): (r: RunResult)
    requires |rs| == |urls| && m > 0
    ensures r.completed <= |r.requests| <= |urls|
    ensures forall i :: 0 <= i < |r.requests| ==> r.requests[i] == Request(urls[i], SessionId(urls[i]))
    ensures files.Keys <= r.files.Keys
    ensures r.running ==> |r.requests| == |urls|
    ensures !running ==> r.requests == [] && r.events == [] && r.files == files && !r.running
  {
    var n := |urls|;
    BatchCountBound(n, m, BatchCount(n, m));
    var p := Min(Offset(BatchesStarted(n, m, running, stopAt), m), n);
    var t := Process(Tally(0, [], files), n, parse, urls[..p], rs[..p]);
    var stopped := stopAt.Some? && stopAt.value < BatchCount(n, m);
    RunResult(t.completed, Requests(urls[..p]), t.events, t.files, running && !stopped)
  }

  // ---------------------------------------------------------------------------
  // The worker object
  // ---------------------------------------------------------------------------

  class CrawlerWorker {
    const urls: seq<string>
    const outputDir: string
    const maxConcurrent: int
    var isRunning: bool
    /** The crawls handed to the engine so far. */
    var requests: seq<Request>
    /** The progress and error signals emitted so far. */
    var events: seq<Event>
    /** The markdown files written in `outputDir`, by file name. */
    var files: map<string, string>

    constructor (urls: seq<string>, outputDir: string, maxConcurrent: int)
      ensures this.urls == urls && this.outputDir == outputDir && this.maxConcurrent == maxConcurrent
      ensures isRunning && requests == [] && events == [] && files == map[]
    {
      this.urls := urls;
      this.outputDir := outputDir;
      this.maxConcurrent := maxConcurrent;
      isRunning := true;
      requests := [];
      events := [];
      files := map[];
    }

    method Stop()
      modifies this`isRunning
      ensures !isRunning
    {
      isRunning := false;
    }

    method SaveMarkdown(parse: UrlParser, url: string, content: string, writeError: Option<string>)
      modifies this`files, this`events
      ensures files == SaveEffect(old(files), parse, url, content, writeError).0
      ensures events == old(events) + SaveEffect(old(files), parse, url, content, writeError).1
    {
      match parse(url)
      case Failure(e) =>
        events := events + [Error(SaveFailedMessage(url, e))];
      case Success(parts) =>
        var filename := Filename.Derive(parts.netloc, parts.path);
        if writeError.Some? {
          events := events + [Error(SaveFailedMessage(url, writeError.value))];
        } else {
          files := files[filename := content];
        }
    }

    /** The body of the results loop for one URL. */
    method HandleResult(parse: UrlParser, url: string, r: Response, completed: nat, total: nat)
      returns (completed': nat)
      requires total > 0
      modifies this`files, this`events
      ensures Tally(completed', events, files) == Step(Tally(completed, old(events), old(files)), total, parse, url, r)
    {
      completed' := completed;
      match r.outcome
      case Raised(e) =>
        events := events + [Error(CrawlFailedMessage(url, e))];
      case Succeeded(md) =>
        if md.Some? && md.value != [] {
          SaveMarkdown(parse, url, md.value, r.writeError);
        }
        completed' := completed' + 1;
        events := events + [ProgressEvent(completed', total)];
      case Failed(e) =>
        events := events + [Error(CrawlFailedMessage(url, e))];
        completed' := completed' + 1;
    }

    /** The loop that starts one crawl per URL of a batch, each with its own session id. */
    method IssueBatch(batch: seq<string>)
      modifies this`requests
      ensures requests == old(requests) + Requests(batch)
    {
      var j := 0;
      while j < |batch|
        invariant 0 <= j <= |batch|
        invariant requests == old(requests) + Requests(batch[..j])
      {
        RequestsSnoc(batch, j);
        requests := requests + [Request(batch[j], SessionId(batch[j]))];
        j := j + 1;
      }
      assert batch[..j] == batch;
    }

    /** The loop over the joined results of a batch, in list order. */
    method ProcessBatch(parse: UrlParser, batch: seq<string>, results: seq<Response>, completed: nat, total: nat)
      returns (completed': nat)
      requires |batch| == |results| && total > 0
      modifies this`files, this`events
      ensures Tally(completed', events, files)
           == Process(Tally(completed, old(events), old(files)), total, parse, batch, results)
    {
      completed' := completed;
      var j := 0;
      while j < |batch|
        invariant 0 <= j <= |batch|
        invariant Tally(completed', events, files)
               == Process(Tally(completed, old(events), old(files)), total, parse, batch[..j], results[..j])
      {
        ProcessSnoc(Tally(completed, old(events), old(files)), total, parse, batch, results, j);
        completed' := HandleResult(parse, batch[j], results[j], completed', total);
        j := j + 1;
      }
      assert batch[..j] == batch && results[..j] == results;
    }

    /**
     * The state after the first `n` URLs were crawled and their results walked,
     * starting from the tally `t0` and the requests `r0`.
     */
    ghost predicate Walked(parse: UrlParser, rs: seq<Response>, n: nat, t0: Tally, r0: seq<Request>, completed: nat)
      reads this
    {
      && |rs| == |urls| && n <= |urls|
      && Tally(completed, events, files) == Process(t0, |urls|, parse, urls[..n], rs[..n])
      && requests == r0 + Requests(urls[..n])
    }

    /**
     * One iteration of the batch loop: the slice `urls[i:end]` is crawled and
     * its results are walked in order, so that a state reached by the first
     * `i` URLs becomes the state reached by the first `end`.
     */
    method RunBatch(parse: UrlParser, rs: seq<Response>, i: nat, end: nat, completed: nat,
                    ghost t0: Tally, ghost r0: seq<Request>)
      returns (completed': nat)
      requires i < end <= |urls| && Walked(parse, rs, i, t0, r0, completed)
      modifies this`requests, this`events, this`files
      ensures Walked(parse, rs, end, t0, r0, completed')
    {
      ghost var before, requested := Tally(completed, events, files), requests;
      var batch := urls[i..end];
      IssueBatch(batch);
      var results := rs[i..end];  // asyncio.gather: the whole batch has resolved
      completed' := ProcessBatch(parse, batch, results, completed, |urls|);
      Advance(t0, |urls|, parse, urls, rs, i, end, before, Tally(completed', events, files), r0, requested, requests);
    }

    /**
     * `crawl_urls`. `rs[q]` is what the crawl of `urls[q]` returns should it
     * be started; before the check of batch `stopAt` the GUI calls `Stop`.
     */
    method CrawlUrls(parse: UrlParser, rs: seq<Response>, setupError: Option<string>, stopAt: Option<nat>)
      returns (completed: nat)
      requires |rs| == |urls|
      modifies this
      ensures var r := Crawl(urls, maxConcurrent, parse, rs, setupError, old(isRunning), stopAt, old(files));
        && completed == r.completed
        && requests == old(requests) + r.requests
        && events == old(events) + r.events
        && files == r.files
        && isRunning == r.running
    {
      if setupError.Some? {
        events := events + [Error(CrawlerErrorMessage(setupError.value))];
        return 0;
      }
      var total := |urls|;
      completed := 0;
      if maxConcurrent == 0 {
        events := events + [Error(CrawlerErrorMessage(RangeStepZero))];
        return 0;
      }
      if maxConcurrent < 0 {
        return 0;  // range(0, total, m) is empty for a negative step
      }
      ghost var r0, e0 := requests, events;
      completed := BatchLoop(parse, rs, stopAt);
      RunBatchesAfter(urls, maxConcurrent, parse, rs, old(isRunning), stopAt, old(files), e0, r0,
                      BatchesStarted(total, maxConcurrent, old(isRunning), stopAt), Tally(completed, events, files), requests);
    }

    /**
     * The `for i in range(0, total_urls, max_concurrent)` loop, for a positive
     * limit: the URLs of the batches started are requested and their results
     * walked, in list order; the flag ends cleared exactly when a stop landed
     * before some batch's check.
     */
    method BatchLoop(parse: UrlParser, rs: seq<Response>, stopAt: Option<nat>) returns (completed: nat)
      requires |rs| == |urls| && maxConcurrent > 0
      modifies this
      ensures var p := Min(Offset(BatchesStarted(|urls|, maxConcurrent, old(isRunning), stopAt), maxConcurrent), |urls|);
        && Tally(completed, events, files) == Process(Tally(0, old(events), old(files)), |urls|, parse, urls[..p], rs[..p])
        && requests == old(requests) + Requests(urls[..p])
        && isRunning == (old(isRunning) && !(stopAt.Some? && stopAt.value < BatchCount(|urls|, maxConcurrent)))
    {
      var total := |urls|;
      var m: nat := maxConcurrent;
      completed := 0;
      ghost var t0 := Tally(0, events, files);
      var k: nat := 0;  // index of the batch about to be checked
      var i: nat := 0;
      ghost var done: nat := 0;  // how many URLs have been crawled
      while i < total
        invariant i == Offset(k, m) && done == Min(i, total)
        invariant k <= BatchesStarted(total, m, old(isRunning), stopAt)
        invariant isRunning == (old(isRunning) && !(stopAt.Some? && stopAt.value < k))
        invariant Walked(parse, rs, done, t0, old(requests), completed)
        decreases total - i
      {
        if stopAt == Some(k) {
          Stop();  // the GUI thread's stop() lands between two batches
        }
        if !isRunning {
          LoopExit(total, m, old(isRunning), stopAt, k, false);
          break;
        }
        NextBatch(total, m, old(isRunning), stopAt, k);
        var end := Min(i + m, total);
        completed := RunBatch(parse, rs, i, end, completed, t0, old(requests));
        i, k, done := i + m, k + 1, end;
      }
      if i >= total {
        LoopExit(total, m, old(isRunning), stopAt, k, true);
      }
      assert done == Min(Offset(BatchesStarted(total, m, old(isRunning), stopAt), m), total);
    }
  }

  // ---------------------------------------------------------------------------
  // Lemmas the loop needs
  // ---------------------------------------------------------------------------

  /**
   * Where the batch loop stops: either every offset has been used, or the
   * check of batch `k` found the flag cleared; either way `k` batches were started.
   */
  lemma LoopExit(n: nat, m: nat, running: bool, stopAt: Option<nat>, k: nat, exhausted: bool)
    requires m > 0 && k <= BatchesStarted(n, m, running, stopAt)
    requires exhausted ==> Offset(k, m) >= n
    requires !exhausted ==> Offset(k, m) < n && !(running && !(stopAt.Some? && stopAt.value <= k))
    ensures BatchesStarted(n, m, running, stopAt) == k
    ensures (running && !(stopAt.Some? && stopAt.value < BatchCount(n, m)))
        == (exhausted && running && !(stopAt.Some? && stopAt.value < k))
  {
    BatchCountBound(n, m, k);
  }

  /** A check that finds the flag still set, at an offset inside the list, starts one more batch. */
  lemma NextBatch(n: nat, m: nat, running: bool, stopAt: Option<nat>, k: nat)
    requires m > 0 && k <= BatchesStarted(n, m, running, stopAt) && Offset(k, m) < n
    requires running && !(stopAt.Some? && stopAt.value <= k)
    ensures k + 1 <= BatchesStarted(n, m, running, stopAt)
    ensures Offset(k + 1, m) == Offset(k, m) + m
  {
    BatchCountBound(n, m, k);
  }

  /** The state the batch loop leaves once it has started `k` batches is the result of `RunBatches`. */
  lemma RunBatchesAfter(urls: seq<string>, m: nat, parse: UrlParser, rs: seq<Response>, running: bool,
                        stopAt: Option<nat>, files: map<string, string>, e0: seq<Event>, r0: seq<Request>,
                        k: nat, t: Tally, requested: seq<Request>)
    requires |rs| == |urls| && m > 0 && BatchesStarted(|urls|, m, running, stopAt) == k
    requires var p := Min(Offset(k, m), |urls|);
             t == Process(Tally(0, e0, files), |urls|, parse, urls[..p], rs[..p])
             && requested == r0 + Requests(urls[..p])
    ensures var r := RunBatches(urls, m, parse, rs, running, stopAt, files);
            t.completed == r.completed && t.events == e0 + r.events && t.files == r.files
            && requested == r0 + r.requests
  {
    var p := Min(Offset(k, m), |urls|);
    ProcessFrame(0, e0, files, |urls|, parse, urls[..p], rs[..p]);
  }

  lemma ProcessSnoc(t: Tally, total: nat, parse: UrlParser, urls: seq<string>, rs: seq<Response>, q: nat)
    requires |urls| == |rs| && q < |urls| && total > 0
    ensures Process(t, total, parse, urls[..q + 1], rs[..q + 1])
         == Step(Process(t, total, parse, urls[..q], rs[..q]), total, parse, urls[q], rs[q])
  {
    assert urls[..q + 1][..q] == urls[..q];
    assert rs[..q + 1][..q] == rs[..q];
  }

  /** Running one more batch after the first `i` URLs runs the first `end`. */
  lemma Advance(t0: Tally, total: nat, parse: UrlParser, urls: seq<string>, rs: seq<Response>, i: nat, end: nat,
                before: Tally, after: Tally, r0: seq<Request>, r1: seq<Request>, r2: seq<Request>)
    requires |urls| == |rs| == total && i < end <= total
    requires before == Process(t0, total, parse, urls[..i], rs[..i])
    requires after == Process(before, total, parse, urls[i..end], rs[i..end])
    requires r1 == r0 + Requests(urls[..i]) && r2 == r1 + Requests(urls[i..end])
    ensures after == Process(t0, total, parse, urls[..end], rs[..end])
    ensures r2 == r0 + Requests(urls[..end])
  {
    PrefixSplit(urls, i, end);
    PrefixSplit(rs, i, end);
    AdvanceJoin(t0, total, parse, urls[..i], rs[..i], urls[i..end], rs[i..end], before, after, r0, r1, r2);
  }

  /** Running the results loop over `ys` after `xs` runs it over `xs + ys`, and issues their requests in turn. */
  lemma AdvanceJoin(t0: Tally, total: nat, parse: UrlParser, xs: seq<string>, xr: seq<Response>,
                    ys: seq<string>, yr: seq<Response>,
                    before: Tally, after: Tally, r0: seq<Request>, r1: seq<Request>, r2: seq<Request>)
    requires |xs| == |xr| && |ys| == |yr| && total > 0
    requires before == Process(t0, total, parse, xs, xr)
    requires after == Process(before, total, parse, ys, yr)
    requires r1 == r0 + Requests(xs) && r2 == r1 + Requests(ys)
    ensures after == Process(t0, total, parse, xs + ys, xr + yr)
    ensures r2 == r0 + Requests(xs + ys)
  {
    ProcessAppend(t0, total, parse, xs, xr, ys, yr);
    RequestsAppend(xs, ys);
    AppendAssoc(r0, Requests(xs), Requests(ys));
  }

  lemma {:induction false} ProcessAppend(t: Tally, total: nat, parse: UrlParser,
                                         xs: seq<string>, xr: seq<Response>, ys: seq<string>, yr: seq<Response>)
    requires |xs| == |xr| && |ys| == |yr| && total > 0
    ensures Process(Process(t, total, parse, xs, xr), total, parse, ys, yr)
         == Process(t, total, parse, xs + ys, xr + yr)
    decreases |ys|
  {
    if ys != [] {
      var n := |ys| - 1;
      var a := Process(t, total, parse, xs, xr);
      var zs, zr := xs + ys, xr + yr;
      calc {
        Process(a, total, parse, ys, yr);
        Step(Process(a, total, parse, ys[..n], yr[..n]), total, parse, ys[n], yr[n]);
        { ProcessAppend(t, total, parse, xs, xr, ys[..n], yr[..n]); }
        Step(Process(t, total, parse, xs + ys[..n], xr + yr[..n]), total, parse, ys[n], yr[n]);
        { AppendDropLast(xs, ys); AppendDropLast(xr, yr); }
        Process(t, total, parse, zs, zr);
      }
    } else {
      assert xs + ys == xs && xr + yr == xr;
    }
  }

  lemma {:induction false} RequestsAppend(xs: seq<string>, ys: seq<string>)
    ensures Requests(xs) + Requests(ys) == Requests(xs + ys)
    decreases |ys|
  {
    if ys != [] {
      var n := |ys| - 1;
      RequestsAppend(xs, ys[..n]);
      assert (xs + ys)[..|xs| + n] == xs + ys[..n];
    } else {
      assert xs + ys == xs;
    }
  }

  lemma RequestsSnoc(urls: seq<string>, q: nat)
    requires q < |urls|
    ensures Requests(urls[..q + 1]) == Requests(urls[..q]) + [Request(urls[q], SessionId(urls[q]))]
  {
    assert urls[..q + 1][..q] == urls[..q];
  }

  /** The signals emitted before a run do not affect it; its own are appended after them. */
  lemma {:induction false} ProcessFrame(c: nat, e0: seq<Event>, f: map<string, string>, total: nat,
                                        parse: UrlParser, urls: seq<string>, rs: seq<Response>)
    requires |urls| == |rs| && (urls != [] ==> total > 0)
    ensures var p := Process(Tally(c, [], f), total, parse, urls, rs);
            Process(Tally(c, e0, f), total, parse, urls, rs) == Tally(p.completed, e0 + p.events, p.files)
    decreases |urls|
  {
    if urls != [] {
      var n := |urls| - 1;
      ProcessFrame(c, e0, f, total, parse, urls[..n], rs[..n]);
      StepFrame(Process(Tally(c, [], f), total, parse, urls[..n], rs[..n]), e0, total, parse, urls[n], rs[n]);
    }
  }

  lemma StepFrame(q: Tally, e0: seq<Event>, total: nat, parse: UrlParser, url: string, r: Response)
    requires total > 0
    ensures var p := Step(q, total, parse, url, r);
            Step(Tally(q.completed, e0 + q.events, q.files), total, parse, url, r) == Tally(p.completed, e0 + p.events, p.files)
  {
    match r.outcome
    case Raised(e) =>
      assert e0 + q.events + [Error(CrawlFailedMessage(url, e))] == e0 + (q.events + [Error(CrawlFailedMessage(url, e))]);
    case Failed(e) =>
      assert e0 + q.events + [Error(CrawlFailedMessage(url, e))] == e0 + (q.events + [Error(CrawlFailedMessage(url, e))]);
    case Succeeded(md) =>
      var saved := if HasContent(r.outcome) then SaveEffect(q.files, parse, url, md.value, r.writeError)
                   else (q.files, []);
      var tail := saved.1 + [ProgressEvent(q.completed + 1, total)];
      assert e0 + q.events + saved.1 + [ProgressEvent(q.completed + 1, total)] == e0 + (q.events + saved.1 + [ProgressEvent(q.completed + 1, total)]);
  }
}
