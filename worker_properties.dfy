/**
 * What a `crawl_urls` run guarantees, proved about the specification functions
 * the worker's methods are verified against: how `completed` relates to the
 * outcomes, how many progress and error signals are emitted, that progress
 * values stay in [0, 100] and never decrease, that cancellation stops at a
 * batch boundary, and which files can be written.
 */
module WorkerProperties {
  import opened Wrappers
  import opened PyStr
  import opened UrlSplit
  import opened Batching
  import opened Worker
  import opened Seqs
  import Filename

  // ---------------------------------------------------------------------------
  // Counting outcomes and signals
  // ---------------------------------------------------------------------------

  function CountSucceeded(rs: seq<Response>): nat {
    if rs == [] then 0
    else CountSucceeded(rs[..|rs| - 1]) + (if rs[|rs| - 1].outcome.Succeeded? then 1 else 0)
  }

  function CountFailed(rs: seq<Response>): nat {
    if rs == [] then 0
    else CountFailed(rs[..|rs| - 1]) + (if rs[|rs| - 1].outcome.Failed? then 1 else 0)
  }

  function CountRaised(rs: seq<Response>): nat {
    if rs == [] then 0
    else CountRaised(rs[..|rs| - 1]) + (if rs[|rs| - 1].outcome.Raised? then 1 else 0)
  }

  /** The responses whose markdown could not be saved. */
  function CountSaveFailures(parse: UrlParser, urls: seq<string>, rs: seq<Response>): nat
    requires |urls| == |rs|
  {
    if rs == [] then 0
    else
      var n := |rs| - 1;
      CountSaveFailures(parse, urls[..n], rs[..n]) + (if SaveFails(parse, urls[n], rs[n]) then 1 else 0)
  }

  function NumProgress(evs: seq<Event>): nat {
    if evs == [] then 0
    else NumProgress(evs[..|evs| - 1]) + (if evs[|evs| - 1].Progress? then 1 else 0)
  }

  function NumErrors(evs: seq<Event>): nat {
    if evs == [] then 0
    else NumErrors(evs[..|evs| - 1]) + (if evs[|evs| - 1].Error? then 1 else 0)
  }

  /** Every response is exactly one of the three kinds. */
  lemma {:induction false} OutcomeKinds(rs: seq<Response>)
    ensures CountSucceeded(rs) + CountFailed(rs) + CountRaised(rs) == |rs|
  {
    if rs != [] {
      OutcomeKinds(rs[..|rs| - 1]);
    }
  }

  lemma NumSnoc(a: seq<Event>, e: Event)
    ensures NumProgress(a + [e]) == NumProgress(a) + (if e.Progress? then 1 else 0)
    ensures NumErrors(a + [e]) == NumErrors(a) + (if e.Error? then 1 else 0)
  {
    assert (a + [e])[..|a|] == a;
  }

  /** What one pass of the results loop adds to the counter and to the signals. */
  lemma StepCounts(q: Tally, total: nat, parse: UrlParser, url: string, r: Response)
    requires total > 0
    ensures var p := Step(q, total, parse, url, r);
      && p.completed == q.completed + (if r.outcome.Raised? then 0 else 1)
      && NumProgress(p.events) == NumProgress(q.events) + (if r.outcome.Succeeded? then 1 else 0)
      && NumErrors(p.events) == NumErrors(q.events) + (if r.outcome.Succeeded? then 0 else 1)
                                + (if SaveFails(parse, url, r) then 1 else 0)
  {
    match r.outcome
    case Raised(e) =>
      NumSnoc(q.events, Error(CrawlFailedMessage(url, e)));
    case Failed(e) =>
      NumSnoc(q.events, Error(CrawlFailedMessage(url, e)));
    case Succeeded(md) =>
      var saved := if HasContent(r.outcome) then SaveEffect(q.files, parse, url, md.value, r.writeError)
                   else (q.files, []);
      var mid := q.events + saved.1;
      if saved.1 == [] {
        assert mid == q.events;
      } else {
        assert saved.1 == [saved.1[0]];
        NumSnoc(q.events, saved.1[0]);
      }
      NumSnoc(mid, ProgressEvent(q.completed + 1, total));
  }

  /**
   * Over the results loop: `completed` grows by one for every success and every
   * reported failure, never for a raised exception; one progress signal per
   * success; one error signal per exception, per reported failure and per
   * failed save.
   */
  lemma {:induction false} ProcessCounts(t: Tally, total: nat, parse: UrlParser, urls: seq<string>, rs: seq<Response>)
    requires |urls| == |rs| && (urls != [] ==> total > 0)
    ensures var p := Process(t, total, parse, urls, rs);
      && p.completed == t.completed + CountSucceeded(rs) + CountFailed(rs)
      && NumProgress(p.events) == NumProgress(t.events) + CountSucceeded(rs)
      && NumErrors(p.events) == NumErrors(t.events) + CountRaised(rs) + CountFailed(rs)
                                + CountSaveFailures(parse, urls, rs)
    decreases |urls|
  {
    if urls != [] {
      var n := |urls| - 1;
      var q := Process(t, total, parse, urls[..n], rs[..n]);
      ProcessCounts(t, total, parse, urls[..n], rs[..n]);
      StepCounts(q, total, parse, urls[n], rs[n]);
    }
  }

  // ---------------------------------------------------------------------------
  // Progress values
  // ---------------------------------------------------------------------------

  lemma PercentMonotone(a: nat, b: nat, total: nat)
    requires total > 0 && a <= b
    ensures Percent(a, total) <= Percent(b, total)
  {
    var x, y := a * 100, b * 100;
    assert x <= y;
    DivMonotone(x, y, total);
  }

  lemma DivMonotone(x: nat, y: nat, d: nat)
    requires d > 0 && x <= y
    ensures x / d <= y / d
  {
    if x / d > y / d {
      MulMonotone(y / d + 1, x / d, d);
      assert false;
    }
  }

  lemma MulMonotone(a: nat, b: nat, d: nat)
    requires a <= b
    ensures a * d <= b * d
  {
  }

  /** The progress text gives both counts back: different counts never share a message. */
  lemma ProgressMessageCounts(a: nat, b: nat, c: nat, d: nat)
    requires ProgressMessage(a, b) == ProgressMessage(c, d)
    ensures a == c && b == d
  {
    assert "Processed " + Decimal(a) == "Processed " + Decimal(c);
    assert Decimal(b) + " URLs" == Decimal(d) + " URLs";
    AppendCancelLeft("Processed ", Decimal(a), Decimal(c));
    AppendCancelRight(Decimal(b), Decimal(d), " URLs");
    DecimalRoundTrip(a);
    DecimalRoundTrip(b);
    DecimalRoundTrip(c);
    DecimalRoundTrip(d);
  }

  /** A progress value lies in [0, 100] while `completed` does not exceed the total, and is 100 at the total. */
  lemma PercentBounds(c: nat, total: nat)
    requires 0 < total && c <= total
    ensures 0 <= Percent(c, total) <= 100
    ensures c == total ==> Percent(c, total) == 100
  {
    PercentMonotone(c, total, total);
    assert total * 100 / total == 100;
  }

  /** Every progress value in `evs` is in [0, bound], and they never decrease. */
  ghost predicate ProgressOrdered(evs: seq<Event>, bound: int) {
    && (forall i :: 0 <= i < |evs| && evs[i].Progress? ==> 0 <= evs[i].percent <= bound)
    && (forall i, j :: 0 <= i < j < |evs| && evs[i].Progress? && evs[j].Progress? ==>
          evs[i].percent <= evs[j].percent)
  }

  lemma OrderedAppend(evs: seq<Event>, extra: seq<Event>, bound: int, bound': int)
    requires ProgressOrdered(evs, bound) && bound <= bound'
    requires forall i :: 0 <= i < |extra| ==> extra[i].Error?
    ensures ProgressOrdered(evs + extra, bound')
  {
  }

  lemma OrderedSnocProgress(evs: seq<Event>, e: Event, bound: int)
    requires ProgressOrdered(evs, bound) && e.Progress? && 0 <= bound <= e.percent
    ensures ProgressOrdered(evs + [e], e.percent)
  {
  }

  /** One pass of the results loop keeps the progress values ordered and within the value for the new count. */
  lemma StepProgress(q: Tally, total: nat, parse: UrlParser, url: string, r: Response)
    requires total > 0 && q.completed < total
    requires ProgressOrdered(q.events, Percent(q.completed, total))
    ensures var p := Step(q, total, parse, url, r);
      p.completed <= q.completed + 1 && ProgressOrdered(p.events, Percent(p.completed, total))
  {
    var b := Percent(q.completed, total);
    PercentMonotone(q.completed, q.completed + 1, total);
    PercentBounds(q.completed, total);
    match r.outcome
    case Raised(e) =>
      OrderedAppend(q.events, [Error(CrawlFailedMessage(url, e))], b, b);
    case Failed(e) =>
      OrderedAppend(q.events, [Error(CrawlFailedMessage(url, e))], b, Percent(q.completed + 1, total));
    case Succeeded(md) =>
      var saved := if HasContent(r.outcome) then SaveEffect(q.files, parse, url, md.value, r.writeError)
                   else (q.files, []);
      OrderedAppend(q.events, saved.1, b, b);
      OrderedSnocProgress(q.events + saved.1, ProgressEvent(q.completed + 1, total), b);
  }

  /**
   * While `completed` stays within the total, the results loop only emits
   * progress values in [0, 100] that never decrease, and none above the
   * value for the current `completed`.
   */
  lemma {:induction false} ProcessProgress(t: Tally, total: nat, parse: UrlParser, urls: seq<string>, rs: seq<Response>)
    requires |urls| == |rs| && total > 0 && t.completed + |urls| <= total
    requires ProgressOrdered(t.events, Percent(t.completed, total))
    ensures var p := Process(t, total, parse, urls, rs);
      && p.completed <= t.completed + |urls|
      && ProgressOrdered(p.events, Percent(p.completed, total))
      && Percent(p.completed, total) <= 100
    decreases |urls|
  {
    if urls == [] {
      PercentBounds(t.completed, total);
    } else {
      var n := |urls| - 1;
      var q := Process(t, total, parse, urls[..n], rs[..n]);
      ProcessProgress(t, total, parse, urls[..n], rs[..n]);
      StepProgress(q, total, parse, urls[n], rs[n]);
      PercentBounds(Process(t, total, parse, urls, rs).completed, total);
    }
  }

  /** When the last response is a success, the last signal is the progress report for the final count. */
  lemma LastSuccessReports(t: Tally, total: nat, parse: UrlParser, urls: seq<string>, rs: seq<Response>)
    requires |urls| == |rs| && total > 0 && urls != [] && rs[|rs| - 1].outcome.Succeeded?
    ensures var p := Process(t, total, parse, urls, rs);
            p.events != [] && p.events[|p.events| - 1] == ProgressEvent(p.completed, total)
  {
  }

  // ---------------------------------------------------------------------------
  // Files
  // ---------------------------------------------------------------------------

  /** The names `save_markdown` can derive for the URLs of `urls` that parse. */
  ghost function DerivedNames(parse: UrlParser, urls: seq<string>): set<string> {
    set u | u in urls && parse(u).Success? :: Filename.Derive(parse(u).value.netloc, parse(u).value.path)
  }

  /** Response `q` writes a file, and no later response writes a file of the same name. */
  ghost predicate LastWrite(parse: UrlParser, urls: seq<string>, rs: seq<Response>, q: nat)
    requires |urls| == |rs| && q < |urls|
  {
    && Writes(parse, urls[q], rs[q])
    && forall j :: q < j < |urls| && Writes(parse, urls[j], rs[j]) ==> SavedName(parse, urls[j]) != SavedName(parse, urls[q])
  }

  /** Some response writes a file called `name`. */
  ghost predicate Overwrites(parse: UrlParser, urls: seq<string>, rs: seq<Response>, name: string)
    requires |urls| == |rs|
  {
    exists q :: 0 <= q < |urls| && Writes(parse, urls[q], rs[q]) && SavedName(parse, urls[q]) == name
  }

  /**
   * The files the results loop leaves: every response that has markdown, a
   * URL that parses and a write that does not raise leaves its file, holding
   * the markdown of the last such response with that file name; a file no
   * response writes keeps its content; no other name appears; and nothing is
   * written when no success carries markdown.
   */
  lemma {:induction false} ProcessFiles(t: Tally, total: nat, parse: UrlParser, urls: seq<string>, rs: seq<Response>)
    requires |urls| == |rs| && (urls != [] ==> total > 0)
    ensures var p := Process(t, total, parse, urls, rs);
      && p.files.Keys <= t.files.Keys + DerivedNames(parse, urls)
      && (forall q :: 0 <= q < |urls| && Writes(parse, urls[q], rs[q]) ==> SavedName(parse, urls[q]) in p.files)
      && (forall q :: 0 <= q < |urls| && LastWrite(parse, urls, rs, q) ==>
            p.files[SavedName(parse, urls[q])] == rs[q].outcome.markdown.value)
      && (forall name :: name in t.files && !Overwrites(parse, urls, rs, name) ==>
            name in p.files && p.files[name] == t.files[name])
      && ((forall q :: 0 <= q < |rs| ==> !HasContent(rs[q].outcome)) ==> p.files == t.files)
    decreases |urls|
  {
    ProcessNames(t, total, parse, urls, rs);
    ProcessWrites(t, total, parse, urls, rs);
    ProcessLastWrite(t, total, parse, urls, rs);
    ProcessKeeps(t, total, parse, urls, rs);
  }

  lemma {:induction false} ProcessNames(t: Tally, total: nat, parse: UrlParser, urls: seq<string>, rs: seq<Response>)
    requires |urls| == |rs| && (urls != [] ==> total > 0)
    ensures var p := Process(t, total, parse, urls, rs);
      && p.files.Keys <= t.files.Keys + DerivedNames(parse, urls)
      && ((forall q :: 0 <= q < |rs| ==> !HasContent(rs[q].outcome)) ==> p.files == t.files)
    decreases |urls|
  {
    if urls != [] {
      var n := |urls| - 1;
      ProcessNames(t, total, parse, urls[..n], rs[..n]);
      StepFiles(Process(t, total, parse, urls[..n], rs[..n]), total, parse, urls[n], rs[n]);
      assert DerivedNames(parse, urls[..n]) <= DerivedNames(parse, urls) by {
        forall u | u in urls[..n] ensures u in urls { }
      }
      assert DerivedNames(parse, [urls[n]]) <= DerivedNames(parse, urls) by {
        assert urls[n] in urls;
      }
    }
  }

  lemma {:induction false} ProcessWrites(t: Tally, total: nat, parse: UrlParser, urls: seq<string>, rs: seq<Response>)
    requires |urls| == |rs| && (urls != [] ==> total > 0)
    ensures var p := Process(t, total, parse, urls, rs);
      forall q :: 0 <= q < |urls| && Writes(parse, urls[q], rs[q]) ==> SavedName(parse, urls[q]) in p.files
    decreases |urls|
  {
    if urls != [] {
      var n := |urls| - 1;
      var xs, ys := urls[..n], rs[..n];
      var prev := Process(t, total, parse, xs, ys);
      var p := Step(prev, total, parse, urls[n], rs[n]);
      assert Process(t, total, parse, urls, rs) == p;
      ProcessWrites(t, total, parse, xs, ys);
      assert prev.files.Keys <= p.files.Keys;
      forall q | 0 <= q < |urls| && Writes(parse, urls[q], rs[q])
        ensures SavedName(parse, urls[q]) in p.files
      {
        if q < n {
          assert xs[q] == urls[q] && ys[q] == rs[q];
          assert SavedName(parse, urls[q]) in prev.files;
        } else {
          assert p.files == prev.files[SavedName(parse, urls[n]) := rs[n].outcome.markdown.value];
        }
      }
    }
  }

  lemma {:induction false} ProcessLastWrite(t: Tally, total: nat, parse: UrlParser, urls: seq<string>, rs: seq<Response>)
    requires |urls| == |rs| && (urls != [] ==> total > 0)
    ensures var p := Process(t, total, parse, urls, rs);
      forall q :: 0 <= q < |urls| && LastWrite(parse, urls, rs, q) ==>
        SavedName(parse, urls[q]) in p.files && p.files[SavedName(parse, urls[q])] == rs[q].outcome.markdown.value
    decreases |urls|
  {
    if urls != [] {
      var n := |urls| - 1;
      var xs, ys := urls[..n], rs[..n];
      var prev := Process(t, total, parse, xs, ys);
      var p := Step(prev, total, parse, urls[n], rs[n]);
      assert Process(t, total, parse, urls, rs) == p;
      ProcessLastWrite(t, total, parse, xs, ys);
      var written := Writes(parse, urls[n], rs[n]);
      assert written ==> p.files == prev.files[SavedName(parse, urls[n]) := rs[n].outcome.markdown.value];
      assert !written ==> p.files == prev.files;
      forall q | 0 <= q < |urls| && LastWrite(parse, urls, rs, q)
        ensures SavedName(parse, urls[q]) in p.files && p.files[SavedName(parse, urls[q])] == rs[q].outcome.markdown.value
      {
        if q < n {
          assert xs[q] == urls[q] && ys[q] == rs[q];
          forall j | q < j < n && Writes(parse, xs[j], ys[j])
            ensures SavedName(parse, xs[j]) != SavedName(parse, xs[q])
          {
            assert xs[j] == urls[j] && ys[j] == rs[j];
          }
          assert LastWrite(parse, xs, ys, q);
          var name := SavedName(parse, urls[q]);
          assert name in prev.files && prev.files[name] == rs[q].outcome.markdown.value;
          assert written ==> SavedName(parse, urls[n]) != name;
        } else {
          assert written;
        }
      }
    }
  }

  lemma {:induction false} ProcessKeeps(t: Tally, total: nat, parse: UrlParser, urls: seq<string>, rs: seq<Response>)
    requires |urls| == |rs| && (urls != [] ==> total > 0)
    ensures var p := Process(t, total, parse, urls, rs);
      forall name :: name in t.files && !Overwrites(parse, urls, rs, name) ==>
        name in p.files && p.files[name] == t.files[name]
    decreases |urls|
  {
    if urls != [] {
      var n := |urls| - 1;
      var xs, ys := urls[..n], rs[..n];
      ProcessKeeps(t, total, parse, xs, ys);
      forall name | name in t.files && !Overwrites(parse, urls, rs, name)
        ensures !Overwrites(parse, xs, ys, name)
      {
        forall q | 0 <= q < n && Writes(parse, xs[q], ys[q])
          ensures SavedName(parse, xs[q]) != name
        {
          assert xs[q] == urls[q] && ys[q] == rs[q];
        }
      }
    }
  }

  /** One pass of the results loop removes no file and writes at most the file named after its URL. */
  lemma StepFiles(q: Tally, total: nat, parse: UrlParser, url: string, r: Response)
    requires total > 0
    ensures var p := Step(q, total, parse, url, r);
      && q.files.Keys <= p.files.Keys
      && p.files.Keys <= q.files.Keys + DerivedNames(parse, [url])
      && (!HasContent(r.outcome) ==> p.files == q.files)
  {
    if HasContent(r.outcome) && parse(url).Success? && r.writeError.None? {
      assert url in [url];
    }
  }

  // ---------------------------------------------------------------------------
  // Whole runs
  // ---------------------------------------------------------------------------

  /** The number of URLs a run with a positive limit reaches: those of the batches it starts. */
  function Reached(urls: seq<string>, m: nat, running: bool, stopAt: Option<nat>): nat
    requires m > 0
  {
    Min(Offset(BatchesStarted(|urls|, m, running, stopAt), m), |urls|)
  }

  /**
   * The URLs a run reaches are exactly the URLs of the first `k` batches, `k`
   * being the number of batches started; each was handed to the engine once,
   * in order, with its own session id.
   */
  lemma CrawlWholeBatches(urls: seq<string>, m: nat, parse: UrlParser, rs: seq<Response>,
                          running: bool, stopAt: Option<nat>, files: map<string, string>)
    requires |rs| == |urls| && m > 0
    ensures var k := BatchesStarted(|urls|, m, running, stopAt);
      && k <= |Batches(urls, m)|
      && urls[..Reached(urls, m, running, stopAt)] == Concat(Batches(urls, m)[..k])
      && Crawl(urls, m, parse, rs, None, running, stopAt, files).requests
         == Requests(Concat(Batches(urls, m)[..k]))
  {
    BatchesLength(urls, m);
    BatchesPrefix(urls, m, BatchesStarted(|urls|, m, running, stopAt));
  }

  /**
   * Counting over a whole run: `completed` is the number of successes and
   * reported failures among the reached URLs, which is at most the number
   * reached, itself at most the list length; one progress signal per success;
   * one error signal per exception, reported failure and failed save.
   */
  lemma CrawlCounts(urls: seq<string>, m: nat, parse: UrlParser, rs: seq<Response>,
                    running: bool, stopAt: Option<nat>, files: map<string, string>)
    requires |rs| == |urls| && m > 0
    ensures var p := Reached(urls, m, running, stopAt);
            var r := Crawl(urls, m, parse, rs, None, running, stopAt, files);
      && r.completed == CountSucceeded(rs[..p]) + CountFailed(rs[..p])
      && r.completed <= p <= |urls|
      && NumProgress(r.events) == CountSucceeded(rs[..p])
      && NumErrors(r.events) == CountRaised(rs[..p]) + CountFailed(rs[..p]) + CountSaveFailures(parse, urls[..p], rs[..p])
  {
    var p := Reached(urls, m, running, stopAt);
    ProcessCounts(Tally(0, [], files), |urls|, parse, urls[..p], rs[..p]);
    OutcomeKinds(rs[..p]);
  }

  /** Progress values over a whole run lie in [0, 100] and never decrease. */
  lemma CrawlProgressOrdered(urls: seq<string>, m: int, parse: UrlParser, rs: seq<Response>,
                             setupError: Option<string>, running: bool, stopAt: Option<nat>,
                             files: map<string, string>)
    requires |rs| == |urls|
    ensures ProgressOrdered(Crawl(urls, m, parse, rs, setupError, running, stopAt, files).events, 100)
  {
    if setupError.None? && m > 0 {
      var p := Reached(urls, m, running, stopAt);
      if p > 0 {
        ProcessProgress(Tally(0, [], files), |urls|, parse, urls[..p], rs[..p]);
        var r := Crawl(urls, m, parse, rs, setupError, running, stopAt, files);
        var c := r.completed;
        assert ProgressOrdered(r.events, Percent(c, |urls|));
      }
    }
  }

  /**
   * Cancellation: when `Stop` lands before the check of batch `s`, no batch
   * from `s` on is started, so at most `s * m` URLs are handed to the engine;
   * when the flag is already cleared at the start, nothing happens at all.
   */
  lemma CrawlStops(urls: seq<string>, m: nat, parse: UrlParser, rs: seq<Response>,
                   running: bool, stopAt: Option<nat>, files: map<string, string>)
    requires |rs| == |urls| && m > 0
    ensures var r := Crawl(urls, m, parse, rs, None, running, stopAt, files);
      && |r.requests| == Reached(urls, m, running, stopAt)
      && (stopAt.Some? ==> |r.requests| <= Offset(stopAt.value, m))
      && (stopAt.Some? && stopAt.value < BatchCount(|urls|, m) ==> !r.running)
      && (!running ==> r.requests == [] && r.events == [] && r.completed == 0 && r.files == files)
  {
    if stopAt.Some? {
      OffsetMonotone(BatchesStarted(|urls|, m, running, stopAt), stopAt.value, m);
    }
  }

  /**
   * A run that is not cancelled and in which every crawl succeeds completes
   * every URL, and its last signal is the progress report "Processed n/n URLs"
   * with value 100.
   */
  lemma CrawlAllSucceeded(urls: seq<string>, m: nat, parse: UrlParser, rs: seq<Response>,
                          files: map<string, string>)
    requires |rs| == |urls| > 0 && m > 0
    requires forall q :: 0 <= q < |rs| ==> rs[q].outcome.Succeeded?
    ensures var r := Crawl(urls, m, parse, rs, None, true, None, files);
      && r.completed == |urls|
      && r.events != [] && r.events[|r.events| - 1] == Progress(100, ProgressMessage(|urls|, |urls|))
  {
    var n := |urls|;
    BatchCountBound(n, m, BatchCount(n, m));
    assert Reached(urls, m, true, None) == n;
    assert urls[..n] == urls && rs[..n] == rs;
    ProcessCounts(Tally(0, [], files), n, parse, urls, rs);
    AllSucceededCount(rs);
    LastSuccessReports(Tally(0, [], files), n, parse, urls, rs);
    PercentBounds(n, n);
  }

  lemma {:induction false} AllSucceededCount(rs: seq<Response>)
    requires forall q :: 0 <= q < |rs| ==> rs[q].outcome.Succeeded?
    ensures CountSucceeded(rs) == |rs| && CountFailed(rs) == 0
  {
    if rs != [] {
      AllSucceededCount(rs[..|rs| - 1]);
    }
  }

  /**
   * Over a whole run no file is removed and the only files written are
   * those derived from reached URLs; every reached response that has
   * markdown, a URL that parses and a write that does not raise leaves its
   * file, holding the markdown of the last reached such response with that
   * name.
   */
  lemma CrawlFiles(urls: seq<string>, m: int, parse: UrlParser, rs: seq<Response>,
                   setupError: Option<string>, running: bool, stopAt: Option<nat>,
                   files: map<string, string>)
    requires |rs| == |urls|
    ensures var r := Crawl(urls, m, parse, rs, setupError, running, stopAt, files);
      && files.Keys <= r.files.Keys <= files.Keys + DerivedNames(parse, urls)
      && (setupError.None? && m > 0 ==>
            var p := Reached(urls, m, running, stopAt);
            && (forall q :: 0 <= q < p && Writes(parse, urls[q], rs[q]) ==> SavedName(parse, urls[q]) in r.files)
            && (forall q :: 0 <= q < p && LastWrite(parse, urls[..p], rs[..p], q) ==>
                  r.files[SavedName(parse, urls[q])] == rs[q].outcome.markdown.value)
            && (forall name :: name in files && !Overwrites(parse, urls[..p], rs[..p], name) ==>
                  r.files[name] == files[name]))
  {
    if setupError.None? && m > 0 {
      var p := Reached(urls, m, running, stopAt);
      var xs, ys := urls[..p], rs[..p];
      ProcessFiles(Tally(0, [], files), |urls|, parse, xs, ys);
      assert DerivedNames(parse, xs) <= DerivedNames(parse, urls) by {
        forall u | u in xs ensures u in urls { }
      }
      forall q | 0 <= q < p
        ensures xs[q] == urls[q] && ys[q] == rs[q]
      {
      }
    }
  }

  // ---------------------------------------------------------------------------
  // Example runs
  // ---------------------------------------------------------------------------

  /** The first pass over an empty tally: the outcome of `Step` from a fresh start. */
  lemma FirstStep(total: nat, parse: UrlParser, u: string, r: Response, files: map<string, string>)
    requires total > 0
    ensures Process(Tally(0, [], files), total, parse, [u], [r]) == Step(Tally(0, [], files), total, parse, u, r)
  {
    assert [u][..0] == [] && [r][..0] == [];
  }

  /** Two URLs, limit 2, both crawled with markdown: two files, progress 50 then 100. */
  lemma TwoSuccessesInOneBatch(parse: UrlParser)
    requires parse("http://a.com/x") == Success(UrlParts("http", "a.com", "/x"))
    requires parse("http://a.com/y") == Success(UrlParts("http", "a.com", "/y"))
    ensures var r := Crawl(["http://a.com/x", "http://a.com/y"], 2, parse,
                           [Response(Succeeded(Some("X")), None), Response(Succeeded(Some("Y")), None)],
                           None, true, None, map[]);
      && r.completed == 2
      && r.events == [Progress(50, "Processed 1/2 URLs"), Progress(100, "Processed 2/2 URLs")]
      && r.files == map["a.com__x.md" := "X", "a.com__y.md" := "Y"]
  {
    var urls := ["http://a.com/x", "http://a.com/y"];
    var rs := [Response(Succeeded(Some("X")), None), Response(Succeeded(Some("Y")), None)];
    var t0 := Tally(0, [], map[]);
    OneBatchRun(urls, 2, parse, rs, map[]);
    ProcessSnoc(t0, 2, parse, urls, rs, 1);
    TakeOne(urls);
    TakeOne(rs);
    TakeAll(urls);
    TakeAll(rs);
    TwoSuccessesFirst(parse);
    TwoSuccessesSecond(parse);
    assert Process(t0, 2, parse, urls, rs)
        == Tally(2, [Progress(50, "Processed 1/2 URLs"), Progress(100, "Processed 2/2 URLs")],
                 map["a.com__x.md" := "X", "a.com__y.md" := "Y"]);
  }

  /** A list that fits in one batch, with no stop: the run is the results loop over the whole list. */
  lemma OneBatchRun(urls: seq<string>, m: nat, parse: UrlParser, rs: seq<Response>, files: map<string, string>)
    requires |urls| == |rs| && 0 < |urls| <= m
    ensures var t := Process(Tally(0, [], files), |urls|, parse, urls, rs);
            Crawl(urls, m, parse, rs, None, true, None, files) == RunResult(t.completed, Requests(urls), t.events, t.files, true)
  {
    assert BatchCount(|urls|, m) == 1;
    assert Min(Offset(1, m), |urls|) == |urls|;
    assert urls[..|urls|] == urls && rs[..|rs|] == rs;
  }

  lemma TwoSuccessesFirst(parse: UrlParser)
    requires parse("http://a.com/x") == Success(UrlParts("http", "a.com", "/x"))
    ensures Process(Tally(0, [], map[]), 2, parse, ["http://a.com/x"], [Response(Succeeded(Some("X")), None)])
            == Tally(1, [Progress(50, "Processed 1/2 URLs")], map["a.com__x.md" := "X"])
  {
    var r := Response(Succeeded(Some("X")), None);
    FirstStep(2, parse, "http://a.com/x", r, map[]);
    Filename.DeriveExample();
    ProgressOneOfTwo();
  }

  lemma ProgressOneOfTwo()
    ensures ProgressEvent(1, 2) == Progress(50, "Processed 1/2 URLs")
  {
    HalfPercent();
    MessageOneOfTwo();
  }

  lemma HalfPercent()
    ensures Percent(1, 2) == 50
  {
  }

  lemma MessageOneOfTwo()
    ensures ProgressMessage(1, 2) == "Processed 1/2 URLs"
  {
    assert Decimal(1) == "1" && Decimal(2) == "2";
  }

  lemma ProgressTwoOfTwo()
    ensures ProgressEvent(2, 2) == Progress(100, "Processed 2/2 URLs")
  {
    MessageTwoOfTwo();
  }

  lemma MessageTwoOfTwo()
    ensures ProgressMessage(2, 2) == "Processed 2/2 URLs"
  {
    assert Decimal(2) == "2";
  }

  lemma TwoSuccessesSecond(parse: UrlParser)
    requires parse("http://a.com/y") == Success(UrlParts("http", "a.com", "/y"))
    ensures Step(Tally(1, [Progress(50, "Processed 1/2 URLs")], map["a.com__x.md" := "X"]), 2, parse,
                 "http://a.com/y", Response(Succeeded(Some("Y")), None))
            == Tally(2, [Progress(50, "Processed 1/2 URLs"), Progress(100, "Processed 2/2 URLs")],
                     map["a.com__x.md" := "X", "a.com__y.md" := "Y"])
  {
    SecondName(parse);
    ProgressTwoOfTwo();
  }

  lemma SecondName(parse: UrlParser)
    requires parse("http://a.com/y") == Success(UrlParts("http", "a.com", "/y"))
    ensures SavedName(parse, "http://a.com/y") == "a.com__y.md"
  {
    assert Replace("/y", '/', '_') == "_y";
    assert Filename.BaseName("a.com", "/y") == "a.com__y";
    assert !EndsWith("a.com__y", Filename.Extension);
  }

  /** One URL whose crawl reports failure "timeout": one error, `completed` is 1, and no progress signal at all. */
  lemma SingleReportedFailure(parse: UrlParser, m: nat)
    requires m > 0
    ensures var r := Crawl(["http://a.com/x"], m, parse, [Response(Failed("timeout"), None)], None, true, None, map[]);
      && r.completed == 1
      && r.events == [Error("Failed to crawl http://a.com/x: timeout")]
      && r.files == map[]
  {
    var urls := ["http://a.com/x"];
    var rs := [Response(Failed("timeout"), None)];
    assert BatchCount(1, m) == 1;
    assert Min(Offset(1, m), 1) == 1;
    assert urls[..1] == urls && rs[..1] == rs;
    FirstStep(1, parse, urls[0], rs[0], map[]);
    TimeoutMessage();
  }

  lemma TimeoutMessage()
    ensures CrawlFailedMessage("http://a.com/x", "timeout") == "Failed to crawl http://a.com/x: timeout"
  {
  }

  /** Five URLs, limit 1, `Stop` landing after two batches: two crawls started and completed, three never attempted. */
  lemma StopAfterTwoBatches(urls: seq<string>, parse: UrlParser, rs: seq<Response>)
    requires |urls| == |rs| == 5
    requires forall q :: 0 <= q < 5 ==> rs[q].outcome.Succeeded?
    ensures var r := Crawl(urls, 1, parse, rs, None, true, Some(2), map[]);
      && r.completed == 2
      && r.requests == [Request(urls[0], SessionId(urls[0])), Request(urls[1], SessionId(urls[1]))]
      && !r.running
  {
    assert BatchCount(1, 1) == 1 && BatchCount(2, 1) == 2 && BatchCount(3, 1) == 3;
    assert BatchCount(4, 1) == 4 && BatchCount(5, 1) == 5;
    assert BatchesStarted(5, 1, true, Some(2)) == 2;
    assert Min(Offset(2, 1), 5) == 2;
    var u2, r2 := urls[..2], rs[..2];
    var q := Requests(u2);
    assert q[0] == Request(urls[0], SessionId(urls[0])) && q[1] == Request(urls[1], SessionId(urls[1]));
    assert q == [q[0], q[1]];
    ProcessCounts(Tally(0, [], map[]), 5, parse, u2, r2);
    AllSucceededCount(r2);
  }

  /** A crawler that fails to start emits one "Crawler error" signal and crawls nothing. */
  lemma SetupFailure(urls: seq<string>, m: int, parse: UrlParser, rs: seq<Response>, e: string,
                     running: bool, stopAt: Option<nat>, files: map<string, string>)
    requires |rs| == |urls|
    ensures var r := Crawl(urls, m, parse, rs, Some(e), running, stopAt, files);
      r.events == [Error("Crawler error: " + e)] && r.requests == [] && r.completed == 0 && r.files == files
  {
  }

  /** A limit of 0 makes `range` raise: one "Crawler error" signal and nothing crawled. */
  lemma ZeroLimit(urls: seq<string>, parse: UrlParser, rs: seq<Response>,
                  running: bool, stopAt: Option<nat>, files: map<string, string>)
    requires |rs| == |urls|
    ensures var r := Crawl(urls, 0, parse, rs, None, running, stopAt, files);
      && r.events == [Error("Crawler error: range() arg 3 must not be zero")]
      && r.requests == [] && r.completed == 0 && r.files == files
  {
    assert CrawlerErrorMessage(RangeStepZero) == "Crawler error: range() arg 3 must not be zero";
  }

  /** A negative limit gives an empty `range`: no signal and nothing crawled. */
  lemma NegativeLimit(urls: seq<string>, m: int, parse: UrlParser, rs: seq<Response>,
                      running: bool, stopAt: Option<nat>, files: map<string, string>)
    requires |rs| == |urls| && m < 0
    ensures var r := Crawl(urls, m, parse, rs, None, running, stopAt, files);
      r.events == [] && r.requests == [] && r.completed == 0 && r.files == files && r.running == running
  {
  }

  /**
   * A reported failure still counts as completed, so a success after it can
   * end the run on progress 100: "Processed 2/2 URLs".
   */
  lemma FailureThenSuccess(parse: UrlParser)
    ensures var r := Crawl(["http://a.com/u", "http://a.com/v"], 2, parse,
                           [Response(Failed("x"), None), Response(Succeeded(None), None)],
                           None, true, None, map[]);
      && r.completed == 2
      && r.events != [] && r.events[|r.events| - 1] == Progress(100, "Processed 2/2 URLs")
  {
    var urls := ["http://a.com/u", "http://a.com/v"];
    var rs := [Response(Failed("x"), None), Response(Succeeded(None), None)];
    OneBatchRun(urls, 2, parse, rs, map[]);
    ProcessCounts(Tally(0, [], map[]), 2, parse, urls, rs);
    LastSuccessReports(Tally(0, [], map[]), 2, parse, urls, rs);
    ProgressTwoOfTwo();
  }
}
