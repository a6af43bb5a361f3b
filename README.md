# Crawl4AI GUI: the batch crawler worker, modelled in Dafny

This project models the part of the Crawl4AI desktop front end that does the work.
The GUI collects a list of URLs, an output directory and a concurrency limit. A
`CrawlerWorker` then crawls the URLs in batches of at most `max_concurrent`. For
each batch it starts one crawl per URL with its own session id and waits for the
whole batch. It then walks the results in list order: it saves the markdown of
each successful crawl to a file whose name is derived from the URL, counts
completed URLs, and emits `progress` and `error` signals. Before every batch it
checks the `is_running` flag, which the GUI's `stop()` clears. Before a crawl
starts, the window validates its input: the URL text box, every URL in it, and
the output directory.

Modules:

- `Wrappers`: `Option` and `Result`.
- `PyStr`: the Python string operations the code relies on, over `seq<char>`.
  These are `str.isspace`, `strip`, `split` on one character, `replace` of one
  character, `endswith` and `str(n)`.
- `UrlSplit`: the three `urlparse` components the code reads. The parser itself
  is a function value (`UrlParser`) that returns the components or the message of
  the exception it raised.
- `Filename`: the file name `save_markdown` derives for a URL.
- `Batching`: the slices `urls[i:i+m]` for `i` in `range(0, len(urls), m)`.
- `Worker`:
  - the `CrawlerWorker` class, whose methods update its `isRunning`, `requests`,
    `events` and `files` fields in place;
  - the specification functions its methods are proved against: `Step` for one
    result, `Process` for the results loop, `Requests` for the crawls started,
    and `Crawl` / `RunBatches` for a whole run.
- `WorkerProperties`: what a run guarantees, proved about those functions.
- `InputValidation`: `validate_inputs` and the URL list `start_crawling` hands
  to the worker.

A run is driven by data instead of I/O:

- `rs[q]` is what the crawl of `urls[q]` returns if it is started. It records
  whether the crawl raised, reported failure, or succeeded with or without
  markdown, and whether writing the markdown would raise.
- `setupError` is the exception raised while starting the crawl engine.
- `stopAt` is the batch before whose `is_running` check the GUI calls `stop()`.

## Model

| member | source | states |
|---|---|---|
| Filename.BaseName | crawler_gui.py:46 | The name is the network location, one "_", then the path with every "/" turned into "_", character by character, with its length. |
| Filename.WithExtension | crawler_gui.py:47-48 | The result ends in ".md". It is the name unchanged when the name already ends in ".md", and exactly the name followed by ".md" otherwise. |
| Filename.Derive | crawler_gui.py:46-48 | The derived name ends in ".md", starts with the network location and "_", carries the path with "/" replaced by "_", and is 3 longer exactly when the base name lacked ".md". |
| Filename.DeriveHasNoSlash | crawler_gui.py:46-48 | When the network location has no "/", the file name has none, so it names a file directly inside the output directory. |
| Filename.WithExtensionIdempotent | crawler_gui.py:47-48 | Adding the extension a second time changes nothing. |
| Filename.DoubleUnderscore | crawler_gui.py:46 | For a path starting with "/", the two characters after the network location are both "_". |
| Filename.DeriveExample | crawler_gui.py:46-48 | "a.com" with path "/x" gives "a.com__x.md". |
| Filename.DeriveEmptyPath | crawler_gui.py:46-48 | A URL with an empty path gives "a.com_.md": one underscore after the host. |
| Filename.DeriveKeepsMarkdownExtension | crawler_gui.py:47-48 | The path "/r.md" gives "a.com__r.md", with no second extension. |
| Filename.DeriveCollision | crawler_gui.py:46 | The distinct paths "/a/b" and "/a_b" give the same file name "a.com__a_b.md". |
| PyStr.Strip | crawler_gui.py:226 | `strip()` is no longer than its input, has no whitespace at either end, and is empty exactly when the input is all whitespace. |
| PyStr.StripRemovesOnlySpace | crawler_gui.py:226 | `strip()` is the middle slice of its input; everything removed before and after it is whitespace. |
| PyStr.StripIdempotent | crawler_gui.py:226 | Stripping twice is stripping once. |
| PyStr.Split | crawler_gui.py:225 | `split("\n")` gives at least one piece, no piece contains the separator, and joining the pieces with it gives the input back. |
| PyStr.SplitJoin | crawler_gui.py:225 | Splitting the join of pieces that do not contain the separator gives the pieces back. |
| PyStr.SplitSnoc | crawler_gui.py:225 | Appending a separator opens a new empty piece; appending any other character extends the last piece. |
| PyStr.Replace | crawler_gui.py:46 | `replace("/", "_")` keeps the length and changes exactly the "/" characters. |
| PyStr.DecimalRoundTrip | crawler_gui.py:107 | Reading back the decimal digits `str(n)` produces gives `n`. |
| Batching.Offset | crawler_gui.py:78 | The k-th value of `range(0, n, m)` is `k * m`. |
| Batching.BatchCountBound | crawler_gui.py:78 | Offset `k` lies inside the list exactly when `k` is below the number of batches. |
| Batching.Batches | crawler_gui.py:78-82 | The batches are non-empty and at most `m` long, all but the last exactly `m` long, and together they are the URL list. |
| Batching.BatchesLength | crawler_gui.py:78 | There is one batch per value of `range(0, len(urls), m)`. |
| Batching.BatchAt | crawler_gui.py:82 | Batch `k` is the slice `urls[k*m : k*m + m]`, clipped to the list. |
| Batching.BatchesPrefix | crawler_gui.py:78-82 | The first `k` batches together are the first `min(k*m, len(urls))` URLs. |
| Worker.CrawlerWorker.constructor | crawler_gui.py:32-37 | The worker keeps its URL list, output directory and limit, starts running, and has crawled, emitted and written nothing. |
| Worker.CrawlerWorker.Stop | crawler_gui.py:39-40 | The running flag is cleared. |
| Worker.CrawlerWorker.SaveMarkdown | crawler_gui.py:42-56 | Writes the content under the derived name when the URL parses and the write succeeds. Otherwise it leaves the files alone and emits "Error saving <url>: <detail>". |
| Worker.CrawlerWorker.HandleResult | crawler_gui.py:96-113 | Handling one result updates counter, signals and files as `Step` says: exception, reported failure, or success with save and progress. |
| Worker.CrawlerWorker.IssueBatch | crawler_gui.py:85-90 | One crawl request per URL of the batch, in order, each with session id "session_<url>". |
| Worker.CrawlerWorker.ProcessBatch | crawler_gui.py:96-113 | The loop over a batch's results leaves the state `Process` gives for that batch. |
| Worker.CrawlerWorker.RunBatch | crawler_gui.py:82-113 | Crawling the slice `urls[i:end]` turns the state reached by the first `i` URLs into the state reached by the first `end`. |
| Worker.CrawlerWorker.BatchLoop | crawler_gui.py:74-113 | The batch loop requests and walks, in list order, exactly the URLs of the batches started (all of them, or those before the first check that finds the flag cleared): counter, signals and files are `Process` over those URLs, requests are `Requests` of them, and the flag ends cleared exactly when a stop landed before some batch. |
| Worker.CrawlerWorker.CrawlUrls | crawler_gui.py:58-116 | A whole `crawl_urls` run ends in the state `Crawl` gives. A failed engine start or a zero limit emits one "Crawler error" signal, and a negative limit does nothing (`SetupFailure`, `ZeroLimit`, `NegativeLimit`). |
| Worker.SaveEffect | crawler_gui.py:42-56 | A save emits at most one signal, an error, and emits it exactly when the URL does not parse or the write raises. With no signal the file under the derived name now holds the content; otherwise the files are unchanged. |
| Worker.Step | crawler_gui.py:96-113 | One result adds 1 to `completed` unless the crawl raised, only appends signals, and writes exactly the file of a success with markdown whose URL parses and whose write does not raise. |
| Worker.Process | crawler_gui.py:96-113 | The results loop raises `completed` by at most the number of results, keeps every earlier signal as a prefix, and removes no file. |
| Worker.Requests | crawler_gui.py:85-90 | One request per URL, in list order, each with session id "session_<url>". |
| Worker.Percent | crawler_gui.py:106 | The progress value is the largest whole percentage not above `completed / total`, and is 100 when every URL is completed. |
| Worker.ProgressMessage | crawler_gui.py:107 | The progress text split at its "/" gives "Processed <completed>" and "<total> URLs". |
| Worker.RunBatches | crawler_gui.py:74-113 | A run requests a prefix of the URL list, in order, with session ids; completes at most as many URLs as it requests; removes no file; still has the flag set at the end only if it reached every URL; and does nothing when the flag is clear at the start. |
| Worker.Crawl | crawler_gui.py:58-116 | A whole run requests a prefix of the URL list, in order, completes at most as many URLs as it requests, and removes no file. A failed engine start or a limit of zero or less requests, completes and writes nothing. |
| Worker.LoopExit | crawler_gui.py:78-80 | When the loop ends, the number of batches started is what `BatchesStarted` says, and the flag is still set exactly when no stop landed before the last batch. |
| Worker.ProcessAppend | crawler_gui.py:96-113 | Running the results loop over one list and then another is running it over their concatenation. |
| Worker.ProcessFrame | crawler_gui.py:96-113 | Signals emitted before the results loop do not change what it does; its own signals follow them. |
| WorkerProperties.OutcomeKinds | crawler_gui.py:96-113 | Every result is exactly one of: exception, success, reported failure. |
| WorkerProperties.StepCounts | crawler_gui.py:96-113 | One result adds 1 to `completed` unless the crawl raised. It adds a progress signal exactly for a success, and error signals for an exception or reported failure and for a failed save. |
| WorkerProperties.ProcessCounts | crawler_gui.py:96-113 | Over the results loop, `completed` grows by the successes plus reported failures. Progress signals equal the successes; error signals equal exceptions plus reported failures plus failed saves. |
| WorkerProperties.ProgressMessageCounts | crawler_gui.py:107 | Two progress texts are equal only for the same completed count and the same total. |
| WorkerProperties.PercentMonotone | crawler_gui.py:106 | The progress value does not decrease as `completed` grows. |
| WorkerProperties.PercentBounds | crawler_gui.py:106 | The progress value lies in [0, 100] while `completed` is within the total, and is 100 at the total. |
| WorkerProperties.StepProgress | crawler_gui.py:96-113 | One result keeps progress values ordered and no higher than the value for the new count. |
| WorkerProperties.ProcessProgress | crawler_gui.py:104-108 | The results loop emits progress values in [0, 100] that never decrease. |
| WorkerProperties.LastSuccessReports | crawler_gui.py:104-108 | After a success, the last signal is the progress report for the current count. |
| WorkerProperties.ProcessFiles | crawler_gui.py:96-103 | After the results loop, every success with markdown whose URL parses and whose write does not raise has its file, holding the markdown of the last such result with that name. A file no result writes keeps its content, no name other than those derived from the URLs appears, and nothing is written when no success carries markdown. |
| WorkerProperties.CrawlWholeBatches | crawler_gui.py:78-90 | The URLs a run reaches are exactly those of the batches it starts, and each is requested once, in order. |
| WorkerProperties.CrawlCounts | crawler_gui.py:74-113 | Over a run, `completed` counts the successes and reported failures among reached URLs and is at most the list length; the progress and error signal counts are as in `ProcessCounts`. |
| WorkerProperties.CrawlProgressOrdered | crawler_gui.py:104-108 | Over any run, progress values lie in [0, 100] and never decrease. |
| WorkerProperties.CrawlStops | crawler_gui.py:78-80 | A stop before batch `s` limits the run to at most `s*m` requests and leaves the flag cleared. A run whose flag is already clear does nothing. |
| WorkerProperties.CrawlAllSucceeded | crawler_gui.py:104-108 | A run in which every crawl succeeds and nobody stops it completes every URL. Its last signal is progress 100 with "Processed n/n URLs". |
| WorkerProperties.CrawlFiles | crawler_gui.py:74-116 | A run keeps every existing file name, keeps the content of every file that no reached result writes, and adds only files whose names are derived from its URLs. Every reached success with markdown whose URL parses and whose write does not raise has its file, holding the markdown of the last reached such result with that name. |
| WorkerProperties.TwoSuccessesInOneBatch | crawler_gui.py:74-113 | Two URLs with limit 2 write a.com__x.md and a.com__y.md and emit progress 50 then 100. |
| WorkerProperties.ProgressOneOfTwo | crawler_gui.py:105-108 | The first of two completions reports 50 with "Processed 1/2 URLs". |
| WorkerProperties.ProgressTwoOfTwo | crawler_gui.py:105-108 | The second of two completions reports 100 with "Processed 2/2 URLs". |
| WorkerProperties.SingleReportedFailure | crawler_gui.py:109-113 | One reported failure "timeout" counts as completed, emits only "Failed to crawl <url>: timeout", and emits no progress. |
| WorkerProperties.StopAfterTwoBatches | crawler_gui.py:78-80 | Five URLs with limit 1 and a stop after two batches make exactly two requests and two completions, and leave the flag cleared. |
| WorkerProperties.SetupFailure | crawler_gui.py:115-116 | An engine that fails to start gives one "Crawler error: <e>" signal and no crawl. |
| WorkerProperties.ZeroLimit | crawler_gui.py:78-116 | A limit of 0 makes `range` raise: one "Crawler error: range() arg 3 must not be zero" signal, no request, no completion, files unchanged. |
| WorkerProperties.NegativeLimit | crawler_gui.py:78 | A negative limit gives an empty range: no signal, no request, files and flag unchanged. |
| WorkerProperties.FailureThenSuccess | crawler_gui.py:97-113 | A reported failure followed by a success completes both and ends on progress 100 with "Processed 2/2 URLs". |
| InputValidation.CleanLines | crawler_gui.py:226 | The cleaned lines are at most as many as the lines, and each is non-empty without surrounding whitespace. |
| InputValidation.CleanKeeps | crawler_gui.py:226 | Every line that is not blank contributes its stripped text. |
| InputValidation.CleanAddsNothing | crawler_gui.py:226 | Cleaning introduces no character that the lines lack. |
| InputValidation.CleanAppend | crawler_gui.py:226 | Cleaning keeps the lines in their order. |
| InputValidation.StripIsSlice | crawler_gui.py:226 | Every character of a stripped line occurs in the line. |
| InputValidation.StartUrls | crawler_gui.py:279-283 | Every URL handed to the worker is non-empty, has no surrounding whitespace and contains no line break. |
| InputValidation.ValidatedUrls | crawler_gui.py:225-226 | The list validation checks, with the whole text stripped first, is the list `start_crawling` hands to the worker. |
| InputValidation.Acceptable | crawler_gui.py:236-237 | A URL passes when it parses with a non-empty scheme and a non-empty network location. |
| InputValidation.Rejection | crawler_gui.py:236-244 | A failing URL is reported by name, as "Invalid URL format" when parsing raised and as "Invalid URL" otherwise, under the title "Validation Error". |
| InputValidation.CleanTrimLeft | crawler_gui.py:225 | Stripping leading whitespace from the whole text does not change the cleaned lines. |
| InputValidation.CleanTrimRight | crawler_gui.py:225 | Stripping trailing whitespace from the whole text does not change the cleaned lines. |
| InputValidation.CheckUrls | crawler_gui.py:233-244 | No error exactly when every URL parses with a non-empty scheme and network location. Otherwise the error names the first URL that fails: "Invalid URL format" if parsing raised, else "Invalid URL". |
| InputValidation.ValidateInputs | crawler_gui.py:222-263 | The checks run in the source's order and the first failure decides the error: no URLs; else the rejection of the first URL that fails; else no directory; else the directory that cannot be created. The directory is created exactly when validation passes and it did not exist. On success the worker's list is non-empty and every URL passes. |

## Left out

- The window, its widgets, the file dialogs and the message boxes. Only the
  titles and texts of the validation messages are modelled (`Title`, `Message`).
- `load_urls`, `update_progress`, `log_error`, `crawling_finished` and
  `cancel_crawling`. These only move text between widgets, or call `stop()`.
- Concurrency. `QThread`, `asyncio.run` and `asyncio.gather` are not modelled.
  A batch is modelled as all of its crawls being started, then all of their
  results being available, which is what `gather` guarantees. The GUI thread's
  `stop()` is placed at a batch boundary by `stopAt`. A stop that lands while a
  batch runs is seen at the next check, the same as one that lands just before it.
- A stop that lands during the last batch. The source then ends with the flag
  cleared, while the model reports it still set (`CrawlUrls`); no counter,
  signal, request or file differs.
- Cancelled crawls. `asyncio.gather(..., return_exceptions=True)` can yield an
  `asyncio.CancelledError`, which is not an `Exception`. The source would then
  read `result.success` on it (line 99), raise `AttributeError`, and end the run
  in the middle of a batch with "Crawler error". The three outcomes of `Outcome`
  (raised, succeeded, failed) cannot express it.
- The crawl engine and its configuration (browser flags, markdown generator
  options). Its answers are the `rs` data, and a failure to start is `setupError`.
- `os.path.join(self.output_dir, filename)`. Files are keyed by the derived
  name alone, inside the one output directory.
- File I/O. A failing write is `writeError`, and it leaves the files unchanged;
  a partly written file is not modelled. `os.path.isdir` and `os.makedirs` of
  `validate_inputs` are the parameters `isDir` and `makeDirsError`.
- `urlparse` internals. The parser is a function parameter.
- Worker.Percent: `int(completed * 100 / total)` divides as floating point in
  the source. The model uses integer division, which gives the same value for
  the non-negative operands that occur, apart from floating-point rounding.
- The engine's markdown object. `result.markdown` is modelled as an optional
  string, which is truthy when it is non-empty, and the saved content is that
  string.
- `str(e)` of the exceptions is given as text; exception types are not modelled.
- The `finished` signal that `run()` emits after every run.

Behaviour of the code worth noting:

- A crawl that reports failure (`result.success` false) counts towards
  `completed` but emits no progress signal. A crawl that raises does not count
  at all. A run in which some crawl raises never reaches 100, and neither does
  a run whose last result is a reported failure. A reported failure followed by
  a success can still end on 100 (`SingleReportedFailure`, `StepCounts`,
  `FailureThenSuccess`).
- A non-empty path starts with "/", so the file name has two underscores after
  the host: "a.com__x.md", not "a.com_x.md" (`DeriveExample`, `DoubleUnderscore`).
  A URL with no path gives "a.com_.md" (`DeriveEmptyPath`).
- Markdown files are written one after another, in list order, inside the
  results loop. Two URLs of the same batch that map to the same name do not race:
  the later one in the list wins (`ProcessFiles`).
- No parent directory is created for a file. The derived name has no "/" when
  the host has none (`DeriveHasNoSlash`).
- The spin box limits `max_concurrent` to 1..10, but the worker accepts any
  integer. A limit of 0 makes `range` raise, which is reported as
  "Crawler error: range() arg 3 must not be zero"; a negative limit crawls
  nothing.
