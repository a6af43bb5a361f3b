/**
 * The checks the window runs before it starts a crawl, and the URL list it
 * hands to the worker. Both read the text box line by line: split on "\n",
 * strip every line, drop the blank ones. Validation strips the whole text
 * first; the start of the crawl does not. Both give the same list.
 */
module InputValidation {
  import opened Wrappers
  import opened PyStr
  import opened UrlSplit
  import opened Seqs

  const Newline: char := '\n'

  /** `[l.strip() for l in lines if l.strip()]`. */
  function CleanLines(lines: seq<string>): (r: seq<string>)
    ensures |r| <= |lines|
    ensures forall k :: 0 <= k < |r| ==> r[k] != [] && !IsSpace(r[k][0]) && !IsSpace(r[k][|r[k]| - 1])
  {
    if lines == [] then []
    else
      var s := Strip(lines[0]);
      (if s == [] then [] else [s]) + CleanLines(lines[1..])
  }

  /** Every non-blank line contributes its stripped text. */
  lemma {:induction false} CleanKeeps(lines: seq<string>)
    ensures forall i :: 0 <= i < |lines| && Strip(lines[i]) != [] ==> Strip(lines[i]) in CleanLines(lines)
    decreases |lines|
  {
    if lines != [] {
      var rest := lines[1..];
      CleanKeeps(rest);
      forall i | 0 <= i < |lines| && Strip(lines[i]) != []
        ensures Strip(lines[i]) in CleanLines(lines)
      {
        if i > 0 {
          assert lines[i] == rest[i - 1];
        }
      }
    }
  }

  /** Cleaning adds no character: a character absent from every line is absent from every cleaned line. */
  lemma {:induction false} CleanAddsNothing(lines: seq<string>, c: char)
    requires forall i :: 0 <= i < |lines| ==> c !in lines[i]
    ensures forall k :: 0 <= k < |CleanLines(lines)| ==> c !in CleanLines(lines)[k]
    decreases |lines|
  {
    if lines != [] {
      var rest := lines[1..];
      CleanAddsNothing(rest, c);
      StripIsSlice(lines[0]);
      var head := if Strip(lines[0]) == [] then [] else [Strip(lines[0])];
      assert CleanLines(lines) == head + CleanLines(rest);
    }
  }

  /** Cleaning keeps the lines in order: cleaning a concatenation concatenates the cleaned parts. */
  lemma {:induction false} CleanAppend(xs: seq<string>, ys: seq<string>)
    ensures CleanLines(xs + ys) == CleanLines(xs) + CleanLines(ys)
    decreases |xs|
  {
    if xs == [] {
      assert xs + ys == ys;
    } else {
      AppendTail(xs, ys);
      CleanAppend(xs[1..], ys);
    }
  }

  /** What `Strip` leaves is a contiguous piece of its input, so it holds no character the input lacks. */
  lemma StripIsSlice(s: string)
    ensures forall c :: c in Strip(s) ==> c in s
  {
    var l := TrimLeft(s);
    forall c | c in Strip(s)
      ensures c in s
    {
      var i :| 0 <= i < |Strip(s)| && Strip(s)[i] == c;
      assert TrimRight(l)[i] == l[i];
      assert l[i] == s[|s| - |l| + i];
    }
  }

  /** A leading whitespace character changes none of the cleaned lines. */
  lemma CleanSplitCons(c: char, s: string)
    requires IsSpace(c)
    ensures CleanLines(Split([c] + s, Newline)) == CleanLines(Split(s, Newline))
  {
    var t := Split(s, Newline);
    assert ([c] + s)[1..] == s;
    if c == Newline {
      assert Split([c] + s, Newline) == [[]] + t;
      assert ([[]] + t)[1..] == t;
    } else {
      var u := Split([c] + s, Newline);
      assert u == [[c] + t[0]] + t[1..];
      StripCons(c, t[0]);
      assert u[1..] == t[1..];
    }
  }

  /** A trailing whitespace character changes none of the cleaned lines. */
  lemma CleanSplitSnoc(s: string, c: char)
    requires IsSpace(c)
    ensures CleanLines(Split(s + [c], Newline)) == CleanLines(Split(s, Newline))
  {
    var t := Split(s, Newline);
    SplitSnoc(s, c, Newline);
    if c == Newline {
      CleanAppend(t, [[]]);
    } else {
      var n := |t| - 1;
      DropLastAppend(t);
      CleanAppend(t[..n], [t[n] + [c]]);
      CleanAppend(t[..n], [t[n]]);
      StripSnoc(t[n], c);
    }
  }

  lemma {:induction false} CleanTrimLeft(s: string)
    ensures CleanLines(Split(TrimLeft(s), Newline)) == CleanLines(Split(s, Newline))
    decreases |s|
  {
    if s != [] && IsSpace(s[0]) {
      CleanTrimLeft(s[1..]);
      TrimLeftStep(s);
      HeadTail(s);
      CleanSplitCons(s[0], s[1..]);
    }
  }

  lemma {:induction false} CleanTrimRight(s: string)
    ensures CleanLines(Split(TrimRight(s), Newline)) == CleanLines(Split(s, Newline))
    decreases |s|
  {
    if s != [] && IsSpace(s[|s| - 1]) {
      var n := |s| - 1;
      CleanTrimRight(s[..n]);
      TrimRightStep(s);
      CleanSplitDropLast(s);
    } else {
      TrimRightNothing(s);
    }
  }

  lemma CleanSplitDropLast(s: string)
    requires s != [] && IsSpace(s[|s| - 1])
    ensures CleanLines(Split(s, Newline)) == CleanLines(Split(s[..|s| - 1], Newline))
  {
    var n := |s| - 1;
    DropLastAppend(s);
    CleanSplitSnoc(s[..n], s[n]);
  }

  /** The URL list `start_crawling` gives the worker: non-empty URLs without surrounding whitespace or line break. */
  function StartUrls(text: string): (r: seq<string>)
    ensures forall k :: 0 <= k < |r| ==>
      var u := r[k];
      u != [] && !IsSpace(u[0]) && !IsSpace(u[|u| - 1]) && Newline !in u
  {
    CleanAddsNothing(Split(text, Newline), Newline);
    CleanLines(Split(text, Newline))
  }

  /**
   * The URL list `validate_inputs` checks. Stripping the whole text first
   * changes nothing: it is the list the start of the crawl gives the worker.
   */
  function ValidatedUrls(text: string): (r: seq<string>)
    ensures r == StartUrls(text)
  {
    CleanTrimLeft(text);
    CleanTrimRight(TrimLeft(text));
    CleanLines(Split(Strip(text), Newline))
  }

  // ---------------------------------------------------------------------------
  // validate_inputs
  // ---------------------------------------------------------------------------

  /** Why validation refused to start a crawl. */
  datatype ValidationError =
    | NoUrls
    | InvalidUrl(url: string)          // parsed, but the scheme or the network location is empty
    | InvalidUrlFormat(url: string)    // `urlparse` raised
    | NoOutputDir
    | CannotCreateDir(detail: string)  // `os.makedirs` raised

  /** The title of the message box that reports the error. */
  function Title(e: ValidationError): string {
    if e.CannotCreateDir? then "Error" else "Validation Error"
  }

  /** The text of the message box that reports the error. */
  function Message(e: ValidationError): string {
    match e
    case NoUrls => "Please enter at least one URL"
    case InvalidUrl(u) => "Invalid URL: " + u
    case InvalidUrlFormat(u) => "Invalid URL format: " + u
    case NoOutputDir => "Please select an output directory"
    case CannotCreateDir(d) => "Failed to create output directory: " + d
  }

  /** A URL passes when it parses with a non-empty scheme and a non-empty network location. */
  predicate Acceptable(parse: UrlParser, url: string) {
    parse(url).Success? && parse(url).value.scheme != [] && parse(url).value.netloc != []
  }

  /** The error reported for a URL that does not pass. */
  function Rejection(parse: UrlParser, url: string): (e: ValidationError)
    ensures (e.InvalidUrl? || e.InvalidUrlFormat?) && e.url == url
    ensures e.InvalidUrlFormat? <==> parse(url).Failure?
    ensures Title(e) == "Validation Error"
  {
    if parse(url).Failure? then InvalidUrlFormat(url) else InvalidUrl(url)
  }

  /** The URL loop of `validate_inputs`: the error for the first URL that does not pass, if any. */
  method CheckUrls(urls: seq<string>, parse: UrlParser) returns (err: Option<ValidationError>)
    ensures err.None? <==> forall i :: 0 <= i < |urls| ==> Acceptable(parse, urls[i])
    ensures err.Some? ==> exists i :: 0 <= i < |urls| && !Acceptable(parse, urls[i])
                                      && err.value == Rejection(parse, urls[i])
                                      && forall j :: 0 <= j < i ==> Acceptable(parse, urls[j])
  {
    var i := 0;
    while i < |urls|
      invariant 0 <= i <= |urls|
      invariant forall j :: 0 <= j < i ==> Acceptable(parse, urls[j])
    {
      match parse(urls[i]) {
        case Failure(_) =>
          return Some(InvalidUrlFormat(urls[i]));
        case Success(parts) =>
          if parts.scheme == [] || parts.netloc == [] {
            return Some(InvalidUrl(urls[i]));
          }
      }
      i := i + 1;
    }
    return None;
  }

  /**
   * `validate_inputs`. `isDir` says whether the stripped directory text names
   * an existing directory, and `makeDirsError` is what `os.makedirs` would
   * raise for it; `madeDir` reports that the directory was created. The checks
   * run in order (URL list, each URL, directory text, directory) and the first
   * that fails decides the error. When validation passes, the list the worker
   * receives is non-empty and every URL on it passes.
   */
  method ValidateInputs(text: string, parse: UrlParser, dirText: string, isDir: bool,
                        makeDirsError: Option<string>)
    returns (err: Option<ValidationError>, madeDir: bool)
    ensures var urls := ValidatedUrls(text);
      && (urls == [] ==> err == Some(NoUrls))
      && (urls != [] && (exists i :: 0 <= i < |urls| && !Acceptable(parse, urls[i])) ==>
            exists i :: 0 <= i < |urls| && !Acceptable(parse, urls[i]) && err == Some(Rejection(parse, urls[i]))
                        && forall j :: 0 <= j < i ==> Acceptable(parse, urls[j]))
      && (urls != [] && (forall i :: 0 <= i < |urls| ==> Acceptable(parse, urls[i])) ==>
            && (Strip(dirText) == [] ==> err == Some(NoOutputDir))
            && (Strip(dirText) != [] && !isDir && makeDirsError.Some? ==>
                  err == Some(CannotCreateDir(makeDirsError.value)))
            && (Strip(dirText) != [] && (isDir || makeDirsError.None?) ==> err == None))
    ensures madeDir <==> err.None? && !isDir
    ensures err.None? ==> StartUrls(text) != [] && Strip(dirText) != []
                          && forall i :: 0 <= i < |StartUrls(text)| ==> Acceptable(parse, StartUrls(text)[i])
  {
    var urls := Split(Strip(text), Newline);
    urls := CleanLines(urls);
    madeDir := false;
    if urls == [] {
      return Some(NoUrls), false;
    }
    err := CheckUrls(urls, parse);
    if err.Some? {
      return err, false;
    }
    var outputDir := Strip(dirText);
    if outputDir == [] {
      return Some(NoOutputDir), false;
    }
    if !isDir {
      if makeDirsError.Some? {
        return Some(CannotCreateDir(makeDirsError.value)), false;
      }
      madeDir := true;
    }
    return None, madeDir;
  }
}
