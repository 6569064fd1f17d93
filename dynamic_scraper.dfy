/** The browser-driven quote scraper: it opens quotes.toscrape.com/js/ in a
    headless browser, and for each page waits for the quotes to render,
    extracts them, saves a screenshot and follows the "next" link until there
    is none; then it writes every quote to a JSON file and closes the browser.
    The browser and the file system are an oracle: a `Browser` value says how
    each call turns out. */
module DynamicScraper {
  import opened Types
  import opened Effects
  import Decimal
  import Paging

  const BaseUrl: string := "https://quotes.toscrape.com/js/"
  const DelayBetweenPages: int := 1200

  // ---------------------------------------------------------------------
  // Extraction of quotes from the rendered page

  /** A `.quote` element as the page renders it: the inner text of its
      `.text` and `.author` children, `None` when the child is absent, and
      the inner texts of its `.tags .tag` descendants in document order. */
  datatype QuoteElement = QuoteElement(text: Option<string>, author: Option<string>, tags: seq<string>)

  /** `child?.innerText || ''`: an absent child and an empty text both give "". */
  function TextOrEmpty(child: Option<string>): string
  {
    if child.Some? then child.value else ""
  }

  function ExtractQuote(el: QuoteElement): Quote
  {
    Quote(TextOrEmpty(el.text), TextOrEmpty(el.author), el.tags)
  }

  /** One quote per `.quote` element, in document order. */
  function ExtractQuotesFromPage(els: seq<QuoteElement>): (qs: seq<Quote>)
    ensures |qs| == |els|
  {
    if els == [] then [] else [ExtractQuote(els[0])] + ExtractQuotesFromPage(els[1..])
  }

  /** Each quote carries its element's text, author and tags, with "" for a
      missing text or author. */
  lemma {:induction false} ExtractedQuoteAt(els: seq<QuoteElement>, i: int)
    requires 0 <= i < |els|
    ensures var q := ExtractQuotesFromPage(els)[i];
      && (els[i].text.Some? ==> q.text == els[i].text.value)
      && (els[i].text.None? ==> q.text == "")
      && (els[i].author.Some? ==> q.author == els[i].author.value)
      && (els[i].author.None? ==> q.author == "")
      && q.tags == els[i].tags
  {
    if 0 < i {
      ExtractedQuoteAt(els[1..], i - 1);
    }
  }

  /** Extraction works element by element, so it distributes over a split of
      the element list. */
  lemma {:induction false} ExtractAppend(a: seq<QuoteElement>, b: seq<QuoteElement>)
    ensures ExtractQuotesFromPage(a + b) == ExtractQuotesFromPage(a) + ExtractQuotesFromPage(b)
  {
    if a != [] {
      assert (a + b)[1..] == a[1..] + b;
      ExtractAppend(a[1..], b);
    } else {
      assert a + b == b;
    }
  }

  // ---------------------------------------------------------------------
  // The browser as an oracle

  /** The outcome of `page.$('li.next > a')`: the call fails, finds no
      button, or finds one. */
  datatype Probe = ProbeFailed | NoNext | NextFound

  /** How the calls made on one page of the site turn out: whether
      `waitForSelector` resolves, what `$$eval` returns (`None` when it
      rejects), whether the screenshot is saved, what the probe for a next
      button finds and whether clicking it succeeds. */
  datatype PageBehaviour = PageBehaviour(
    waitOk: bool,
    extracted: Option<seq<QuoteElement>>,
    screenshotOk: bool,
    next: Probe,
    clickOk: bool)

  /** How a whole run's calls turn out. `site(n)` is the behaviour of the
      n-th page the loop visits; `writeOk` says whether the JSON file is
      written. */
  datatype Browser = Browser(
    launchOk: bool,
    newPageOk: bool,
    gotoOk: bool,
    site: int -> PageBehaviour,
    writeOk: bool)

  predicate Extracted(b: PageBehaviour)
  {
    b.waitOk && b.extracted.Some?
  }

  predicate ShotTaken(b: PageBehaviour)
  {
    Extracted(b) && b.screenshotOk
  }

  /** Every call on the page succeeds and a next button is clicked. */
  predicate Continues(b: PageBehaviour)
  {
    ShotTaken(b) && b.next == NextFound && b.clickOk
  }

  /** Every call on the page succeeds and there is no next button. */
  predicate Finishes(b: PageBehaviour)
  {
    ShotTaken(b) && b.next == NoNext
  }

  /** The name of the screenshot of page `n`, `page-{n}.png`. */
  function ShotName(n: int): string
  {
    "page-" + Decimal.IntToString(n) + ".png"
  }

  /** Quotes added to `allQuotes` on a page: none if the wait or the
      extraction fails. */
  function PageQuotes(b: PageBehaviour): seq<Quote>
  {
    if Extracted(b) then ExtractQuotesFromPage(b.extracted.value) else []
  }

  /** Screenshots saved on page `n`. */
  function PageShots(b: PageBehaviour, n: int): seq<string>
  {
    if ShotTaken(b) then [ShotName(n)] else []
  }

  /** How many of a page's calls are made: each one is made only when the
      ones before it succeeded, and the delay follows a successful click. */
  function Steps(b: PageBehaviour): nat
  {
    if !b.waitOk then 1
    else if b.extracted.None? then 2
    else if !b.screenshotOk then 3
    else if b.next != NextFound then 4
    else if !b.clickOk then 5
    else 6
  }

  /** The effects of one pass of the loop, on page `n`. */
  function PageEffects(b: PageBehaviour, n: int): seq<Effect>
  {
    [WaitForQuotes, ExtractQuotes, Screenshot(ShotName(n)), ProbeNext, ClickNext, Sleep(DelayBetweenPages)][..Steps(b)]
  }

  function QuoteBlocks(site: int -> PageBehaviour): int -> seq<Quote>
  {
    n => PageQuotes(site(n))
  }

  function ShotBlocks(site: int -> PageBehaviour): int -> seq<string>
  {
    n => PageShots(site(n), n)
  }

  function EffectBlocks(site: int -> PageBehaviour): int -> seq<Effect>
  {
    n => PageEffects(site(n), n)
  }

  // ---------------------------------------------------------------------
  // The run, specified

  /** The first page from `from` on where the loop does not go on to the
      next page. `end` is a page where it is known not to. */
  function LastPage(site: int -> PageBehaviour, from: int, end: int): (k: int)
    requires from <= end && !Continues(site(end))
    ensures from <= k <= end && !Continues(site(k))
    decreases end - from
  {
    if !Continues(site(from)) then from else LastPage(site, from + 1, end)
  }

  /** The loop moves on from every page before the last one. */
  lemma {:induction false} BeforeLastPage(site: int -> PageBehaviour, from: int, end: int, p: int)
    requires from <= end && !Continues(site(end))
    requires from <= p < LastPage(site, from, end)
    ensures Continues(site(p))
    decreases end - from
  {
    if p > from {
      BeforeLastPage(site, from + 1, end, p);
    }
  }

  /** How the run ended: normally, through the `catch` block, or by a
      rejected promise because the browser or its page could not be opened. */
  datatype Ending = Completed | Aborted | Rejected

  /** What a run leaves behind: how it ended, `allQuotes` and the saved
      screenshots at that point, the artifact written to disk (if any), and
      every effect in order. */
  datatype Run = Run(
    ending: Ending,
    quotes: seq<Quote>,
    screenshots: seq<string>,
    written: Option<QuoteArtifact>,
    trace: seq<Effect>)

  function Opening(): seq<Effect>
  {
    [Launch, NewPage, Goto(BaseUrl)]
  }

  /** When the browser, its page and the navigation all succeed, the loop
      runs, and page `end` is one from which it does not click through.
      Otherwise the loop never runs and `end` plays no part. */
  predicate LoopBounded(b: Browser, end: int)
  {
    b.launchOk && b.newPageOk && b.gotoOk ==> 1 <= end && !Continues(b.site(end))
  }

  /** What the `try` block has gathered when it reaches the write or
      throws: `allQuotes`, the screenshots saved and the effects so far. */
  function Gathered(b: Browser, end: int): (seq<Quote>, seq<string>, seq<Effect>)
    requires b.launchOk && b.newPageOk && LoopBounded(b, end)
  {
    if !b.gotoOk then ([], [], Opening())
    else
      var k := LastPage(b.site, 1, end);
      (Paging.Concat(QuoteBlocks(b.site), 1, k + 1),
       Paging.Concat(ShotBlocks(b.site), 1, k + 1),
       Opening() + Paging.Concat(EffectBlocks(b.site), 1, k + 1))
  }

  /** Whether the `try` block throws before the write: the navigation fails,
      or a pass of the loop does. */
  predicate LoopFailed(b: Browser, end: int)
    requires b.launchOk && b.newPageOk && LoopBounded(b, end)
  {
    !b.gotoOk || !Finishes(b.site(LastPage(b.site, 1, end)))
  }

  /** The effects after the loop: the write if nothing failed, the `catch`
      block's report if something did, then the `finally` block's close. */
  function Tail(writeOk: bool, now: string, quotes: seq<Quote>, failed: bool): seq<Effect>
  {
    if failed then [LogError, CloseBrowser]
    else if writeOk then [WriteQuotes(QuoteArtifact(quotes, now)), CloseBrowser]
    else [WriteQuotes(QuoteArtifact(quotes, now)), LogError, CloseBrowser]
  }

  /** The run once the `try` block has gathered `quotes`, `shots` and the
      effects `visited`, and either reached the write or `failed`. */
  function Conclude(writeOk: bool, now: string, quotes: seq<Quote>, shots: seq<string>, visited: seq<Effect>, failed: bool): Run
  {
    var ok := !failed && writeOk;
    Run(if ok then Completed else Aborted, quotes, shots,
        if ok then Some(QuoteArtifact(quotes, now)) else None,
        visited + Tail(writeOk, now, quotes, failed))
  }

  /** The run on browser `b` with clock reading `now`. */
  function Scrape(b: Browser, now: string, end: int): Run
    requires LoopBounded(b, end)
  {
    if !b.launchOk then Run(Rejected, [], [], None, [Launch])
    else if !b.newPageOk then Run(Rejected, [], [], None, [Launch, NewPage])
    else
      var (quotes, shots, visited) := Gathered(b, end);
      Conclude(b.writeOk, now, quotes, shots, visited, LoopFailed(b, end))
  }

  // ---------------------------------------------------------------------
  // The scraper

  /** One visit of page `n` extends each accumulation by that page's block. */
  lemma Visited(site: int -> PageBehaviour, n: int)
    requires 1 <= n
    ensures Paging.Concat(QuoteBlocks(site), 1, n + 1) == Paging.Concat(QuoteBlocks(site), 1, n) + PageQuotes(site(n))
    ensures Paging.Concat(ShotBlocks(site), 1, n + 1) == Paging.Concat(ShotBlocks(site), 1, n) + PageShots(site(n), n)
    ensures Paging.Concat(EffectBlocks(site), 1, n + 1) == Paging.Concat(EffectBlocks(site), 1, n) + PageEffects(site(n), n)
  {
  }

  /** A page the loop leaves without clicking is the last one. */
  lemma StoppedAt(site: int -> PageBehaviour, end: int, n: int)
    requires 1 <= end && !Continues(site(end))
    requires 1 <= n <= LastPage(site, 1, end) && !Continues(site(n))
    ensures LastPage(site, 1, end) == n
  {
    if n < LastPage(site, 1, end) {
      BeforeLastPage(site, 1, end, n);
      assert false;
    }
  }

  /** How a pass of the loop ends: an exception, the `break` when there
      is no next button, or a click through to the next page. */
  datatype Step = Threw | NoMorePages | Clicked

  /** Whether the loop breaks, throws or goes on from page `b`. */
  function StepOf(b: PageBehaviour): Step
  {
    if Continues(b) then Clicked else if Finishes(b) then NoMorePages else Threw
  }

  /** One pass of the loop on page `pageNum`: the quotes added to
      `allQuotes`, the screenshots saved, the effects and how the pass ends. */
  method VisitPage(page: PageBehaviour, pageNum: int) returns (quotes: seq<Quote>, shots: seq<string>, effects: seq<Effect>, step: Step)
    ensures quotes == PageQuotes(page)
    ensures shots == PageShots(page, pageNum)
    ensures effects == PageEffects(page, pageNum)
    ensures step == StepOf(page)
  {
    quotes, shots, step := [], [], Threw;
    effects := [WaitForQuotes];
    if !page.waitOk {
      return;
    }
    effects := effects + [ExtractQuotes];
    if page.extracted.None? {
      return;
    }
    quotes := ExtractQuotesFromPage(page.extracted.value);
    effects := effects + [Screenshot(ShotName(pageNum))];
    if !page.screenshotOk {
      return;
    }
    shots := [ShotName(pageNum)];
    effects := effects + [ProbeNext];
    match page.next
    case ProbeFailed =>
    case NoNext =>
      step := NoMorePages;
    case NextFound =>
      effects := effects + [ClickNext];
      if page.clickOk {
        effects := effects + [Sleep(DelayBetweenPages)];
        step := Clicked;
      }
  }

  /** The `while (true)` loop, from page 1 until a pass breaks or throws:
      the quotes and screenshots it gathers, its effects, and whether it
      ended by an exception. */
  method PageLoop(site: int -> PageBehaviour, ghost end: int)
    returns (allQuotes: seq<Quote>, screenshots: seq<string>, pages: seq<Effect>, failed: bool)
    requires 1 <= end && !Continues(site(end))
    ensures var k := LastPage(site, 1, end);
      && allQuotes == Paging.Concat(QuoteBlocks(site), 1, k + 1)
      && screenshots == Paging.Concat(ShotBlocks(site), 1, k + 1)
      && pages == Paging.Concat(EffectBlocks(site), 1, k + 1)
      && failed == !Finishes(site(k))
  {
    ghost var k := LastPage(site, 1, end);
    allQuotes, screenshots, pages := [], [], [];
    var pageNum := 1;
    while true
      invariant 1 <= pageNum <= k
      invariant allQuotes == Paging.Concat(QuoteBlocks(site), 1, pageNum)
      invariant screenshots == Paging.Concat(ShotBlocks(site), 1, pageNum)
      invariant pages == Paging.Concat(EffectBlocks(site), 1, pageNum)
      decreases end - pageNum
    {
      Visited(site, pageNum);
      var quotes, shots, effects, step := VisitPage(site(pageNum), pageNum);
      allQuotes := allQuotes + quotes;
      screenshots := screenshots + shots;
      pages := pages + effects;
      if step != Clicked {
        failed := step == Threw;
        StoppedAt(site, end, pageNum);
        return;
      }
      assert pageNum < k;
      pageNum := pageNum + 1;
    }
  }

  /** `scrapeQuotesDynamic`. When the loop runs, `end` is a page of the site
      from which it does not click through; it only bounds the loop and is
      not used by the computation. */
  method ScrapeQuotesDynamic(b: Browser, now: string, ghost end: int) returns (run: Run)
    requires LoopBounded(b, end)
    ensures run == Scrape(b, now, end)
  {
    var trace := [Launch];
    if !b.launchOk {
      return Run(Rejected, [], [], None, trace);
    }
    trace := trace + [NewPage];
    if !b.newPageOk {
      return Run(Rejected, [], [], None, trace);
    }
    var allQuotes: seq<Quote> := [];
    var screenshots: seq<string> := [];
    var written: Option<QuoteArtifact> := None;
    var failed := false;
    trace := trace + [Goto(BaseUrl)];
    assert trace == Opening();
    if !b.gotoOk {
      failed := true;
    } else {
      var pages;
      allQuotes, screenshots, pages, failed := PageLoop(b.site, end);
      trace := trace + pages;
    }
    assert (allQuotes, screenshots, trace) == Gathered(b, end);
    assert failed == LoopFailed(b, end);
    ghost var visited := trace;
    if !failed {
      var artifact := QuoteArtifact(allQuotes, now);
      trace := trace + [WriteQuotes(artifact)];
      if b.writeOk {
        written := Some(artifact);
      } else {
        failed := true;
      }
    }
    if failed {
      trace := trace + [LogError];
    }
    trace := trace + [CloseBrowser];
    assert trace == visited + Tail(b.writeOk, now, allQuotes, LoopFailed(b, end));
    run := Run(if failed then Aborted else Completed, allQuotes, screenshots, written, trace);
  }

  // ---------------------------------------------------------------------
  // Properties of the run

  /** The loop stops at page `k` exactly when `k` is the first page from
      which it does not click through. */
  lemma LastPageIsFirstStop(site: int -> PageBehaviour, end: int, k: int)
    requires 1 <= end && !Continues(site(end))
    ensures LastPage(site, 1, end) == k <==>
      1 <= k && !Continues(site(k)) && forall p :: 1 <= p < k ==> Continues(site(p))
  {
    var last := LastPage(site, 1, end);
    forall p | 1 <= p < last
      ensures Continues(site(p))
    {
      BeforeLastPage(site, 1, end, p);
    }
  }

  /** A page's own effects contain no close, no error report and no write. */
  lemma PageEffectsQuiet(b: PageBehaviour, n: int, e: Effect)
    requires e.CloseBrowser? || e.LogError? || e.WriteQuotes?
    ensures Occurrences(PageEffects(b, n), e) == 0
  {
    OccurrencesPositive(PageEffects(b, n), e);
  }

  /** Nor do the effects of the whole loop. */
  lemma LoopQuiet(site: int -> PageBehaviour, until: int, e: Effect)
    requires e.CloseBrowser? || e.LogError? || e.WriteQuotes?
    ensures Occurrences(Opening() + Paging.Concat(EffectBlocks(site), 1, until), e) == 0
  {
    forall p | 1 <= p < until
      ensures Occurrences(EffectBlocks(site)(p), e) == 0
    {
      PageEffectsQuiet(site(p), p, e);
    }
    ConcatAbsent(EffectBlocks(site), 1, until, e);
    OccurrencesPositive(Opening(), e);
    OccurrencesAppend(Opening(), Paging.Concat(EffectBlocks(site), 1, until), e);
  }

  /** Once the browser is open, a run's effects are the quiet effects of the
      navigation and the loop, then its tail. */
  lemma {:induction false} TraceSplit(b: Browser, now: string, end: int, e: Effect)
    requires b.launchOk && b.newPageOk && LoopBounded(b, end)
    requires e.CloseBrowser? || e.LogError? || e.WriteQuotes?
    ensures var run := Scrape(b, now, end);
      && run.trace == Gathered(b, end).2 + Tail(b.writeOk, now, run.quotes, LoopFailed(b, end))
      && Occurrences(run.trace, e) == Occurrences(Tail(b.writeOk, now, run.quotes, LoopFailed(b, end)), e)
  {
    var run := Scrape(b, now, end);
    var visited := Gathered(b, end).2;
    var tail := Tail(b.writeOk, now, run.quotes, LoopFailed(b, end));
    assert run.trace == visited + tail;
    if b.gotoOk {
      LoopQuiet(b.site, LastPage(b.site, 1, end) + 1, e);
    } else {
      OccurrencesPositive(Opening(), e);
    }
    assert Occurrences(visited, e) == 0;
    OccurrencesAppend(visited, tail, e);
  }

  /** `browser.close()` in the `finally` block: it runs exactly when the
      browser and its page were opened, exactly once, as the last effect. */
  lemma BrowserClosedIffOpened(b: Browser, now: string, end: int)
    requires LoopBounded(b, end)
    ensures var run := Scrape(b, now, end);
      && (CloseBrowser in run.trace <==> b.launchOk && b.newPageOk)
      && (b.launchOk && b.newPageOk ==>
            run.trace[|run.trace| - 1] == CloseBrowser && Occurrences(run.trace, CloseBrowser) == 1)
  {
    var run := Scrape(b, now, end);
    if b.launchOk && b.newPageOk {
      TraceSplit(b, now, end, CloseBrowser);
      OccurrencesDistinct(Tail(b.writeOk, now, run.quotes, LoopFailed(b, end)), CloseBrowser);
    }
    OccurrencesPositive(run.trace, CloseBrowser);
  }

  /** How a run ends, and what it writes. */
  lemma RunOutcome(b: Browser, now: string, end: int)
    requires LoopBounded(b, end)
    ensures var run := Scrape(b, now, end);
      && (run.ending == Rejected <==> !b.launchOk || !b.newPageOk)
      && (run.ending == Completed <==>
            b.launchOk && b.newPageOk && b.gotoOk && Finishes(b.site(LastPage(b.site, 1, end))) && b.writeOk)
      && (run.written.Some? <==> run.ending == Completed)
      && (run.written.Some? ==> run.written.value == QuoteArtifact(run.quotes, now))
  {
  }

  /** The `catch` block: an error is reported exactly when the run is
      aborted by a failure inside the `try` block. */
  lemma ErrorReportedIffAborted(b: Browser, now: string, end: int)
    requires LoopBounded(b, end)
    ensures var run := Scrape(b, now, end);
      (LogError in run.trace <==> run.ending == Aborted)
  {
    var run := Scrape(b, now, end);
    if b.launchOk && b.newPageOk {
      TraceSplit(b, now, end, LogError);
      OccurrencesDistinct(Tail(b.writeOk, now, run.quotes, LoopFailed(b, end)), LogError);
    }
    OccurrencesPositive(run.trace, LogError);
  }

  /** The JSON file is written at most once, only after the loop has run to
      the page without a next button, and with every quote gathered. */
  lemma WrittenOnceAfterLoop(b: Browser, now: string, end: int, a: QuoteArtifact)
    requires LoopBounded(b, end)
    ensures var run := Scrape(b, now, end);
      && Occurrences(run.trace, WriteQuotes(a)) <= 1
      && (WriteQuotes(a) in run.trace <==>
            && b.launchOk && b.newPageOk && b.gotoOk
            && Finishes(b.site(LastPage(b.site, 1, end)))
            && a == QuoteArtifact(run.quotes, now))
  {
    var run := Scrape(b, now, end);
    if b.launchOk && b.newPageOk {
      TraceSplit(b, now, end, WriteQuotes(a));
      OccurrencesDistinct(Tail(b.writeOk, now, run.quotes, LoopFailed(b, end)), WriteQuotes(a));
    }
    OccurrencesPositive(run.trace, WriteQuotes(a));
  }

  /** `allQuotes` holds every visited page's quotes in page order, the last
      page's included when it is reached without failure. */
  lemma QuotesInPageOrder(b: Browser, now: string, end: int, p: int)
    requires 1 <= end && !Continues(b.site(end))
    requires b.launchOk && b.newPageOk && b.gotoOk
    requires 1 <= p <= LastPage(b.site, 1, end)
    requires p < LastPage(b.site, 1, end) || Finishes(b.site(p))
    ensures var k := LastPage(b.site, 1, end);
      && b.site(p).extracted.Some?
      && Scrape(b, now, end).quotes ==
           Paging.Concat(QuoteBlocks(b.site), 1, p)
           + ExtractQuotesFromPage(b.site(p).extracted.value)
           + Paging.Concat(QuoteBlocks(b.site), p + 1, k + 1)
  {
    var k := LastPage(b.site, 1, end);
    if p < k {
      BeforeLastPage(b.site, 1, end, p);
    }
    Paging.ConcatSplit(QuoteBlocks(b.site), 1, p + 1, k + 1);
  }

  /** The screenshots are named after consecutive page numbers from 1. */
  lemma {:induction false} ShotsNumbered(site: int -> PageBehaviour, n: int)
    requires 1 <= n
    requires forall p :: 1 <= p < n ==> ShotTaken(site(p))
    ensures |Paging.Concat(ShotBlocks(site), 1, n)| == n - 1
    ensures forall i :: 0 <= i < n - 1 ==> Paging.Concat(ShotBlocks(site), 1, n)[i] == ShotName(i + 1)
  {
    if 1 < n {
      ShotsNumbered(site, n - 1);
      assert Paging.Concat(ShotBlocks(site), 1, n) == Paging.Concat(ShotBlocks(site), 1, n - 1) + [ShotName(n - 1)];
    }
  }

  /** `pageNum` starts at 1 and goes up by one per click: the run saves
      `page-1.png`, `page-2.png`, &hellip; one per page reached, the last
      page's only if its screenshot succeeded. */
  lemma ScreenshotsPerPage(b: Browser, now: string, end: int)
    requires 1 <= end && !Continues(b.site(end))
    requires b.launchOk && b.newPageOk && b.gotoOk
    ensures var k := LastPage(b.site, 1, end);
      var shots := Scrape(b, now, end).screenshots;
      && |shots| == (if ShotTaken(b.site(k)) then k else k - 1)
      && forall i :: 0 <= i < |shots| ==> shots[i] == ShotName(i + 1)
  {
    var k := LastPage(b.site, 1, end);
    forall p | 1 <= p < k
      ensures ShotTaken(b.site(p))
    {
      BeforeLastPage(b.site, 1, end, p);
    }
    ShotsNumbered(b.site, k);
  }

  /** Different pages get different screenshot files. */
  lemma ShotNameInjective(m: int, n: int)
    requires ShotName(m) == ShotName(n)
    ensures m == n
  {
    var s, t := ShotName(m), ShotName(n);
    assert s[5..|s| - 4] == Decimal.IntToString(m);
    assert t[5..|t| - 4] == Decimal.IntToString(n);
    Decimal.IntToStringInjective(m, n);
  }

  /** A site of two pages, with 20 quotes on the first and 5 on the second:
      the run saves both screenshots and writes all 25 quotes. */
  lemma TwoPageRun(b: Browser, now: string, first: seq<QuoteElement>, second: seq<QuoteElement>)
    requires b.launchOk && b.newPageOk && b.gotoOk && b.writeOk
    requires b.site(1) == PageBehaviour(true, Some(first), true, NextFound, true)
    requires b.site(2) == PageBehaviour(true, Some(second), true, NoNext, false)
    requires |first| == 20 && |second| == 5
    ensures var run := Scrape(b, now, 2);
      && run.ending == Completed
      && run.written == Some(QuoteArtifact(ExtractQuotesFromPage(first) + ExtractQuotesFromPage(second), now))
      && |run.written.value.quotes| == 25
      && run.screenshots == ["page-1.png", "page-2.png"]
  {
    assert LastPage(b.site, 1, 2) == 2;
    assert Paging.Concat(QuoteBlocks(b.site), 1, 2) == ExtractQuotesFromPage(first);
    assert Paging.Concat(QuoteBlocks(b.site), 1, 3) == ExtractQuotesFromPage(first) + ExtractQuotesFromPage(second);
    assert Decimal.IntToString(1) == "1" && Decimal.IntToString(2) == "2";
    assert ShotName(1) == "page-1.png" && ShotName(2) == "page-2.png";
    assert Paging.Concat(ShotBlocks(b.site), 1, 1) == [];
    assert Paging.Concat(ShotBlocks(b.site), 1, 2) == [] + PageShots(b.site(1), 1);
    assert Paging.Concat(ShotBlocks(b.site), 1, 2) == ["page-1.png"];
    assert Paging.Concat(ShotBlocks(b.site), 1, 3) == ["page-1.png", "page-2.png"];
  }
}
