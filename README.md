# WebScraper101 in Dafny

This project models the core of WebScraper101, a small TypeScript scraper with two engines.

- **Static crawler.** `crawlAllBooks` walks the catalogue of books.toscrape.com page by page.
  - It fetches each page through `fetchWithRetry`: up to three attempts, one second apart.
  - It parses each page into books and pauses one second between pages.
  - It stops at the first page that fails or yields no books.
  - `main` then stamps the books with the time and writes them to a JSON file.
- **Dynamic scraper.** `scrapeQuotesDynamic` drives a headless Chromium over quotes.toscrape.com/js/.
  - On every page it waits for the quotes to render and extracts them.
  - It saves a screenshot `page-{n}.png`, then looks for a next button.
  - It clicks the button and pauses 1.2 seconds, or leaves the loop when there is no button.
  - It writes all quotes to a JSON file. The browser is closed in a `finally` block.

Every call into the outside world is an oracle or a parameter:

- `Fetcher.Network`: what the k-th request for a URL returns.
- `StaticCrawl.Parser`: what `parseBooks` makes of a document.
- `DynamicScraper.Browser`: how each browser call on each page turns out, and whether the output file gets written.
- A `now` string: the timestamp.

Each operation returns what the source returns together with the trace of effects it performs, in order: requests, pauses, browser calls, writes and error reports (`Effects.Effect`).

The crawl loops are `while (true)` loops in the source. Here they are loops too. A ghost parameter `end` names a page at which the loop is known to stop. The dynamic scraper needs that page only when the browser, its page and the navigation succeed, since otherwise the loop never runs. That page only supplies the termination measure; the result does not depend on it.

Each method is proved against a specification function:

- `Fetcher.Retry` for `fetchWithRetry`;
- `StaticCrawl.Crawl` for `crawlAllBooks`;
- `DynamicScraper.Scrape` for `scrapeQuotesDynamic`.

The lemmas below are stated about those functions. They are built from declarative pieces:

- the first successful attempt;
- the first page that stops the loop;
- the concatenation of per-page blocks in page order (module `Paging`).

`chromium.launch()` and `browser.newPage()` run before the `try` block (src/dynamic/playwrightScraper.ts:25-26, 29). So when `newPage` rejects, `browser.close()` never runs: the browser stays open and the promise of `scrapeQuotesDynamic` rejects. The model ends such a run `Rejected` with no `CloseBrowser` effect (`DynamicScraper.BrowserClosedIffOpened`).

## Model

| member | source | states |
|---|---|---|
| Fetcher.GaveUp | src/fetcher.ts:17 | the error thrown when the attempt loop never runs, naming the URL and the budget; `GaveUpOnlyWithoutBudget` states when it is thrown |
| Fetcher.FirstSuccess | src/fetcher.ts:9-11 | the attempt it picks succeeds; if it picks none, the last attempt of a non-empty range fails |
| Fetcher.FirstSuccessIsFirst | src/fetcher.ts:9-11 | the attempt picked is within the budget, succeeds, and every earlier attempt failed; no attempt is picked exactly when all of them fail |
| Fetcher.FetchWithRetry | src/fetcher.ts:8-18 | result and effects: the body of the first successful attempt, else the last attempt's error (`k` requests with `k - 1` pauses between them), else, when the loop never runs, the "Failed to fetch … after {retries} attempts" error with no request at all |
| Fetcher.AttemptsShape | src/fetcher.ts:9-15 | the effects of the attempts alternate request, pause, request, …, starting and ending with a request |
| Fetcher.AttemptsCounts | src/fetcher.ts:9-15 | `n` attempts make exactly `n` requests and `n - 1` pauses |
| Fetcher.AttemptBudget | src/fetcher.ts:9 | a positive budget makes between 1 and `retries` requests; a budget below 1 makes none |
| Fetcher.FirstSuccessReturned | src/fetcher.ts:10-11 | if attempt `k` is the first to succeed, its body is returned after exactly `k` requests and `k - 1` pauses |
| Fetcher.LastErrorRethrown | src/fetcher.ts:12-13 | if every attempt fails, the last attempt's error is rethrown unchanged after `retries` requests and `retries - 1` pauses |
| Fetcher.GaveUpOnlyWithoutBudget | src/fetcher.ts:17 | the "Failed to fetch" error is thrown exactly when the budget is below 1, and then nothing is requested; otherwise every error is the last attempt's |
| Fetcher.SleepOnlyBetweenFailures | src/fetcher.ts:13-14 | every pause comes right after a failed request that was not the last attempt |
| Decimal.NatToString | src/static/index.ts:9 | the numeral is made of digits, with no leading zero |
| Decimal.IntToString | src/static/index.ts:9 | the numeral is non-empty and starts with a minus sign exactly when the number is negative |
| Decimal.NatRoundTrip | src/static/index.ts:9 | reading back the numeral of `n` gives `n` |
| Decimal.IntRoundTrip | src/static/index.ts:9 | reading back the numeral of `i` gives `i` |
| Decimal.IntToStringInjective | src/static/index.ts:9 | distinct numbers have distinct numerals |
| StaticCrawl.PageUrl | src/static/index.ts:8-9 | the URL of catalogue page `page`: the base URL for page 1, `catalogue/page-{page}.html` under it otherwise; its properties are stated by `PageUrlShape` and `PageUrlInjective` |
| StaticCrawl.PageUrlShape | src/static/index.ts:7-9 | every page URL starts with the base URL, and it equals the base URL exactly for page 1 |
| StaticCrawl.PageUrlInjective | src/static/index.ts:8-9 | distinct page numbers give distinct URLs |
| StaticCrawl.StopPage | src/static/index.ts:21-38 | the page where the loop stops lies between the start and `end`, and that page yields no books |
| StaticCrawl.BeforeStopPage | src/static/index.ts:27-33 | every page before the stopping page yields books |
| StaticCrawl.StopPageIsFirstBookless | src/static/index.ts:27-37 | page `k` is where the crawl stops exactly when `k` fails or is empty and every page before it yields books |
| StaticCrawl.CrawlAllBooks | src/static/index.ts:18-41 | the books returned and the effects performed: the concatenated books of pages 1 up to the stopping page, and each visited page's retried requests followed by its pause or error report |
| StaticCrawl.ScrapeBooks | src/static/index.ts:43-55 | exactly one write of the crawled books stamped with `now`, after the crawl; a failed write is reported and nothing is saved |
| StaticCrawl.PageBooksInPlace | src/static/index.ts:31 | each page before the stopping page contributes its parsed books unchanged, after those of earlier pages and before those of later pages |
| StaticCrawl.AtLeastOneBookPerPage | src/static/index.ts:27-33 | the crawl returns at least one book per page before the stopping page |
| StaticCrawl.PageFetchCount | src/static/index.ts:25 | each visited page makes between 1 and 3 requests |
| StaticCrawl.CrawlFetchBounds | src/static/index.ts:21-38 | a crawl that stops at page `k` makes between `k` and `3k` requests |
| StaticCrawl.PageTraceFetches | src/static/index.ts:22-25 | every request made while visiting a page is for that page's URL |
| StaticCrawl.PagesRequestedInOrder | src/static/index.ts:19-33 | pages are requested in non-decreasing order, and only pages 1 up to the stopping page |
| StaticCrawl.CrawlEnding | src/static/index.ts:27-38 | the crawl returns the books of the pages before the stopping page; a failure there ends with the error report; an empty page ends with its own request and no pause |
| DynamicScraper.ExtractQuotesFromPage | src/dynamic/playwrightScraper.ts:12-20 | one quote per `.quote` element |
| DynamicScraper.ExtractedQuoteAt | src/dynamic/playwrightScraper.ts:14-18 | each quote carries its element's text, author and tags in order, with "" for a missing text or author |
| DynamicScraper.ExtractAppend | src/dynamic/playwrightScraper.ts:13-19 | extraction works element by element: it distributes over concatenation of the element list |
| DynamicScraper.LastPage | src/dynamic/playwrightScraper.ts:32-53 | the page where the loop stops lies between the start and `end`, and the loop does not click through from it |
| DynamicScraper.BeforeLastPage | src/dynamic/playwrightScraper.ts:43-48 | the loop clicks through from every page before the last one |
| DynamicScraper.LastPageIsFirstStop | src/dynamic/playwrightScraper.ts:43-52 | page `k` is the last one exactly when the loop does not click through from `k` and does from every page before it |
| DynamicScraper.VisitPage | src/dynamic/playwrightScraper.ts:33-52 | one pass of the loop: the quotes added (none if the wait or the extraction fails), the screenshot saved, the calls made (each one only if the previous one succeeded), and whether the pass throws, breaks or clicks through |
| DynamicScraper.PageLoop | src/dynamic/playwrightScraper.ts:32-53 | the loop gathers the quotes, screenshots and effects of pages 1 up to the last page, in page order, and throws exactly when the last page does not end at a missing next button |
| DynamicScraper.ScrapeQuotesDynamic | src/dynamic/playwrightScraper.ts:23-62 | the whole run: rejection when launch or newPage fails, abort with an error report when a call inside the `try` fails, otherwise one write of every quote stamped with `now`; close as the last effect whenever the browser and its page were opened |
| DynamicScraper.BrowserClosedIffOpened | src/dynamic/playwrightScraper.ts:25-61 | the browser is closed exactly when it and its page were opened, exactly once, and as the last effect |
| DynamicScraper.RunOutcome | src/dynamic/playwrightScraper.ts:25-61 | the run is rejected exactly when launch or newPage fails; it completes exactly when every call succeeds and the loop ends at a missing next button; it writes exactly when it completes, and writes the quotes gathered |
| DynamicScraper.ErrorReportedIffAborted | src/dynamic/playwrightScraper.ts:57-58 | an error is reported exactly when a failure inside the `try` block aborts the run |
| DynamicScraper.WrittenOnceAfterLoop | src/dynamic/playwrightScraper.ts:54-55 | the JSON file is written at most once, and it is written exactly when the loop ended normally, with every gathered quote and the time `now` |
| DynamicScraper.QuotesInPageOrder | src/dynamic/playwrightScraper.ts:37-38 | every page reached contributes its extracted quotes in page order, the last page included when the loop ends normally |
| DynamicScraper.ScreenshotsPerPage | src/dynamic/playwrightScraper.ts:28-47 | the screenshots are `page-1.png`, `page-2.png`, …, one per page reached; the last page gets one only if its screenshot succeeded |
| DynamicScraper.ShotName | src/dynamic/playwrightScraper.ts:40 | the screenshot file name of page `n`, `page-{n}.png`; `ScreenshotsPerPage` and `ShotNameInjective` state its properties |
| DynamicScraper.ShotNameInjective | src/dynamic/playwrightScraper.ts:40 | different pages get different screenshot files |
| DynamicScraper.TwoPageRun | src/dynamic/playwrightScraper.ts:32-55 | a two-page site with 20 and 5 quotes: the run completes, saves `page-1.png` and `page-2.png`, and writes all 25 quotes |

## Left out

- `fetchHTML` and axios (src/fetcher.ts:3-6) are the `Fetcher.Network` oracle. HTTP, response objects and status handling are not modelled.
- `parseBooks` (src/parser.ts) is the `StaticCrawl.Parser` oracle. The HTML selectors and the price and link handling are not modelled.
- Playwright is the `DynamicScraper.Browser` oracle. Page rendering, `innerText` and selector matching are not modelled. An element's `.text`/`.author` text is given as an optional string, and its tags as a list.
- `fs.writeFile`, `JSON.stringify`, `path.join`, the output paths and the screenshot directory are not modelled. A write is an effect carrying the value written. A screenshot effect carries only the file name.
- `new Date().toISOString()` is the `now` parameter.
- An informational `console.log` or `logStep` has no effect in the trace. A `console.error` is a `LogError` effect without its message.
- Timers are `Sleep` effects holding the duration. No clock is modelled, and neither is the asynchronous scheduling of the promises.
- `src/index.ts` and `src/dynamic/utils.ts` are not part of this model. Their `delay` is the `Sleep` effect.
- StaticCrawl.CrawlAllBooks: it requires a page `end` of the site that fails or yields no books. Crawls that never stop are not modelled.
- DynamicScraper.ScrapeQuotesDynamic: when the browser, its page and the navigation all succeed, it requires a page `end` of the site from which the loop does not click through. Runs that never stop are not modelled. Runs where launch, `newPage` or `goto` fails are modelled for every site.
- Fetcher.FetchWithRetry: `retries` is an integer. A fractional or NaN `retries` is not modelled.
- Numbers are unbounded integers. JavaScript numbers are doubles. The model matches JavaScript's rendering of `${n}` only below 1e21 in magnitude, where JavaScript switches to exponent form. This affects the "Failed to fetch" message of `Fetcher.GaveUp` and the page URLs and screenshot names (`StaticCrawl.PageUrl`, `DynamicScraper.ShotName`). It is exact only below 2^53, above which `page++` and `pageNum++` stop changing the value. No run of the crawlers reaches these values.
- DynamicScraper.ScrapeQuotesDynamic: `browser.close()` always succeeds. A rejected close would make the function reject after the `finally` block; that case is not modelled.
- A failure of the `delay` after a click, or of `JSON.stringify`, is not modelled, since neither can happen with the values involved.
