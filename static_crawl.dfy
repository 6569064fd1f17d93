/** The static catalogue crawler (src/static/index.ts): page after page of
    books.toscrape.com, fetched with retry and parsed, until a page yields no
    books or fails. */
module StaticCrawl {
  import opened Types
  import opened Effects
  import Decimal
  import Paging
  import Fetcher

  const BaseUrl: string := "https://books.toscrape.com/"
  const DelayBetweenRequests: int := 1000
  const Retries: int := 3

  /** `parseBooks` as an oracle: the books of a document, or what it threw. */
  type Parser = string -> Result<seq<Book>>

  /** The URL of catalogue page `page` (src/static/index.ts:8-9). */
  function PageUrl(page: int): string
  {
    if page == 1 then BaseUrl else BaseUrl + "catalogue/page-" + Decimal.IntToString(page) + ".html"
  }

  /** What one page gives the crawl once fetched with retry and parsed. */
  datatype PageResult = Failed | Empty | Books(books: seq<Book>)

  /** How the crawl treats a page's response once it is parsed. */
  function Classify(response: Result<string>, parse: Parser): PageResult
  {
    if response.Err? then Failed
    else match parse(response.value)
      case Err(_) => Failed
      case Ok(books) => if |books| == 0 then Empty else Books(books)
  }

  function FetchPage(net: Fetcher.Network, parse: Parser, page: int): PageResult
  {
    Classify(Fetcher.Retry(net, PageUrl(page), Retries, DelayBetweenRequests).0, parse)
  }

  /** The books a page adds to the result. */
  function PageBooks(net: Fetcher.Network, parse: Parser, page: int): seq<Book>
  {
    match FetchPage(net, parse, page)
      case Books(books) => books
      case _ => []
  }

  /** What follows a page's requests: the error log of a failure, nothing
      after an empty page, the pause after a page with books. */
  function Epilogue(result: PageResult): seq<Effect>
  {
    match result
      case Failed => [LogError]
      case Empty => []
      case Books(_) => [Sleep(DelayBetweenRequests)]
  }

  /** The effects of visiting one page. */
  function PageTrace(net: Fetcher.Network, parse: Parser, page: int): seq<Effect>
  {
    Fetcher.Retry(net, PageUrl(page), Retries, DelayBetweenRequests).1 + Epilogue(FetchPage(net, parse, page))
  }

  /** The first page from `from` on that yields no books. */
  function StopPage(net: Fetcher.Network, parse: Parser, from: nat, end: nat): (k: nat)
    requires from <= end && !FetchPage(net, parse, end).Books?
    ensures from <= k <= end && !FetchPage(net, parse, k).Books?
    decreases end - from
  {
    if !FetchPage(net, parse, from).Books? then from else StopPage(net, parse, from + 1, end)
  }

  /** Every page before the stopping page yields books. */
  lemma {:induction false} BeforeStopPage(net: Fetcher.Network, parse: Parser, from: nat, end: nat, p: int)
    requires from <= end && !FetchPage(net, parse, end).Books?
    requires from <= p < StopPage(net, parse, from, end)
    ensures FetchPage(net, parse, p).Books?
    decreases end - from
  {
    if p > from {
      BeforeStopPage(net, parse, from + 1, end, p);
    }
  }

  /** PageBooks and PageTrace as blocks indexed by page number. */
  function BookBlocks(net: Fetcher.Network, parse: Parser): int -> seq<Book>
  {
    p => PageBooks(net, parse, p)
  }

  function TraceBlocks(net: Fetcher.Network, parse: Parser): int -> seq<Effect>
  {
    p => PageTrace(net, parse, p)
  }

  /** The books of pages `from..until-1`, in page order. */
  function Gathered(net: Fetcher.Network, parse: Parser, from: int, until: int): seq<Book>
  {
    Paging.Concat(BookBlocks(net, parse), from, until)
  }

  /** The effects of visiting pages `from..until-1`, in page order. */
  function CrawlTrace(net: Fetcher.Network, parse: Parser, from: int, until: int): seq<Effect>
  {
    Paging.Concat(TraceBlocks(net, parse), from, until)
  }

  /** What `crawlAllBooks` returns and does, given a site whose page `end`
      yields no books: the books of every page before the first bookless one,
      and the effects of visiting pages 1 up to that one. */
  function Crawl(net: Fetcher.Network, parse: Parser, end: nat): (seq<Book>, seq<Effect>)
    requires 1 <= end && !FetchPage(net, parse, end).Books?
  {
    var k := StopPage(net, parse, 1, end);
    (Gathered(net, parse, 1, k), CrawlTrace(net, parse, 1, k + 1))
  }

  /** src/static/index.ts:18-41. `end` is a page of the site that yields no
      books; it bounds the loop and plays no other part. */
  method CrawlAllBooks(net: Fetcher.Network, parse: Parser, ghost end: nat)
    returns (books: seq<Book>, trace: seq<Effect>)
    requires 1 <= end && !FetchPage(net, parse, end).Books?
    ensures (books, trace) == Crawl(net, parse, end)
  {
    var page := 1;
    books, trace := [], [];
    while true
      invariant 1 <= page <= StopPage(net, parse, 1, end)
      invariant books == Gathered(net, parse, 1, page)
      invariant trace == CrawlTrace(net, parse, 1, page)
      decreases end - page
    {
      var url := PageUrl(page);
      var response, attempts := Fetcher.FetchWithRetry(net, url, Retries, DelayBetweenRequests);
      Visited(net, parse, page, response, attempts);
      if response.Err? {
        trace := trace + (attempts + [LogError]);
        StoppedAt(net, parse, end, page);
        break;
      }
      var parsed := parse(response.value);
      if parsed.Err? {
        trace := trace + (attempts + [LogError]);
        StoppedAt(net, parse, end, page);
        break;
      }
      if |parsed.value| == 0 {
        assert attempts + Epilogue(Empty) == attempts;
        trace := trace + attempts;
        StoppedAt(net, parse, end, page);
        break;
      }
      books := books + parsed.value;
      assert page != StopPage(net, parse, 1, end);
      page := page + 1;
      trace := trace + (attempts + [Sleep(DelayBetweenRequests)]);
    }
  }

  /** One visit of page `page`, given what fetching it with retry returned. */
  lemma Visited(net: Fetcher.Network, parse: Parser, page: int, response: Result<string>, attempts: seq<Effect>)
    requires 1 <= page
    requires (response, attempts) == Fetcher.Retry(net, PageUrl(page), Retries, DelayBetweenRequests)
    ensures FetchPage(net, parse, page) == Classify(response, parse)
    ensures CrawlTrace(net, parse, 1, page + 1) ==
      CrawlTrace(net, parse, 1, page) + (attempts + Epilogue(Classify(response, parse)))
    ensures Gathered(net, parse, 1, page + 1) == Gathered(net, parse, 1, page) + PageBooks(net, parse, page)
  {
  }

  /** The crawl stops at the first page that yields no books. */
  lemma StoppedAt(net: Fetcher.Network, parse: Parser, end: nat, page: nat)
    requires 1 <= end && !FetchPage(net, parse, end).Books?
    requires 1 <= page <= StopPage(net, parse, 1, end) && !FetchPage(net, parse, page).Books?
    ensures StopPage(net, parse, 1, end) == page
    ensures Crawl(net, parse, end) == (Gathered(net, parse, 1, page), CrawlTrace(net, parse, 1, page + 1))
  {
    var k := StopPage(net, parse, 1, end);
    if page < k {
      BeforeStopPage(net, parse, 1, end, page);
      assert false;
    }
    assert k == page;
  }

  /** src/static/index.ts:43-55: the crawl result, stamped with the time
      `now`, is handed to one file write; a failed write is logged. */
  method ScrapeBooks(net: Fetcher.Network, parse: Parser, now: string, writeOk: bool, ghost end: nat)
    returns (saved: Option<ScrapeResult>, trace: seq<Effect>)
    requires 1 <= end && !FetchPage(net, parse, end).Books?
    ensures var (books, crawlTrace) := Crawl(net, parse, end);
      trace == crawlTrace + [WriteBooks(ScrapeResult(books, now))] + (if writeOk then [] else [LogError]) &&
      saved == if writeOk then Some(ScrapeResult(books, now)) else None
  {
    var books, crawlTrace := CrawlAllBooks(net, parse, end);
    var result := ScrapeResult(books, now);
    trace := crawlTrace + [WriteBooks(result)];
    if writeOk {
      saved := Some(result);
    } else {
      saved := None;
      trace := trace + [LogError];
    }
  }

  // ---------------------------------------------------------------------
  // Properties of the crawl

  /** Every page URL lies under the base URL, and only page 1 is the base
      URL itself. */
  lemma PageUrlShape(page: int)
    ensures BaseUrl <= PageUrl(page)
    ensures PageUrl(page) == BaseUrl <==> page == 1
  {
    if page != 1 {
      var u := PageUrl(page);
      assert |u| > |BaseUrl|;
      assert u[..|BaseUrl|] == BaseUrl;
    }
  }

  /** Distinct page numbers give distinct URLs. */
  lemma PageUrlInjective(m: int, n: int)
    requires PageUrl(m) == PageUrl(n)
    ensures m == n
  {
    PageUrlShape(m);
    PageUrlShape(n);
    if m != 1 && n != 1 {
      var prefix := BaseUrl + "catalogue/page-";
      var a, b := Decimal.IntToString(m), Decimal.IntToString(n);
      var u := PageUrl(m);
      assert u == prefix + a + ".html";
      assert u[|prefix|..|u| - 5] == a;
      assert PageUrl(n)[|prefix|..|u| - 5] == b;
      Decimal.IntToStringInjective(m, n);
    }
  }

  /** Page `k` is where the crawl stops exactly when every page before it
      yields books and `k` does not. */
  lemma StopPageIsFirstBookless(net: Fetcher.Network, parse: Parser, end: nat, k: nat)
    requires 1 <= end && !FetchPage(net, parse, end).Books?
    requires 1 <= k <= end
    ensures StopPage(net, parse, 1, end) == k <==>
      !FetchPage(net, parse, k).Books? && forall p: int :: 1 <= p < k ==> FetchPage(net, parse, p).Books?
  {
    var stop := StopPage(net, parse, 1, end);
    if stop == k {
      forall p: int | 1 <= p < k
        ensures FetchPage(net, parse, p).Books?
      {
        BeforeStopPage(net, parse, 1, end, p);
      }
    } else if stop < k {
      assert !FetchPage(net, parse, stop).Books?;
    } else {
      BeforeStopPage(net, parse, 1, end, k);
    }
  }

  /** The books of each page before the stopping page appear in the result
      unchanged and in page order: after those of the pages before it and
      before those of the pages after it. */
  lemma PageBooksInPlace(net: Fetcher.Network, parse: Parser, end: nat, p: nat)
    requires 1 <= end && !FetchPage(net, parse, end).Books?
    requires 1 <= p < StopPage(net, parse, 1, end)
    ensures FetchPage(net, parse, p).Books?
    ensures var books := Crawl(net, parse, end).0;
      books == Gathered(net, parse, 1, p) + FetchPage(net, parse, p).books +
               Gathered(net, parse, p + 1, StopPage(net, parse, 1, end))
  {
    var k := StopPage(net, parse, 1, end);
    var block := BookBlocks(net, parse);
    BeforeStopPage(net, parse, 1, end, p);
    assert block(p) == FetchPage(net, parse, p).books;
    assert Paging.Concat(block, 1, p + 1) == Paging.Concat(block, 1, p) + block(p);
    Paging.ConcatSplit(block, 1, p + 1, k);
  }

  /** Every page before the stopping page contributes at least one book. */
  lemma AtLeastOneBookPerPage(net: Fetcher.Network, parse: Parser, end: nat)
    requires 1 <= end && !FetchPage(net, parse, end).Books?
    ensures |Crawl(net, parse, end).0| >= StopPage(net, parse, 1, end) - 1
  {
    var k := StopPage(net, parse, 1, end);
    var block := BookBlocks(net, parse);
    var hi := |Gathered(net, parse, 1, k)|;
    forall p | 1 <= p < k
      ensures 1 <= |block(p)| <= hi
    {
      PageBooksInPlace(net, parse, end, p);
    }
    Paging.ConcatLength(block, 1, k, 1, hi);
  }

  /** Each visited page makes between one and `Retries` requests. */
  lemma PageFetchCount(net: Fetcher.Network, parse: Parser, page: int)
    ensures 1 <= FetchCount(PageTrace(net, parse, page)) <= Retries
  {
    var url := PageUrl(page);
    var attempts := Fetcher.Retry(net, url, Retries, DelayBetweenRequests).1;
    Fetcher.AttemptBudget(net, url, Retries, DelayBetweenRequests);
    var tail := Epilogue(FetchPage(net, parse, page));
    FetchCountAppend(attempts, tail);
    assert FetchCount(tail) == 0 by {
      if tail != [] {
        assert tail[..0] == [];
      }
    }
  }

  /** A crawl that stops at page `k` makes at least `k` and at most
      `Retries * k` requests. */
  lemma CrawlFetchBounds(net: Fetcher.Network, parse: Parser, end: nat)
    requires 1 <= end && !FetchPage(net, parse, end).Books?
    ensures var k := StopPage(net, parse, 1, end);
      k <= FetchCount(Crawl(net, parse, end).1) <= Retries * k
  {
    var k := StopPage(net, parse, 1, end);
    var block := TraceBlocks(net, parse);
    forall p | 1 <= p < k + 1
      ensures 1 <= FetchCount(block(p)) <= Retries
    {
      PageFetchCount(net, parse, p);
    }
    ConcatFetchCount(block, 1, k + 1, 1, Retries);
  }

  /** Every request made while visiting a page is for that page's URL. */
  lemma PageTraceFetches(net: Fetcher.Network, parse: Parser, page: int, i: int)
    requires 0 <= i < |PageTrace(net, parse, page)| && PageTrace(net, parse, page)[i].Fetch?
    ensures PageTrace(net, parse, page)[i] == Fetch(PageUrl(page))
  {
    var url := PageUrl(page);
    var attempts := Fetcher.Retry(net, url, Retries, DelayBetweenRequests).1;
    var n := Fetcher.FirstSuccess(net, url, 1, Retries);
    Fetcher.AttemptsShape(url, DelayBetweenRequests, if n.Some? then n.value else Retries);
    if i < |attempts| {
      assert attempts[i] == PageTrace(net, parse, page)[i];
    }
  }

  /** Pages are requested in the order 1, 2, 3, … up to the stopping page:
      a request for page `p` is never followed by one for an earlier page. */
  lemma PagesRequestedInOrder(net: Fetcher.Network, parse: Parser, end: nat, i: int, j: int, p: int, q: int)
    requires 1 <= end && !FetchPage(net, parse, end).Books?
    requires var trace := Crawl(net, parse, end).1;
      0 <= i < j < |trace| && trace[i] == Fetch(PageUrl(p)) && trace[j] == Fetch(PageUrl(q))
    ensures 1 <= p <= q <= StopPage(net, parse, 1, end)
  {
    var k := StopPage(net, parse, 1, end);
    var block := TraceBlocks(net, parse);
    assert Crawl(net, parse, end).1 == Paging.Concat(block, 1, k + 1);
    Paging.PageAtMonotone(block, 1, k + 1, i, j);
    RequestedPage(block, net, parse, k, i, p);
    RequestedPage(block, net, parse, k, j, q);
  }

  /** A request at position `i` of the trace of pages `1..k` is for the page
      whose block holds that position. */
  lemma RequestedPage(block: int -> seq<Effect>, net: Fetcher.Network, parse: Parser, k: int, i: int, p: int)
    requires block == TraceBlocks(net, parse)
    requires 0 <= i < |Paging.Concat(block, 1, k + 1)| && Paging.Concat(block, 1, k + 1)[i] == Fetch(PageUrl(p))
    ensures Paging.PageAt(block, 1, k + 1, i) == p
  {
    var a := Paging.PageAt(block, 1, k + 1, i);
    var offset := i - |Paging.Concat(block, 1, a)|;
    Paging.PageAtElement(block, 1, k + 1, i);
    assert block(a) == PageTrace(net, parse, a);
    assert PageTrace(net, parse, a)[offset] == Fetch(PageUrl(p));
    PageTraceFetches(net, parse, a, offset);
    PageUrlInjective(p, a);
  }

  /** How the crawl ends: a failing page is logged and the crawl returns what
      it gathered; an empty page adds nothing and is followed by no pause. */
  lemma CrawlEnding(net: Fetcher.Network, parse: Parser, end: nat)
    requires 1 <= end && !FetchPage(net, parse, end).Books?
    ensures var k := StopPage(net, parse, 1, end);
      var (books, trace) := Crawl(net, parse, end);
      books == Gathered(net, parse, 1, k) && trace != [] &&
      (FetchPage(net, parse, k).Failed? ==> trace[|trace| - 1] == LogError) &&
      (FetchPage(net, parse, k).Empty? ==> trace[|trace| - 1] == Fetch(PageUrl(k)))
  {
    var k := StopPage(net, parse, 1, end);
    var url := PageUrl(k);
    var attempts := Fetcher.Retry(net, url, Retries, DelayBetweenRequests).1;
    var n := Fetcher.FirstSuccess(net, url, 1, Retries);
    Fetcher.AttemptsShape(url, DelayBetweenRequests, if n.Some? then n.value else Retries);
    assert attempts != [] && attempts[|attempts| - 1] == Fetch(url);
    var last := attempts + Epilogue(FetchPage(net, parse, k));
    assert TraceBlocks(net, parse)(k) == last;
    var trace := CrawlTrace(net, parse, 1, k) + last;
    assert Crawl(net, parse, end).1 == trace;
    assert trace[|trace| - 1] == last[|last| - 1];
  }
}
