/** The calls the scrapers make into the outside world, in the order they are
    made. A run is judged by the trace of these effects it leaves behind;
    what each call returns comes from an oracle given to the run. */
module Effects {
  import opened Types
  import Paging

  datatype Effect =
    | Fetch(url: string)             // fetchHTML(url): one HTTP GET through axios
    | Sleep(ms: int)                 // await of a setTimeout promise
    | LogError                       // console.error on a caught failure
    | WriteBooks(books: ScrapeResult)       // fs.writeFile of the static result
    | Launch                         // chromium.launch()
    | NewPage                        // browser.newPage()
    | Goto(target: string)           // page.goto(url)
    | WaitForQuotes                  // page.waitForSelector('.quote')
    | ExtractQuotes                  // page.$$eval('.quote', ...)
    | Screenshot(file: string)       // page.screenshot({ path })
    | ProbeNext                      // page.$('li.next > a')
    | ClickNext                      // nextBtn.click()
    | WriteQuotes(quotes: QuoteArtifact)    // fs.writeFile of the dynamic result
    | CloseBrowser                   // browser.close()

  /** The number of HTTP requests in a trace. */
  function FetchCount(t: seq<Effect>): nat
  {
    if t == [] then 0 else FetchCount(t[..|t| - 1]) + (if t[|t| - 1].Fetch? then 1 else 0)
  }

  /** The number of times the effect `e` occurs in a trace. */
  function Occurrences(t: seq<Effect>, e: Effect): nat
  {
    if t == [] then 0 else Occurrences(t[..|t| - 1], e) + (if t[|t| - 1] == e then 1 else 0)
  }

  lemma {:induction false} FetchCountAppend(a: seq<Effect>, b: seq<Effect>)
    ensures FetchCount(a + b) == FetchCount(a) + FetchCount(b)
  {
    if b != [] {
      assert (a + b)[..|a + b| - 1] == a + b[..|b| - 1];
      FetchCountAppend(a, b[..|b| - 1]);
    } else {
      assert a + b == a;
    }
  }

  lemma {:induction false} OccurrencesAppend(a: seq<Effect>, b: seq<Effect>, e: Effect)
    ensures Occurrences(a + b, e) == Occurrences(a, e) + Occurrences(b, e)
  {
    if b != [] {
      assert (a + b)[..|a + b| - 1] == a + b[..|b| - 1];
      OccurrencesAppend(a, b[..|b| - 1], e);
    } else {
      assert a + b == a;
    }
  }

  /** An effect occurs in a trace exactly when it is counted there. */
  lemma {:induction false} OccurrencesPositive(t: seq<Effect>, e: Effect)
    ensures Occurrences(t, e) > 0 <==> e in t
  {
    if t != [] {
      OccurrencesPositive(t[..|t| - 1], e);
      assert t == t[..|t| - 1] + [t[|t| - 1]];
    }
  }

  /** In a trace without repetitions every effect occurs at most once. */
  lemma {:induction false} OccurrencesDistinct(t: seq<Effect>, e: Effect)
    requires forall i, j :: 0 <= i < j < |t| ==> t[i] != t[j]
    ensures Occurrences(t, e) == if e in t then 1 else 0
  {
    if t != [] {
      var front := t[..|t| - 1];
      OccurrencesDistinct(front, e);
      OccurrencesPositive(front, e);
      assert t == front + [t[|t| - 1]];
      if e in front {
        var i :| 0 <= i < |front| && front[i] == e;
        assert t[i] != t[|t| - 1];
      }
    }
  }

  /** Request counts of a page-ordered concatenation of traces. */
  lemma {:induction false} ConcatFetchCount(block: int -> seq<Effect>, from: int, until: int, lo: nat, hi: nat)
    requires from <= until
    requires forall p :: from <= p < until ==> lo <= FetchCount(block(p)) <= hi
    ensures lo * (until - from) <= FetchCount(Paging.Concat(block, from, until)) <= hi * (until - from)
    decreases until - from
  {
    if from < until {
      ConcatFetchCount(block, from, until - 1, lo, hi);
      FetchCountAppend(Paging.Concat(block, from, until - 1), block(until - 1));
      Paging.Step(lo, from, until);
      Paging.Step(hi, from, until);
    }
  }

  /** An effect absent from every page's trace is absent from their concatenation. */
  lemma {:induction false} ConcatAbsent(block: int -> seq<Effect>, from: int, until: int, e: Effect)
    requires forall p :: from <= p < until ==> Occurrences(block(p), e) == 0
    ensures Occurrences(Paging.Concat(block, from, until), e) == 0
    decreases until - from
  {
    if from < until {
      ConcatAbsent(block, from, until - 1, e);
      OccurrencesAppend(Paging.Concat(block, from, until - 1), block(until - 1), e);
    }
  }
}
