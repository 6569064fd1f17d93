/** Records the scrapers produce (src/types.ts and the quote objects built by
    the dynamic scraper), and the success/failure wrappers that stand for
    JavaScript's thrown errors and rejected promises. */
module Types {

  /** An error value as thrown by a foreign call (axios, Playwright, fs) or
      constructed by the scrapers themselves; only its message is modelled. */
  datatype Error = Error(message: string)

  /** A value or the error that was thrown instead of producing it. */
  datatype Result<+T> = Ok(value: T) | Err(error: Error)

  datatype Option<+T> = None | Some(value: T)

  /** One book card of books.toscrape.com (src/types.ts:1-5). */
  datatype Book = Book(title: string, price: string, link: string)

  /** The JSON document the static crawler writes (src/types.ts:7-10). */
  datatype ScrapeResult = ScrapeResult(books: seq<Book>, scrapedAt: string)

  /** One quote of quotes.toscrape.com: `{ text, author, tags }`. */
  datatype Quote = Quote(text: string, author: string, tags: seq<string>)

  /** The JSON document the dynamic scraper writes: `{ quotes, scrapedAt }`. */
  datatype QuoteArtifact = QuoteArtifact(quotes: seq<Quote>, scrapedAt: string)
}
