/**
 * The shape of a site's scraping configuration, shared by the configuration
 * store, its HTTP handlers and the browser form. Text fields are strings; a
 * JavaScript string is falsy exactly when it is empty.
 */
module Scraper {
  import opened Wrappers

  /** A pair of CSS selectors for the two scraping back ends. */
  datatype SelectorConfig = SelectorConfig(cheerio: string, puppeteer: string)

  /** A JavaScript number as `parseInt` produces it: an integer, or `NaN`. */
  datatype Number = Num(value: int) | NaN

  /** `{ pattern: { regex, groupIndex } }`: find chapter numbers in the URL instead of following links. */
  datatype ChapterNumberPattern = ChapterNumberPattern(regex: string, groupIndex: Number)

  datatype Selectors = Selectors(
    content: string,
    title: string,
    nextChapter: Option<SelectorConfig>,
    prevChapter: Option<SelectorConfig>)

  /** `ScraperConfig`; `selectors` is optional because a request body may omit it. */
  datatype ScraperConfig = ScraperConfig(
    domain: string,
    selectors: Option<Selectors>,
    chapterNumber: Option<ChapterNumberPattern>)

  /** The configurations by key. */
  type Store = map<string, ScraperConfig>
}
