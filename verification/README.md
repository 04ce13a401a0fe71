# TechCrunch fintech parser — a Dafny model

This project models the core of the `Techcrunch` parser plugin
(`src/s3p_plugin_parser_techcrunch/techcrunch.py`): a scraper that walks
the listing pages of the TechCrunch fintech category, collects the article
links on each page, builds a document per article and hands each document to
the host's `_find`, which applies the run's restrictions.

The browser and the host are not modelled; they are oracles:

- a listing page is a `LinkExtractor.ListingPage` snapshot (does each visit
  return normally, the cards found and their title links, does a card turn up within
  the wait);
- an article page is an `Articles.ArticlePage` snapshot (the texts and
  attributes the extractor reads, `None` where a lookup or wait raises);
- `datetime.fromisoformat`, the host's `_find` (given the documents submitted
  before) and `datetime.now()` are functions held in `Traversal.Env`.

Modules:

- `Listing` — `_infinity_page_links`: the URL template, the decimal page
  number, its inverse, and the generator as a class `PageLinkWalker` whose
  counter starts at 1 and moves by one per yield.
- `LinkExtractor` — `_page_links`: one href per card in card order, as a
  function and as the loop that appends them.
- `Articles` — the composition in `_document_from_page`: title, the
  newline-joined body, the abstract with its meta-description-first rule and
  its 200-character fallback, the published date with its timezone dropped,
  and the order in which the steps can raise.
- `Traversal` — `_parse`: the nested loops as a method `Parse` that drives a
  `PageLinkWalker`, specified by the functions `ProcessPages` and
  `ProcessLinks`, and the laws of the run proved about those functions.

Behaviour the model keeps as the code has it:

- No run ends normally. A listing page without cards makes the wait at
  line 127 raise, and that exception is not caught at line 47; if a card
  turns up late, the page yields no link and the walk goes on to the next page.
- A card without a title link makes `_page_links` raise (lines 131-135); the
  card is not skipped, and the exception escapes `_parse` (`Outcome.Raised`).
- `_page_links` navigates to the listing a second time (line 124); a failure
  there also escapes uncaught, unlike the first navigation (lines 42-45).
- The abstract fallback uses the first paragraph only (line 84), not the
  joined body, and always appends `...`, even to a short paragraph.
- The abstract is the `content` attribute of the first meta description even
  when that attribute is missing (then it is `None`, whatever the body).
- The author and category waits (lines 88-98) raise when they time out, so the
  article is skipped; they are not tolerated field by field.
- A restriction violation other than the date lower bound is swallowed and
  the loop continues (lines 55-59); it is not passed on to the host.
- `replace(tzinfo=None)` keeps the wall-clock fields as written in the page;
  it does not convert to UTC.

## Model

| member | source | states |
|---|---|---|
| `Listing.Decimal` | src/s3p_plugin_parser_techcrunch/techcrunch.py:116-120 | the page number is written as a canonical decimal numeral (digits only, no leading zero), starting with '0' exactly for 0 |
| `Listing.DecimalRoundTrip` | src/s3p_plugin_parser_techcrunch/techcrunch.py:116-120 | reading back the rendered page number gives the number |
| `Listing.CanonicalRoundTrip` | src/s3p_plugin_parser_techcrunch/techcrunch.py:116-120 | rendering the value of a canonical numeral gives the numeral back, so rendering is a bijection onto canonical numerals |
| `Listing.PageUrl` | src/s3p_plugin_parser_techcrunch/techcrunch.py:116-120 | the listing URL lies under the fintech category host and ends with `/?guccounter=1`; its middle is the page number (see `PageNumberOfInverse`) |
| `Listing.PageNumberOfInverse` | src/s3p_plugin_parser_techcrunch/techcrunch.py:116-120 | a URL names page n exactly when it is the template `HOST + 'page/' + n + '/?guccounter=1'` filled with n |
| `Listing.PageUrlInjective` | src/s3p_plugin_parser_techcrunch/techcrunch.py:116-121 | two page numbers give the same listing URL only when they are equal |
| `Listing.WalkNeverRepeats` | src/s3p_plugin_parser_techcrunch/techcrunch.py:118-121 | a walk yielding the URLs of pages 1, 2, 3, ... never yields a URL twice |
| `Listing.FirstPageUrl` | src/s3p_plugin_parser_techcrunch/techcrunch.py:116-120 | the first URL is `https://techcrunch.com/category/fintech/page/1/?guccounter=1` |
| `Listing.PageLinkWalker.constructor` | src/s3p_plugin_parser_techcrunch/techcrunch.py:116-118 | a fresh walker has yielded nothing and its counter is 1 |
| `Listing.PageLinkWalker.Next` | src/s3p_plugin_parser_techcrunch/techcrunch.py:119-121 | each yield is the URL of the current page number, the counter then moves up by exactly one, and the k-th URL yielded is the URL of page k |
| `LinkExtractor.CardHrefs` | src/s3p_plugin_parser_techcrunch/techcrunch.py:129-138 | one href per card in card order when every card has a title link; otherwise the error names the first card without one |
| `LinkExtractor.AllTitledCardsGiveAllLinks` | src/s3p_plugin_parser_techcrunch/techcrunch.py:129-138 | a page with N >= 1 cards, all with title links, yields exactly N links, the i-th being the i-th card's href |
| `LinkExtractor.EmptyListing` | src/s3p_plugin_parser_techcrunch/techcrunch.py:126-127 | a page with no cards raises on the wait, unless a card appears in time, and then yields no link |
| `LinkExtractor.PageLinksOf` | src/s3p_plugin_parser_techcrunch/techcrunch.py:123-138 | links are returned exactly when the reload succeeds, the card wait succeeds and every card has a title link, and then there is one href per card in card order; a failed reload, a timed-out wait and the first card without a title are each reported as that error |
| `LinkExtractor.PageLinks` | src/s3p_plugin_parser_techcrunch/techcrunch.py:123-138 | the appending loop returns what `PageLinksOf` describes: the reload error, the wait error, the first card without a title, or all hrefs in order |
| `Articles.JoinLines` | src/s3p_plugin_parser_techcrunch/techcrunch.py:76 | `'\n'.join`: a non-empty join has every paragraph's characters plus one separator between each two, and starts with the first paragraph |
| `Articles.TextOf` | src/s3p_plugin_parser_techcrunch/techcrunch.py:75-76 | `text` is None exactly when there are no paragraphs; otherwise its length is the paragraphs' total length plus one newline between each two |
| `Articles.AbstractOf` | src/s3p_plugin_parser_techcrunch/techcrunch.py:78-84 | the first meta description's content when there is one; otherwise present exactly when there are paragraphs, of length min(len of the first paragraph, 200) + 3, ending in '...' |
| `Articles.DropTimezone` | src/s3p_plugin_parser_techcrunch/techcrunch.py:111 | the result has no timezone and differs from the parsed date-time in nothing else |
| `Articles.ExtractionFailure` | src/s3p_plugin_parser_techcrunch/techcrunch.py:62-98 | the steps raise in source order: a failed visit, then no hero, no title, no date element, an unparsable date, no author, no category; each error implies the steps before it passed, and there is none exactly when all pass |
| `Articles.Take` | src/s3p_plugin_parser_techcrunch/techcrunch.py:84 | the slice `[:n]` has min(len, n) characters and is a prefix of the string |
| `Articles.BuildDocument` | src/s3p_plugin_parser_techcrunch/techcrunch.py:61-113 | a document is built exactly when the page opens, the hero appears, the title and date element exist, the date parses and author and category appear; the error is the first failing step; the document's link is the url, `loaded` the clock, its title, author and category are the page's, `text` is `TextOf` the paragraphs (absent exactly when there are none), `abstractText` is `AbstractOf` the meta descriptions and paragraphs, and `published` is the parsed date with its timezone dropped |
| `Articles.SplitJoin` | src/s3p_plugin_parser_techcrunch/techcrunch.py:75-76 | splitting the joined body on newlines gives the paragraphs back, in order, when no paragraph holds a newline |
| `Articles.JoinSplit` | src/s3p_plugin_parser_techcrunch/techcrunch.py:76 | joining the newline-separated pieces of any text gives the text back |
| `Articles.JoinStartsWithFirst` | src/s3p_plugin_parser_techcrunch/techcrunch.py:76 | the joined body starts with the first paragraph |
| `Articles.TextLaw` | src/s3p_plugin_parser_techcrunch/techcrunch.py:75-76 | when no paragraph holds a newline, `text` splits back into the paragraphs in order, one per line |
| `Articles.AbstractLaw` | src/s3p_plugin_parser_techcrunch/techcrunch.py:78-84 | with a meta description the abstract is the first one's content, whatever the body; without one it is the first paragraph cut to 200 characters plus '...', of length min(len, 200) + 3, a prefix of the body text followed by '...', and the body's first 200 characters plus '...' when the first paragraph is that long; with neither it is None |
| `Articles.DropTimezoneLaw` | src/s3p_plugin_parser_techcrunch/techcrunch.py:111 | `published` has no timezone, keeps every other field of the parsed date, does not depend on the source offset, and dropping twice is dropping once |
| `Articles.BuildIsIdempotent` | src/s3p_plugin_parser_techcrunch/techcrunch.py:61-113 | the same page always gives the same document, field for field, except `loaded` |
| `Traversal.Parse` | src/s3p_plugin_parser_techcrunch/techcrunch.py:31-59 | the nested loops over pages from the walker and over their links end with the outcome and the submitted documents that `ProcessPages` from page 1 gives |
| `Traversal.ProcessLinks` | src/s3p_plugin_parser_techcrunch/techcrunch.py:47-59 | the inner loop over one page's links submits at most one document per link, and a date stop happens only after a document was submitted (which documents, in what order, and that the refused one is last: `LinksSubmittedInOrder`, `LinksDateStop`) |
| `Traversal.ProcessPages` | src/s3p_plugin_parser_techcrunch/techcrunch.py:40-59 | the outer loop over listing pages never submits fewer documents than it started with, a date stop happens only after a document was submitted, and with no page left the run is Suspended (which documents, in what order, and that the refused one is last: `PagesSubmittedInOrder`, `PagesDateStop`) |
| `Traversal.FailedExtractionsAreSkipped` | src/s3p_plugin_parser_techcrunch/techcrunch.py:47-52 | a link whose extraction raises is skipped: the page runs exactly as if it were not in the list, the other links keeping their order |
| `Traversal.LinksSubmittedInOrder` | src/s3p_plugin_parser_techcrunch/techcrunch.py:47-59 | the k-th document a page submits is built from its k-th extractable link, and every extractable link is submitted unless the date bound stops the page |
| `Traversal.PagesSubmittedInOrder` | src/s3p_plugin_parser_techcrunch/techcrunch.py:40-59 | documents are submitted in page order, then link order: the k-th is built from the k-th extractable link of the pages reached, and all of them are submitted unless the run ends on the date bound |
| `Traversal.LinksDateStop` | src/s3p_plugin_parser_techcrunch/techcrunch.py:53-59 | within a page, a date refusal ends the page on the refused document, and no earlier document is refused for the date |
| `Traversal.PagesDateStop` | src/s3p_plugin_parser_techcrunch/techcrunch.py:40-59 | across pages, the run ends on a date refusal exactly at the refused document, the last one submitted |
| `Traversal.ParseDateStop` | src/s3p_plugin_parser_techcrunch/techcrunch.py:53-59 | in a whole run a document is refused for the date restriction exactly when it is the last one submitted and the run ends on it with Finish; refusals for other restrictions never end the run |
| `Traversal.StopIsFinal` | src/s3p_plugin_parser_techcrunch/techcrunch.py:40-59 | once a run stops (unreachable listing, escaped exception, date bound) more listing pages change neither the outcome nor the documents submitted |
| `Traversal.StopNamesItsPage` | src/s3p_plugin_parser_techcrunch/techcrunch.py:42-47 | a run that stops on a listing page names one of the pages it walked, which could not be opened (Finish) or whose link extraction raised that very error |
| `Traversal.UnreachableListingEndsRun` | src/s3p_plugin_parser_techcrunch/techcrunch.py:42-45 | a listing page that cannot be opened ends the run with Finish at once, submitting nothing more |
| `Traversal.EmptyListingNeverFinishes` | src/s3p_plugin_parser_techcrunch/techcrunch.py:40-47 | a listing page without cards either raises from the wait or contributes nothing and the run goes on with the next page; it never ends the run normally |

## Left out

- Selenium: navigation, element lookups, waits and their timeouts are reduced to the snapshot fields of `ListingPage` and `ArticlePage` (success or failure, texts, attributes).
- `time.sleep` in `_initial_access_source` and the steps of `_agree_cookie_pass` are not modelled one by one. The cookie pass can raise: its handler catches only a missing button, so a button that does not become clickable in time, or a failing click, escapes. Each visit is therefore one flag, `ListingPage.opens`, `ListingPage.reopens` or `ArticlePage.opens`, meaning that `_initial_access_source` (navigation, settle delay and cookie pass) returned normally.
- `datetime.fromisoformat` is the oracle `Env.parseIso`; the date grammar it accepts is not modelled. A timezone is kept only as an offset in minutes.
- `datetime.now()` is the oracle `Env.clock`, read once per document built.
- The host SDK: `S3PParserBase`, the restriction engine behind `_find` (the oracle `Env.find`, which sees the documents submitted before), the logger and the exception classes. Any exception of `_find` other than an out-of-restriction error is not modelled.
- The endless page walk is cut to a budget of listing pages; a run that uses it up ends `Suspended`, where the source would request the next page.
- A title anchor without an `href` attribute (Selenium returns None, and the later navigation to it fails): a card's title link is either a string or missing.
- The document fields `id` and `storage`, which the parser always sets to None.
- tests/fixtures/payload_class.py is a test fixture with no logic and is not part of this model.
