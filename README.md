# A verified model of the crawler and text extractors of a local web-page RAG tool

The tool crawls a web site from a seed link. It follows the site's sitemaps recursively, or reads the
links of an HTML page, and collects the same-host page URLs it finds. It turns a fetched page into a
text record: a numbered table of contents built from the `h1`-`h4` headings, then the cleaned page text.
It reads images, text files, `.docx` files and PDFs into cleaned text. This project models that core
in Dafny and proves what each piece computes:

- `common.dfy` (module `Common`) covers the string and URL classifiers of `src/utils/common.ts`:
  `parseUrlToText`, `cleanText`, `getExtension`, `isHTMLFile`, `isXML`, `isWebPage` and `getLink`.
  It also holds `Url`, the record of a parsed URL.
- `json_utils.dfy` (module `JsonUtils`) covers `src/utils/json_utils.ts`:
  - the recursive key search `getAllOccurrences` over a JSON tree, with arrays walked under the index
    keys `"0"`, `"1"`, …;
  - the two sitemap helpers over a typed xml2js sitemap document.
- `toc.dfy` (module `TableOfContents`) covers the table-of-contents loop of `extractDataFromUrl`. That
  loop keeps a 4-slot counter array, updated in place.
- `pdf_reflow.dfy` (module `PdfReflow`) covers the `pageRender` line reflow of `extractDataFromPDF`.
- `extract_data.dfy` (module `ExtractData`) covers three things:
  - page-record composition and `extractDataFromUrl`;
  - the four file extractors;
  - `isExtractionError`.
- `crawler.dfy` (module `Crawler`) covers `crawl_webpage`, its nested `processSitemap` and
  `extractLinksFromHTML`. The `visited` Set, shared by reference, is a class. So is the network, which
  logs every request.
- `strings.dfy`, `seqs.dfy` and `wrappers.dfy` define the models of the ECMAScript built-ins the code
  uses:
  - `split`/`join` on one character, `trim`, `toLowerCase`, `startsWith`/`endsWith`;
  - `replace` of a string pattern, which changes the first match only;
  - `filter`/`map`;
  - the insertion order of a JS `Set`;
  - `Option`/`Result`.

Foreign code enters the model as parameters:

- **URL parsing.** The WHATWG parser behind `new URL` is a `UrlParser` (`string -> Option<Url>`).
  `None` means the constructor throws `TypeError`.
- **Fetching.** A crawl's responses are a finite table from URL to `Body`. A URL missing from the table
  is one whose `fetch` or `response.text()` rejects.
- **HTML.** What cheerio extracts from a page is an input: the heading levels and texts, the page text,
  the title, and the `href` of every anchor.
- **XML.** What xml2js makes of an XML body is an input: a `SitemapXml` document, or its rejection.
- **OCR, `.docx` and PDF libraries.** What tesseract, Bun's file reader, mammoth and pdf-parse return
  is an `Outcome<string>`: the text, or the message of the error they threw.

An exception that escapes a function is a `Result.Failure(Exception)`. Examples are `new URL` at
`extract_data.ts:32`, which sits outside the `try`, and `new URL` in `isDomainSame`. An exception the
code catches becomes an `ExtractionError` value.

The model follows the code as written, including these behaviours of it:

- **PDF reflow.** Every PDF text item is followed by a space, including the last one of a line. The
  items `[100 "Hel", 100 "lo", 100 " World", 85 "Next"]` give `"Hel lo  World \nNext "`
  (`PdfReflow.ReflowExample`).
- **Extensions.** `getExtension` takes the text after the last `.` of the *whole* string, `/`
  included. `https://a.com/page` has the extension `com/page` (`Common.GetExtensionOfPath`).
- **The ignore list of `isHTMLFile`.** Every entry of the list starts with `.`, and an extension never
  holds one, so the list never matches. `isHTMLFile` is therefore true exactly when a URL has an
  extension: `https://a.com/report.pdf` passes and a URL without an extension fails
  (`Common.IsHTMLFileExamples`).
- **HTTP status.** A response with a non-2xx status is not a fetch failure in the code. Its body is
  used like any other.

## Model

| member | source | states |
|---|---|---|
| Common.ParseUrlToText | src/utils/common.ts:1-3 | The result has the input's length; each ASCII letter or digit stays in place and every other character becomes `_` |
| Common.ParseUrlToTextIdempotent | src/utils/common.ts:1-3 | The result uses only ASCII letters, digits and `_`, so a second pass changes nothing |
| Common.CleanLinesShape | src/utils/common.ts:5-11 | Every kept line is non-empty, equal to its own trim, and free of line breaks |
| Common.CleanTextLines | src/utils/common.ts:5-11 | The lines of non-empty cleaned text are exactly the trimmed non-blank input lines, in input order, each non-empty and its own trim |
| Common.CleanTextEmpty | src/utils/common.ts:5-11 | The cleaned text is empty exactly when every input line is blank after trimming |
| Common.CleanTextIdempotent | src/utils/common.ts:5-11 | Cleaning already cleaned text changes nothing |
| Common.GetExtension | src/utils/common.ts:13-16 | The regex scan yields null exactly when the text has no `.` or ends with one; otherwise the lower-cased text after the last `.`, which is non-empty and holds no `.` |
| Common.GetExtensionOfPath | src/utils/common.ts:13-16 | The extension of `https://a.com/page` is `com/page`: it is read from the whole URL, `/` included |
| Common.GetExtensionLowerCases | src/utils/common.ts:15 | `Report.PDF` has the extension `pdf` |
| Common.GetExtensionNone | src/utils/common.ts:13-16 | A URL without `.` and a text ending in `.` have no extension |
| Common.IsHTMLFile | src/utils/common.ts:18-48 | True exactly when the URL has an extension; no extension is ever in the ignore list |
| Common.IsHTMLFileExamples | src/utils/common.ts:18-48 | `https://a.com/report.pdf` is accepted, with extension `pdf`; `https://localhost/` is rejected |
| Common.IsXML | src/utils/common.ts:50-56 | True exactly when the content starts with one of `<?xml`, `<urlset`, `<sitemapindex`; such content has at least 5 characters and starts with `<` |
| Common.SomeEndsWithSlashed | src/utils/common.ts:92 | True exactly when the URL ends with some listed extension followed by `/` |
| Common.IsWebPage | src/utils/common.ts:58-93 | False exactly when the URL ends with an excluded extension followed by `/`; every URL not ending in `/` is accepted |
| Common.IsWebPageExamples | src/utils/common.ts:58-93 | `x.json/` and `…data.csv/` are rejected; `x.json`, `x.html` and `/page` are accepted |
| Common.GetLinkCanonical | src/utils/common.ts:95-98 | The link is the href without credentials, query and fragment; a URL with none of them links to its href unchanged; a URL without credentials gets its href back by appending query and fragment; canonicalising is idempotent, and query and fragment never reach the link |
| Common.MapLinks | src/utils/common.ts:95-98 | `urls.map(getLink)` succeeds exactly when every URL parses, with one link per input, in order; otherwise it throws the `InvalidUrl` of an unparsable input |
| JsonUtils.GetAllOccurrences | src/utils/json_utils.ts:3-17 | The loop's result is the occurrence list: in key order, a matching value comes before the matches nested inside that value; only objects and arrays are searched, arrays under index keys; every call flattens its own list one level, so a match d objects down is flattened d+1 times |
| JsonUtils.NoKeyNoOccurrences | src/utils/json_utils.ts:3-17 | When no key anywhere in the tree equals the target, the result is empty |
| JsonUtils.LocObjectOccurrences | src/utils/json_utils.ts:5-9 | `{loc: [a]}` searched for `loc` gives `[a]`: the array value is spread by the final `flat` |
| JsonUtils.UrlArrayOccurrences | src/utils/json_utils.ts:10-14 | An array of two `{loc: [·]}` entries is walked in index order and gives both locs |
| JsonUtils.WrapperOccurrences | src/utils/json_utils.ts:10-14 | A single-member wrapper whose key is not the target yields exactly what its value yields, provided none of those results is an array (an array would be flattened once more) |
| JsonUtils.UrlSetOccurrences | src/utils/json_utils.ts:3-17 | A parsed `urlset` document searched for `loc` gives its two locs in document order |
| JsonUtils.FlatOneLevel | src/utils/json_utils.ts:16 | For a match under a key of the root object, `flat` spreads the array value one level only: `{k: [[x]]}` gives `[[x]]` with the inner array kept |
| JsonUtils.NestedMatchFlattenedTwice | src/utils/json_utils.ts:12-16 | A match one object down is flattened by the recursive call and again by the caller: `{a: {k: [[x]]}}` gives `[x]` |
| JsonUtils.FlatOfPlain | src/utils/json_utils.ts:16 | `flat` leaves a list without arrays unchanged |
| JsonUtils.GetSitemapsFormSitemap | src/utils/json_utils.ts:19-29 | Empty unless the document is a sitemap index with `sitemap` entries; otherwise the locs passing `isHTMLFile`, every copy of each, in input order, never more than the input, not canonicalised |
| JsonUtils.GetUrlsFormSitemap | src/utils/json_utils.ts:31-39 | Empty unless the document is a URL set with `url` entries; throws `InvalidUrl` of a loc exactly when some loc does not parse; otherwise the `getLink` forms of the locs, in order, filtered by `isHTMLFile` after canonicalising, every copy of a kept link included |
| TableOfContents.Bump | src/utils/extract_data.ts:66-70 | A heading of level L adds 1 to counter L, keeps the shallower counters and zeroes the deeper ones |
| TableOfContents.BumpCounts | src/utils/extract_data.ts:66-70 | The counter array is updated in place to `Bump` of its old contents |
| TableOfContents.BuildToc | src/utils/extract_data.ts:61-78 | The loop builds `Table of Contents\n`, one `<index> <text>\n` line per heading in document order, then `. ` |
| TableOfContents.CountsAreSiblingCounts | src/utils/extract_data.ts:66-70 | After a prefix of headings, counter L is the number of level-L headings since the last shallower heading |
| TableOfContents.IndexEndsWithOwnCounter | src/utils/extract_data.ts:72-75 | The index is never empty; split at `-`, it is the positive counters of levels 1..L, and its last part is the heading's own counter, which is at least 1 |
| TableOfContents.EntryOneLine | src/utils/extract_data.ts:71-76 | An entry whose heading text has no line break has none either |
| TableOfContents.TocLines | src/utils/extract_data.ts:63-78 | For one-line headings, the lines of the TOC are the banner, one entry per heading, then `. ` |
| TableOfContents.CountsExample | src/utils/extract_data.ts:66-70 | The levels [1,2,2,3,1,2] leave the counters [1,0,0,0], [1,1,0,0], [1,2,0,0], [1,2,1,0], [2,0,0,0], [2,1,0,0] |
| TableOfContents.NumberingExample | src/utils/extract_data.ts:72-75 | The levels [1,2,2,3,1,2] are numbered `1`, `1-1`, `1-2`, `1-2-1`, `2`, `2-1` |
| PdfReflow.PageRender | src/utils/extract_data.ts:155-166 | The loop over text items computes `Reflow`: each item's string follows a line break exactly when the previous y is defined, non-zero and different, and is followed by one space |
| PdfReflow.ReflowLength | src/utils/extract_data.ts:155-166 | The output length is the total string length, plus the item count, plus the number of line breaks |
| PdfReflow.ReflowPrefix | src/utils/extract_data.ts:157-165 | Text is only appended: reflowing a prefix of the items gives a prefix of the output |
| PdfReflow.PieceInPlace | src/utils/extract_data.ts:158-163 | Item i appears in the output at the end of the first i items' text, as an optional line break, its string and one space |
| PdfReflow.ReflowExample | src/utils/extract_data.ts:155-166 | The items `[100 Hel, 100 lo, 100 " World", 85 Next]` give `"Hel lo  World \nNext "` |
| PdfReflow.ZeroIsNoLine | src/utils/extract_data.ts:158 | A previous y of 0 counts as no previous line: `[0 a, 5 b]` give `"a b "` |
| ExtractData.IsExtractionError | src/utils/extract_data.ts:18-20 | True exactly for an error record |
| ExtractData.Wrap | src/utils/extract_data.ts:102-150 | The shared try/catch: an error exactly when the library threw, with the prefixed message; otherwise the cleaned text |
| ExtractData.ExtractDataFromImage | src/utils/extract_data.ts:102-116 | The cleaned OCR text, or the error `Failed to recognize text: <message>`, exactly when recognition threw |
| ExtractData.ExtractDataFromFile | src/utils/extract_data.ts:118-132 | The cleaned file text, or the error `Failed to read text file: <message>`, exactly when reading threw |
| ExtractData.ExtractDataFromDocx | src/utils/extract_data.ts:134-150 | The cleaned raw `.docx` text, or the error `Failed to read text file: <message>`, exactly when reading threw |
| ExtractData.ExtractDataFromPDF | src/utils/extract_data.ts:152-187 | The cleaned PDF text, or the error `Failed to read pdf file: <message>`, exactly when reading threw |
| ExtractData.PageTitle | src/utils/extract_data.ts:83 | The title is never empty; a non-empty page title is kept, and an empty one falls back to the literal message |
| ExtractData.ExtractDataFromUrl | src/utils/extract_data.ts:22-100 | `new URL` on a malformed URL throws outside the `try`; a failed fetch gives `Failed to fetch the URL: <message>`; otherwise a page record with the built TOC, the URL's hostname and pathname |
| ExtractData.PageDataLines | src/utils/extract_data.ts:80-93 | For a one-line URL, title and headings, the record's data splits into the lines `URL: …`, `Title: …`, `Extracted Data: Table of Contents`, one TOC entry per heading, `. `, then the lines of the cleaned page text |
| ExtractData.PageRecordIsNoError | src/utils/extract_data.ts:83-93 | A page record is no error, has a non-empty title, its data starts with `URL: <url>`, and its text starts with the TOC banner |
| Crawler.HtmlHrefsKeeps | src/utils/extract_data.ts:263-270 | An `href` is kept exactly when it starts with `http` and has an extension, and the kept ones stay in document order |
| Crawler.ExtractLinksFromHTML | src/utils/extract_data.ts:261-271 | The `getLink` forms of the kept `href`s, one per `href` and in order, or the `InvalidUrl` of a kept `href` that does not parse |
| Crawler.FilterParsed | src/utils/extract_data.ts:253 | A filter through `new URL` throws the `InvalidUrl` of an unparsable URL exactly when some URL does not parse; otherwise it keeps the URLs that pass and no other, in order |
| Crawler.FilterParsedCounts | src/utils/extract_data.ts:253 | The filter keeps every copy of a URL that passes and no copy of one that fails |
| Crawler.FilterParsedAll | src/utils/extract_data.ts:253 | A filter that every URL passes returns the list unchanged |
| Crawler.FilterPages | src/utils/extract_data.ts:235 | The kept URLs are exactly the inputs on the seed's hostname that `isWebPage` accepts |
| Crawler.Process | src/utils/extract_data.ts:197-249 | A visited URL returns the empty set and changes nothing; otherwise the URL is marked visited and requested first, and a failed fetch returns the empty set; `visited` only grows, every URL is requested at most once, and every result is unique, on the seed's host and a web page; what reaches the result is stated by `Crawler.XmlBranchResult`, `Crawler.HtmlBranchResult` and `Crawler.ProcessChildrenStep` |
| Crawler.ProcessXml | src/utils/extract_data.ts:229-242 | The XML branch after parsing: `visited` only grows, every URL is requested at most once, and its result is unique and made of crawl targets |
| Crawler.ProcessXmlResult | src/utils/extract_data.ts:232-242 | A parsed sitemap yields the children loop started from `new Set` of its URL set's crawl targets; those URLs stay at the head of the result, so every crawl target of the URL set is in it |
| Crawler.ProcessChildren | src/utils/extract_data.ts:236-242 | The URLs already in the set keep their places at the head of the result, which stays unique and made of crawl targets; `visited` only grows and every URL is requested at most once |
| Crawler.ProcessChildrenStep | src/utils/extract_data.ts:237-240 | One loop turn: the first child is processed from the current state; if it throws, the loop throws; otherwise the loop continues with `new Set([...urlSet, ..._urls])` and the child's state, and every URL the child found is in the final result |
| Crawler.ProcessSitemap | src/utils/extract_data.ts:197-249 | The recursive method, with its loop over child sitemaps, returns what `Process` predicts and leaves the visited set and request log it predicts |
| Crawler.VisitedSet.Add | src/utils/extract_data.ts:201 | `visited.add(url)` adds exactly that URL |
| Crawler.Network.Fetch | src/utils/extract_data.ts:222-227 | A fetch logs its URL and yields the site's response, or nothing when the request fails |
| Crawler.CrawlWebpage | src/utils/extract_data.ts:189-259 | The crawl method returns `Crawl`: a malformed seed throws before any request, and otherwise the request log is that of `processSitemap` from the seed |
| Crawler.CrawlResult | src/utils/extract_data.ts:250-258 | The final hostname filter removes nothing; the crawl yields the URLs `processSitemap` found, then the seed unless it ends with `sitemap.xml`; the seed is requested first and no URL twice |
| Crawler.XmlBranchResult | src/utils/extract_data.ts:229-242 | A sitemap body contributes the children loop started from the URL set's crawl targets as a `Set`, after the request; every crawl target of the URL set is in the result |
| Crawler.HtmlBranchResult | src/utils/extract_data.ts:243-247 | A non-XML page contributes `new Set` of its links' crawl targets: exactly the kept links on the seed's host that are web pages, one URL per distinct link |
| Crawler.SelfReferencingIndex | src/utils/extract_data.ts:197-242 | A sitemap index that lists itself is requested once and contributes nothing: the visited set stops the cycle |
| Crawler.HtmlBranchLinks | src/utils/extract_data.ts:244-247 | Every URL an HTML page contributes is the `getLink` form of one of its anchors' `href`s that starts with `http` and has an extension |

## Left out

- `src/index.ts` is not part of this model. It is glue around LangChain, Ollama and a vector store: a text splitter, embeddings, a prompt chain and console output.
- The WHATWG URL parser is a parameter, `UrlParser`. The `Url` record holds the fields the code reads (protocol, hostname, port, pathname), the query and fragment that `getLink` drops, and the username and password, which the code never reads and which serve only to state what `href` is. `host` is derived from hostname and port.
- `fetch`, `Bun.file`, `arrayBuffer` and the request-header literals are left out. A crawl's responses are a finite table; `extractDataFromUrl` takes its fetch outcome as an input.
- cheerio's HTML parsing is left out. The headings, page text, title and anchor `href`s are inputs.
- xml2js parsing is an input: a typed `SitemapXml` document with `loc` as a string, or the parser's rejection. Its runtime wrapping of every `loc` in an array is not modelled in the sitemap helpers; `JsonUtils.LocObjectOccurrences` shows how `getAllOccurrences` treats that shape.
- The tesseract, mammoth and pdf-parse libraries are inputs: their text or their error message. How pdf-parse joins the pages that `pageRender` returns is not modelled.
- async/await scheduling is left out. The crawl is modelled as the sequential walk it performs, with one request at a time.
- PDF coordinates are integers, not floating-point numbers. The code only compares them for loose equality and truthiness.
- Common.ParseUrlToText: strings are sequences of Unicode code points, not UTF-16 code units. A character outside the Basic Multilingual Plane, such as U+1F600, is two code units in JavaScript and becomes `__`; here it counts once and becomes `_`. The same holds for every length the model states.
- Strings.ToLower: maps ASCII letters only, because Unicode case mapping is not modelled. `trim` does remove the full ECMAScript whitespace set.
