/** The extractors of src/utils/extract_data.ts: one result per source, an error record whenever the
    foreign library throws inside the `try`. */
module ExtractData {
  import opened Wrappers
  import opened Strings
  import opened Common
  import opened TableOfContents

  /** The three record shapes an extractor returns. */
  datatype ExtractDataResult =
    | ExtractionSuccess(data: string)
    | PageExtraction(url: string, title: string, text: string, hostname: string, pathname: string, data: string)
    | ExtractionError(error: string)

  /** `'error' in data`: only the error record has an `error` key. */
  function IsExtractionError(d: ExtractDataResult): (r: bool)
    ensures r <==> d.ExtractionError?
    ensures !r ==> d.ExtractionSuccess? || d.PageExtraction?
  {
    match d
    case ExtractionError(_) => true
    case _ => false
  }

  /** The settled outcome of a call into a library outside the core: its value, or the message
      of the error it threw. */
  datatype Outcome<T> = Done(value: T) | Threw(message: string)

  /** A record whose data is the cleaned text, or an error record with the message prefixed. */
  function Wrap(text: Outcome<string>, prefix: string): (r: ExtractDataResult)
    ensures IsExtractionError(r) <==> text.Threw?
    ensures text.Done? ==> r == ExtractionSuccess(CleanText(text.value))
    ensures text.Threw? ==> r == ExtractionError(prefix + text.message)
  {
    match text
    case Done(t) => ExtractionSuccess(CleanText(t))
    case Threw(m) => ExtractionError(prefix + m)
  }

  /** `extractDataFromImage`: `ocr` is the text tesseract recognised, or its error. */
  function ExtractDataFromImage(ocr: Outcome<string>): (r: ExtractDataResult)
    ensures IsExtractionError(r) <==> ocr.Threw?
    ensures ocr.Done? ==> r.data == CleanText(ocr.value)
    ensures ocr.Threw? ==> r.error == "Failed to recognize text: " + ocr.message
  {
    Wrap(ocr, "Failed to recognize text: ")
  }

  /** `extractDataFromFile`: `read` is the file's text, or the error reading it. */
  function ExtractDataFromFile(read: Outcome<string>): (r: ExtractDataResult)
    ensures IsExtractionError(r) <==> read.Threw?
    ensures read.Done? ==> r.data == CleanText(read.value)
    ensures read.Threw? ==> r.error == "Failed to read text file: " + read.message
  {
    Wrap(read, "Failed to read text file: ")
  }

  /** `extractDataFromDocx`: `raw` is the text mammoth extracted, or the error reading the file
      or converting it; the message prefix is the one of the plain-text extractor. */
  function ExtractDataFromDocx(raw: Outcome<string>): (r: ExtractDataResult)
    ensures IsExtractionError(r) <==> raw.Threw?
    ensures raw.Done? ==> r.data == CleanText(raw.value)
    ensures raw.Threw? ==> r.error == "Failed to read text file: " + raw.message
  {
    Wrap(raw, "Failed to read text file: ")
  }

  /** `extractDataFromPDF`: `parsed` is the text pdf-parse assembled from the pages that
      `pageRender` produced, or the error reading or parsing the file. */
  function ExtractDataFromPDF(parsed: Outcome<string>): (r: ExtractDataResult)
    ensures IsExtractionError(r) <==> parsed.Threw?
    ensures parsed.Done? ==> r.data == CleanText(parsed.value)
    ensures parsed.Threw? ==> r.error == "Failed to read pdf file: " + parsed.message
  {
    Wrap(parsed, "Failed to read pdf file: ")
  }

  /** What cheerio reads from a fetched page: its `h1`..`h4` headings in document order, the text
      of the whole document, and the text of its `title` elements. */
  datatype HtmlPage = HtmlPage(headings: seq<Heading>, rawText: string, title: string)

  const TitleFallback: string := "Failed to extract title from the HTML"

  /** `$('title').text() || fallback`: an empty title is falsy. */
  function PageTitle(title: string): (r: string)
    ensures r != []
    ensures title != [] ==> r == title
  {
    if title == [] then TitleFallback else title
  }

  /** The table of contents, a line break, then the cleaned page text. */
  function PageText(toc: string, rawText: string): string {
    toc + "\n" + CleanText(rawText)
  }

  /** The `data` field: the URL, the title and the text on lines of their own. */
  function PageData(url: string, title: string, text: string): string {
    "URL: " + url + "\nTitle: " + title + "\nExtracted Data: " + text
  }

  /** The record `extractDataFromUrl` builds for a fetched page. */
  function PageRecord(url: string, u: Url, page: HtmlPage): ExtractDataResult {
    var title := PageTitle(page.title);
    var text := PageText(Toc(page.headings), page.rawText);
    PageExtraction(url, title, text, u.hostname, u.pathname, PageData(url, title, text))
  }

  /** `extractDataFromUrl`. `new URL(url)` runs before the `try`, so a malformed URL throws;
      `fetched` is the page cheerio loaded from the response, or the error of `fetch` or of
      reading the body, which becomes an error record. */
  method ExtractDataFromUrl(url: string, parse: UrlParser, fetched: Outcome<HtmlPage>)
    returns (r: Result<ExtractDataResult, Exception>)
    ensures parse(url).None? ==> r == Failure(InvalidUrl(url))
    ensures parse(url).Some? && fetched.Threw? ==> r == Success(ExtractionError("Failed to fetch the URL: " + fetched.message))
    ensures parse(url).Some? && fetched.Done? ==> r == Success(PageRecord(url, parse(url).value, fetched.value))
  {
    var parsed := parse(url);
    if parsed.None? {
      return Failure(InvalidUrl(url));
    }
    var hostname, pathname := parsed.value.hostname, parsed.value.pathname;
    match fetched {
      case Threw(message) =>
        return Success(ExtractionError("Failed to fetch the URL: " + message));
      case Done(page) =>
        var toc := BuildToc(page.headings);
        var text := CleanText(page.rawText);
        var title := if page.title != [] then page.title else TitleFallback;
        var textWithToc := toc + "\n" + text;
        return Success(PageExtraction(url, title, textWithToc, hostname, pathname,
          "URL: " + url + "\nTitle: " + title + "\nExtracted Data: " + textWithToc));
    }
  }

  /** Read back line by line, a page record's data is the URL line, the title line, the table of
      contents after the `Extracted Data: ` label, and the lines of the cleaned text. */
  lemma PageDataLines(url: string, title: string, headings: seq<Heading>, rawText: string)
    requires '\n' !in url && '\n' !in title && OneLineHeadings(headings)
    ensures Split(PageData(url, title, PageText(Toc(headings), rawText)), '\n')
      == ["URL: " + url, "Title: " + title, "Extracted Data: Table of Contents"]
         + Entries(headings) + [". "] + Split(CleanText(rawText), '\n')
  {
    var es := Entries(headings);
    var clean := CleanText(rawText);
    var rest := Lines(es) + (". " + "\n" + clean);
    var text := PageText(Toc(headings), rawText);
    var a, b, c := "URL: " + url, "Title: " + title, "Extracted Data: Table of Contents";
    TextShape(Banner, Lines(es), Footer, clean);
    assert text == "Table of Contents" + "\n" + rest;
    DataShape(url, title, text);
    LabelShape(rest);
    assert PageData(url, title, text) == a + "\n" + (b + "\n" + (c + "\n" + rest));
    EntriesOneLine(headings);
    SplitThreeLines(a, b, c, es, clean);
  }

  lemma SplitThreeLines(a: string, b: string, c: string, es: seq<string>, clean: string)
    requires '\n' !in a && '\n' !in b && '\n' !in c
    requires forall i :: 0 <= i < |es| ==> '\n' !in es[i]
    ensures Split(a + "\n" + (b + "\n" + (c + "\n" + (Lines(es) + (". " + "\n" + clean)))), '\n')
      == [a, b, c] + es + [". "] + Split(clean, '\n')
  {
    var rest := Lines(es) + (". " + "\n" + clean);
    SplitHeadLines(a, b, c, rest);
    SplitTailLines(es, clean);
    assert [a, b, c] + (es + [". "] + Split(clean, '\n')) == [a, b, c] + es + [". "] + Split(clean, '\n');
  }

  lemma SplitHeadLines(a: string, b: string, c: string, rest: string)
    requires '\n' !in a && '\n' !in b && '\n' !in c
    ensures Split(a + "\n" + (b + "\n" + (c + "\n" + rest)), '\n') == [a, b, c] + Split(rest, '\n')
  {
    SplitAfterPrefix(c, rest, '\n');
    SplitAfterPrefix(b, c + "\n" + rest, '\n');
    SplitAfterPrefix(a, b + "\n" + (c + "\n" + rest), '\n');
  }

  lemma SplitTailLines(es: seq<string>, clean: string)
    requires forall i :: 0 <= i < |es| ==> '\n' !in es[i]
    ensures Split(Lines(es) + (". " + "\n" + clean), '\n') == es + [". "] + Split(clean, '\n')
  {
    SplitAfterPrefix(". ", clean, '\n');
    SplitLines(es, ". " + "\n" + clean);
  }

  lemma TextShape(banner: string, lines: string, footer: string, clean: string)
    requires banner == "Table of Contents\n" && footer == ". "
    ensures banner + lines + footer + "\n" + clean == "Table of Contents" + "\n" + (lines + (footer + "\n" + clean))
  {
  }

  lemma DataShape(url: string, title: string, text: string)
    ensures PageData(url, title, text) == ("URL: " + url) + "\n" + (("Title: " + title) + "\n" + ("Extracted Data: " + text))
  {
    assert "\nTitle: " == "\n" + "Title: ";
    assert "\nExtracted Data: " == "\n" + "Extracted Data: ";
  }

  lemma LabelShape(rest: string)
    ensures "Extracted Data: " + ("Table of Contents" + "\n" + rest) == "Extracted Data: Table of Contents" + "\n" + rest
  {
  }

  /** A fetched page always yields a record with data, never an error record. */
  lemma PageRecordIsNoError(url: string, u: Url, page: HtmlPage)
    ensures !IsExtractionError(PageRecord(url, u, page))
    ensures PageRecord(url, u, page).title != []
    ensures StartsWith(PageRecord(url, u, page).data, "URL: " + url)
    ensures StartsWith(PageRecord(url, u, page).text, "Table of Contents\n")
  {
  }
}
