/** The string and URL classifiers of src/utils/common.ts. */
module Common {
  import opened Wrappers
  import opened Strings
  import Seqs

  /** Exceptions that escape the core: `new URL` on a malformed string, and xml2js rejecting a body. */
  datatype Exception = InvalidUrl(input: string) | XmlError(message: string)

  // ---------------------------------------------------------------- parseUrlToText

  predicate IsAsciiAlnum(c: char) {
    'a' <= c <= 'z' || 'A' <= c <= 'Z' || '0' <= c <= '9'
  }

  /** `url.replace(/[^a-zA-Z0-9]/g, '_')`. */
  function ParseUrlToText(url: string): (r: string)
    ensures |r| == |url|
    ensures forall i :: 0 <= i < |url| ==> r[i] == (if IsAsciiAlnum(url[i]) then url[i] else '_')
  {
    if url == [] then [] else [if IsAsciiAlnum(url[0]) then url[0] else '_'] + ParseUrlToText(url[1..])
  }

  /** The result uses only ASCII letters, digits and '_', so a second pass changes nothing. */
  lemma ParseUrlToTextIdempotent(url: string)
    ensures forall i :: 0 <= i < |url| ==> IsAsciiAlnum(ParseUrlToText(url)[i]) || ParseUrlToText(url)[i] == '_'
    ensures ParseUrlToText(ParseUrlToText(url)) == ParseUrlToText(url)
  {
  }

  // ---------------------------------------------------------------- cleanText

  /** JavaScript truthiness of a string: `!!line`. */
  predicate IsNonBlank(line: string) {
    line != []
  }

  /** The trimmed, non-empty lines of `text`, in order. */
  function CleanLines(text: string): seq<string> {
    Seqs.Filter(IsNonBlank, Seqs.Map(Trim, Split(text, '\n')))
  }

  /** `text.split('\n').map((line) => line.trim()).filter((line) => !!line).join('\n')`. */
  function CleanText(text: string): string {
    Join(CleanLines(text), '\n')
  }

  /** Each kept line is non-empty, its own trim, and free of line breaks. */
  lemma {:induction false} CleanLinesShape(text: string)
    ensures forall l :: l in CleanLines(text) ==> l != [] && Trim(l) == l && '\n' !in l
  {
    var parts := Split(text, '\n');
    var trimmed := Seqs.Map(Trim, parts);
    Seqs.FilterKeeps(IsNonBlank, trimmed);
    forall l | l in CleanLines(text) ensures l != [] && Trim(l) == l && '\n' !in l {
      var i :| 0 <= i < |trimmed| && trimmed[i] == l;
      assert l == Trim(parts[i]);
      TrimKeepsOut(parts[i], '\n');
    }
  }

  /** Every line is empty once trimmed. */
  predicate AllBlank(lines: seq<string>) {
    forall i :: 0 <= i < |lines| ==> Trim(lines[i]) == []
  }

  /** The cleaned text is empty exactly when every input line is blank. */
  lemma CleanTextEmpty(text: string)
    ensures CleanText(text) == [] <==> AllBlank(Split(text, '\n'))
  {
    var parts := Split(text, '\n');
    var trimmed := Seqs.Map(Trim, parts);
    Seqs.FilterEmpty(IsNonBlank, trimmed);
    assert (forall i :: 0 <= i < |trimmed| ==> !IsNonBlank(trimmed[i]))
       <==> (forall i :: 0 <= i < |parts| ==> Trim(parts[i]) == []);
    var lines := CleanLines(text);
    assert lines == Seqs.Filter(IsNonBlank, trimmed);
    assert CleanText(text) == Join(lines, '\n');
    if lines != [] {
      CleanLinesShape(text);
      assert lines[0] in lines;
      JoinNonEmpty(lines);
      assert CleanText(text) != [];
    } else {
      assert CleanText(text) == [];
    }
  }

  /** The lines of the cleaned text are exactly the trimmed non-blank input lines, in input order,
      and each of them is non-empty and its own trim. */
  lemma CleanTextLines(text: string)
    ensures CleanText(text) != [] ==> Split(CleanText(text), '\n') == CleanLines(text)
    ensures CleanText(text) != [] ==>
      forall l :: l in Split(CleanText(text), '\n') ==> l != [] && Trim(l) == l
    ensures Seqs.IsSubsequence(CleanLines(text), Seqs.Map(Trim, Split(text, '\n')))
  {
    var lines := CleanLines(text);
    Seqs.FilterKeeps(IsNonBlank, Seqs.Map(Trim, Split(text, '\n')));
    if lines != [] {
      CleanLinesShape(text);
      SplitJoin(lines, '\n');
    }
  }

  lemma {:induction false} JoinNonEmpty(lines: seq<string>)
    requires lines != [] && lines[0] != []
    ensures Join(lines, '\n') != []
  {
  }

  /** Lines that are already clean pass map(trim) and filter unchanged. */
  lemma {:induction false} CleanLinesFixed(lines: seq<string>)
    requires forall l :: l in lines ==> l != [] && Trim(l) == l
    ensures Seqs.Filter(IsNonBlank, Seqs.Map(Trim, lines)) == lines
  {
    if lines != [] {
      var head, tail := lines[0], lines[1..];
      assert lines == [head] + tail;
      assert head in lines;
      assert forall l :: l in tail ==> l in lines;
      CleanLinesFixed(tail);
      Seqs.MapCons(Trim, head, tail);
      Seqs.FilterCons(IsNonBlank, head, Seqs.Map(Trim, tail));
    }
  }

  /** Cleaning twice is cleaning once. */
  lemma CleanTextIdempotent(text: string)
    ensures CleanText(CleanText(text)) == CleanText(text)
  {
    var once := CleanText(text);
    CleanTextLines(text);
    if once == [] { CleanTextEmpty(text); }
    if once == [] {
      assert Split(once, '\n') == [[]];
      assert Seqs.Map(Trim, [[]]) == [[]];
      assert Seqs.Filter(IsNonBlank, [[]]) == [];
      assert CleanLines(once) == [];
    } else {
      calc {
        CleanText(once);
        Join(Seqs.Filter(IsNonBlank, Seqs.Map(Trim, CleanLines(text))), '\n');
        { CleanLinesShape(text); CleanLinesFixed(CleanLines(text)); }
        Join(CleanLines(text), '\n');
      }
    }
  }

  // ---------------------------------------------------------------- getExtension

  /** Where a greedy `[^.]+` starting at `i` stops: the end of the run of characters other than '.'. */
  function RunEnd(text: string, i: nat): (j: nat)
    requires i <= |text|
    ensures i <= j <= |text|
    ensures forall k :: i <= k < j ==> text[k] != '.'
    ensures j == |text| || text[j] == '.'
    decreases |text| - i
  {
    if i < |text| && text[i] != '.' then RunEnd(text, i + 1) else i
  }

  /** One attempt of `/(?:\.([^.]+))?$/` at start position `p`: None when the attempt fails,
      otherwise the value of capture group 1 (None when the group did not participate). */
  function MatchAt(text: string, p: nat): Option<Option<string>>
    requires p <= |text|
  {
    // The optional group is tried first: a '.' and then the greedy run. Backtracking only
    // shortens the run, so `$` can follow it only when the run reaches the end of the input.
    if p < |text| && text[p] == '.' && p + 1 < RunEnd(text, p + 1) && RunEnd(text, p + 1) == |text| then
      Some(Some(text[p + 1..]))
    // Otherwise the group matches empty and `$` needs the end of the input.
    else if p == |text| then Some(None)
    else None
  }

  /** `RegExp.prototype.exec`: start positions are tried left to right; the empty match at the
      end of the input always succeeds, so exec never returns null for this pattern. */
  function ExecFrom(text: string, p: nat): Option<string>
    requires p <= |text|
    decreases |text| - p
  {
    match MatchAt(text, p)
    case Some(group) => group
    case None => ExecFrom(text, p + 1)
  }

  lemma NoDotAfterLast(text: string, p: nat)
    requires LastIndexOf(text, '.') < p < |text|
    ensures text[p] != '.'
  {
    var d := LastIndexOf(text, '.');
    if d >= 0 {
      assert text[p] == text[d + 1..][p - d - 1];
    } else {
      assert text[p] in text;
    }
  }

  lemma {:induction false} ExecFromPastLastDot(text: string, p: nat)
    requires LastIndexOf(text, '.') < p <= |text|
    ensures ExecFrom(text, p) == None
    decreases |text| - p
  {
    if p < |text| {
      NoDotAfterLast(text, p);
      assert MatchAt(text, p) == None;
      ExecFromPastLastDot(text, p + 1);
    }
  }

  lemma {:induction false} ExecFromUpToLastDot(text: string, p: nat)
    requires p <= LastIndexOf(text, '.')
    ensures var d := LastIndexOf(text, '.');
      ExecFrom(text, p) == if d + 1 < |text| then Some(text[d + 1..]) else None
    decreases |text| - p
  {
    var d := LastIndexOf(text, '.');
    if p == d {
      if d + 1 == |text| {
        ExecFromPastLastDot(text, p + 1);
      }
    } else {
      assert text[d] == '.';
      ExecFromUpToLastDot(text, p + 1);
    }
  }

  /** The whole scan: the capture is the text after the last '.', when that text is not empty. */
  lemma ExecFromStart(text: string)
    ensures var d := LastIndexOf(text, '.');
      ExecFrom(text, 0) == if '.' !in text || text[|text| - 1] == '.' then None else Some(text[d + 1..])
  {
    var d := LastIndexOf(text, '.');
    if d < 0 {
      ExecFromPastLastDot(text, 0);
    } else {
      ExecFromUpToLastDot(text, 0);

    }
  }

  /** `regex.exec(text)?.[1]?.toLowerCase() ?? null` with `regex = /(?:\.([^.]+))?$/`: null exactly when
      the text has no '.' or ends with one; otherwise the lower-cased text after the LAST '.' of the
      whole string (not of the last path segment), which is non-empty and holds no '.'. */
  function GetExtension(text: string): (ext: Option<string>)
    ensures ext.None? <==> '.' !in text || text[|text| - 1] == '.'
    ensures ext.Some? ==> ext.value == ToLower(text[LastIndexOf(text, '.') + 1..])
    ensures ext.Some? ==> ext.value != [] && '.' !in ext.value
  {
    ExecFromStart(text);
    match ExecFrom(text, 0)
    case Some(group) => Some(ToLower(group))
    case None => None
  }

  /** The extension is taken over the whole URL, not its last path segment. */
  lemma GetExtensionOfPath(t: string)
    requires t == "https://a.com/page"
    ensures GetExtension(t) == Some("com/page")
  {
    assert t[9] == '.' && '.' !in t[10..];
    assert LastIndexOf(t, '.') == 9;
    assert t[|t| - 1] != '.' && t[10..] == "com/page";
    var low := ToLower(t[10..]);
    assert |low| == 8 && forall i :: 0 <= i < 8 ==> low[i] == "com/page"[i];
    assert low == "com/page";
  }

  lemma GetExtensionLowerCases(t: string)
    requires t == "Report.PDF"
    ensures GetExtension(t) == Some("pdf")
  {
    assert t[6] == '.' && '.' !in t[7..];
    assert LastIndexOf(t, '.') == 6;
    assert t[|t| - 1] != '.' && t[7..] == "PDF";
    var low := ToLower(t[7..]);
    assert |low| == 3 && low[0] == 'p' && low[1] == 'd' && low[2] == 'f';
    assert low == "pdf";
  }

  lemma GetExtensionNone()
    ensures GetExtension("https://localhost/") == None
    ensures GetExtension("archive.") == None
  {
    assert '.' !in "https://localhost/";
  }

  // ---------------------------------------------------------------- isHTMLFile

  const IgnoredExtensions: seq<string> := [
    ".jpg", ".jpeg", ".png", ".gif", ".bmp", ".pdf", ".doc", ".docx", ".xls", ".xlsx", ".ppt",
    ".pptx", ".zip", ".rar", ".7z", ".exe", ".dmg", ".iso", ".tar", ".gz", ".csv"]

  /** `!extension ? false : !IGNORED_EXTENSIONS.includes(extension)`. Every listed entry starts with
      '.', and an extension never holds one, so the list never matches: the result is true exactly
      when the URL has an extension. */
  function IsHTMLFile(url: string): (r: bool)
    ensures r <==> GetExtension(url).Some?
    ensures GetExtension(url).Some? ==> GetExtension(url).value !in IgnoredExtensions
  {
    var ext := GetExtension(url);
    assert forall i :: 0 <= i < |IgnoredExtensions| ==> '.' in IgnoredExtensions[i];
    if ext.None? || ext.value == [] then false
    else ext.value !in IgnoredExtensions
  }

  /** A document the ignore list was meant to reject passes, and a URL without an extension fails. */
  lemma IsHTMLFileExamples(t: string)
    requires t == "https://a.com/report.pdf"
    ensures IsHTMLFile(t) && GetExtension(t) == Some("pdf")
    ensures !IsHTMLFile("https://localhost/")
  {
    assert t[20] == '.' && '.' !in t[21..];
    assert LastIndexOf(t, '.') == 20;
    assert t[|t| - 1] != '.' && t[21..] == "pdf";
    var low := ToLower(t[21..]);
    assert |low| == 3 && low[0] == 'p' && low[1] == 'd' && low[2] == 'f';
    assert low == "pdf";
    GetExtensionNone();
  }

  // ---------------------------------------------------------------- isXML

  const XmlPrologs: seq<string> := ["<?xml", "<urlset", "<sitemapindex"]

  /** True exactly when the body starts with one of the three prologs, all of which start with '<'. */
  function IsXML(content: string): (r: bool)
    ensures r <==> exists i :: 0 <= i < |XmlPrologs| && StartsWith(content, XmlPrologs[i])
    ensures r ==> 5 <= |content| && content[0] == '<'
  {
    assert XmlPrologs[0] == "<?xml" && XmlPrologs[1] == "<urlset" && XmlPrologs[2] == "<sitemapindex";
    var r := StartsWith(content, "<?xml") || StartsWith(content, "<urlset") || StartsWith(content, "<sitemapindex");
    assert r ==> content[0] == content[..5][0];
    r
  }

  // ---------------------------------------------------------------- isWebPage

  const ExcludedExtensions: seq<string> := [
    ".jpg", ".jpeg", ".png", ".gif", ".bmp", ".ico", ".svg", ".pdf", ".mp3", ".mp4", ".avi",
    ".mkv", ".wav", ".ogg", ".zip", ".tar", ".gz", ".rar", ".7z", ".doc", ".docx", ".ppt",
    ".pptx", ".xls", ".xlsx", ".txt", ".rtf", ".csv", ".json", ".xml"]

  /** `exts.some((ext) => url.endsWith(ext + '/'))`. */
  function SomeEndsWithSlashed(url: string, exts: seq<string>): (r: bool)
    ensures r <==> exists i :: 0 <= i < |exts| && EndsWith(url, exts[i] + "/")
  {
    if exts == [] then false
    else
      EndsWith(url, exts[0] + "/")
      || (assert forall i :: 1 <= i < |exts| ==> exts[i] == exts[1..][i - 1];
          SomeEndsWithSlashed(url, exts[1..]))
  }

  lemma EndsWithSlashLast(url: string, exts: seq<string>)
    requires SomeEndsWithSlashed(url, exts)
    ensures url != [] && url[|url| - 1] == '/'
  {
    var i :| 0 <= i < |exts| && EndsWith(url, exts[i] + "/");
    assert url[|url| - 1] == url[|url| - |exts[i] + "/"|..][|exts[i]|];
  }

  /** False exactly when the URL ends with an excluded extension followed by '/';
      in particular every URL that does not end with '/' is accepted. */
  function IsWebPage(url: string): (r: bool)
    ensures !r <==> exists i :: 0 <= i < |ExcludedExtensions| && EndsWith(url, ExcludedExtensions[i] + "/")
    ensures url == [] || url[|url| - 1] != '/' ==> r
  {
    var r := !SomeEndsWithSlashed(url, ExcludedExtensions);
    if !r then EndsWithSlashLast(url, ExcludedExtensions); r else r
  }

  lemma IsWebPageExamples()
    ensures !IsWebPage("x.json/") && !IsWebPage("https://a.com/data.csv/")
    ensures IsWebPage("x.json") && IsWebPage("x.html") && IsWebPage("/page")
  {
    assert ExcludedExtensions[28] + "/" == ".json/";
    assert EndsWith("x.json/", ExcludedExtensions[28] + "/");
    assert ExcludedExtensions[27] + "/" == ".csv/";
    assert EndsWith("https://a.com/data.csv/", ExcludedExtensions[27] + "/");
  }

  // ---------------------------------------------------------------- getLink

  /** The fields of a WHATWG `URL` object that the core reads. `protocol` ends with ':', `search`
      is empty or starts with '?', `hash` is empty or starts with '#'. */
  datatype Url = Url(protocol: string, username: string, password: string, hostname: string,
                     port: string, pathname: string, search: string, hash: string)
  {
    /** `URL.prototype.host`: the hostname, then ':' and the port when the port is not the default. */
    function Host(): string {
      if port == [] then hostname else hostname + ":" + port
    }

    function Credentials(): string {
      if username == [] && password == [] then []
      else username + (if password == [] then [] else ":" + password) + "@"
    }

    /** `URL.prototype.href` of a URL with a host. */
    function Href(): string {
      protocol + "//" + Credentials() + Host() + pathname + search + hash
    }

    /** The same address without credentials, query and fragment. */
    function Canonical(): Url {
      this.(username := [], password := [], search := [], hash := [])
    }
  }

  /** `new URL(s)`: Some record, or None when the constructor throws a TypeError. */
  type UrlParser = string -> Option<Url>

  /** `${protocol}//${host}${pathname}` of a parsed URL. */
  function GetLink(u: Url): string {
    u.protocol + "//" + u.Host() + u.pathname
  }

  /** The link is the href with credentials, query and fragment taken away; of a URL that has
      none of them, it is the href unchanged. Canonicalising is idempotent, and query and
      fragment never reach the link. */
  lemma GetLinkCanonical(u: Url, search: string, hash: string)
    ensures GetLink(u) == u.Canonical().Href()
    ensures u.Canonical() == u ==> GetLink(u) == u.Href()
    ensures u.Credentials() == [] ==> GetLink(u) + u.search + u.hash == u.Href()
    ensures GetLink(u.Canonical()) == GetLink(u)
    ensures u.Canonical().Canonical() == u.Canonical()
    ensures GetLink(u.(search := search, hash := hash)) == GetLink(u)
  {
  }

  /** `urls.map(getLink)`: `new URL` throws on the first malformed string. */
  function MapLinks(parse: UrlParser, urls: seq<string>): (r: Result<seq<string>, Exception>)
    ensures r.Success? <==> forall i :: 0 <= i < |urls| ==> parse(urls[i]).Some?
    ensures r.Success? ==> |r.value| == |urls|
    ensures r.Success? ==> forall i :: 0 <= i < |urls| ==> r.value[i] == GetLink(parse(urls[i]).value)
    ensures r.Failure? ==> r.error.InvalidUrl? && r.error.input in urls && parse(r.error.input).None?
  {
    if urls == [] then Success([])
    else if parse(urls[0]).None? then Failure(InvalidUrl(urls[0]))
    else
      var rest := MapLinks(parse, urls[1..]);
      if rest.Failure? then
        assert rest.error.input in urls by { assert rest.error.input in urls[1..]; }
        rest
      else
        MapLinksStep(parse, urls, rest.value);
        Success([GetLink(parse(urls[0]).value)] + rest.value)
  }

  lemma MapLinksStep(parse: UrlParser, urls: seq<string>, rest: seq<string>)
    requires urls != [] && parse(urls[0]).Some? && |rest| == |urls| - 1
    requires forall i :: 0 <= i < |rest| ==> parse(urls[1..][i]).Some? && rest[i] == GetLink(parse(urls[1..][i]).value)
    ensures forall i :: 0 <= i < |urls| ==> parse(urls[i]).Some?
    ensures var links := [GetLink(parse(urls[0]).value)] + rest;
            forall i :: 0 <= i < |urls| ==> links[i] == GetLink(parse(urls[i]).value)
  {
    forall i | 1 <= i < |urls| ensures parse(urls[i]).Some? {
      assert urls[i] == urls[1..][i - 1];
    }
  }
}
