/** `crawl_webpage`, its nested `processSitemap`, and `extractLinksFromHTML`
    (src/utils/extract_data.ts): a recursive walk of a site's sitemaps that collects its pages. */
module Crawler {
  import opened Wrappers
  import opened Strings
  import opened Common
  import opened JsonUtils
  import Seqs

  // ---------------------------------------------------------------- links of an HTML page

  predicate StartsWithHttp(href: string) {
    StartsWith(href, "http")
  }

  /** The `href`s that `extractLinksFromHTML` keeps: those the selector `a[href^="http"]`
      matches, then those with an extension (the others map to `null`, which `.get()` and the
      truthiness filter drop). */
  function HtmlHrefs(anchors: seq<string>): seq<string> {
    Seqs.Filter(IsNonBlank, Seqs.Filter(IsHTMLFile, Seqs.Filter(StartsWithHttp, anchors)))
  }

  /** An `href` is kept exactly when it starts with `http` and has an extension. */
  lemma HtmlHrefsKeeps(anchors: seq<string>)
    ensures forall h :: h in HtmlHrefs(anchors) <==> h in anchors && StartsWith(h, "http") && IsHTMLFile(h)
    ensures Seqs.IsSubsequence(HtmlHrefs(anchors), anchors)
  {
    var a := Seqs.Filter(StartsWithHttp, anchors);
    var b := Seqs.Filter(IsHTMLFile, a);
    Seqs.FilterKeeps(StartsWithHttp, anchors);
    Seqs.FilterKeeps(IsHTMLFile, a);
    Seqs.FilterKeeps(IsNonBlank, b);
    Seqs.SubsequenceTrans(HtmlHrefs(anchors), b, a);
    Seqs.SubsequenceTrans(HtmlHrefs(anchors), a, anchors);
  }

  /** `extractLinksFromHTML` over the `href` of every anchor of the page, in document order:
      the kept `href`s reduced by `getLink`, which throws on one `new URL` cannot parse. */
  function ExtractLinksFromHTML(anchors: seq<string>, parse: UrlParser): (r: Result<seq<string>, Exception>)
    ensures r.Success? <==> forall i :: 0 <= i < |HtmlHrefs(anchors)| ==> parse(HtmlHrefs(anchors)[i]).Some?
    ensures r.Success? ==> |r.value| == |HtmlHrefs(anchors)|
    ensures r.Success? ==> forall i :: 0 <= i < |r.value| ==> r.value[i] == GetLink(parse(HtmlHrefs(anchors)[i]).value)
    ensures r.Failure? ==> r.error.InvalidUrl? && r.error.input in HtmlHrefs(anchors)
  {
    MapLinks(parse, HtmlHrefs(anchors))
  }

  // ---------------------------------------------------------------- filters that parse URLs

  /** `urls.filter((url) => keep(url, new URL(url)))`: the first URL the parser rejects throws. */
  function FilterParsed(parse: UrlParser, keep: (string, Url) -> bool, urls: seq<string>): (r: Result<seq<string>, Exception>)
    ensures r.Success? <==> forall i :: 0 <= i < |urls| ==> parse(urls[i]).Some?
    ensures r.Failure? ==> r.error.InvalidUrl? && r.error.input in urls && parse(r.error.input).None?
    ensures r.Success? ==> forall x :: x in r.value <==> x in urls && parse(x).Some? && keep(x, parse(x).value)
    ensures r.Success? ==> Seqs.IsSubsequence(r.value, urls)
  {
    if urls == [] then Success([])
    else
      match parse(urls[0])
      case None => Failure(InvalidUrl(urls[0]))
      case Some(u) =>
        var rest := FilterParsed(parse, keep, urls[1..]);
        if rest.Failure? then rest
        else
          assert forall x :: x in urls <==> x == urls[0] || x in urls[1..];
          if keep(urls[0], u) then
            var r := [urls[0]] + rest.value;
            assert r[1..] == rest.value;
            Success(r)
          else
            Seqs.SubsequenceDropHead(rest.value, urls);
            Success(rest.value)
  }

  /** The filter keeps every copy of a URL that passes, and no copy of one that does not. */
  lemma {:induction false} FilterParsedCounts(parse: UrlParser, keep: (string, Url) -> bool, urls: seq<string>)
    ensures var r := FilterParsed(parse, keep, urls);
            r.Success? ==> forall x :: multiset(r.value)[x] == if parse(x).Some? && keep(x, parse(x).value) then multiset(urls)[x] else 0
  {
    if urls != [] && parse(urls[0]).Some? {
      FilterParsedCounts(parse, keep, urls[1..]);
      assert urls == [urls[0]] + urls[1..];
      assert multiset(urls) == multiset([urls[0]]) + multiset(urls[1..]);
    }
  }

  /** A filter that passes every URL keeps the list as it is. */
  lemma {:induction false} FilterParsedAll(parse: UrlParser, keep: (string, Url) -> bool, urls: seq<string>)
    requires forall i :: 0 <= i < |urls| ==> parse(urls[i]).Some? && keep(urls[i], parse(urls[i]).value)
    ensures FilterParsed(parse, keep, urls) == Success(urls)
  {
    if urls != [] {
      FilterParsedAll(parse, keep, urls[1..]);
      assert [urls[0]] + urls[1..] == urls;
    }
  }

  // ---------------------------------------------------------------- processSitemap

  /** What fetching one URL yields: the body text, what xml2js makes of it (consulted only when
      the body looks like XML; a `Failure` is the parser's rejection), and the `href` of every
      anchor cheerio finds in it (consulted only otherwise). */
  datatype Body = Body(content: string, xml: Result<SitemapXml, string>, anchors: seq<string>)

  /** The surroundings of one crawl: the seed's hostname, the URL parser, and the responses of
      the site. A URL missing from `site` is one whose fetch, or the reading of whose body,
      rejects. */
  datatype Env = Env(domain: string, parse: UrlParser, site: map<string, Body>)

  /** `isDomainSame(url) && isWebPage(url)`, for a URL the parser accepts. */
  predicate IsCrawlTarget(env: Env, url: string) {
    env.parse(url).Some? && env.parse(url).value.hostname == env.domain && IsWebPage(url)
  }

  predicate KeepPage(env: Env, url: string, u: Url) {
    u.hostname == env.domain && IsWebPage(url)
  }

  /** `urls.filter((url) => isDomainSame(url) && isWebPage(url))`. */
  function FilterPages(env: Env, urls: seq<string>): (r: Result<seq<string>, Exception>)
    ensures r.Success? ==> forall x :: x in r.value <==> x in urls && IsCrawlTarget(env, x)
  {
    FilterParsed(env.parse, (url, u) => KeepPage(env, url, u), urls)
  }

  /** The outcome of one `processSitemap` call: its result, or the exception it throws, with the
      `visited` set and the log of requested URLs it leaves behind. */
  datatype Crawled = Crawled(urls: Result<seq<string>, Exception>, visited: set<string>, log: seq<string>)

  /** URLs found without repetition, each one a crawl target. */
  predicate GoodResults(env: Env, urls: seq<string>) {
    Seqs.NoDup(urls) && forall u :: u in urls ==> IsCrawlTarget(env, u)
  }

  /** The log of requests lists each visited URL exactly once. */
  ghost predicate Tracks(visited: set<string>, log: seq<string>) {
    Seqs.NoDup(log) && forall u :: u in log <==> u in visited
  }

  /** `processSitemap(url, visited)`: skipped when `url` is already visited; otherwise marked
      visited and requested. A failed request contributes nothing. An XML body contributes the
      crawl targets among its URL set, then what its child sitemaps contribute, in order; any
      other body contributes the crawl targets among its links. */
  function Process(env: Env, url: string, visited: set<string>, log: seq<string>): (c: Crawled)
    ensures visited <= c.visited && log <= c.log && url in c.visited
    ensures url in visited ==> c == Crawled(Success([]), visited, log)
    ensures url !in visited ==> |c.log| > |log| && c.log[|log|] == url
    ensures url !in visited && url !in env.site ==> c == Crawled(Success([]), visited + {url}, log + [url])
    ensures Tracks(visited, log) ==> Tracks(c.visited, c.log)
    ensures c.urls.Success? ==> GoodResults(env, c.urls.value)
    decreases env.site.Keys - visited, 0, 0
  {
    if url in visited then Crawled(Success([]), visited, log)
    else
      var visited', log' := visited + {url}, log + [url];
      TracksAdd(visited, log, url);
      if url !in env.site then Crawled(Success([]), visited', log')
      else
        var body := env.site[url];
        if IsXML(body.content) then
          match body.xml
          case Failure(message) => Crawled(Failure(XmlError(message)), visited', log')
          case Success(doc) => ProcessXml(env, doc, visited', log')
        else
          match ExtractLinksFromHTML(body.anchors, env.parse)
          case Failure(e) => Crawled(Failure(e), visited', log')
          case Success(links) =>
            match FilterPages(env, links)
            case Failure(e) => Crawled(Failure(e), visited', log')
            case Success(pages) => Crawled(Success(Seqs.Dedup(pages)), visited', log')
  }

  /** The XML branch of `processSitemap`, once the body is parsed: the crawl targets among the
      URL set's links, as a `Set`, then what the child sitemaps contribute. */
  function ProcessXml(env: Env, doc: SitemapXml, visited: set<string>, log: seq<string>): (c: Crawled)
    ensures visited <= c.visited && log <= c.log
    ensures Tracks(visited, log) ==> Tracks(c.visited, c.log)
    ensures c.urls.Success? ==> GoodResults(env, c.urls.value)
    decreases env.site.Keys - visited, 2, 0
  {
    match GetUrlsFormSitemap(doc, env.parse)
    case Failure(e) => Crawled(Failure(e), visited, log)
    case Success(urls) =>
      var sitemaps := GetSitemapsFormSitemap(doc);
      match FilterPages(env, urls)
      case Failure(e) => Crawled(Failure(e), visited, log)
      case Success(pages) => ProcessChildren(env, sitemaps, Seqs.Dedup(pages), visited, log)
  }

  /** The loop over the child sitemaps: `urlSet` grows by each child's results, as a `Set`
      union that keeps the URLs already in it first. */
  function ProcessChildren(env: Env, sitemaps: seq<string>, urlSet: seq<string>, visited: set<string>, log: seq<string>): (c: Crawled)
    requires GoodResults(env, urlSet)
    ensures visited <= c.visited && log <= c.log
    ensures Tracks(visited, log) ==> Tracks(c.visited, c.log)
    ensures c.urls.Success? ==> GoodResults(env, c.urls.value) && urlSet <= c.urls.value
    decreases env.site.Keys - visited, 1, |sitemaps|
  {
    if sitemaps == [] then Crawled(Success(urlSet), visited, log)
    else
      var sub := Process(env, sitemaps[0], visited, log);
      if sub.urls.Failure? then sub
      else
        var merged := Seqs.Dedup(urlSet + sub.urls.value);
        Seqs.DedupAppend(urlSet, sub.urls.value);
        var c := ProcessChildren(env, sitemaps[1..], merged, sub.visited, sub.log);
        assert c.urls.Success? ==> urlSet <= merged <= c.urls.value;
        c
  }

  /** One turn of the loop over the child sitemaps: the first child is processed from the current
      state; if it throws, so does the loop; otherwise the loop goes on with its results merged into
      the set and with the state it left. Everything the first child found is in the final result. */
  lemma ProcessChildrenStep(env: Env, sitemaps: seq<string>, urlSet: seq<string>, visited: set<string>, log: seq<string>)
    requires GoodResults(env, urlSet) && sitemaps != []
    ensures var sub := Process(env, sitemaps[0], visited, log);
            var c := ProcessChildren(env, sitemaps, urlSet, visited, log);
            (sub.urls.Failure? ==> c == sub)
            && (sub.urls.Success? ==>
                  GoodResults(env, Seqs.Dedup(urlSet + sub.urls.value))
                  && c == ProcessChildren(env, sitemaps[1..], Seqs.Dedup(urlSet + sub.urls.value), sub.visited, sub.log))
            && (c.urls.Success? ==> sub.urls.Success? && forall x :: x in sub.urls.value ==> x in c.urls.value)
  {
    var sub := Process(env, sitemaps[0], visited, log);
    var c := ProcessChildren(env, sitemaps, urlSet, visited, log);
    if sub.urls.Success? {
      var merged := Seqs.Dedup(urlSet + sub.urls.value);
      assert GoodResults(env, merged);
      if c.urls.Success? {
        assert merged <= c.urls.value;
        forall x | x in sub.urls.value ensures x in c.urls.value {
          assert x in merged;
          var i :| 0 <= i < |merged| && merged[i] == x;
          assert c.urls.value[i] == x;
        }
      }
    }
  }

  lemma TracksAdd(visited: set<string>, log: seq<string>, url: string)
    requires url !in visited
    ensures Tracks(visited, log) ==> Tracks(visited + {url}, log + [url])
  {
    if Tracks(visited, log) {
      var log' := log + [url];
      forall i, j | 0 <= i < j < |log'| ensures log'[i] != log'[j] {
        if j == |log| {
          assert log[i] in log;
        } else {
          assert log'[i] == log[i] && log'[j] == log[j];
        }
      }
    }
  }

  // ---------------------------------------------------------------- the crawl, step by step

  /** The `visited` Set that every `processSitemap` call of one crawl shares by reference. */
  class VisitedSet {
    var members: set<string>

    constructor()
      ensures members == {}
    {
      members := {};
    }

    /** `visited.has(url)`. */
    predicate Has(url: string)
      reads this
    {
      url in members
    }

    /** `visited.add(url)`. */
    method Add(url: string)
      modifies this
      ensures members == old(members) + {url}
    {
      members := members + {url};
    }
  }

  /** The site as the crawler sees it: a fixed table of responses, and the log of the URLs
      requested so far. */
  class Network {
    const site: map<string, Body>
    var log: seq<string>

    constructor(site: map<string, Body>)
      ensures this.site == site && log == []
    {
      this.site := site;
      log := [];
    }

    /** `fetch(url)` then `response.text()`: the body, or `None` when either rejects. */
    method Fetch(url: string) returns (body: Option<Body>)
      modifies this
      ensures log == old(log) + [url]
      ensures body == if url in site then Some(site[url]) else None
    {
      log := log + [url];
      body := if url in site then Some(site[url]) else None;
    }
  }

  /** `processSitemap(url, visited)`, with its loop over the child sitemaps. */
  method ProcessSitemap(env: Env, url: string, visited: VisitedSet, net: Network)
    returns (r: Result<seq<string>, Exception>)
    requires net.site == env.site
    modifies visited, net
    ensures var c := Process(env, url, old(visited.members), old(net.log));
            r == c.urls && visited.members == c.visited && net.log == c.log
    decreases env.site.Keys - visited.members
  {
    if visited.Has(url) {
      return Success([]);
    }
    visited.Add(url);
    var body := net.Fetch(url);
    if body.None? {
      return Success([]);
    }
    var content := body.value.content;
    if IsXML(content) {
      if body.value.xml.Failure? {
        return Failure(XmlError(body.value.xml.error));
      }
      var doc := body.value.xml.value;
      var urls :- GetUrlsFormSitemap(doc, env.parse);
      var sitemaps := GetSitemapsFormSitemap(doc);
      var pages :- FilterPages(env, urls);
      var urlSet := Seqs.Dedup(pages);
      ghost var whole := ProcessChildren(env, sitemaps, urlSet, visited.members, net.log);
      var k := 0;
      while k < |sitemaps|
        invariant 0 <= k <= |sitemaps|
        invariant old(visited.members) + {url} <= visited.members
        invariant GoodResults(env, urlSet)
        invariant ProcessChildren(env, sitemaps[k..], urlSet, visited.members, net.log) == whole
      {
        var sub := ProcessSitemap(env, sitemaps[k], visited, net);
        assert sitemaps[k..][1..] == sitemaps[k + 1..];
        if sub.Failure? {
          return Failure(sub.error);
        }
        Seqs.DedupAppend(urlSet, sub.value);
        urlSet := Seqs.Dedup(urlSet + sub.value);
        k := k + 1;
      }
      return Success(urlSet);
    } else {
      var links :- ExtractLinksFromHTML(body.value.anchors, env.parse);
      var pages :- FilterPages(env, links);
      return Success(Seqs.Dedup(pages));
    }
  }

  // ---------------------------------------------------------------- crawl_webpage

  predicate SameHost(domain: string, url: string, u: Url) {
    u.hostname == domain
  }

  /** What `crawl_webpage(link)` resolves to: the URLs the crawl from `link` found whose hostname
      is the seed's, then `link` itself unless it ends with `sitemap.xml`. `new URL(link)`
      throws on a malformed seed. */
  function Crawl(link: string, parse: UrlParser, site: map<string, Body>): (r: Result<seq<string>, Exception>)
    ensures parse(link).None? ==> r == Failure(InvalidUrl(link))
  {
    match parse(link)
    case None => Failure(InvalidUrl(link))
    case Some(seed) =>
      var env := Env(seed.hostname, parse, site);
      var found :- Process(env, link, {}, []).urls;
      var finalList :- FilterParsed(parse, (url, u) => SameHost(seed.hostname, url, u), found);
      Success(if EndsWith(link, "sitemap.xml") then finalList else finalList + [link])
  }

  /** `crawl_webpage(link)` on a network no request has gone to yet. */
  method CrawlWebpage(link: string, parse: UrlParser, net: Network) returns (r: Result<seq<string>, Exception>)
    requires net.log == []
    modifies net
    ensures r == Crawl(link, parse, net.site)
    ensures parse(link).None? ==> net.log == []
    ensures parse(link).Some? ==> net.log == Process(Env(parse(link).value.hostname, parse, net.site), link, {}, []).log
  {
    var seed := parse(link);
    if seed.None? {
      return Failure(InvalidUrl(link));
    }
    var domain := seed.value.hostname;
    var env := Env(domain, parse, net.site);
    var visited := new VisitedSet();
    var urls :- ProcessSitemap(env, link, visited, net);
    var finalList :- FilterParsed(parse, (url, u) => SameHost(domain, url, u), urls);
    if !EndsWith(link, "sitemap.xml") {
      finalList := finalList + [link];
    }
    return Success(finalList);
  }

  /** The hostname filter of `crawl_webpage` removes nothing: every URL the crawl finds already
      has the seed's hostname. So the crawl yields exactly what `processSitemap` found, then the
      seed itself unless it ends with `sitemap.xml`; the seed is requested first, and every URL
      is requested at most once. */
  lemma CrawlResult(link: string, parse: UrlParser, site: map<string, Body>)
    requires parse(link).Some?
    ensures var env := Env(parse(link).value.hostname, parse, site);
            var c := Process(env, link, {}, []);
            var r := Crawl(link, parse, site);
            (r.Success? <==> c.urls.Success?)
            && (r.Success? ==> r.value == c.urls.value + (if EndsWith(link, "sitemap.xml") then [] else [link]))
            && c.log != [] && c.log[0] == link
            && Seqs.NoDup(c.log)
  {
    var seed := parse(link).value;
    var env := Env(seed.hostname, parse, site);
    var c := Process(env, link, {}, []);
    assert Tracks({}, []);
    if c.urls.Success? {
      var keep := (url, u) => SameHost(seed.hostname, url, u);
      forall i | 0 <= i < |c.urls.value|
        ensures parse(c.urls.value[i]).Some? && keep(c.urls.value[i], parse(c.urls.value[i]).value)
      {
        assert IsCrawlTarget(env, c.urls.value[i]);
      }
      FilterParsedAll(parse, keep, c.urls.value);
    }
  }

  /** `x` is the `getLink` form of an `href` among `anchors` that starts with `http` and has an
      extension. */
  predicate FromAnchor(parse: UrlParser, anchors: seq<string>, x: string) {
    exists h :: h in anchors && StartsWith(h, "http") && IsHTMLFile(h) && parse(h).Some? && x == GetLink(parse(h).value)
  }

  /** Every URL of an HTML page's contribution is the `getLink` form of one of its anchors'
      `href`s, one that starts with `http` and has an extension. */
  lemma HtmlBranchLinks(env: Env, url: string, visited: set<string>, log: seq<string>)
    requires url !in visited && url in env.site && !IsXML(env.site[url].content)
    ensures var c := Process(env, url, visited, log);
            c.urls.Success? ==> forall x :: x in c.urls.value ==> FromAnchor(env.parse, env.site[url].anchors, x)
  {
    var c := Process(env, url, visited, log);
    var anchors := env.site[url].anchors;
    var links := ExtractLinksFromHTML(anchors, env.parse);
    if c.urls.Success? {
      var hrefs := HtmlHrefs(anchors);
      HtmlHrefsKeeps(anchors);
      forall x | x in c.urls.value ensures FromAnchor(env.parse, anchors, x) {
        assert x in links.value;
        var i :| 0 <= i < |links.value| && links.value[i] == x;
        assert hrefs[i] in hrefs;
      }
    }
  }

  /** A parsed sitemap contributes its URL set's crawl targets, as a `Set`, followed by whatever
      its child sitemaps contribute, processed in document order. Every crawl target of the URL
      set is in the result. */
  lemma ProcessXmlResult(env: Env, doc: SitemapXml, visited: set<string>, log: seq<string>,
                         urls: seq<string>, pages: seq<string>)
    requires GetUrlsFormSitemap(doc, env.parse) == Success(urls)
    requires FilterPages(env, urls) == Success(pages)
    ensures GoodResults(env, Seqs.Dedup(pages))
    ensures var c := ProcessXml(env, doc, visited, log);
            c == ProcessChildren(env, GetSitemapsFormSitemap(doc), Seqs.Dedup(pages), visited, log)
            && (c.urls.Success? ==> Seqs.Dedup(pages) <= c.urls.value)
            && (c.urls.Success? ==> forall x :: x in urls && IsCrawlTarget(env, x) ==> x in c.urls.value)
  {
    var c := ProcessXml(env, doc, visited, log);
    var set0 := Seqs.Dedup(pages);
    if c.urls.Success? {
      forall x | x in urls && IsCrawlTarget(env, x) ensures x in c.urls.value {
        assert x in set0;
        var i :| 0 <= i < |set0| && set0[i] == x;
        assert c.urls.value[i] == x;
      }
    }
  }

  /** A sitemap body that parses is processed after the request: its URL set's crawl targets and
      its children's contributions make up the result, and every crawl target of its URL set is
      in it. */
  lemma XmlBranchResult(env: Env, url: string, visited: set<string>, log: seq<string>,
                        doc: SitemapXml, urls: seq<string>, pages: seq<string>)
    requires url !in visited && url in env.site && IsXML(env.site[url].content)
    requires env.site[url].xml == Success(doc)
    requires GetUrlsFormSitemap(doc, env.parse) == Success(urls)
    requires FilterPages(env, urls) == Success(pages)
    ensures var c := Process(env, url, visited, log);
            c == ProcessChildren(env, GetSitemapsFormSitemap(doc), Seqs.Dedup(pages), visited + {url}, log + [url])
            && (c.urls.Success? ==> forall x :: x in urls && IsCrawlTarget(env, x) ==> x in c.urls.value)
  {
    assert Process(env, url, visited, log) == ProcessXml(env, doc, visited + {url}, log + [url]);
    ProcessXmlResult(env, doc, visited + {url}, log + [url], urls, pages);
  }

  /** A page that is not XML contributes its links' crawl targets, once each, in the order of
      their first occurrence: one URL per distinct kept link. */
  lemma HtmlBranchResult(env: Env, url: string, visited: set<string>, log: seq<string>,
                         links: seq<string>, pages: seq<string>)
    requires url !in visited && url in env.site && !IsXML(env.site[url].content)
    requires ExtractLinksFromHTML(env.site[url].anchors, env.parse) == Success(links)
    requires FilterPages(env, links) == Success(pages)
    ensures var c := Process(env, url, visited, log);
            c.urls == Success(Seqs.Dedup(pages))
            && (forall x :: x in c.urls.value <==> x in links && IsCrawlTarget(env, x))
            && |c.urls.value| == |(set x | x in pages)|
  {
    Seqs.DedupSize(pages);
  }

  lemma SitemapUrlIsHtmlFile(s: string)
    requires s == "https://a.com/sitemap.xml"
    ensures IsHTMLFile(s)
  {
    assert s[21] == '.' && '.' !in s[22..];
    assert LastIndexOf(s, '.') == 21;
    assert s[|s| - 1] != '.';
  }

  /** A sitemap index that lists itself is requested once and contributes nothing: the
      `visited` set stops the cycle. */
  lemma SelfReferencingIndex(env: Env, s: string)
    requires s == "https://a.com/sitemap.xml"
    requires env.site == map[s := Body("<?xml", Success(SitemapIndex(Some([LocEntry(s)]))), [])]
    ensures Process(env, s, {}, []) == Crawled(Success([]), {s}, [s])
  {
    var doc := SitemapIndex(Some([LocEntry(s)]));
    var body := env.site[s];
    assert body.content == "<?xml" && body.xml == Success(doc);
    assert IsXML(body.content) by { assert StartsWith("<?xml", "<?xml"); }
    SitemapUrlIsHtmlFile(s);
    assert IndexLocs(doc) == [s];
    assert GetSitemapsFormSitemap(doc) == [s];
    assert GetUrlsFormSitemap(doc, env.parse) == Success([]);
    assert FilterPages(env, []) == Success([]);
    assert Seqs.Dedup<string>([]) == [];
    XmlBranchResult(env, s, {}, [], doc, [], []);
    var sub := Process(env, s, {s}, [s]);
    assert sub == Crawled(Success([]), {s}, [s]);
    ProcessChildrenStep(env, [s], [], {s}, [s]);
    assert Seqs.Dedup<string>([] + []) == [];
    assert ProcessChildren(env, [], [], {s}, [s]) == Crawled(Success([]), {s}, [s]);
  }
}
