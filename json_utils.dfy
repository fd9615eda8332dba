/** The sitemap-object helpers of src/utils/json_utils.ts. */
module JsonUtils {
  import opened Wrappers
  import opened Strings
  import opened Common
  import Seqs

  /** A JavaScript value as xml2js or JSON.parse produce it. An object's members are listed in
      the order `for...in` visits them. */
  datatype Json =
    | JNull
    | JBool(b: bool)
    | JNumber(n: int)
    | JString(s: string)
    | JArray(items: seq<Json>)
    | JObject(members: seq<Member>)

  datatype Member = Member(key: string, value: Json)

  /** `typeof v === 'object' && v !== null`: arrays and plain objects. */
  predicate IsObject(v: Json) {
    v.JArray? || v.JObject?
  }

  /** How many keys `for...in` visits: an array is walked by its indices. */
  function KeyCount(obj: Json): nat {
    match obj
    case JArray(items) => |items|
    case JObject(members) => |members|
    case _ => 0
  }

  /** The `i`-th key: the decimal index for an array, the member name for an object. */
  function KeyAt(obj: Json, i: nat): string
    requires IsObject(obj) && i < KeyCount(obj)
  {
    if obj.JArray? then NatToString(i) else obj.members[i].key
  }

  /** `obj[key]` for the `i`-th key. */
  function ValueAt(obj: Json, i: nat): Json
    requires IsObject(obj) && i < KeyCount(obj)
  {
    if obj.JArray? then obj.items[i] else obj.members[i].value
  }

  /** The values `for...in` reaches lie strictly below the object. */
  lemma ValueAtBelow(obj: Json, i: nat)
    requires IsObject(obj) && i < KeyCount(obj)
    ensures ValueAt(obj, i) < obj
  {
    if obj.JObject? {
      assert obj.members[i] in obj.members;
    }
  }

  /** `Array.prototype.flat()`: array elements are spread one level, other values kept. */
  function Flat(xs: seq<Json>): seq<Json> {
    if xs == [] then []
    else (if xs[0].JArray? then xs[0].items else [xs[0]]) + Flat(xs[1..])
  }

  /** What `getAllOccurrences(obj, target)` returns. */
  function Occurrences(obj: Json, target: string): seq<Json>
    requires IsObject(obj)
    decreases obj, 1
  {
    Flat(Pushed(obj, target, KeyCount(obj)))
  }

  /** What the loop has pushed into `results` after visiting the first `n` keys. */
  function Pushed(obj: Json, target: string, n: nat): seq<Json>
    requires IsObject(obj) && n <= KeyCount(obj)
    decreases obj, 0, n
  {
    if n == 0 then [] else Pushed(obj, target, n - 1) + PushedAt(obj, target, n - 1)
  }

  /** What the `i`-th key contributes: its value when the key is `target`, then the results
      found inside the value when the value is an object. */
  function PushedAt(obj: Json, target: string, i: nat): seq<Json>
    requires IsObject(obj) && i < KeyCount(obj)
    decreases obj, 0, 0
  {
    var value := ValueAt(obj, i);
    assert value < obj;
    (if KeyAt(obj, i) == target then [value] else [])
    + (if IsObject(value) then Occurrences(value, target) else [])
  }

  /** The loop of `getAllOccurrences`, with its recursive calls. */
  method GetAllOccurrences(obj: Json, target: string) returns (r: seq<Json>)
    requires IsObject(obj)
    ensures r == Occurrences(obj, target)
    decreases obj
  {
    var results: seq<Json> := [];
    var i := 0;
    while i < KeyCount(obj)
      invariant 0 <= i <= KeyCount(obj)
      invariant results == Pushed(obj, target, i)
    {
      var key := KeyAt(obj, i);
      var value := ValueAt(obj, i);
      var nested: seq<Json> := [];
      ValueAtBelow(obj, i);
      if IsObject(value) {
        nested := GetAllOccurrences(value, target);
      }
      results := results + ((if key == target then [value] else []) + nested);
      i := i + 1;
    }
    r := Flat(results);
  }

  /** Some key among the first `n` of `obj`, or at any depth below them, equals `target`. */
  predicate HasKey(obj: Json, target: string, n: nat)
    requires IsObject(obj) && n <= KeyCount(obj)
    decreases obj, n
  {
    n > 0 &&
      var value := ValueAt(obj, n - 1);
      assert value < obj;
      (HasKey(obj, target, n - 1) || KeyAt(obj, n - 1) == target
       || (IsObject(value) && HasKey(value, target, KeyCount(value))))
  }

  /** No key equals `target` anywhere in the tree: nothing is found. */
  lemma {:induction false} NoKeyNoOccurrences(obj: Json, target: string)
    requires IsObject(obj) && !HasKey(obj, target, KeyCount(obj))
    ensures Occurrences(obj, target) == []
    decreases obj, 1
  {
    NoKeyNothingPushed(obj, target, KeyCount(obj));
  }

  lemma {:induction false} NoKeyNothingPushed(obj: Json, target: string, n: nat)
    requires IsObject(obj) && n <= KeyCount(obj) && !HasKey(obj, target, n)
    ensures Pushed(obj, target, n) == []
    decreases obj, 0, n
  {
    if n > 0 {
      var value := ValueAt(obj, n - 1);
      assert value < obj;
      if IsObject(value) {
        NoKeyNoOccurrences(value, target);
      }
      NoKeyNothingPushed(obj, target, n - 1);
    }
  }

  /** A `<url><loc>a</loc></url>` entry as xml2js builds it: `{loc: [a]}`. */
  function LocObject(a: string): Json {
    JObject([Member("loc", JArray([JString(a)]))])
  }

  /** Searching `{loc: [a]}` for `loc` finds the array `[a]` and spreads it. */
  lemma LocObjectOccurrences(a: string, target: string)
    requires target == "loc"
    ensures Occurrences(LocObject(a), target) == [JString(a)]
  {
    var inner := JArray([JString(a)]);
    assert NatToString(0) == "0";
    assert Pushed(inner, target, 1) == [];
    assert Occurrences(inner, target) == [];
    assert Pushed(LocObject(a), target, 1) == [inner];
    assert Flat([inner]) == [JString(a)] + Flat([]);
  }

  /** The `url` array `[{loc: [a]}, {loc: [b]}]` yields both locations in order. */
  lemma UrlArrayOccurrences(a: string, b: string, target: string)
    requires target == "loc"
    ensures Occurrences(JArray([LocObject(a), LocObject(b)]), target) == [JString(a), JString(b)]
  {
    var urls := JArray([LocObject(a), LocObject(b)]);
    LocObjectOccurrences(a, target);
    LocObjectOccurrences(b, target);
    assert NatToString(0) == "0" && NatToString(1) == "1";
    assert Pushed(urls, target, 1) == [JString(a)];
    assert Pushed(urls, target, 2) == [JString(a), JString(b)];
    assert Flat([JString(b)]) == [JString(b)] + Flat([]);
    assert Flat([JString(a), JString(b)]) == [JString(a)] + Flat([JString(b)]);
  }

  /** A single-member object whose key is not the target yields what its value yields. */
  lemma WrapperOccurrences(key: string, value: Json, target: string, found: seq<Json>)
    requires key != target && IsObject(value) && Occurrences(value, target) == found
    requires forall k :: 0 <= k < |found| ==> !found[k].JArray?
    ensures Occurrences(JObject([Member(key, value)]), target) == found
  {
    var obj := JObject([Member(key, value)]);
    assert Pushed(obj, target, 1) == found;
    FlatOfPlain(found);
  }

  lemma {:induction false} FlatOfPlain(xs: seq<Json>)
    requires forall k :: 0 <= k < |xs| ==> !xs[k].JArray?
    ensures Flat(xs) == xs
  {
    if xs != [] {
      FlatOfPlain(xs[1..]);
      assert [xs[0]] + xs[1..] == xs;
    }
  }

  /** The xml2js object of `<urlset><url><loc>a</loc></url><url><loc>b</loc></url></urlset>`
      gives the two locations in document order. */
  lemma UrlSetOccurrences(a: string, b: string, target: string)
    requires target == "loc"
    ensures Occurrences(JObject([Member("urlset", JObject([Member("url", JArray([LocObject(a), LocObject(b)]))]))]), target)
      == [JString(a), JString(b)]
  {
    var found := [JString(a), JString(b)];
    UrlArrayOccurrences(a, b, target);
    WrapperOccurrences("url", JArray([LocObject(a), LocObject(b)]), target, found);
    WrapperOccurrences("urlset", JObject([Member("url", JArray([LocObject(a), LocObject(b)]))]), target, found);
  }

  /** `.flat()` spreads one level only: a value `[[x]]` found under a key of the root object comes
      back as `[x]`. */
  lemma FlatOneLevel(x: string, target: string)
    requires target == "k"
    ensures Occurrences(JObject([Member(target, JArray([JArray([JString(x)])]))]), target)
      == [JArray([JString(x)])]
  {
    var inner := JArray([JString(x)]);
    var outer := JArray([inner]);
    assert NatToString(0) == "0";
    assert Pushed(inner, target, 1) == [];
    assert Occurrences(inner, target) == [];
    assert Pushed(outer, target, 1) == [];
    assert Occurrences(outer, target) == [];
    var root := JObject([Member(target, outer)]);
    assert Pushed(root, target, 1) == [outer];
    assert Flat([outer]) == [inner] + Flat([]);
  }
  /** Every recursive call flattens its own results and the caller flattens them again, so a match
      one object down is flattened twice: `{a: {k: [[x]]}}` searched for `k` gives `[x]`. */
  lemma NestedMatchFlattenedTwice(x: string, target: string)
    requires target == "k"
    ensures Occurrences(JObject([Member("a", JObject([Member(target, JArray([JArray([JString(x)])]))]))]), target)
      == [JString(x)]
  {
    var inner := JArray([JString(x)]);
    var mid := JObject([Member(target, JArray([inner]))]);
    FlatOneLevel(x, target);
    assert Occurrences(mid, target) == [inner];
    var root := JObject([Member("a", mid)]);
    assert Pushed(root, target, 1) == [inner];
    assert Flat([inner]) == [JString(x)] + Flat([]);
  }


  /** One `<sitemap>` or `<url>` entry of a sitemap document, by the text of its `<loc>`. */
  datatype LocEntry = LocEntry(loc: string)

  /** The object xml2js builds for a sitemap document, by its root element. `None`: the root
      element has no `<sitemap>` (resp. `<url>`) children, so the key is absent. */
  datatype SitemapXml =
    | SitemapIndex(sitemap: Option<seq<LocEntry>>)
    | UrlSet(url: Option<seq<LocEntry>>)
    | OtherRoot(name: string)

  /** `entries.map((el) => el.loc)`. */
  function Locs(entries: seq<LocEntry>): (r: seq<string>)
    ensures |r| == |entries|
    ensures forall i :: 0 <= i < |entries| ==> r[i] == entries[i].loc
  {
    Seqs.Map((e: LocEntry) => e.loc, entries)
  }

  /** The `<loc>` of every `<sitemap>` of a sitemap index; none for any other document. */
  function IndexLocs(doc: SitemapXml): seq<string> {
    if doc.SitemapIndex? && doc.sitemap.Some? then Locs(doc.sitemap.value) else []
  }

  /** The `<loc>` of every `<url>` of a URL set; none for any other document. */
  function UrlSetLocs(doc: SitemapXml): seq<string> {
    if doc.UrlSet? && doc.url.Some? then Locs(doc.url.value) else []
  }

  /** `getSitemapsFormSitemap`: the child sitemaps of an index whose location has an
      extension, in document order. */
  function GetSitemapsFormSitemap(doc: SitemapXml): (r: seq<string>)
    ensures !(doc.SitemapIndex? && doc.sitemap.Some?) ==> r == []
    ensures forall x :: x in r <==> x in IndexLocs(doc) && IsHTMLFile(x)
    ensures Seqs.KeepsCopies(r, IndexLocs(doc), IsHTMLFile)
    ensures Seqs.IsSubsequence(r, IndexLocs(doc))
    ensures |r| <= |IndexLocs(doc)|
  {
    if doc.SitemapIndex? && doc.sitemap.Some? then
      var locs := Locs(doc.sitemap.value);
      Seqs.FilterKeeps(IsHTMLFile, locs);
      Seqs.FilterCopies(IsHTMLFile, locs);
      Seqs.Filter(IsHTMLFile, locs)
    else
      []
  }

  /** `getUrlsFormSitemap`: every `<loc>` of a URL set reduced by `getLink`, keeping those with
      an extension, in document order. `new URL` throws on a location it cannot parse, and the
      exception leaves the function. */
  function GetUrlsFormSitemap(doc: SitemapXml, parse: UrlParser): (r: Result<seq<string>, Exception>)
    ensures !(doc.UrlSet? && doc.url.Some?) ==> r == Success([])
    ensures r.Success? <==> forall i :: 0 <= i < |UrlSetLocs(doc)| ==> parse(UrlSetLocs(doc)[i]).Some?
    ensures r.Failure? ==> r.error.InvalidUrl? && r.error.input in UrlSetLocs(doc)
    ensures r.Success? ==> forall x :: x in r.value <==> x in MapLinks(parse, UrlSetLocs(doc)).value && IsHTMLFile(x)
    ensures r.Success? ==> Seqs.KeepsCopies(r.value, MapLinks(parse, UrlSetLocs(doc)).value, IsHTMLFile)
    ensures r.Success? ==> Seqs.IsSubsequence(r.value, MapLinks(parse, UrlSetLocs(doc)).value)
  {
    if doc.UrlSet? && doc.url.Some? then
      var links :- MapLinks(parse, UrlSetLocs(doc));
      Seqs.FilterKeeps(IsHTMLFile, links);
      Seqs.FilterCopies(IsHTMLFile, links);
      Success(Seqs.Filter(IsHTMLFile, links))
    else
      Success([])
  }
}
