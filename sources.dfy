/** What a configured update source is, and what the scrapers get back from the
    web for it: the listing's items as records of the texts the CSS selectors
    found. HTTP and HTML parsing themselves are not modelled. */
module Sources {
  import opened Options

  /** One entry of the `updates` list of the country configuration (its
      `label`, only printed, is left out). A selector is `None` when the entry
      holds `null`. */
  datatype SourceConfig = SourceConfig(
    url: string,
    selector: Option<string>,
    linkSelector: Option<string>,
    titleSelector: Option<string>,
    subtitleSelector: Option<string>,
    dateSelector: Option<string>)

  /** Python truthiness of a selector: present and not empty. */
  predicate Given(sel: Option<string>) {
    sel.Some? && sel.value != ""
  }

  /** A source is scraped only when its item, link and title selectors are all
      given. */
  predicate HasEssentialSelectors(src: SourceConfig) {
    Given(src.selector) && Given(src.linkSelector) && Given(src.titleSelector)
  }

  /** One element matched by the source's item selector. Each field is the
      stripped text (for the link: the `href` attribute) of the first element
      the corresponding selector finds inside the item, `None` when it finds
      nothing. `Malformed` stands for an item whose processing raises. */
  datatype Item =
    | Candidate(href: Option<string>, title: Option<string>, subtitle: Option<string>, dateText: Option<string>)
    | Malformed

  /** The response to the listing request: the matched items, or a request
      that failed (connection error, timeout, HTTP error status). */
  datatype Page = Listing(items: seq<Item>) | FetchFailed

  const NoTitle: string := "No title found"
  const NoSubtitle: string := "No subtitle"
  const NoDate: string := "No date"

  /** The URLs of the sources that have their essential selectors, in order:
      the listings a scraper requests. */
  function EssentialUrls(cfg: seq<SourceConfig>): (r: seq<string>)
    ensures |r| <= |cfg|
    ensures forall u :: u in r ==> exists i :: 0 <= i < |cfg| && HasEssentialSelectors(cfg[i]) && cfg[i].url == u
  {
    if cfg == [] then []
    else
      var rest := EssentialUrls(cfg[1..]);
      assert forall u :: u in rest ==> exists i :: 1 <= i < |cfg| && HasEssentialSelectors(cfg[i]) && cfg[i].url == u by {
        forall u | u in rest ensures exists i :: 1 <= i < |cfg| && HasEssentialSelectors(cfg[i]) && cfg[i].url == u {
          var j :| 0 <= j < |cfg[1..]| && HasEssentialSelectors(cfg[1..][j]) && cfg[1..][j].url == u;
          assert cfg[j + 1] == cfg[1..][j];
        }
      }
      (if HasEssentialSelectors(cfg[0]) then [cfg[0].url] else []) + rest
  }

  /** Every source with its essential selectors is requested. */
  lemma {:induction false} EssentialUrlsComplete(cfg: seq<SourceConfig>)
    ensures forall i :: 0 <= i < |cfg| && HasEssentialSelectors(cfg[i]) ==> cfg[i].url in EssentialUrls(cfg)
  {
    if cfg != [] {
      EssentialUrlsComplete(cfg[1..]);
      forall i | 1 <= i < |cfg| && HasEssentialSelectors(cfg[i])
        ensures cfg[i].url in EssentialUrls(cfg)
      {
        assert cfg[i] == cfg[1..][i - 1];
      }
    }
  }

  /** The requests of two consecutive stretches of the configuration are
      those of the first followed by those of the second: the listings are
      requested in configuration order. */
  lemma {:induction false} EssentialUrlsAppend(a: seq<SourceConfig>, b: seq<SourceConfig>)
    ensures EssentialUrls(a + b) == EssentialUrls(a) + EssentialUrls(b)
  {
    if a == [] {
      assert a + b == b;
    } else {
      var head := if HasEssentialSelectors(a[0]) then [a[0].url] else [];
      assert (a + b)[0] == a[0] && (a + b)[1..] == a[1..] + b;
      assert EssentialUrls(a + b) == head + EssentialUrls(a[1..] + b);
      EssentialUrlsAppend(a[1..], b);
      assert EssentialUrls(a) == head + EssentialUrls(a[1..]);
    }
  }

  /** The link of a candidate: its `href`, when there is a non-empty one. */
  function LinkOf(c: Item): (r: Option<string>)
    requires c.Candidate?
    ensures r.Some? <==> c.href.Some? && c.href.value != ""
    ensures r.Some? ==> r.value == c.href.value
  {
    if c.href.Some? && c.href.value != "" then c.href else None
  }

  /** The title text, or the sentinel when the title selector finds nothing. */
  function TitleOf(c: Item): (r: string)
    requires c.Candidate?
    ensures c.title.Some? ==> r == c.title.value
    ensures c.title.None? ==> r == NoTitle
  {
    c.title.GetOr(NoTitle)
  }

  /** The subtitle text; the subtitle selector is applied only when given. */
  function SubtitleOf(src: SourceConfig, c: Item): (r: string)
    requires c.Candidate?
    ensures Given(src.subtitleSelector) && c.subtitle.Some? ==> r == c.subtitle.value
    ensures !Given(src.subtitleSelector) || c.subtitle.None? ==> r == NoSubtitle
  {
    if Given(src.subtitleSelector) then c.subtitle.GetOr(NoSubtitle) else NoSubtitle
  }

  /** The date text; the date selector is applied only when given. */
  function DateTextOf(src: SourceConfig, c: Item): (r: string)
    requires c.Candidate?
    ensures Given(src.dateSelector) && c.dateText.Some? ==> r == c.dateText.value
    ensures !Given(src.dateSelector) || c.dateText.None? ==> r == NoDate
  {
    if Given(src.dateSelector) then c.dateText.GetOr(NoDate) else NoDate
  }

  /** The response for `url`: the listing the site serves, or a failure when
      it serves none. */
  function PageAt(pages: map<string, Page>, url: string): Page {
    if url in pages then pages[url] else FetchFailed
  }

  /** The web as the scrapers see it: what each listing URL serves, and the
      log of the requests made so far. */
  class Web {
    var pages: map<string, Page>
    var requested: seq<string>

    constructor (pages: map<string, Page>)
      ensures this.pages == pages && requested == []
    {
      this.pages := pages;
      requested := [];
    }

    /** `requests.get(url, timeout=10)` followed by `raise_for_status()` and
        the item selection. */
    method Get(url: string) returns (p: Page)
      modifies this
      ensures p == PageAt(pages, url)
      ensures pages == old(pages) && requested == old(requested) + [url]
    {
      p := PageAt(pages, url);
      requested := requested + [url];
    }
  }
}
