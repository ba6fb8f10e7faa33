/** `fetch_and_print` of the earlier test-mode scraper: the same source
    filter and extraction rules as the backend scraper, but nothing is stored,
    the date is read only by `datetime.fromisoformat`, and at most five items
    are shown per source. */
module TestScraper {
  import opened Options
  import opened Calendar
  import opened DateParser
  import opened Sources

  /** Items shown per source before the loop breaks. */
  const PreviewCap: nat := 5

  /** What is printed for one item with a link. */
  datatype Preview = Preview(url: string, title: string, subtitle: string, dateText: string, published: Option<Date>)

  datatype PreviewOutcome =
    | Skipped                                // essential selectors missing: not fetched
    | Unreachable                            // the request failed
    | Aborted(shown: seq<Preview>)           // an exception while walking the items
    | Listed(shown: seq<Preview>)

  /** The preview of an item with a link; an unparseable date gives `None`
      and the item is shown all the same. */
  function PreviewOf(src: SourceConfig, resolve: (string, string) -> string, item: Item): (p: Preview)
    requires item.Candidate? && LinkOf(item).Some?
    ensures p.published.Some? ==> ValidDate(p.published.value)
    ensures p.title == TitleOf(item) && p.dateText == DateTextOf(src, item)
    ensures p.url == resolve(src.url, LinkOf(item).value) && p.subtitle == SubtitleOf(src, item)
    ensures p.published == FromIsoFormat(p.dateText)
  {
    var dateText := DateTextOf(src, item);
    Preview(resolve(src.url, LinkOf(item).value), TitleOf(item), SubtitleOf(src, item), dateText, FromIsoFormat(dateText))
  }

  /** The item loop from the previews `shown` so far: items without a link are
      passed over, the loop breaks once five are shown, and `true` reports an
      exception. */
  function PreviewItems(src: SourceConfig, resolve: (string, string) -> string, items: seq<Item>, shown: seq<Preview>): (seq<Preview>, bool)
    decreases |items|
  {
    if items == [] then (shown, false)
    else match items[0]
      case Malformed => (shown, true)
      case Candidate(_, _, _, _) =>
        if LinkOf(items[0]).None? then PreviewItems(src, resolve, items[1..], shown)
        else
          var shown' := shown + [PreviewOf(src, resolve, items[0])];
          if |shown'| >= PreviewCap then (shown', false) else PreviewItems(src, resolve, items[1..], shown')
  }

  /** The previews of all items with a link, in listing order, with no cap. */
  function LinkedPreviews(src: SourceConfig, resolve: (string, string) -> string, items: seq<Item>): seq<Preview> {
    if items == [] then []
    else if items[0].Candidate? && LinkOf(items[0]).Some? then
      [PreviewOf(src, resolve, items[0])] + LinkedPreviews(src, resolve, items[1..])
    else LinkedPreviews(src, resolve, items[1..])
  }

  function Min(a: int, b: int): int { if a <= b then a else b }

  /** One iteration of the source loop. */
  function PreviewSource(src: SourceConfig, resolve: (string, string) -> string, pages: map<string, Page>): PreviewOutcome {
    if !HasEssentialSelectors(src) then Skipped
    else match PageAt(pages, src.url)
      case FetchFailed => Unreachable
      case Listing(items) =>
        var (shown, failed) := PreviewItems(src, resolve, items, []);
        if failed then Aborted(shown) else Listed(shown)
  }

  /** The item loop of one source. */
  method PreviewListing(src: SourceConfig, resolve: (string, string) -> string, items: seq<Item>)
    returns (shown: seq<Preview>, failed: bool)
    ensures (shown, failed) == PreviewItems(src, resolve, items, [])
  {
    shown, failed := [], false;
    var i := 0;
    while i < |items|
      invariant 0 <= i <= |items| && |shown| < PreviewCap
      invariant PreviewItems(src, resolve, items[i..], shown) == PreviewItems(src, resolve, items, [])
    {
      var item := items[i];
      assert items[i..][1..] == items[i + 1..];
      if item.Malformed? {
        failed := true;
        return;
      }
      var link := LinkOf(item);
      if link.Some? {
        shown := shown + [PreviewOf(src, resolve, item)];
        if |shown| >= PreviewCap {
          return;
        }
      }
      i := i + 1;
    }
  }

  /** `fetch_and_print`: one outcome per configured source. */
  method FetchAndPrint(cfg: seq<SourceConfig>, resolve: (string, string) -> string, web: Web)
    returns (outcomes: seq<PreviewOutcome>)
    modifies web
    ensures |outcomes| == |cfg|
    ensures forall i :: 0 <= i < |cfg| ==> outcomes[i] == PreviewSource(cfg[i], resolve, old(web.pages))
    ensures web.pages == old(web.pages) && web.requested == old(web.requested) + EssentialUrls(cfg)
  {
    outcomes := [];
    ghost var fetched: seq<string> := [];
    var k := 0;
    while k < |cfg|
      invariant 0 <= k <= |cfg| && |outcomes| == k
      invariant forall i :: 0 <= i < k ==> outcomes[i] == PreviewSource(cfg[i], resolve, old(web.pages))
      invariant web.pages == old(web.pages) && web.requested == old(web.requested) + fetched
      invariant fetched + EssentialUrls(cfg[k..]) == EssentialUrls(cfg)
    {
      var src := cfg[k];
      assert cfg[k..][1..] == cfg[k + 1..];
      var o := PrintSource(src, resolve, web);
      outcomes := outcomes + [o];
      fetched := fetched + if HasEssentialSelectors(src) then [src.url] else [];
      k := k + 1;
    }
    assert cfg[k..] == [];
  }

  /** One iteration of the source loop of `fetch_and_print`. */
  method PrintSource(src: SourceConfig, resolve: (string, string) -> string, web: Web)
    returns (o: PreviewOutcome)
    modifies web
    ensures o == PreviewSource(src, resolve, old(web.pages))
    ensures web.pages == old(web.pages)
    ensures web.requested == old(web.requested) + if HasEssentialSelectors(src) then [src.url] else []
  {
    if !HasEssentialSelectors(src) {
      return Skipped;
    }
    var page := web.Get(src.url);
    if page.FetchFailed? {
      return Unreachable;
    }
    var shown, failed := PreviewListing(src, resolve, page.items);
    o := if failed then Aborted(shown) else Listed(shown);
  }

  /** At most five previews per source, and without an exception exactly the
      first `min(5, n)` of the `n` items with a link, in listing order: an
      unparseable date does not keep an item from being counted. */
  lemma {:induction false} PreviewIsCappedPrefix(src: SourceConfig, resolve: (string, string) -> string,
                                                 items: seq<Item>, shown: seq<Preview>)
    requires |shown| < PreviewCap
    ensures var (r, failed) := PreviewItems(src, resolve, items, shown);
            && |r| <= PreviewCap
            && shown <= r
            && (!failed ==>
                  var all := shown + LinkedPreviews(src, resolve, items);
                  r == all[..Min(PreviewCap, |all|)])
    decreases |items|
  {
    if items != [] && items[0].Candidate? {
      var rest := items[1..];
      if LinkOf(items[0]).None? {
        PreviewIsCappedPrefix(src, resolve, rest, shown);
      } else {
        var p := PreviewOf(src, resolve, items[0]);
        var shown' := shown + [p];
        assert shown + LinkedPreviews(src, resolve, items) == shown' + LinkedPreviews(src, resolve, rest);
        if |shown'| < PreviewCap {
          PreviewIsCappedPrefix(src, resolve, rest, shown');
        } else {
          var all := shown' + LinkedPreviews(src, resolve, rest);
          assert all[..Min(PreviewCap, |all|)] == shown';
        }
      }
    }
  }

  /** A listing without a malformed item shows `min(5, n)` previews, `n`
      being the number of items with a link. */
  lemma PreviewCount(src: SourceConfig, resolve: (string, string) -> string, items: seq<Item>)
    requires forall i :: 0 <= i < |items| ==> items[i].Candidate?
    ensures var (r, failed) := PreviewItems(src, resolve, items, []);
            !failed && |r| == Min(PreviewCap, |LinkedPreviews(src, resolve, items)|)
  {
    PreviewIsCappedPrefix(src, resolve, items, []);
    NoMalformedNoFailure(src, resolve, items, []);
    assert [] + LinkedPreviews(src, resolve, items) == LinkedPreviews(src, resolve, items);
  }

  lemma {:induction false} NoMalformedNoFailure(src: SourceConfig, resolve: (string, string) -> string,
                                                items: seq<Item>, shown: seq<Preview>)
    requires forall i :: 0 <= i < |items| ==> items[i].Candidate?
    ensures !PreviewItems(src, resolve, items, shown).1
    decreases |items|
  {
    if items != [] {
      assert items[0].Candidate?;
      if LinkOf(items[0]).None? {
        NoMalformedNoFailure(src, resolve, items[1..], shown);
      } else {
        var shown' := shown + [PreviewOf(src, resolve, items[0])];
        if |shown'| < PreviewCap {
          NoMalformedNoFailure(src, resolve, items[1..], shown');
        }
      }
    }
  }
}
