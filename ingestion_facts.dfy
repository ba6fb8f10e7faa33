/** What the ingestion loop is proved to do: stored articles only grow, the
    counters agree, everything stored lies in the window, the early stop makes
    the rest of the listing irrelevant, and a second pass over the same
    listing stores nothing. */
module IngestionFacts {
  import opened Options
  import opened PyText
  import opened Calendar
  import opened DateParser
  import opened DateParserFacts
  import opened Sources
  import opened ArticleStore
  import opened Ingestion

  /** Every article of `a` is in `b`, unchanged. */
  predicate Extends(a: map<string, Article>, b: map<string, Article>) {
    forall u :: u in a ==> u in b && b[u] == a[u]
  }

  /** Stored articles only grow: nothing is removed or overwritten. */
  lemma {:induction false} ScanGrows(ctx: SourceCtx, items: seq<Item>, st: ScanState)
    ensures Extends(st.stored, ScanItems(ctx, items, st).stored)
    decreases |items|
  {
    if items != [] && st.halt.Scanning? {
      var st' := Step(ctx, items[0], st);
      assert Extends(st.stored, st'.stored);
      ScanGrows(ctx, items[1..], st');
    }
  }

  /** `new_articles_count` counts exactly the insertions and equals
      `in_range_count`, which grows by at most one per item. */
  lemma {:induction false} ScanCounts(ctx: SourceCtx, items: seq<Item>, st: ScanState)
    ensures var r := ScanItems(ctx, items, st);
            && st.inRange <= r.inRange <= st.inRange + |items|
            && r.added - st.added == r.inRange - st.inRange
            && |r.stored| == |st.stored| + (r.added - st.added)
    decreases |items|
  {
    if items != [] && st.halt.Scanning? {
      var st' := Step(ctx, items[0], st);
      assert st.inRange <= st'.inRange <= st.inRange + 1;
      assert st'.added - st.added == st'.inRange - st.inRange;
      assert |st'.stored| == |st.stored| + (st'.added - st.added);
      ScanCounts(ctx, items[1..], st');
    }
  }

  /** Every article the walk stores carries the source's id and a date inside
      the window. */
  lemma {:induction false} ScanStoresInWindow(ctx: SourceCtx, items: seq<Item>, st: ScanState)
    ensures var r := ScanItems(ctx, items, st);
            forall u :: u in r.stored && u !in st.stored ==>
              && r.stored[u].sourceId == ctx.id
              && ValidDate(r.stored[u].published)
              && InWindow(ctx.window, r.stored[u].published)
    decreases |items|
  {
    if items != [] && st.halt.Scanning? {
      var st' := Step(ctx, items[0], st);
      ScanStoresInWindow(ctx, items[1..], st');
      ScanGrows(ctx, items[1..], st');
    }
  }

  /** Walking a listing in two pieces is walking it whole. */
  lemma {:induction false} ScanAppend(ctx: SourceCtx, items: seq<Item>, more: seq<Item>, st: ScanState)
    ensures ScanItems(ctx, items + more, st) == ScanItems(ctx, more, ScanItems(ctx, items, st))
    decreases |items|
  {
    if items == [] {
      assert items + more == more;
    } else if st.halt.Scanning? {
      assert (items + more)[1..] == items[1..] + more;
      ScanAppend(ctx, items[1..], more, Step(ctx, items[0], st));
    }
  }

  /** Once the walk has stopped (at an older item or on an exception), the
      items after that point are never looked at. */
  lemma StoppedScanIgnoresRest(ctx: SourceCtx, items: seq<Item>, more: seq<Item>, st: ScanState)
    requires !ScanItems(ctx, items, st).halt.Scanning?
    ensures ScanItems(ctx, items + more, st) == ScanItems(ctx, items, st)
  {
    ScanAppend(ctx, items, more, st);
  }

  /** One item on the second pass, against the store the first pass left. */
  lemma StepOnRescan(ctx: SourceCtx, item: Item, st: ScanState, final: map<string, Article>, a: nat, b: nat)
    requires st.halt.Scanning?
    requires Extends(Step(ctx, item, st).stored, final)
    requires !Step(ctx, item, st).halt.Scanning? ==> final == st.stored
    ensures Step(ctx, item, ScanState(final, a, b, Scanning)) == ScanState(final, a, b, Step(ctx, item, st).halt)
  {
  }

  /** A second walk over the same listing, starting from the store the first
      walk left, inserts and counts nothing and stops where the first did. */
  lemma {:induction false} RescanAddsNothing(ctx: SourceCtx, items: seq<Item>, st: ScanState, a: nat, b: nat)
    requires st.halt.Scanning?
    ensures var r := ScanItems(ctx, items, st);
            ScanItems(ctx, items, ScanState(r.stored, a, b, Scanning)) == ScanState(r.stored, a, b, r.halt)
    decreases |items|
  {
    if items != [] {
      var st' := Step(ctx, items[0], st);
      var final := ScanItems(ctx, items, st).stored;
      ScanGrows(ctx, items[1..], st');
      StepOnRescan(ctx, items[0], st, final, a, b);
      if st'.halt.Scanning? {
        RescanAddsNothing(ctx, items[1..], st', a, b);
      }
    }
  }

  /** Scraping the same listing twice in a row: the second time stores
      nothing and reports no item in range. */
  lemma ScrapeTwiceIdempotent(ctx: SourceCtx, items: seq<Item>, stored: map<string, Article>)
    ensures var r := ScanItems(ctx, items, ScanState(stored, 0, 0, Scanning));
            ScanItems(ctx, items, ScanState(r.stored, 0, 0, Scanning)) == ScanState(r.stored, 0, 0, r.halt)
  {
    RescanAddsNothing(ctx, items, ScanState(stored, 0, 0, Scanning), 0, 0);
  }

  /** The sentinel 'No date' never parses. */
  lemma NoDateNeverParses()
    ensures ParseDate(Some(NoDate)) == None
  {
    var t := NoDate;
    assert t[0] == 'N' && t[|t| - 1] == 'e';
    StripOfUnspaced(t);
    NoLeadingDigitNoDate(t);
  }

  /** A source without a date selector stores nothing: every date text is the
      sentinel, which does not parse, so no item is in range and none is older. */
  lemma {:induction false} NoDateSelectorStoresNothing(ctx: SourceCtx, items: seq<Item>, st: ScanState)
    requires !Given(ctx.src.dateSelector) && st.halt.Scanning?
    ensures var r := ScanItems(ctx, items, st);
            r.stored == st.stored && r.inRange == st.inRange && r.added == st.added && r.halt != ReachedOlder
    decreases |items|
  {
    if items != [] {
      var st' := Step(ctx, items[0], st);
      NoDateStep(ctx, items[0], st);
      if st'.halt.Scanning? {
        NoDateSelectorStoresNothing(ctx, items[1..], st');
      }
    }
  }

  /** One item of a source without a date selector changes no table or
      counter, and can only end the walk by an exception. */
  lemma NoDateStep(ctx: SourceCtx, item: Item, st: ScanState)
    requires !Given(ctx.src.dateSelector)
    ensures var st' := Step(ctx, item, st);
            st'.stored == st.stored && st'.inRange == st.inRange && st'.added == st.added
            && (st'.halt == st.halt || st'.halt == Failed)
  {
    NoDateNeverParses();
    if item.Candidate? {
      assert DateTextOf(ctx.src, item) == NoDate;
    }
  }

  /** The articles a source's walk added (none for a skipped or unreachable
      source). */
  function AddedOf(o: Outcome): nat {
    if o.Aborted? || o.Completed? then o.added else 0
  }

  /** The sum of the per-source new-article counts. */
  function SumAdded(os: seq<Outcome>): nat {
    if os == [] then 0 else AddedOf(os[0]) + SumAdded(os[1..])
  }

  function Lookup(m: map<int, int>, id: int): Option<int> {
    if id in m then Some(m[id]) else None
  }

  /** The source loop from position `k` on appends one outcome per source,
      `Skipped` exactly for the sources missing an essential selector, and
      every source that was walked has as many new articles as items in
      range. */
  lemma {:induction false} IngestOutcomes(cfg: seq<SourceConfig>, k: nat, w: Window, resolve: (string, string) -> string,
                                          pages: map<string, Page>, now: int, rs: RunState)
    requires k <= |cfg|
    ensures var r := IngestFrom(cfg, k, w, resolve, pages, now, rs);
            && |r.outcomes| == |rs.outcomes| + (|cfg| - k)
            && r.outcomes[..|rs.outcomes|] == rs.outcomes
            && (forall i :: k <= i < |cfg| ==>
                  (r.outcomes[|rs.outcomes| + i - k].Skipped? <==> !HasEssentialSelectors(cfg[i])))
            && (forall i :: |rs.outcomes| <= i < |r.outcomes| && (r.outcomes[i].Aborted? || r.outcomes[i].Completed?) ==>
                  r.outcomes[i].added == r.outcomes[i].inRange)
    decreases |cfg| - k
  {
    if k < |cfg| {
      var ctx := SourceCtx(k + 1, cfg[k], w, resolve);
      var rs' := ScrapeSource(ctx, pages, now, rs);
      var r := IngestFrom(cfg, k + 1, w, resolve, pages, now, rs');
      SourceStep(ctx, pages, now, rs);
      IngestOutcomes(cfg, k + 1, w, resolve, pages, now, rs');
      assert r.outcomes[..|rs'.outcomes|][..|rs.outcomes|] == r.outcomes[..|rs.outcomes|];
    }
  }

  /** The run's total is the sum of the per-source new counts. */
  lemma {:induction false} IngestTotal(cfg: seq<SourceConfig>, k: nat, w: Window, resolve: (string, string) -> string,
                                       pages: map<string, Page>, now: int, rs: RunState)
    requires k <= |cfg|
    ensures var r := IngestFrom(cfg, k, w, resolve, pages, now, rs);
            |rs.outcomes| <= |r.outcomes| && r.total == rs.total + SumAdded(r.outcomes[|rs.outcomes|..])
    decreases |cfg| - k
  {
    IngestOutcomes(cfg, k, w, resolve, pages, now, rs);
    if k < |cfg| {
      var ctx := SourceCtx(k + 1, cfg[k], w, resolve);
      var rs' := ScrapeSource(ctx, pages, now, rs);
      var r := IngestFrom(cfg, k + 1, w, resolve, pages, now, rs');
      SourceStep(ctx, pages, now, rs);
      IngestTotal(cfg, k + 1, w, resolve, pages, now, rs');
      IngestOutcomes(cfg, k + 1, w, resolve, pages, now, rs');
      var o := rs'.outcomes[|rs.outcomes|];
      assert r.outcomes[|rs.outcomes|] == o;
      assert r.outcomes[|rs.outcomes|..] == [o] + r.outcomes[|rs'.outcomes|..];
    } else {
      assert IngestFrom(cfg, k, w, resolve, pages, now, rs) == rs;
    }
  }

  /** Exactly the listings of the sources with their essential selectors are
      requested, in configuration order. */
  lemma {:induction false} IngestFetches(cfg: seq<SourceConfig>, k: nat, w: Window, resolve: (string, string) -> string,
                                         pages: map<string, Page>, now: int, rs: RunState)
    requires k <= |cfg|
    ensures IngestFrom(cfg, k, w, resolve, pages, now, rs).fetched == rs.fetched + EssentialUrls(cfg[k..])
    decreases |cfg| - k
  {
    if k < |cfg| {
      var ctx := SourceCtx(k + 1, cfg[k], w, resolve);
      var rs' := ScrapeSource(ctx, pages, now, rs);
      SourceStep(ctx, pages, now, rs);
      IngestFetches(cfg, k + 1, w, resolve, pages, now, rs');
      assert cfg[k..] == [cfg[k]] + cfg[k + 1..];
      assert cfg[k..][1..] == cfg[k + 1..];
    } else {
      assert cfg[k..] == [];
    }
  }

  /** Articles only grow, and the new ones lie inside the window and carry the
      id of one of the sources from position `k` on. */
  lemma {:induction false} IngestArticles(cfg: seq<SourceConfig>, k: nat, w: Window, resolve: (string, string) -> string,
                                          pages: map<string, Page>, now: int, rs: RunState)
    ensures var r := IngestFrom(cfg, k, w, resolve, pages, now, rs);
            && Extends(rs.articles, r.articles)
            && (forall u :: u in r.articles && u !in rs.articles ==>
                  && k < r.articles[u].sourceId <= |cfg|
                  && ValidDate(r.articles[u].published)
                  && InWindow(w, r.articles[u].published))
    decreases |cfg| - k
  {
    if k < |cfg| {
      var ctx := SourceCtx(k + 1, cfg[k], w, resolve);
      var rs' := ScrapeSource(ctx, pages, now, rs);
      SourceStep(ctx, pages, now, rs);
      IngestArticles(cfg, k + 1, w, resolve, pages, now, rs');
    }
  }

  /** One source: one outcome appended, its added count added to the total,
      its URL requested exactly when it has its selectors, and new articles
      from its own walk. */
  lemma SourceStep(ctx: SourceCtx, pages: map<string, Page>, now: int, rs: RunState)
    ensures var r := ScrapeSource(ctx, pages, now, rs);
            && r.outcomes == rs.outcomes + [r.outcomes[|rs.outcomes|]]
            && (r.outcomes[|rs.outcomes|].Skipped? <==> !HasEssentialSelectors(ctx.src))
            && r.total == rs.total + AddedOf(r.outcomes[|rs.outcomes|])
            && r.fetched == rs.fetched + (if HasEssentialSelectors(ctx.src) then [ctx.src.url] else [])
            && ((r.outcomes[|rs.outcomes|].Aborted? || r.outcomes[|rs.outcomes|].Completed?) ==>
                  r.outcomes[|rs.outcomes|].added == r.outcomes[|rs.outcomes|].inRange)
            && Lookup(r.lastScraped, ctx.id) ==
                 (if r.outcomes[|rs.outcomes|].Completed? then Some(now) else Lookup(rs.lastScraped, ctx.id))
            && (forall id :: id != ctx.id ==> Lookup(r.lastScraped, id) == Lookup(rs.lastScraped, id))
            && Extends(rs.articles, r.articles)
            && (forall u :: u in r.articles && u !in rs.articles ==>
                  && r.articles[u].sourceId == ctx.id
                  && ValidDate(r.articles[u].published)
                  && InWindow(ctx.window, r.articles[u].published))
  {
    if HasEssentialSelectors(ctx.src) && PageAt(pages, ctx.src.url).Listing? {
      var st0 := ScanState(rs.articles, 0, 0, Scanning);
      var items := PageAt(pages, ctx.src.url).items;
      ScanGrows(ctx, items, st0);
      ScanCounts(ctx, items, st0);
      ScanStoresInWindow(ctx, items, st0);
    }
  }

  /** `last_scraped` is stamped with the run's time exactly for the sources
      from position `k` on that completed; every other entry is unchanged. */
  lemma {:induction false} IngestStamps(cfg: seq<SourceConfig>, k: nat, w: Window, resolve: (string, string) -> string,
                                        pages: map<string, Page>, now: int, rs: RunState)
    requires k <= |cfg|
    ensures var r := IngestFrom(cfg, k, w, resolve, pages, now, rs);
            |r.outcomes| == |rs.outcomes| + (|cfg| - k) &&
            forall id :: Lookup(r.lastScraped, id) ==
              if k < id <= |cfg| && r.outcomes[|rs.outcomes| + id - 1 - k].Completed? then Some(now)
              else Lookup(rs.lastScraped, id)
    decreases |cfg| - k
  {
    IngestOutcomes(cfg, k, w, resolve, pages, now, rs);
    if k < |cfg| {
      var ctx := SourceCtx(k + 1, cfg[k], w, resolve);
      var rs' := ScrapeSource(ctx, pages, now, rs);
      SourceStep(ctx, pages, now, rs);
      IngestStamps(cfg, k + 1, w, resolve, pages, now, rs');
      IngestOutcomes(cfg, k + 1, w, resolve, pages, now, rs');
    }
  }

  /** The whole run: it fails before doing anything exactly when the window
      start is not a representable date; otherwise every source gets one
      outcome, the total is the sum of the new counts, exactly the listings of
      the sources with their selectors are requested, and every new article
      lies in the window. */
  lemma FetchAndStoreSummary(cfg: seq<SourceConfig>, daysBack: int, today: Date, resolve: (string, string) -> string,
                             pages: map<string, Page>, now: int,
                             articles: map<string, Article>, lastScraped: map<int, int>)
    requires ValidDate(today)
    ensures var r := FetchAndStoreSpec(cfg, daysBack, today, resolve, pages, now, articles, lastScraped);
            && (r.None? <==> !(1 <= Ordinal(today) - daysBack <= MaxOrdinal))
            && (r.Some? ==>
                  && |r.value.outcomes| == |cfg|
                  && r.value.total == SumAdded(r.value.outcomes)
                  && r.value.fetched == EssentialUrls(cfg)
                  && Extends(articles, r.value.articles)
                  && (forall u :: u in r.value.articles && u !in articles ==>
                        && ValidDate(r.value.articles[u].published)
                        && Ordinal(today) - daysBack <= Ordinal(r.value.articles[u].published) <= Ordinal(today)))
  {
    var w := MakeWindow(today, daysBack);
    if w.Some? {
      var rs := RunState(articles, lastScraped, 0, [], []);
      IngestOutcomes(cfg, 0, w.value, resolve, pages, now, rs);
      IngestTotal(cfg, 0, w.value, resolve, pages, now, rs);
      IngestFetches(cfg, 0, w.value, resolve, pages, now, rs);
      IngestArticles(cfg, 0, w.value, resolve, pages, now, rs);
      var r := IngestFrom(cfg, 0, w.value, resolve, pages, now, rs);
      assert r.outcomes[0..] == r.outcomes;
      assert cfg[0..] == cfg;
    }
  }

  /** An item whose URL is already stored changes nothing, however old its
      date: already stored items are skipped before their date is read and
      never end the walk. */
  lemma {:induction false} KnownItemsAreSkipped(ctx: SourceCtx, items: seq<Item>, st: ScanState)
    requires st.halt.Scanning?
    requires forall i :: 0 <= i < |items| ==>
               items[i].Candidate? && UrlOf(ctx, items[i]).Some? && UrlOf(ctx, items[i]).value in st.stored
    ensures ScanItems(ctx, items, st) == st
    decreases |items|
  {
    if items != [] {
      assert Step(ctx, items[0], st) == st;
      KnownItemsAreSkipped(ctx, items[1..], st);
    }
  }

  /** The date an item carries, when it has a link and its date text parses. */
  function DateOf(ctx: SourceCtx, item: Item): (r: Option<Date>)
    ensures r.Some? ==> ValidDate(r.value)
  {
    if item.Candidate? && UrlOf(ctx, item).Some? then ParseDate(Some(DateTextOf(ctx.src, item))) else None
  }

  /** Every item links somewhere and has a parseable date, and the listing runs
      from the newest item to the oldest: the order `fetch_and_store` assumes
      when it stops at the first older item. */
  predicate NewestFirst(ctx: SourceCtx, items: seq<Item>)
    decreases |items|
  {
    items == [] ||
      (&& DateOf(ctx, items[0]).Some?
       && DatedNoLaterThan(ctx, items[1..], Ordinal(DateOf(ctx, items[0]).value))
       && NewestFirst(ctx, items[1..]))
  }

  /** Every item links somewhere and has a parseable date whose ordinal is at
      most `bound`. */
  predicate DatedNoLaterThan(ctx: SourceCtx, items: seq<Item>, bound: int)
    decreases |items|
  {
    items == [] ||
      (&& DateOf(ctx, items[0]).Some? && Ordinal(DateOf(ctx, items[0]).value) <= bound
       && DatedNoLaterThan(ctx, items[1..], bound))
  }

  /** The URLs of the items dated inside the window. */
  function InWindowUrls(ctx: SourceCtx, items: seq<Item>): set<string> {
    if items == [] then {}
    else
      var rest := InWindowUrls(ctx, items[1..]);
      match DateOf(ctx, items[0])
      case Some(d) => if InWindow(ctx.window, d) then {UrlOf(ctx, items[0]).value} + rest else rest
      case None => rest
  }

  lemma {:induction false} OlderListingHasNothingInWindow(ctx: SourceCtx, items: seq<Item>, bound: int)
    requires bound < ctx.window.first && DatedNoLaterThan(ctx, items, bound)
    ensures InWindowUrls(ctx, items) == {}
    decreases |items|
  {
    if items != [] {
      OlderListingHasNothingInWindow(ctx, items[1..], bound);
    }
  }

  /** One dated item: the walk either stops there, the item being older than
      the window and nothing stored, or adds the item's URL exactly when the
      item is dated inside the window. */
  lemma StepKeys(ctx: SourceCtx, item: Item, st: ScanState)
    requires st.halt.Scanning? && DateOf(ctx, item).Some?
    ensures var st' := Step(ctx, item, st);
            var d := DateOf(ctx, item).value;
            if st'.halt.Scanning? then
              st'.stored.Keys == st.stored.Keys + (if InWindow(ctx.window, d) then {UrlOf(ctx, item).value} else {})
            else
              st'.stored == st.stored && Ordinal(d) < ctx.window.first
  {
    var url, d := UrlOf(ctx, item).value, DateOf(ctx, item).value;
    assert ParseDate(Some(DateTextOf(ctx.src, item))) == Some(d);
    if url !in st.stored {
      assert Step(ctx, item, st) == Place(ctx, url, item, Some(d), st);
      PlaceKeys(ctx, url, item, d, st);
    }
  }

  /** A dated new item: stored when in the window, a stop when older. */
  lemma PlaceKeys(ctx: SourceCtx, url: string, item: Item, d: Date, st: ScanState)
    requires item.Candidate? && ValidDate(d) && st.halt.Scanning?
    ensures var st' := Place(ctx, url, item, Some(d), st);
            if st'.halt.Scanning? then
              st'.stored.Keys == st.stored.Keys + (if InWindow(ctx.window, d) then {url} else {})
            else
              st'.stored == st.stored && Ordinal(d) < ctx.window.first
  {
  }

  /** On a newest-first listing the early stop loses nothing: the walk ends
      with exactly the items dated inside the window stored (besides what was
      stored before), whether it stopped early or not. */
  lemma {:induction false} SortedListingStoresWindow(ctx: SourceCtx, items: seq<Item>, st: ScanState)
    requires st.halt.Scanning? && NewestFirst(ctx, items)
    ensures ScanItems(ctx, items, st).stored.Keys == st.stored.Keys + InWindowUrls(ctx, items)
    decreases |items|
  {
    if items != [] {
      var st', here := SortedHead(ctx, items, st);
      if st'.halt.Scanning? {
        SortedListingStoresWindow(ctx, items[1..], st');
      }
    }
  }

  /** The first item of a newest-first listing: the walk goes on with the rest
      having stored that item's URL if it is in the window, or it stops and
      the rest holds nothing in the window. */
  lemma SortedHead(ctx: SourceCtx, items: seq<Item>, st: ScanState) returns (st': ScanState, here: set<string>)
    requires st.halt.Scanning? && NewestFirst(ctx, items) && items != []
    ensures ScanItems(ctx, items, st) == ScanItems(ctx, items[1..], st')
    ensures InWindowUrls(ctx, items) == here + InWindowUrls(ctx, items[1..])
    ensures NewestFirst(ctx, items[1..])
    ensures st'.halt.Scanning? ==> st'.stored.Keys == st.stored.Keys + here
    ensures !st'.halt.Scanning? ==>
              here == {} && InWindowUrls(ctx, items[1..]) == {} && ScanItems(ctx, items[1..], st') == st'
              && st'.stored == st.stored
  {
    st' := Step(ctx, items[0], st);
    var d := DateOf(ctx, items[0]).value;
    here := if InWindow(ctx.window, d) then {UrlOf(ctx, items[0]).value} else {};
    StepKeys(ctx, items[0], st);
    if !st'.halt.Scanning? {
      OlderListingHasNothingInWindow(ctx, items[1..], Ordinal(d));
    }
  }
}
