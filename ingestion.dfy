/** `fetch_and_store` of the backend scraper: for every configured source with
    its essential selectors, fetch the listing and walk its items in order,
    storing the unseen ones whose date falls in the window and stopping at the
    first unseen one that is older. The walk is specified by `ScanItems` and
    the whole run by `FetchAndStoreSpec`; the methods are proved against them. */
module Ingestion {
  import opened Options
  import opened Calendar
  import opened DateParser
  import opened Sources
  import opened ArticleStore

  /** The inclusive window [today - days_back, today], as day ordinals. */
  datatype Window = Window(first: int, last: int)

  /** `end_date - timedelta(days=days_back)`: `None` where that subtraction
      raises `OverflowError`, its result lying outside the years 1 to 9999. */
  function MakeWindow(today: Date, daysBack: int): (r: Option<Window>)
    requires ValidDate(today)
    ensures r.Some? <==> 1 <= Ordinal(today) - daysBack <= MaxOrdinal
    ensures r.Some? ==> r.value == Window(Ordinal(today) - daysBack, Ordinal(today))
  {
    var last := Ordinal(today);
    if 1 <= last - daysBack <= MaxOrdinal then Some(Window(last - daysBack, last)) else None
  }

  predicate InWindow(w: Window, d: Date)
    requires ValidDate(d)
  {
    w.first <= Ordinal(d) <= w.last
  }

  /** What the walk over one source's items needs: the source's 1-based
      position (used as its id), its configuration, the window, and `urljoin`. */
  datatype SourceCtx = SourceCtx(id: int, src: SourceConfig, window: Window, resolve: (string, string) -> string)

  /** `ReachedOlder` is the early `break`; `Failed` an exception that ends the
      source. */
  datatype Halt = Scanning | ReachedOlder | Failed

  datatype ScanState = ScanState(stored: map<string, Article>, inRange: nat, added: nat, halt: Halt)

  /** The URL an item links to, when it has a link. */
  function UrlOf(ctx: SourceCtx, item: Item): Option<string>
    requires item.Candidate?
  {
    match LinkOf(item)
    case None => None
    case Some(href) => Some(ctx.resolve(ctx.src.url, href))
  }

  /** One iteration of the item loop. */
  function Step(ctx: SourceCtx, item: Item, st: ScanState): ScanState {
    match item
    case Malformed => st.(halt := Failed)
    case Candidate(_, _, _, _) =>
      match UrlOf(ctx, item)
      case None => st
      case Some(url) =>
        if url in st.stored then st
        else Place(ctx, url, item, ParseDate(Some(DateTextOf(ctx.src, item))), st)
  }

  /** The rest of an iteration for a new URL, given the parsed date: store it
      when it lies in the window, stop at an older one, skip it otherwise. */
  function Place(ctx: SourceCtx, url: string, item: Item, published: Option<Date>, st: ScanState): ScanState
    requires item.Candidate? && (published.Some? ==> ValidDate(published.value))
  {
    match published
    case None => st
    case Some(d) =>
      if InWindow(ctx.window, d) then
        var a := Article(ctx.id, TitleOf(item), SubtitleOf(ctx.src, item), d);
        var (ok, stored) := Insert(st.stored, url, a);
        st.(stored := stored, inRange := st.inRange + 1, added := st.added + if ok then 1 else 0)
      else if Ordinal(d) < ctx.window.first then st.(halt := ReachedOlder)
      else st
  }

  /** The item loop from state `st`: one `Step` per item until the items run
      out or the loop halts. */
  function ScanItems(ctx: SourceCtx, items: seq<Item>, st: ScanState): ScanState
    decreases |items|
  {
    if items == [] || !st.halt.Scanning? then st
    else ScanItems(ctx, items[1..], Step(ctx, items[0], st))
  }

  /** How one source ended. */
  datatype Outcome =
    | Skipped                                 // essential selectors missing: not fetched
    | Unreachable                             // the request failed
    | Aborted(inRange: nat, added: nat)       // an exception while walking the items
    | Completed(inRange: nat, added: nat)

  datatype RunState = RunState(
    articles: map<string, Article>,
    lastScraped: map<int, int>,
    total: nat,
    fetched: seq<string>,
    outcomes: seq<Outcome>)

  /** One iteration of the source loop. */
  function ScrapeSource(ctx: SourceCtx, pages: map<string, Page>, now: int, rs: RunState): RunState {
    if !HasEssentialSelectors(ctx.src) then rs.(outcomes := rs.outcomes + [Skipped])
    else
      var fetched := rs.fetched + [ctx.src.url];
      match PageAt(pages, ctx.src.url)
      case FetchFailed => rs.(fetched := fetched, outcomes := rs.outcomes + [Unreachable])
      case Listing(items) =>
        var st := ScanItems(ctx, items, ScanState(rs.articles, 0, 0, Scanning));
        if st.halt == Failed then
          rs.(articles := st.stored, total := rs.total + st.added, fetched := fetched,
              outcomes := rs.outcomes + [Aborted(st.inRange, st.added)])
        else
          rs.(articles := st.stored, lastScraped := rs.lastScraped[ctx.id := now],
              total := rs.total + st.added, fetched := fetched,
              outcomes := rs.outcomes + [Completed(st.inRange, st.added)])
  }

  /** The source loop from position `k` (0-based) of the configuration on. */
  function IngestFrom(cfg: seq<SourceConfig>, k: nat, w: Window, resolve: (string, string) -> string,
                      pages: map<string, Page>, now: int, rs: RunState): RunState
    decreases |cfg| - k
  {
    if k >= |cfg| then rs
    else IngestFrom(cfg, k + 1, w, resolve, pages, now,
                    ScrapeSource(SourceCtx(k + 1, cfg[k], w, resolve), pages, now, rs))
  }

  /** `fetch_and_store(days_back)`, with today's date and the current time as
      parameters: `None` when the window cannot be computed. The source raises
      there after reading its configuration and initialising the database,
      but before any listing is fetched or any modelled row changes. */
  function FetchAndStoreSpec(cfg: seq<SourceConfig>, daysBack: int, today: Date, resolve: (string, string) -> string,
                             pages: map<string, Page>, now: int,
                             articles: map<string, Article>, lastScraped: map<int, int>): Option<RunState>
    requires ValidDate(today)
  {
    match MakeWindow(today, daysBack)
    case None => None
    case Some(w) => Some(IngestFrom(cfg, 0, w, resolve, pages, now, RunState(articles, lastScraped, 0, [], [])))
  }

  /** One item of the loop, on the database. */
  method ScrapeItem(ctx: SourceCtx, item: Item, db: ArticleDb, inRange0: nat, added0: nat)
    returns (inRange: nat, added: nat, halt: Halt)
    modifies db
    ensures ScanState(db.articles, inRange, added, halt)
            == Step(ctx, item, ScanState(old(db.articles), inRange0, added0, Scanning))
    ensures db.lastScraped == old(db.lastScraped)
  {
    inRange, added, halt := inRange0, added0, Scanning;
    if item.Malformed? {
      halt := Failed;
      return;
    }
    var link := LinkOf(item);
    if link.None? {
      return;
    }
    var url := ctx.resolve(ctx.src.url, link.value);
    var known := db.ArticleExists(url);
    if known {
      return;
    }
    var published := ParseDate(Some(DateTextOf(ctx.src, item)));
    inRange, added, halt := StoreDated(ctx, url, item, published, db, inRange0, added0);
  }

  /** `Place` on the database. */
  method StoreDated(ctx: SourceCtx, url: string, item: Item, published: Option<Date>, db: ArticleDb,
                    inRange0: nat, added0: nat) returns (inRange: nat, added: nat, halt: Halt)
    requires item.Candidate? && (published.Some? ==> ValidDate(published.value))
    modifies db
    ensures ScanState(db.articles, inRange, added, halt)
            == Place(ctx, url, item, published, ScanState(old(db.articles), inRange0, added0, Scanning))
    ensures db.lastScraped == old(db.lastScraped)
  {
    inRange, added, halt := inRange0, added0, Scanning;
    if published.None? {
      return;
    }
    var d := published.value;
    if ctx.window.first <= Ordinal(d) <= ctx.window.last {
      inRange := inRange + 1;
      var a := Article(ctx.id, TitleOf(item), SubtitleOf(ctx.src, item), d);
      var ok := db.AddArticle(url, a);
      if ok {
        added := added + 1;
      }
    } else if Ordinal(d) < ctx.window.first {
      halt := ReachedOlder;
    }
  }

  /** The item loop of one source, on the database. */
  method ScrapeItems(ctx: SourceCtx, items: seq<Item>, db: ArticleDb) returns (inRange: nat, added: nat, halt: Halt)
    modifies db
    ensures ScanState(db.articles, inRange, added, halt)
            == ScanItems(ctx, items, ScanState(old(db.articles), 0, 0, Scanning))
    ensures db.lastScraped == old(db.lastScraped)
  {
    inRange, added, halt := 0, 0, Scanning;
    var i := 0;
    while i < |items| && halt.Scanning?
      invariant 0 <= i <= |items|
      invariant ScanItems(ctx, items[i..], ScanState(db.articles, inRange, added, halt))
                == ScanItems(ctx, items, ScanState(old(db.articles), 0, 0, Scanning))
      invariant db.lastScraped == old(db.lastScraped)
    {
      assert items[i..][0] == items[i] && items[i..][1..] == items[i + 1..];
      inRange, added, halt := ScrapeItem(ctx, items[i], db, inRange, added);
      i := i + 1;
    }
  }

  /** What the method reports; the database and the request log carry the
      rest. */
  datatype RunReport = WindowOverflow | Finished(total: nat, outcomes: seq<Outcome>)

  /** `fetch_and_store`: the source loop over the web and the database. */
  method FetchAndStore(cfg: seq<SourceConfig>, daysBack: int, today: Date, now: int,
                       resolve: (string, string) -> string, web: Web, db: ArticleDb) returns (r: RunReport)
    requires ValidDate(today)
    modifies web, db
    ensures var spec := FetchAndStoreSpec(cfg, daysBack, today, resolve, old(web.pages), now,
                                          old(db.articles), old(db.lastScraped));
            match spec
            case None =>
              r == WindowOverflow && db.articles == old(db.articles)
              && db.lastScraped == old(db.lastScraped) && web.requested == old(web.requested)
            case Some(rs) =>
              r == Finished(rs.total, rs.outcomes) && db.articles == rs.articles
              && db.lastScraped == rs.lastScraped && web.requested == old(web.requested) + rs.fetched
    ensures web.pages == old(web.pages)
  {
    var w := MakeWindow(today, daysBack);
    if w.None? {
      return WindowOverflow;
    }
    var total: nat := 0;
    var outcomes: seq<Outcome> := [];
    ghost var fetched: seq<string> := [];
    ghost var start := RunState(old(db.articles), old(db.lastScraped), 0, [], []);
    var k := 0;
    while k < |cfg|
      invariant 0 <= k <= |cfg|
      invariant web.pages == old(web.pages) && web.requested == old(web.requested) + fetched
      invariant IngestFrom(cfg, k, w.value, resolve, old(web.pages), now,
                           RunState(db.articles, db.lastScraped, total, fetched, outcomes))
                == IngestFrom(cfg, 0, w.value, resolve, old(web.pages), now, start)
    {
      ghost var before := RunState(db.articles, db.lastScraped, total, fetched, outcomes);
      var ctx := SourceCtx(k + 1, cfg[k], w.value, resolve);
      if !HasEssentialSelectors(cfg[k]) {
        outcomes := outcomes + [Skipped];
      } else {
        var page := web.Get(cfg[k].url);
        fetched := fetched + [cfg[k].url];
        if page.FetchFailed? {
          outcomes := outcomes + [Unreachable];
        } else {
          var inRange, added, halt := ScrapeItems(ctx, page.items, db);
          total := total + added;
          if halt == Failed {
            outcomes := outcomes + [Aborted(inRange, added)];
          } else {
            db.TouchSource(k + 1, now);
            outcomes := outcomes + [Completed(inRange, added)];
          }
        }
      }
      assert RunState(db.articles, db.lastScraped, total, fetched, outcomes)
             == ScrapeSource(ctx, old(web.pages), now, before);
      k := k + 1;
    }
    r := Finished(total, outcomes);
  }
}
