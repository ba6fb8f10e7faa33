/** The `articles` and `sources` tables as the scraper uses them: articles
    keyed by their unique URL, and the `last_scraped` stamp per source id. */
module ArticleStore {
  import opened Calendar

  datatype Article = Article(sourceId: int, title: string, subtitle: string, published: Date)

  /** `add_article`: the insert succeeds when the URL is new and is refused
      (`False`, nothing changes) when the UNIQUE constraint on the URL is
      violated. */
  function Insert(store: map<string, Article>, url: string, a: Article): (r: (bool, map<string, Article>))
    ensures r.0 <==> url !in store
    ensures url in r.1 && r.1[url] == (if r.0 then a else store[url])
    ensures r.1.Keys == store.Keys + {url}
    ensures forall u :: u in store && u != url ==> r.1[u] == store[u]
  {
    if url in store then (false, store) else (true, store[url := a])
  }

  class ArticleDb {
    var articles: map<string, Article>
    var lastScraped: map<int, int>

    constructor (articles: map<string, Article>, lastScraped: map<int, int>)
      ensures this.articles == articles && this.lastScraped == lastScraped
    {
      this.articles := articles;
      this.lastScraped := lastScraped;
    }

    /** `article_exists`. */
    method ArticleExists(url: string) returns (b: bool)
      ensures b <==> url in articles
    {
      b := url in articles;
    }

    /** `add_article`: insert, or report the conflict. */
    method AddArticle(url: string, a: Article) returns (inserted: bool)
      modifies this
      ensures (inserted, articles) == Insert(old(articles), url, a)
      ensures lastScraped == old(lastScraped)
    {
      inserted := url !in articles;
      if inserted {
        articles := articles[url := a];
      }
    }

    /** `UPDATE sources SET last_scraped = ? WHERE id = ?`. */
    method TouchSource(id: int, at: int)
      modifies this
      ensures lastScraped == old(lastScraped)[id := at] && articles == old(articles)
    {
      lastScraped := lastScraped[id := at];
    }
  }
}
