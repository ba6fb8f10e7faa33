/** The country page the frontend builds from the most recent articles: the
    update lines, and tags picked from a fixed list of immigration terms
    that occur in the articles' text. */
module CountryView {
  import opened Options
  import opened PyText

  /** The fields of an article the page reads; `subtitle` and `content` are
      optional in the API's article record. */
  datatype ArticleView = ArticleView(title: string, subtitle: Option<string>, content: Option<string>)

  const ImmigrationTerms: seq<string> := [
    "visa", "immigration", "policy", "brexit", "student", "work", "skilled",
    "family", "tier", "points", "sponsor", "application", "processing",
    "requirements", "changes", "announcement", "update", "guidance"]

  const TagLimit := 3
  const DefaultTags: seq<string> := ["Immigration", "Policy", "Updates"]
  const NoUpdates: seq<string> := [
    "No recent updates available",
    "Check back later for new immigration news",
    "System is monitoring for updates"]
  const LoadingUpdates: seq<string> := [
    "Loading recent updates...",
    "Connecting to immigration news sources",
    "Preparing latest policy information"]
  const LoadingTags: seq<string> := ["Loading", "Updates", "Policy"]

  /** `` `${title} ${subtitle || ''} ${content || ''}` ``. */
  function ArticleText(a: ArticleView): string {
    a.title + " " + a.subtitle.GetOr("") + " " + a.content.GetOr("")
  }

  /** `.join(' ')`. */
  function JoinSpace(parts: seq<string>): string {
    if parts == [] then ""
    else if |parts| == 1 then parts[0]
    else parts[0] + " " + JoinSpace(parts[1..])
  }

  function Texts(articles: seq<ArticleView>): (r: seq<string>)
    ensures |r| == |articles|
    ensures forall i :: 0 <= i < |articles| ==> r[i] == ArticleText(articles[i])
  {
    if articles == [] then [] else [ArticleText(articles[0])] + Texts(articles[1..])
  }

  /** The lower-cased text of all articles that the terms are looked up in. */
  function AllText(articles: seq<ArticleView>): string {
    Lower(JoinSpace(Texts(articles)))
  }

  /** `term` occurs in `text` starting at position `i`. */
  predicate OccursAt(text: string, term: string, i: int) {
    0 <= i <= |text| - |term| && text[i..i + |term|] == term
  }

  /** `text.includes(term)`. */
  predicate Contains(text: string, term: string) {
    exists i :: 0 <= i <= |text| - |term| && OccursAt(text, term, i)
  }

  /** `terms.filter(term => text.includes(term))`. */
  function FilterTerms(terms: seq<string>, text: string): (r: seq<string>)
    ensures |r| <= |terms|
    ensures forall t :: t in r <==> t in terms && Contains(text, t)
  {
    if terms == [] then []
    else (if Contains(text, terms[0]) then [terms[0]] else []) + FilterTerms(terms[1..], text)
  }

  /** `.slice(0, n)`. */
  function Take<T>(xs: seq<T>, n: nat): (r: seq<T>)
    ensures |r| == if |xs| < n then |xs| else n
    ensures r == xs[..|r|]
  {
    if |xs| < n then xs else xs[..n]
  }

  /** `extractTagsFromArticles`: the first three listed terms that occur in
      the text, or the default tags when none does. */
  function ExtractTags(articles: seq<ArticleView>): (r: seq<string>)
    ensures 1 <= |r| <= TagLimit
  {
    var found := Take(FilterTerms(ImmigrationTerms, AllText(articles)), TagLimit);
    if |found| > 0 then found else DefaultTags
  }

  datatype CountryData = CountryData(id: string, name: string, updates: seq<string>, tags: seq<string>)

  /** `getUKCountryData`: `recent` is the body of `/articles/recent?limit=3`,
      `None` when the request fails or its status is not OK. */
  function UKCountryData(recent: Option<seq<ArticleView>>): (r: CountryData)
    ensures r.id == "uk" && r.name == "United Kingdom"
    ensures |r.updates| > 0 && |r.tags| > 0
  {
    match recent
    case None => CountryData("uk", "United Kingdom", LoadingUpdates, LoadingTags)
    case Some(articles) =>
      var updates := seq(|articles|, i requires 0 <= i < |articles| => articles[i].title);
      var tags := ExtractTags(articles);
      CountryData("uk", "United Kingdom",
        if |updates| > 0 then updates else NoUpdates,
        if |tags| > 0 then tags else DefaultTags)
  }

  /** `getCountryData`: only `"uk"` has data. */
  function GetCountryData(countryId: string, recent: Option<seq<ArticleView>>): (r: Option<CountryData>)
    ensures r.Some? <==> countryId == "uk"
    ensures r.Some? ==> r.value.id == countryId && r.value == UKCountryData(recent)
  {
    if countryId == "uk" then Some(UKCountryData(recent)) else None
  }
}

/** What the tags and updates of the country page are. */
module CountryViewFacts {
  import opened Options
  import opened PyText
  import opened CountryView

  predicate NoSpace(s: string) {
    ' ' !in s
  }

  /** `xs` is `ys` with some elements left out, in the same order. */
  predicate IsSubsequence<T(==)>(xs: seq<T>, ys: seq<T>) {
    if xs == [] then true
    else if ys == [] then false
    else (xs[0] == ys[0] && IsSubsequence(xs[1..], ys[1..])) || IsSubsequence(xs, ys[1..])
  }

  /** Filtering keeps the terms' order. */
  lemma {:induction false} FilterTermsInOrder(terms: seq<string>, text: string)
    ensures IsSubsequence(FilterTerms(terms, text), terms)
  {
    if terms != [] {
      FilterTermsInOrder(terms[1..], text);
      var rest := FilterTerms(terms[1..], text);
      if Contains(text, terms[0]) {
        assert FilterTerms(terms, text) == [terms[0]] + rest;
        assert ([terms[0]] + rest)[1..] == rest;
      } else {
        assert FilterTerms(terms, text) == rest;
        SubsequenceOfTail(rest, terms);
      }
    }
  }

  lemma {:induction false} SubsequenceOfTail<T>(xs: seq<T>, ys: seq<T>)
    requires ys != [] && IsSubsequence(xs, ys[1..])
    ensures IsSubsequence(xs, ys)
  {
  }

  /** The tags keep the list's order, and no occurring term is passed over
      for a later one: a term that occurs is a tag whenever a term listed
      after it is. */
  lemma ExtractTagsOrder(articles: seq<ArticleView>)
    ensures (exists u :: u in ImmigrationTerms && Contains(AllText(articles), u)) ==>
              IsSubsequence(ExtractTags(articles), ImmigrationTerms)
    ensures forall i, j :: (0 <= i < j < |ImmigrationTerms| && ImmigrationTerms[j] in ExtractTags(articles)
                            && Contains(AllText(articles), ImmigrationTerms[i])) ==> ImmigrationTerms[i] in ExtractTags(articles)
  {
    var text := AllText(articles);
    var found := FilterTerms(ImmigrationTerms, text);
    if exists u :: u in ImmigrationTerms && Contains(text, u) {
      var u :| u in ImmigrationTerms && Contains(text, u);
      assert u in found;
      FilterTermsInOrder(ImmigrationTerms, text);
      PrefixSubsequence(found, ImmigrationTerms, |Take(found, TagLimit)|);
    }
    forall i, j | (0 <= i < j < |ImmigrationTerms| && ImmigrationTerms[j] in ExtractTags(articles)
                   && Contains(text, ImmigrationTerms[i]))
      ensures ImmigrationTerms[i] in ExtractTags(articles)
    {
      assert ImmigrationTerms[i] in found;
      TermsDistinct(j);
      EarlierTermKept(ImmigrationTerms, text, TagLimit, i, j);
    }
  }

  /** Filtering then taking a prefix: a term found before one that is kept
      is kept too, provided the later one is not listed twice. */
  lemma EarlierTermKept(terms: seq<string>, text: string, n: nat, i: int, j: int)
    requires 0 <= i < j < |terms| && Contains(text, terms[i]) && terms[j] !in terms[..j]
    requires terms[j] in Take(FilterTerms(terms, text), n)
    ensures terms[i] in Take(FilterTerms(terms, text), n)
  {
    var before, after := FilterTerms(terms[..j], text), FilterTerms(terms[j..], text);
    SplitAt(terms, j);
    FilterAppend(terms[..j], terms[j..], text);
    var found := before + after;
    var tags := Take(found, n);
    assert tags == found[..|tags|];
    var p :| 0 <= p < |tags| && tags[p] == terms[j];
    assert terms[..j][i] == terms[i];
    assert terms[i] in before;
    var q :| 0 <= q < |before| && before[q] == terms[i];
    assert tags[q] == found[q];
  }

  lemma SplitAt<T>(s: seq<T>, j: int)
    requires 0 <= j <= |s|
    ensures s[..j] + s[j..] == s
  {
  }

  /** Every listed term appears once. */
  lemma TermsDistinct(j: int)
    requires 0 <= j < |ImmigrationTerms|
    ensures ImmigrationTerms[j] !in ImmigrationTerms[..j]
  {
    var t := ImmigrationTerms;
    forall k | 0 <= k < j
      ensures t[k] != t[j]
    {
      assert |t[k]| != |t[j]| || t[k][0] != t[j][0] || t[k][1] != t[j][1] || t[k][2] != t[j][2];
    }
  }

  lemma {:induction false} FilterAppend(a: seq<string>, b: seq<string>, text: string)
    ensures FilterTerms(a + b, text) == FilterTerms(a, text) + FilterTerms(b, text)
  {
    if a != [] {
      assert (a + b)[1..] == a[1..] + b;
      FilterAppend(a[1..], b, text);
    } else {
      assert a + b == b;
    }
  }

  lemma {:induction false} PrefixSubsequence<T>(xs: seq<T>, ys: seq<T>, n: nat)
    requires n <= |xs| && IsSubsequence(xs, ys)
    ensures IsSubsequence(xs[..n], ys)
    decreases |ys|
  {
    if n > 0 && ys != [] {
      if xs[0] == ys[0] && IsSubsequence(xs[1..], ys[1..]) {
        PrefixSubsequence(xs[1..], ys[1..], n - 1);
        assert xs[..n][1..] == xs[1..][..n - 1];
      } else {
        PrefixSubsequence(xs, ys[1..], n);
      }
    }
  }

  /** A tag that is not a default is a listed term found in the text, and a
      found term missing from the tags means three tags were found first. */
  lemma ExtractTagsSoundComplete(articles: seq<ArticleView>, t: string)
    ensures (exists u :: u in ImmigrationTerms && Contains(AllText(articles), u)) ==>
              (t in ExtractTags(articles) ==> t in ImmigrationTerms && Contains(AllText(articles), t))
    ensures t in ImmigrationTerms && Contains(AllText(articles), t) && t !in ExtractTags(articles) ==>
              |ExtractTags(articles)| == TagLimit
    ensures ExtractTags(articles) == DefaultTags <==> forall u :: u in ImmigrationTerms ==> !Contains(AllText(articles), u)
  {
    var found := FilterTerms(ImmigrationTerms, AllText(articles));
    if found != [] {
      assert "immigration" != "Immigration";
      assert found[0] in ImmigrationTerms;
      assert ExtractTags(articles)[0] == found[0];
      assert found[0] != "Immigration";
    }
  }

  /** The fallback for tags in `getUKCountryData` is never taken. */
  lemma UKCountryDataTags(articles: seq<ArticleView>)
    ensures UKCountryData(Some(articles)).tags == ExtractTags(articles)
  {
  }

  /** The updates are the article titles in order, or the placeholder lines
      when there are no articles. */
  lemma UKCountryDataUpdates(articles: seq<ArticleView>)
    ensures articles != [] ==> |UKCountryData(Some(articles)).updates| == |articles|
                                && forall i :: 0 <= i < |articles| ==> UKCountryData(Some(articles)).updates[i] == articles[i].title
    ensures articles == [] ==> UKCountryData(Some(articles)).updates == NoUpdates
  {
  }

  /** When the request fails the page shows the loading placeholders, and a
      page built from a response never shows the loading tags. */
  lemma FailedRequestFallback(articles: seq<ArticleView>)
    ensures UKCountryData(None).updates == LoadingUpdates && UKCountryData(None).tags == LoadingTags
    ensures UKCountryData(Some(articles)).tags != LoadingTags
  {
    UKCountryDataTags(articles);
    LoadingTagsNeverExtracted(articles);
  }

  lemma LoadingTagsNeverExtracted(articles: seq<ArticleView>)
    ensures ExtractTags(articles) != LoadingTags
  {
    ExtractTagsSoundComplete(articles, "Loading");
  }

  /** No article, no term: the tags are the defaults. */
  lemma NoArticlesDefaultTags()
    ensures ExtractTags([]) == DefaultTags
  {
    TermsHaveNoSpace();
    assert AllText([]) == [];
    EmptyTextMatchesNothing(ImmigrationTerms);
  }

  lemma {:induction false} EmptyTextMatchesNothing(terms: seq<string>)
    requires forall t :: t in terms ==> t != []
    ensures FilterTerms(terms, []) == []
  {
    if terms != [] {
      assert forall t :: t in terms[1..] ==> t in terms;
      EmptyTextMatchesNothing(terms[1..]);
    }
  }

  lemma LowerAppend(a: string, b: string)
    ensures Lower(a + b) == Lower(a) + Lower(b)
    ensures Lower(" ") == " "
  {
    LowerAt(a + b);
    LowerAt(a);
    LowerAt(b);
    assert forall i :: 0 <= i < |a + b| ==> (a + b)[i] == if i < |a| then a[i] else b[i - |a|];
  }

  /** A term without spaces occurs in two texts joined by a space exactly
      when it occurs in one of them. */
  lemma ContainsAcrossSpace(a: string, b: string, term: string)
    requires NoSpace(term) && term != []
    ensures Contains(a + " " + b, term) <==> Contains(a, term) || Contains(b, term)
  {
    if Contains(a + " " + b, term) {
      ContainsSplit(a, b, term);
    }
    if Contains(a, term) {
      ContainsLeft(a, b, term);
    }
    if Contains(b, term) {
      ContainsRight(a, b, term);
    }
  }

  lemma ContainsSplit(a: string, b: string, term: string)
    requires NoSpace(term) && term != [] && Contains(a + " " + b, term)
    ensures Contains(a, term) || Contains(b, term)
  {
    var s := a + " " + b;
    var i :| 0 <= i <= |s| - |term| && OccursAt(s, term, i);
    NoSpaceInOccurrence(s, term, i);
    assert s[|a|] == ' ';
    if i + |term| <= |a| {
      assert a[i..i + |term|] == s[i..i + |term|];
      assert OccursAt(a, term, i);
    } else {
      assert i > |a|;
      assert b[i - |a| - 1..i - |a| - 1 + |term|] == s[i..i + |term|];
      assert OccursAt(b, term, i - |a| - 1);
    }
  }

  lemma NoSpaceInOccurrence(s: string, term: string, i: int)
    requires NoSpace(term) && OccursAt(s, term, i)
    ensures forall k :: i <= k < i + |term| ==> s[k] != ' '
  {
    forall k | i <= k < i + |term|
      ensures s[k] != ' '
    {
      assert s[k] == s[i..i + |term|][k - i] == term[k - i];
    }
  }

  lemma ContainsLeft(a: string, b: string, term: string)
    requires Contains(a, term)
    ensures Contains(a + " " + b, term)
  {
    var s := a + " " + b;
    var i :| 0 <= i <= |a| - |term| && OccursAt(a, term, i);
    assert s[i..i + |term|] == a[i..i + |term|];
    assert OccursAt(s, term, i);
  }

  lemma ContainsRight(a: string, b: string, term: string)
    requires Contains(b, term)
    ensures Contains(a + " " + b, term)
  {
    var s := a + " " + b;
    var i :| 0 <= i <= |b| - |term| && OccursAt(b, term, i);
    var j := i + |a| + 1;
    assert s[j..j + |term|] == b[i..i + |term|];
    assert OccursAt(s, term, j);
  }

  /** A term occurs in one article's text exactly when it occurs in its
      lower-cased title, subtitle or content. */
  lemma ContainsInArticle(a: ArticleView, term: string)
    requires NoSpace(term) && term != []
    ensures Contains(Lower(ArticleText(a)), term) <==>
              Contains(Lower(a.title), term) || Contains(Lower(a.subtitle.GetOr("")), term)
              || Contains(Lower(a.content.GetOr("")), term)
  {
    var t, s, c := a.title, a.subtitle.GetOr(""), a.content.GetOr("");
    var left := t + " " + s;
    assert ArticleText(a) == left + " " + c;
    assert Lower(left + " " + c) == Lower(left) + " " + Lower(c) by {
      LowerAppend(left + " ", c);
      LowerAppend(left, " ");
    }
    assert Lower(left) == Lower(t) + " " + Lower(s) by {
      LowerAppend(t + " ", s);
      LowerAppend(t, " ");
    }
    ContainsAcrossSpace(Lower(left), Lower(c), term);
    ContainsAcrossSpace(Lower(t), Lower(s), term);
  }

  /** A term occurs in the combined text exactly when it occurs in some
      article: joining never makes a match across two articles. */
  lemma {:induction false} ContainsInSomeArticle(articles: seq<ArticleView>, term: string)
    requires NoSpace(term) && term != []
    ensures Contains(AllText(articles), term) <==> exists k :: 0 <= k < |articles| && Contains(Lower(ArticleText(articles[k])), term)
  {
    if articles == [] {
      assert AllText(articles) == [];
    } else if |articles| == 1 {
      assert Texts(articles) == [ArticleText(articles[0])];
    } else {
      ContainsInSomeArticle(articles[1..], term);
      var head := ArticleText(articles[0]);
      assert Texts(articles)[1..] == Texts(articles[1..]);
      assert JoinSpace(Texts(articles)) == head + " " + JoinSpace(Texts(articles[1..]));
      LowerAppend(head + " ", JoinSpace(Texts(articles[1..])));
      LowerAppend(head, " ");
      assert Lower(" ") == " ";
      ContainsAcrossSpace(Lower(head), AllText(articles[1..]), term);
      forall k | 1 <= k < |articles|
        ensures articles[k] == articles[1..][k - 1]
      {
      }
    }
  }

  /** Every listed term is a lower-case word without spaces. */
  lemma TermsHaveNoSpace()
    ensures forall t :: t in ImmigrationTerms ==> NoSpace(t) && t != []
  {
    forall i | 0 <= i < |ImmigrationTerms| ensures NoSpace(ImmigrationTerms[i]) && ImmigrationTerms[i] != [] {
      var t := ImmigrationTerms[i];
      assert t != [] && ' ' !in t;
    }
  }
}
