/**
  The article list page: the client-side search filter over the fetched
  articles, the choice of what the page shows (busy indicator, "no articles
  yet", "no matches", or the card grid) and the optional parts of each card.

  The localisation and date-formatting helpers of the client are not part of
  this model; they are taken as parameters about which nothing is assumed.
*/
module NewsListPage {
  import opened Wrappers
  import opened Text

  /** A locale-keyed text, e.g. {"ru": ..., "en": ...}. */
  type LocalizedText = map<string, string>

  /** `getLocalizedValue(record, language)` of the client library. */
  type Localizer = (LocalizedText, string) -> string

  /** `formatPublishedAt(iso, language)` of the client library. */
  type DateFormatter = (string, string) -> string

  datatype Author = Author(endpoint: string, name: LocalizedText)

  /** An article as delivered by the read endpoint, in the fields the page uses. */
  datatype Article = Article(
    id: string,
    title: LocalizedText,
    summary: LocalizedText,
    content: LocalizedText,
    bannerUrl: Option<string>,
    author: Option<Author>,
    tags: seq<string>,
    publishedAt: string)

  // ---------------------------------------------------------------------------
  // The search filter
  // ---------------------------------------------------------------------------

  /**
    The five texts a query is looked up in, before lower-casing: the localized
    title, summary and content, the tags joined with one space (so every tag
    lies inside the fourth field) and the raw publication date.
  */
  function SearchFields(a: Article, lang: string, localize: Localizer): (fs: seq<string>)
    ensures |fs| == 5
    ensures fs[0] == localize(a.title, lang) && fs[1] == localize(a.summary, lang)
    ensures fs[2] == localize(a.content, lang) && fs[4] == a.publishedAt
    ensures fs[3] == Join(a.tags, " ")
  {
    [ localize(a.title, lang), localize(a.summary, lang), localize(a.content, lang),
      Join(a.tags, " "), a.publishedAt ]
  }

  /** Every tag lies inside the fourth search field. */
  lemma SearchFieldsHoldEveryTag(a: Article, lang: string, localize: Localizer, j: nat)
    requires j < |a.tags|
    ensures ContainsText(SearchFields(a, lang, localize)[3], a.tags[j])
  {
    JoinContainsPart(a.tags, " ", j);
  }

  /**
    The matching rule: the empty query matches every article; otherwise the
    lower-cased query must be a substring of one of the lower-cased search fields.
  */
  ghost predicate MatchesQuery(a: Article, search: string, lang: string, localize: Localizer): (m: bool)
    ensures search == "" ==> m
    ensures (forall f :: f in SearchFields(a, lang, localize) ==> |f| < |search|) ==> !m
  {
    search == "" ||
    exists f :: f in SearchFields(a, lang, localize) && ContainsText(Lower(f), Lower(search))
  }

  /** The predicate passed to `articles.filter`. */
  function Keep(a: Article, search: string, lang: string, localize: Localizer): (keep: bool)
    ensures keep <==> MatchesQuery(a, search, lang, localize)
  {
    if search == "" then true
    else
      var q := Lower(search);
      var fs := SearchFields(a, lang, localize);
      assert forall k :: 0 <= k < 5 ==> fs[k] in fs;
      Includes(Lower(localize(a.title, lang)), q) ||
      Includes(Lower(localize(a.summary, lang)), q) ||
      Includes(Lower(localize(a.content, lang)), q) ||
      Includes(Lower(Join(a.tags, " ")), q) ||
      Includes(Lower(a.publishedAt), q)
  }

  /** `filteredArticles`: `Array.filter` with `Keep`. */
  function FilterArticles(articles: seq<Article>, search: string, lang: string, localize: Localizer)
    : (r: seq<Article>)
    ensures |r| <= |articles|
    ensures forall a :: a in r ==> a in articles && Keep(a, search, lang, localize)
  {
    if articles == [] then []
    else
      var rest := FilterArticles(articles[1..], search, lang, localize);
      if Keep(articles[0], search, lang, localize) then [articles[0]] + rest else rest
  }

  /** Every position moved up by one: the positions in a sequence after its head is put back. */
  function Shifted(p: seq<nat>): (s: seq<nat>)
    ensures |s| == |p| && forall k :: 0 <= k < |p| ==> s[k] == p[k] + 1
  {
    seq(|p|, k requires 0 <= k < |p| => p[k] + 1)
  }

  lemma ShiftedMembership(p: seq<nat>, i: int)
    ensures i in Shifted(p) <==> i >= 1 && i - 1 in p
  {
    if i >= 1 && i - 1 in p {
      var k :| 0 <= k < |p| && p[k] == i - 1;
      assert Shifted(p)[k] == i;
    }
  }

  /**
    The positions of the matching articles, in increasing order: the reference
    against which the filter is characterised.
  */
  function KeptPositions(articles: seq<Article>, search: string, lang: string, localize: Localizer)
    : (p: seq<nat>)
    ensures forall k :: 0 <= k < |p| ==> p[k] < |articles|
    ensures forall k, l :: 0 <= k < l < |p| ==> p[k] < p[l]
    ensures forall i :: 0 <= i < |articles| ==> (i in p <==> Keep(articles[i], search, lang, localize))
    decreases |articles|
  {
    if articles == [] then []
    else
      var rest := KeptPositions(articles[1..], search, lang, localize);
      var shifted := Shifted(rest);
      assert forall i :: 0 <= i < |articles| ==> (i in shifted <==> i >= 1 && i - 1 in rest) by {
        forall i | 0 <= i < |articles| ensures i in shifted <==> i >= 1 && i - 1 in rest {
          ShiftedMembership(rest, i);
        }
      }
      assert forall i :: 1 <= i < |articles| ==> articles[i] == articles[1..][i - 1];
      if Keep(articles[0], search, lang, localize) then [0] + shifted else shifted
  }

  /**
    The filter result is exactly the articles at the matching positions, in
    increasing position order: nothing reordered, added, dropped or duplicated.
  */
  lemma {:induction false} FilterTakesKeptPositions(
    articles: seq<Article>, search: string, lang: string, localize: Localizer)
    ensures var r, p := FilterArticles(articles, search, lang, localize),
                        KeptPositions(articles, search, lang, localize);
            |r| == |p| && forall k :: 0 <= k < |p| ==> r[k] == articles[p[k]]
    decreases |articles|
  {
    if articles != [] {
      var tail := articles[1..];
      FilterTakesKeptPositions(tail, search, lang, localize);
      var rt, pt := FilterArticles(tail, search, lang, localize), KeptPositions(tail, search, lang, localize);
      var shifted := Shifted(pt);
      var r, p := FilterArticles(articles, search, lang, localize), KeptPositions(articles, search, lang, localize);
      if Keep(articles[0], search, lang, localize) {
        assert r == [articles[0]] + rt;
        assert p == [0] + shifted;
        forall k | 0 <= k < |p| ensures r[k] == articles[p[k]] {
          if k > 0 {
            assert r[k] == rt[k - 1] && p[k] == pt[k - 1] + 1;
          }
        }
      } else {
        assert r == rt;
        assert p == shifted;
        forall k | 0 <= k < |p| ensures r[k] == articles[p[k]] {
          assert r[k] == rt[k] && p[k] == pt[k] + 1;
        }
      }
    }
  }

  /** The empty query keeps the article sequence unchanged. */
  lemma {:induction false} FilterEmptySearchIsIdentity(articles: seq<Article>, lang: string, localize: Localizer)
    ensures FilterArticles(articles, "", lang, localize) == articles
    decreases |articles|
  {
    if articles != [] {
      FilterEmptySearchIsIdentity(articles[1..], lang, localize);
    }
  }

  /** Every article in the result satisfies the matching rule. */
  lemma FilterIsSound(articles: seq<Article>, search: string, lang: string, localize: Localizer)
    ensures forall a :: a in FilterArticles(articles, search, lang, localize) ==>
              MatchesQuery(a, search, lang, localize)
  {
  }

  /** Every input article that satisfies the matching rule is in the result. */
  lemma FilterIsComplete(articles: seq<Article>, search: string, lang: string, localize: Localizer, i: nat)
    requires i < |articles| && MatchesQuery(articles[i], search, lang, localize)
    ensures articles[i] in FilterArticles(articles, search, lang, localize)
  {
    FilterTakesKeptPositions(articles, search, lang, localize);
    var p := KeptPositions(articles, search, lang, localize);
    var k :| 0 <= k < |p| && p[k] == i;
    assert FilterArticles(articles, search, lang, localize)[k] == articles[i];
  }

  /** Two queries with the same lower-cased form keep the same articles. */
  lemma KeepIgnoresCase(a: Article, s1: string, s2: string, lang: string, localize: Localizer)
    requires Lower(s1) == Lower(s2)
    ensures Keep(a, s1, lang, localize) == Keep(a, s2, lang, localize)
  {
    assert |s1| == |Lower(s1)| == |s2|;
  }

  /** Two queries with the same lower-cased form select the same articles. */
  lemma {:induction false} FilterIgnoresCase(
    articles: seq<Article>, s1: string, s2: string, lang: string, localize: Localizer)
    requires Lower(s1) == Lower(s2)
    ensures FilterArticles(articles, s1, lang, localize) == FilterArticles(articles, s2, lang, localize)
    decreases |articles|
  {
    if articles != [] {
      KeepIgnoresCase(articles[0], s1, s2, lang, localize);
      FilterIgnoresCase(articles[1..], s1, s2, lang, localize);
    }
  }

  /** A query found inside any single tag keeps the article. */
  lemma TagHitKeepsArticle(a: Article, search: string, lang: string, localize: Localizer, j: nat)
    requires j < |a.tags| && ContainsText(Lower(a.tags[j]), Lower(search))
    ensures Keep(a, search, lang, localize)
  {
    var joined := Join(a.tags, " ");
    JoinContainsPart(a.tags, " ", j);
    LowerKeepsContains(joined, a.tags[j]);
    ContainsTransitive(Lower(joined), Lower(a.tags[j]), Lower(search));
    assert joined in SearchFields(a, lang, localize);
  }

  /**
    Tags are searched as one space-joined string: "test demo" keeps an article
    tagged ["test", "demo"] although neither tag contains it.
  */
  lemma TagsSearchedAsOneString(a: Article, lang: string, localize: Localizer)
    requires a.tags == ["test", "demo"]
    ensures Keep(a, "test demo", lang, localize)
    ensures forall t :: t in a.tags ==> !ContainsText(Lower(t), Lower("test demo"))
  {
    assert Join(a.tags, " ") == "test demo";
    assert Lower("test demo") == "test demo";
    assert OccursAt(Lower(Join(a.tags, " ")), Lower("test demo"), 0);
    assert Join(a.tags, " ") in SearchFields(a, lang, localize);
  }

  // ---------------------------------------------------------------------------
  // What the page shows
  // ---------------------------------------------------------------------------

  datatype Banner = Banner(src: string, alt: string)

  /** The author button: its caption and the route it navigates to. */
  datatype AuthorLink = AuthorLink(caption: string, route: string)

  /** One card of the grid; `None` and `[]` are the slots that are not rendered. */
  datatype Card = Card(
    key: string,
    href: string,
    banner: Option<Banner>,
    author: Option<AuthorLink>,
    published: string,
    title: string,
    summary: Option<string>,
    badges: seq<string>)

  /** The four mutually exclusive states of the page body. */
  datatype View = Loading | NoArticles | NoMatches | Grid(cards: seq<Card>)

  /** The detail route of an article; the id is everything after the fixed prefix. */
  function NewsRoute(id: string): (route: string)
    ensures |route| == |"/news/"| + |id|
    ensures route[..|"/news/"|] == "/news/" && route[|"/news/"|..] == id
  {
    "/news/" + id
  }

  /** The profile route of a developer; the endpoint is everything after the fixed prefix. */
  function DeveloperRoute(endpoint: string): (route: string)
    ensures |route| == |"/developers/"| + |endpoint|
    ensures route[..|"/developers/"|] == "/developers/" && route[|"/developers/"|..] == endpoint
  {
    "/developers/" + endpoint
  }

  /** The card of one article. */
  function CardFor(a: Article, lang: string, localize: Localizer, format: DateFormatter): (c: Card)
    ensures c.key == a.id && c.href == NewsRoute(a.id)
    ensures c.banner.Some? <==> a.bannerUrl.Some? && a.bannerUrl.value != ""
    ensures c.banner.Some? ==> c.banner.value == Banner(a.bannerUrl.value, c.title)
    ensures c.author.Some? <==> a.author.Some? && a.author.value.endpoint != ""
    ensures c.author.Some? ==>
              c.author.value == AuthorLink(a.author.value.endpoint, DeveloperRoute(a.author.value.endpoint))
    ensures c.title == localize(a.title, lang)
    ensures c.published == format(a.publishedAt, lang)
    ensures c.summary.Some? <==> localize(a.summary, lang) != ""
    ensures c.summary.Some? ==> c.summary.value == localize(a.summary, lang)
    ensures |c.badges| == |a.tags| && forall k :: 0 <= k < |a.tags| ==> c.badges[k] == a.tags[k]
  {
    var title := localize(a.title, lang);
    var summary := localize(a.summary, lang);
    var banner := match a.bannerUrl
      case Some(url) => if url != "" then Some(Banner(url, title)) else None
      case None => None;
    var author := match a.author
      case Some(au) => if au.endpoint != "" then Some(AuthorLink(au.endpoint, DeveloperRoute(au.endpoint))) else None
      case None => None;
    Card(a.id, NewsRoute(a.id), banner, author, format(a.publishedAt, lang), title,
         if summary != "" then Some(summary) else None, a.tags)
  }

  /** The page body for the query state (`isLoading`, `data`) and the search box. */
  function Render(
    isLoading: bool, articles: Option<seq<Article>>, search: string,
    lang: string, localize: Localizer, format: DateFormatter): (v: View)
    ensures v.Loading? <==> isLoading
    ensures v.NoArticles? <==> !isLoading && (articles.None? || articles.value == [])
    ensures v.NoMatches? <==>
              !isLoading && articles.Some? && articles.value != [] &&
              FilterArticles(articles.value, search, lang, localize) == []
    ensures v.Grid? ==>
              articles.Some? &&
              var f := FilterArticles(articles.value, search, lang, localize);
              0 < |v.cards| == |f| &&
              forall k :: 0 <= k < |f| ==> v.cards[k] == CardFor(f[k], lang, localize, format)
  {
    if isLoading then Loading
    else if articles.None? || |articles.value| == 0 then NoArticles
    else
      var f := FilterArticles(articles.value, search, lang, localize);
      if |f| == 0 then NoMatches
      else Grid(seq(|f|, k requires 0 <= k < |f| => CardFor(f[k], lang, localize, format)))
  }

  /**
    In the grid, card k is the card of the k-th matching article of the source,
    and it links to that article's page.
  */
  lemma GridShowsMatchingArticlesInOrder(
    isLoading: bool, articles: Option<seq<Article>>, search: string,
    lang: string, localize: Localizer, format: DateFormatter)
    requires Render(isLoading, articles, search, lang, localize, format).Grid?
    ensures var cards := Render(isLoading, articles, search, lang, localize, format).cards;
            var p := KeptPositions(articles.value, search, lang, localize);
            |cards| == |p| &&
            forall k :: 0 <= k < |p| ==>
              cards[k] == CardFor(articles.value[p[k]], lang, localize, format) &&
              cards[k].href == NewsRoute(articles.value[p[k]].id)
  {
    FilterTakesKeptPositions(articles.value, search, lang, localize);
  }

  /** A title containing the query, in any letter case, puts its article on the grid. */
  lemma TitleHitShowsCard(a: Article, search: string, lang: string, localize: Localizer, format: DateFormatter)
    requires ContainsText(Lower(localize(a.title, lang)), Lower(search))
    ensures Render(false, Some([a]), search, lang, localize, format) ==
            Grid([CardFor(a, lang, localize, format)])
  {
    assert localize(a.title, lang) in SearchFields(a, lang, localize);
    assert Keep(a, search, lang, localize);
    assert [a][1..] == [];
  }
}
