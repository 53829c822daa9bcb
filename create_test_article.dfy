/**
  The maintenance script that seeds one test article: the 8-symbol random id
  and the assembly of the row it inserts.

  The store, the developer lookup, `JSON.parse`/`JSON.stringify`, the clock and
  `Math.random` are not part of this model: the lookup result, a parser, the
  current time and the random draws are parameters, and the row is returned
  rather than inserted.
*/
module TestArticleSeeder {
  import opened Wrappers
  import opened Text
  import NewsListPage

  /**
    A JSON value as `JSON.parse` returns it. A number is kept as its source
    text; its floating-point value plays no part here.
  */
  datatype JsonValue =
    | JsonNull
    | JsonBool(b: bool)
    | JsonNumber(text: string)
    | JsonString(s: string)
    | JsonArray(items: seq<JsonValue>)
    | JsonObject(members: map<string, JsonValue>)

  /** `JSON.parse` of a stored author name; `None` where it would throw. */
  type NameParser = string -> Option<JsonValue>

  // ---------------------------------------------------------------------------
  // generateId8
  // ---------------------------------------------------------------------------

  const Alphabet: string := "abcdefghijklmnopqrstuvwxyz0123456789"
  const IdLength: nat := 8

  /** Values `Math.random()` can return. */
  predicate ValidDraws(draws: seq<real>)
  {
    forall i :: 0 <= i < |draws| ==> 0.0 <= draws[i] < 1.0
  }

  /** `Math.floor(r * alphabet.length)`: always a position of the alphabet. */
  function DrawIndex(r: real): (k: nat)
    requires 0.0 <= r < 1.0
    ensures k < |Alphabet|
  {
    (r * |Alphabet| as real).Floor
  }

  /** An id of the generated shape: 8 symbols of the alphabet. */
  predicate IsGeneratedId(id: string)
  {
    |id| == IdLength && forall i :: 0 <= i < |id| ==> id[i] in Alphabet
  }

  /** The id the generator builds from its draws: symbol i comes from draw i. */
  function IdFromDraws(draws: seq<real>): (id: string)
    requires |draws| == IdLength && ValidDraws(draws)
    ensures IsGeneratedId(id)
  {
    seq(IdLength, i requires 0 <= i < IdLength => Alphabet[DrawIndex(draws[i])])
  }

  /** `generateId8`: eight rounds, each appending one alphabet symbol. */
  method GenerateId8(draws: seq<real>) returns (id: string)
    requires |draws| == IdLength && ValidDraws(draws)
    ensures id == IdFromDraws(draws)
    ensures |id| == IdLength && forall k :: 0 <= k < |id| ==> id[k] in Alphabet
  {
    id := "";
    for i := 0 to IdLength
      invariant |id| == i
      invariant forall k :: 0 <= k < i ==> id[k] == Alphabet[DrawIndex(draws[k])]
    {
      id := id + [Alphabet[DrawIndex(draws[i])]];
    }
  }

  /** The position of a symbol in a string that holds it. */
  function IndexOf(s: string, c: char): (k: nat)
    requires c in s
    ensures k < |s| && s[k] == c
  {
    if s[0] == c then 0 else 1 + IndexOf(s[1..], c)
  }

  /**
    Draws that make the generator produce a given id. Since every id of the
    generated shape has such draws, nothing keeps the generator from producing
    an id that is already stored.
  */
  function DrawsFor(id: string): (draws: seq<real>)
    requires IsGeneratedId(id)
    ensures |draws| == IdLength && ValidDraws(draws)
    ensures IdFromDraws(draws) == id
  {
    var draws := seq(IdLength, i requires 0 <= i < IdLength => DrawFor(IndexOf(Alphabet, id[i])));
    assert forall i :: 0 <= i < IdLength ==> Alphabet[DrawIndex(draws[i])] == id[i];
    draws
  }

  /** A draw that selects alphabet position `k`. */
  function DrawFor(k: nat): (r: real)
    requires k < |Alphabet|
    ensures 0.0 <= r < 1.0 && DrawIndex(r) == k
  {
    k as real / |Alphabet| as real
  }

  // ---------------------------------------------------------------------------
  // The inserted row
  // ---------------------------------------------------------------------------

  const Endpoint: string := "ovcharenski"
  const BannerUrl: string := "/data/TEST.png"
  const Tags: seq<string> := ["test", "demo"]

  const DefaultAuthorName: JsonValue :=
    JsonObject(map["ru" := JsonString("Овчаренко Михаил"), "en" := JsonString("Ovcharenko Michael")])

  const TestTitle: NewsListPage.LocalizedText := map["ru" := "Тестовая статья", "en" := "Test article"]

  const TestSummary: NewsListPage.LocalizedText := map[
    "ru" := "Краткое описание тестовой статьи для проверки верстки и контента.",
    "en" := "Short test article used to verify layout and content rendering."]

  /** The two markdown texts, each being its lines joined with "\n". */
  const TestContent: NewsListPage.LocalizedText := map[
    "ru" := "# Привет из тестовой статьи\n\nЭто **markdown**‑контент с ссылками, кодом и списками.\n\n"
            + "[Markdown Live Preview](https://markdownlivepreview.com/)\n\n```ts\n"
            + "console.log('hello from test article');\n```\n\n"
            + "- Проверка отображения заголовка\n- Проверка отображения списков\n"
            + "- Проверка баннера `/data/TEST.png`",
    "en" := "# Hello from test article\n\nThis is **markdown** content with links, code blocks and lists.\n\n"
            + "[Markdown Live Preview](https://markdownlivepreview.com/)\n\n```ts\n"
            + "console.log('hello from test article');\n```\n\n"
            + "- Check heading rendering\n- Check list rendering\n"
            + "- Check banner `/data/TEST.png`"]

  /** The developer row found for the endpoint, if any; `name_json` may be missing. */
  datatype DeveloperRow = DeveloperRow(nameJson: Option<string>)

  datatype SeedError = MalformedAuthorName(json: string)

  /** A row of the `news` table; the locale-keyed columns hold the values they encode. */
  datatype NewsRow = NewsRow(
    id: string,
    title: NewsListPage.LocalizedText,
    summary: NewsListPage.LocalizedText,
    content: NewsListPage.LocalizedText,
    bannerUrl: string,
    authorEndpoint: string,
    authorName: JsonValue,
    authorAvatarUrl: string,
    tags: seq<string>,
    publishedAt: string,
    createdAt: string,
    updatedAt: string)

  /**
    The author name: the parsed `name_json` of the developer row when there is
    a row with a non-empty `name_json`, else the built-in two-locale name. A
    `name_json` that does not parse stops the script.
  */
  function AuthorName(devRow: Option<DeveloperRow>, parse: NameParser): (r: Result<JsonValue, SeedError>)
    ensures devRow.None? || devRow.value.nameJson.None? || devRow.value.nameJson.value == "" ==>
              r == Success(DefaultAuthorName)
    ensures devRow.Some? && devRow.value.nameJson.Some? && devRow.value.nameJson.value != "" ==>
              var json := devRow.value.nameJson.value;
              (r.Success? <==> parse(json).Some?) &&
              (r.Success? ==> r.value == parse(json).value) &&
              (r.Failure? ==> r.error == MalformedAuthorName(json))
  {
    match devRow
    case Some(DeveloperRow(Some(json))) =>
      if json == "" then Success(DefaultAuthorName)
      else
        (match parse(json)
         case Some(name) => Success(name)
         case None => Failure(MalformedAuthorName(json)))
    case _ => Success(DefaultAuthorName)
  }

  const AvatarPrefix: string := "/api/staff/"
  const AvatarSuffix: string := "/photo/1"

  /** The avatar URL of an author: photo 1 of the staff endpoint. */
  function AvatarUrl(endpoint: string): (url: string)
    ensures |url| == |AvatarPrefix| + |endpoint| + |AvatarSuffix|
    ensures url[..|AvatarPrefix|] == AvatarPrefix
    ensures url[|url| - |AvatarSuffix|..] == AvatarSuffix
  {
    AvatarPrefix + endpoint + AvatarSuffix
  }

  /** The endpoint can be read back from its avatar URL: it is what lies between the fixed prefix and suffix. */
  lemma AvatarUrlRecoversEndpoint(endpoint: string)
    ensures var url := AvatarUrl(endpoint);
            url[|AvatarPrefix|..|url| - |AvatarSuffix|] == endpoint
  {
    var url := AvatarUrl(endpoint);
    assert url == AvatarPrefix + (endpoint + AvatarSuffix);
  }

  /** Different endpoints never share an avatar URL. */
  lemma AvatarUrlInjective(e1: string, e2: string)
    requires AvatarUrl(e1) == AvatarUrl(e2)
    ensures e1 == e2
  {
    AvatarUrlRecoversEndpoint(e1);
    AvatarUrlRecoversEndpoint(e2);
  }

  /** The seeded author's avatar. */
  lemma SeededAvatarUrl()
    ensures AvatarUrl(Endpoint) == "/api/staff/ovcharenski/photo/1"
  {
  }

  /** The row `main` inserts, for a given id, time and author name. */
  function BuildRow(id: string, nowIso: string, authorName: JsonValue): (row: NewsRow)
    ensures row.id == id
    ensures row.publishedAt == nowIso && row.createdAt == nowIso && row.updatedAt == nowIso
    ensures row.bannerUrl == "/data/TEST.png"
    ensures row.authorEndpoint == "ovcharenski"
    ensures row.authorAvatarUrl == AvatarUrl(row.authorEndpoint)
    ensures row.tags == ["test", "demo"]
    ensures row.authorName == authorName
    ensures row.title == TestTitle && row.summary == TestSummary && row.content == TestContent
  {
    NewsRow(id, TestTitle, TestSummary, TestContent, BannerUrl, Endpoint, authorName,
            AvatarUrl(Endpoint), Tags, nowIso, nowIso, nowIso)
  }

  /**
    `main`: choose the author name, generate the id, take the time once and
    build the row. No stored id is consulted.
  */
  method CreateTestArticle(devRow: Option<DeveloperRow>, parse: NameParser, draws: seq<real>, nowIso: string)
    returns (r: Result<NewsRow, SeedError>)
    requires |draws| == IdLength && ValidDraws(draws)
    ensures r.Success? <==> AuthorName(devRow, parse).Success?
    ensures r.Success? ==> r.value == BuildRow(IdFromDraws(draws), nowIso, AuthorName(devRow, parse).value)
    ensures r.Success? ==> IsGeneratedId(r.value.id)
    ensures r.Failure? ==> r.error == AuthorName(devRow, parse).error
  {
    var name := AuthorName(devRow, parse);
    if name.Failure? {
      return Failure(name.error);
    }
    var id := GenerateId8(draws);
    r := Success(BuildRow(id, nowIso, name.value));
  }

  /**
    Any id of the generated shape, in particular one already in the table, is
    the id of some run: the script does not guarantee a fresh id.
  */
  lemma IdCollisionNotExcluded(existing: string, nowIso: string, authorName: JsonValue)
    requires IsGeneratedId(existing)
    ensures var draws := DrawsFor(existing);
            ValidDraws(draws) && BuildRow(IdFromDraws(draws), nowIso, authorName).id == existing
  {
  }

  // ---------------------------------------------------------------------------
  // The seeded article on the list page
  // ---------------------------------------------------------------------------

  /** The string-valued members of a JSON object, as a locale-keyed text. */
  function StringMembers(v: JsonValue): NewsListPage.LocalizedText
  {
    match v
    case JsonObject(members) => map k | k in members && members[k].JsonString? :: members[k].s
    case _ => map[]
  }

  /** The article the read endpoint serves for a row. */
  function Listed(row: NewsRow): NewsListPage.Article
  {
    NewsListPage.Article(row.id, row.title, row.summary, row.content, Some(row.bannerUrl),
                         Some(NewsListPage.Author(row.authorEndpoint, StringMembers(row.authorName))),
                         row.tags, row.publishedAt)
  }

  /**
    A seeded article is found by the query "Test Demo" through its joined tags,
    whatever the locale, and its card has the banner, an author button to
    "/developers/ovcharenski" and the two tag badges.
  */
  lemma SeededArticleOnListPage(
    id: string, nowIso: string, authorName: JsonValue,
    lang: string, localize: NewsListPage.Localizer, format: NewsListPage.DateFormatter)
    ensures var a := Listed(BuildRow(id, nowIso, authorName));
            NewsListPage.Keep(a, "Test Demo", lang, localize) &&
            var c := NewsListPage.CardFor(a, lang, localize, format);
            c.banner == Some(NewsListPage.Banner("/data/TEST.png", localize(TestTitle, lang))) &&
            c.author == Some(NewsListPage.AuthorLink("ovcharenski", "/developers/ovcharenski")) &&
            c.href == "/news/" + id &&
            c.badges == ["test", "demo"]
  {
    var a := Listed(BuildRow(id, nowIso, authorName));
    SeededArticleKept(a, lang, localize);
    SeededArticleCard(a, id, lang, localize, format);
  }

  lemma SeededArticleKept(a: NewsListPage.Article, lang: string, localize: NewsListPage.Localizer)
    requires a.tags == Tags
    ensures NewsListPage.Keep(a, "Test Demo", lang, localize)
  {
    NewsListPage.TagsSearchedAsOneString(a, lang, localize);
    var q, lq := "Test Demo", "test demo";
    forall i | 0 <= i < |q| ensures Lower(q)[i] == Lower(lq)[i] {
      assert LowerChar(q[i]) == lq[i] == LowerChar(lq[i]);
    }
    NewsListPage.KeepIgnoresCase(a, q, lq, lang, localize);
  }

  lemma SeededArticleCard(
    a: NewsListPage.Article, id: string,
    lang: string, localize: NewsListPage.Localizer, format: NewsListPage.DateFormatter)
    requires a.id == id && a.title == TestTitle && a.tags == Tags
    requires a.bannerUrl == Some(BannerUrl) && a.author.Some? && a.author.value.endpoint == Endpoint
    ensures var c := NewsListPage.CardFor(a, lang, localize, format);
            c.banner == Some(NewsListPage.Banner("/data/TEST.png", localize(TestTitle, lang))) &&
            c.author == Some(NewsListPage.AuthorLink("ovcharenski", "/developers/ovcharenski")) &&
            c.href == "/news/" + id &&
            c.badges == ["test", "demo"]
  {
    var c := NewsListPage.CardFor(a, lang, localize, format);
    assert c.badges == ["test", "demo"];
    assert NewsListPage.DeveloperRoute(Endpoint) == "/developers/ovcharenski";
  }
}
