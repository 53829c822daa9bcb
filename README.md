# News list search and test-article seeder, in Dafny

This project models the two pieces of logic of a small content site.

- **The article list page** (`client/src/pages/NewsListPage.tsx`) fetches every article and filters it in the browser with a substring search. A query matches an article when, lower-cased, it occurs in one of five texts, each also lower-cased: the localized title, the localized summary, the localized content, the tags joined with one space, and the raw `publishedAt` string. An empty query keeps everything. The page body is then in one of four states, checked in this order: a busy indicator while loading, "no articles yet", "no matches", or a grid of cards. A card has a banner, an author button, a summary and tag badges only when the article has the data for them.
- **The test-article seeder** (`server/create-test-article.ts`) draws an 8-symbol id from `a-z0-9`. It takes the author name from the developer row when that row has a non-empty `name_json`, and otherwise uses a built-in two-locale name. It derives the avatar URL from the author endpoint and puts one timestamp in `published_at`, `created_at` and `updated_at`.

Modules:

- `Text` (`text.dfy`): ASCII lower-casing. `Includes` is `String.prototype.includes`, proved equal to the reference meaning "occurs at some position". `Join` is `Array.prototype.join`.
- `NewsListPage` (`news_list_page.dfy`): the filter, its reference characterisation, the view states and the cards.
- `TestArticleSeeder` (`create_test_article.dfy`): the id generator as a loop, the author-name choice, the avatar URL and the row.
- `Wrappers` (`wrappers.dfy`): `Option` and `Result`.

The client helpers `getLocalizedValue` and `formatPublishedAt` are not part of this model. They are parameters of type `Localizer` and `DateFormatter`, and nothing is assumed about them. The seeder gets the developer lookup result, a `JSON.parse` stand-in (`None` where parsing throws), the random draws and the current time as parameters. It returns the row it would insert.

The filter is characterised against `KeptPositions`: the strictly increasing positions of exactly the articles that satisfy the matching rule. `FilterTakesKeptPositions` proves that the filter result is the input at those positions, in that order. So the result is an order-preserving subsequence with nothing added or duplicated, it is sound, and it is complete.

The model follows the code's truthiness tests in three places:
- The author name is reused only when the developer row's `name_json` is non-empty, not whenever a row exists.
- The banner slot needs a non-empty `bannerUrl`, not just a present one.
- The author button and the summary need a non-empty string, not just a present one.

## Model

| member | source | states |
|---|---|---|
| `Text.Includes` | client/src/pages/NewsListPage.tsx:32-36 | `includes` holds exactly when the needle occurs at some position of the haystack; the empty needle is always found |
| `Text.LowerChar` | client/src/pages/NewsListPage.tsx:24-29 | `toLowerCase` of one character: an upper-case ASCII letter moves to its lower-case letter (code point + 32), any other character is kept, and no upper-case letter comes out |
| `Text.Lower` | client/src/pages/NewsListPage.tsx:24-29 | `toLowerCase` of a string: same length, no upper-case letter left, every other character kept in place |
| `Text.Join` | client/src/pages/NewsListPage.tsx:28 | `tags.join(' ')`: no tags give the empty string, n tags carry n - 1 separators, and the first tag starts the result |
| `Text.JoinContainsPart` | client/src/pages/NewsListPage.tsx:28 | every tag occurs inside the space-joined tag string |
| `NewsListPage.SearchFields` | client/src/pages/NewsListPage.tsx:25-29 | the five searched texts: localized title, summary and content, the tags joined with one space, and the raw `publishedAt` |
| `NewsListPage.SearchFieldsHoldEveryTag` | client/src/pages/NewsListPage.tsx:28 | every tag lies inside the joined-tags search field |
| `NewsListPage.MatchesQuery` | client/src/pages/NewsListPage.tsx:22-37 | the matching rule: the empty query matches, and a query longer than every search field never matches |
| `NewsListPage.Keep` | client/src/pages/NewsListPage.tsx:22-37 | the filter predicate holds iff the query is empty or its lower-cased form is a substring of one of the five lower-cased search fields |
| `NewsListPage.FilterArticles` | client/src/pages/NewsListPage.tsx:21-38 | the result is no longer than the input, and every kept article comes from the input and satisfies the predicate |
| `NewsListPage.KeptPositions` | client/src/pages/NewsListPage.tsx:21-38 | reference definition: strictly increasing, in-range positions, and a position is listed iff the article there matches |
| `NewsListPage.FilterTakesKeptPositions` | client/src/pages/NewsListPage.tsx:21-38 | the filter result is exactly the input at the matching positions in increasing order, so order is kept and nothing is added, reordered or duplicated |
| `NewsListPage.FilterEmptySearchIsIdentity` | client/src/pages/NewsListPage.tsx:22 | the empty query returns the article sequence unchanged |
| `NewsListPage.FilterIsSound` | client/src/pages/NewsListPage.tsx:24-37 | every returned article satisfies the matching rule |
| `NewsListPage.FilterIsComplete` | client/src/pages/NewsListPage.tsx:21-38 | every input article that satisfies the matching rule is returned |
| `NewsListPage.KeepIgnoresCase` | client/src/pages/NewsListPage.tsx:24 | two queries with the same lower-cased form keep the same article |
| `NewsListPage.FilterIgnoresCase` | client/src/pages/NewsListPage.tsx:24 | two queries with the same lower-cased form give identical results |
| `NewsListPage.TagHitKeepsArticle` | client/src/pages/NewsListPage.tsx:28 | a query found in any single lower-cased tag keeps the article |
| `NewsListPage.TagsSearchedAsOneString` | client/src/pages/NewsListPage.tsx:28-35 | "test demo" keeps an article tagged ["test","demo"] even though neither tag contains it |
| `NewsListPage.NewsRoute` | client/src/pages/NewsListPage.tsx:96 | the card link is `/news/` followed by the article id, which can be read back from it |
| `NewsListPage.DeveloperRoute` | client/src/pages/NewsListPage.tsx:119 | the author button route is `/developers/` followed by the endpoint, which can be read back from it |
| `NewsListPage.CardFor` | client/src/pages/NewsListPage.tsx:88-153 | the card links to `/news/{id}`; banner iff `bannerUrl` is non-empty; author button iff `author.endpoint` is non-empty, targeting `/developers/{endpoint}`; summary iff the localized summary is non-empty; one badge per tag, in order |
| `NewsListPage.Render` | client/src/pages/NewsListPage.tsx:67-87 | loading wins; otherwise an absent or empty source gives "no articles"; otherwise an empty filter result gives "no matches"; otherwise one card per filtered article, in filtered order |
| `NewsListPage.GridShowsMatchingArticlesInOrder` | client/src/pages/NewsListPage.tsx:87-96 | card k of the grid is the card of the k-th matching source article and links to its page |
| `NewsListPage.TitleHitShowsCard` | client/src/pages/NewsListPage.tsx:25-32 | a title containing the query, in any letter case, puts its single article on the grid |
| `TestArticleSeeder.DrawIndex` | server/create-test-article.ts:7 | `floor(r * 36)` lies in 0..35 for 0 <= r < 1, so the alphabet lookup is in bounds |
| `TestArticleSeeder.IdFromDraws` | server/create-test-article.ts:3-10 | the id built from eight draws has 8 symbols, all from `a-z0-9` |
| `TestArticleSeeder.GenerateId8` | server/create-test-article.ts:3-10 | the loop returns the id specified by `IdFromDraws`: exactly 8 characters, each from the alphabet |
| `TestArticleSeeder.DrawFor` | server/create-test-article.ts:7 | every alphabet position is selected by some draw in [0,1) |
| `TestArticleSeeder.DrawsFor` | server/create-test-article.ts:3-10 | every 8-symbol id over the alphabet is produced by some valid draws |
| `TestArticleSeeder.IdCollisionNotExcluded` | server/create-test-article.ts:89-108 | an id already in the table can be generated again; no uniqueness is claimed |
| `TestArticleSeeder.AuthorName` | server/create-test-article.ts:24-39 | the JSON value parsed from `name_json`, whatever its shape, when a developer row has a non-empty `name_json` (an error when it does not parse), otherwise the built-in {ru, en} name |
| `TestArticleSeeder.AvatarUrl` | server/create-test-article.ts:87 | the avatar URL starts with `/api/staff/`, ends with `/photo/1`, and is as long as both plus the endpoint |
| `TestArticleSeeder.AvatarUrlRecoversEndpoint` | server/create-test-article.ts:87 | the endpoint can be read back from its avatar URL, between the fixed prefix and suffix |
| `TestArticleSeeder.AvatarUrlInjective` | server/create-test-article.ts:87 | different endpoints get different avatar URLs |
| `TestArticleSeeder.SeededAvatarUrl` | server/create-test-article.ts:87 | the seeded author's avatar is `/api/staff/ovcharenski/photo/1` |
| `TestArticleSeeder.BuildRow` | server/create-test-article.ts:95-108 | the row carries the given id, banner `/data/TEST.png`, endpoint `ovcharenski`, its avatar URL, tags ["test","demo"] in order, the chosen author name, and one timestamp in all three time columns |
| `TestArticleSeeder.CreateTestArticle` | server/create-test-article.ts:12-108 | fails exactly when the author name fails to parse; otherwise returns the row built from the drawn id, the time and the author name, and reads no stored id |
| `TestArticleSeeder.SeededArticleOnListPage` | server/create-test-article.ts:96-104 | the seeded article, listed, is kept by the query "Test Demo" through its joined tags, and its card has the banner, an author button to `/developers/ovcharenski`, a link to `/news/{id}` and the two badges |

## Left out

- Lower-casing is ASCII only (`A`-`Z`). Full Unicode `toLowerCase`, such as Cyrillic letters, is not modelled.
- `getLocalizedValue` and `formatPublishedAt` are uninterpreted parameters. Their locale fallback is not modelled.
- React, react-query, wouter and i18next plumbing is not modelled: `useState`, the fetch, `setLocation`, and `preventDefault`/`stopPropagation`. The model records the route the author button targets. It does not model event propagation between the button and the card link.
- Translation strings, CSS classes, `line-clamp` truncation and the `Badge`/`Loader2` components are presentational and are left out.
- A fetch error is modelled as absent data (`articles = None`), as the page treats it.
- `SeededArticleOnListPage`: the read endpoint that turns a stored row into an article is not part of this model. `Listed` assumes it copies each column into the article field of the same name, and that it keeps only the string-valued members of the author name.
- The seeder's I/O is not modelled: `migrate()`, the SQLite `prepare/get/run` calls and the `console.log` report. The developer lookup is a parameter, and the row is returned instead of inserted.
- `JSON.parse` is a parameter that returns a JSON value or fails. `JSON.stringify` is not modelled: each JSON column holds the value it would encode.
- AuthorName: a parsed JSON number is kept as its source text, not as a floating-point value. Any other JSON value a stored name parses to is kept as it is.
- `Math.random` is modelled by supplied draws in [0,1). The draws are exact reals: floating-point rounding of `r * 36` is not modelled.
- `new Date().toISOString()` is the parameter `nowIso`.
- The article type is reduced to the fields the list page reads. `createdAt` and `updatedAt` appear only in the seeded row.
