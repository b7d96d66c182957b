# PatternCurator front end: search, filters, rendering and the interpret route

PatternCurator is a Next.js site for browsing a library of fashion pattern
assets and trend boards stored in Supabase. This project is a Dafny model of
the logic in that front end:

- the three listing pages build database queries from the URL. They tokenise
  the free-text query, detect a menswear/womenswear intent and assemble
  `eq`/`ilike`/`or` filters. The search page also re-ranks the fetched
  candidates with a 40/30/20/10 field score and a stable sort, then keeps the
  top nine;
- the result grids turn rows into cards. They build the public storage URLs,
  the two-word titles and the report-type line;
- the `/api/interpret` route validates a board or asset request, compacts the
  assets and strips Markdown fences from the model's reply. It then coerces
  the parsed JSON into the response envelope and picks the error reply for
  each failure;
- the two interpretation panels build the request they post and decide when
  to post it.

The model is functional. A filter is data (`Filters.Condition`): `Eq`,
`ILike` or `Or(text)`. The `or` text is the same comma/dot string the pages
write. A reader, `Filters.ReadOrFilter`, parses it back, so the model can
state which clauses the database receives.

The route takes three things as parameters:

- whether the credential is set;
- the model call's outcome, as `InterpretRoute.Completion`;
- `JSON.parse`, as a function `string -> Option<Json>`.

Shared modules model the JavaScript semantics the pages rely on:

- `Text` covers ECMAScript whitespace, `trim`, `split`, `join`, case mapping,
  `includes` and first-occurrence `replace`;
- `Json` covers `?.`, `??`, truthiness and `String()`;
- `PercentEncoding` covers UTF-8 and `encodeURIComponent`, with its decoder;
- `PublicUrls` covers the shared shape of the three public-URL helpers.

## Model

| member | source | states |
|---|---|---|
| Tokenizer.Tokenize | src/app/page.tsx:5-12 | every token is non-empty and made only of `a-z`, `0-9` and apostrophes; there are no tokens exactly when the normalised text has no such character |
| Tokenizer.TokensContent | src/app/page.tsx:5-12 | the tokens, put together, are exactly the normalised text's characters with the blanks removed, in order |
| Tokenizer.TokenizeOfJoin | src/app/page.tsx:5-12 | any list of non-empty words made of `a-z`, `0-9` and apostrophes, joined with single spaces, tokenises back to that same list |
| Tokenizer.NoTokensIff | src/app/search/page.tsx:5-12 | a query has no tokens iff none of its characters survives lower-casing and normalisation |
| Tokenizer.PunctuationOnlyHasNoTokens | src/app/page.tsx:5-12 | a query of ASCII blanks and punctuation other than the apostrophe gives no tokens |
| Tokenizer.TokenizeStable | src/app/page.tsx:5-12 | tokenising the space-joined tokens gives the same tokens back |
| Tokenizer.QuoteClassesDiffer | src/app/trend/page.tsx:8 | the trend page's mis-encoded class maps `â` to an apostrophe and blanks the right single quote; the other pages do the opposite |
| Tokenizer.DetectDomain | src/app/page.tsx:14-34 | menswear iff a menswear word is a term; womenswear iff a womenswear word is a term and no menswear word is; otherwise none |
| Tokenizer.MenswearWinsTie | src/app/page.tsx:31-33 | a query naming both "women" and "men" is treated as menswear |
| Filters.Wrap | src/app/page.tsx:70 | the `%t%` pattern is the value between two `%` signs |
| Filters.QueryText | src/app/page.tsx:41-42 | the `(q ?? "").trim()` text is trimmed and empty for a missing parameter |
| Filters.QueryTextOfPresent | src/app/page.tsx:41-42 | a present parameter's text is that parameter trimmed, and a parameter with no outer whitespace is kept unchanged |
| Filters.OrConditions | src/app/page.tsx:66-75 | an `or` filter is added exactly when there are terms, and at most one |
| Filters.ReadOrText | src/app/page.tsx:67-72 | the or-text, split on commas and dots, reads back as one `field ilike %t%` clause per term and field, term by term |
| Filters.ExpectedLength | src/app/page.tsx:67-72 | the or-filter carries \|fields\| × \|terms\| clauses |
| Filters.TokensPlain | src/app/page.tsx:9 | tokens contain neither commas nor dots, so they cannot break the or-text's syntax |
| Filters.OrFilterPart | src/app/search/page.tsx:34-43 | appending the text filter to filters with no `or` gives an `or` filter iff there are terms, and it reads back as the expected clauses |
| LibraryPage.DomainConditions | src/app/page.tsx:54-62 | at most one `ilike` on `domain`: `%menswear%` for menswear, `%womenswear%` for womenswear, none otherwise |
| LibraryPage.QueryFor | src/app/page.tsx:49 | the library query reads `assets`, all columns, at most nine rows, and begins with `status = ready` |
| LibraryPage.LibraryConditions | src/app/page.tsx:49-75 | the filters are exactly the ready filter, the detected domain filter and the text filter |
| LibraryPage.LibraryDomainFilter | src/app/page.tsx:46-62 | the menswear filter is present iff the terms mention a menswear word; the womenswear filter iff they mention a womenswear word and no menswear word; nothing else but the ready and text filters |
| LibraryPage.LibraryTextFilter | src/app/page.tsx:66-75 | a text filter is present iff the query has tokens, and it matches each token in title, direction, color notes and print notes (4 clauses per token) |
| LibraryPage.BlankQueryIsUnfiltered | src/app/page.tsx:46-77 | a query of blanks and punctuation leaves only the ready filter |
| SearchPage.SearchQuery | src/app/search/page.tsx:30-46 | the candidate query reads `assets`, all columns, at most 80 rows, and begins with `status = ready` |
| SearchPage.SearchQueryMeaning | src/app/search/page.tsx:28-43 | no domain filter at all; a text filter iff the query has tokens, matching domain, direction, color notes and print notes (4 clauses per token) |
| SearchPage.ContainsIff | src/app/search/page.tsx:14-17 | a field contains a token iff it is present, non-empty and its lower-case form has the token at some offset |
| SearchPage.EmptyFieldContainsNothing | src/app/search/page.tsx:15 | an empty or missing field contains nothing, not even the empty token |
| SearchPage.TokenScore | src/app/search/page.tsx:54-59 | one token scores at most 100, and 0 iff no scored field contains it |
| SearchPage.ScoreByField | src/app/search/page.tsx:54-59 | the score is 40, 30, 20 and 10 times the number of terms found in domain, direction, color notes and print notes |
| SearchPage.ScoreBounds | src/app/search/page.tsx:50-62 | a score is a multiple of ten and at most 100 per term |
| SearchPage.ScoreAppend | src/app/search/page.tsx:54-59 | the score over two lists of terms is the sum of the two scores |
| SearchPage.WeightsAreAdditive | src/app/search/page.tsx:55-57 | a domain match (40) ranks below a direction plus color match (50) |
| SearchPage.Sort | src/app/search/page.tsx:63 | sorting keeps the entries (as a multiset) and leaves them ordered by score, then by position |
| SearchPage.RankedIsStableSort | src/app/search/page.tsx:50-63 | the ranking is a permutation of the scored rows, scores non-increasing, and rows with equal scores keep their fetch order |
| SearchPage.SearchResults | src/app/search/page.tsx:65 | at most nine rows are shown, nine when there are that many candidates |
| SearchPage.SearchResultsTop | src/app/search/page.tsx:50-65 | each shown row is the ranked row at that place, and no unshown row scores higher than a shown one |
| SearchPage.SortOfOrdered | src/app/search/page.tsx:63 | an already ordered list is left as it is |
| SearchPage.NoTermsKeepsFetchOrder | src/app/search/page.tsx:50-65 | with no terms every score is 0 and the first nine fetched rows are shown in fetch order |
| TrendPage.Pill | src/app/trend/page.tsx:40-43 | a pill filter is added iff its trimmed parameter is non-empty, as `ilike` on its column with the wrapped value |
| TrendPage.PillConditions | src/app/trend/page.tsx:40-43 | the pill filters are exactly the four per-column pills, all `ilike` |
| TrendPage.ColumnOfInjective | src/app/trend/page.tsx:40-43 | the four pills filter four different columns |
| TrendPage.TrendQuery | src/app/trend/page.tsx:34-37 | the query as written reads `boards` and selects the ten listed columns, without `report_type`; it takes at most 24 rows and its first filter is `status = ready` |
| TrendPage.TrendQueryCorrected | src/app/trend/page.tsx:34-57 | the corrected query has the same table, filters and limit as the query as written, and adds `report_type` to the selected columns |
| TrendPage.TrendConditions | src/app/trend/page.tsx:34-55 | the filters are exactly the ready filter, the pills and the text filter |
| TrendPage.TrendPills | src/app/trend/page.tsx:40-43 | a column has an `ilike` iff its pill is set; that `ilike` is its pill; every filter is ready, text or pill |
| TrendPage.PillPresent | src/app/trend/page.tsx:40-43 | a set pill's filter is in the query |
| TrendPage.PillsApart | src/app/trend/page.tsx:40-43 | an `ilike` on a pill's column is that pill's filter and no other pill's |
| TrendPage.IlikeIsPill | src/app/trend/page.tsx:40-43 | every `ilike` in the trend query is a pill |
| TrendPage.TrendTextFilter | src/app/trend/page.tsx:46-55 | a text filter iff the query has tokens, matching domain, season, direction, color notes and print notes (5 clauses per token) |
| TrendPage.OrFromText | src/app/trend/page.tsx:46-55 | the only `or` filters are the text filter |
| TrendPage.BlankParamsUnfiltered | src/app/trend/page.tsx:25-57 | with every parameter blank only the ready filter remains |
| TrendPage.OnlyReady | src/app/trend/page.tsx:40-55 | with no pills and no terms only the ready filter remains |
| TrendPage.Fetched | src/app/trend/page.tsx:34-37 | a fetched row always keeps the id and slug; it keeps the title, cover path, source site and report type each iff that column is selected, and has them missing otherwise |
| TrendPage.ReportTypeNeverShown | src/app/trend/page.tsx:36 | with the column list as written, no card on the page shows a report-type line, whatever the boards hold |
| TrendPage.ReportTypeShownWhenSelected | src/components/TrendResults.tsx:59-65 | on the corrected page, every card shows the line iff its board has a non-empty report type |
| TrendPage.TrendPageView | src/app/trend/page.tsx:57-69 | the page as written renders nothing for no rows, else one card per row, in order, each built from the board as the ten-column query returns it |
| TrendPage.TrendPageViewCorrected | src/app/trend/page.tsx:57-69 | the corrected page renders nothing for no rows, else one card per row, in order, each built from the board with `report_type` fetched too |
| Text.Trim | src/app/page.tsx:42 | the result is trimmed, no longer than the input, and a trimmed input is left unchanged |
| Text.TrimSlice | src/app/page.tsx:42 | what `trim` removes on either side is whitespace, and what it keeps is a contiguous slice of the input |
| Text.Words | src/components/CurateResults.tsx:29 | every word is non-empty and free of whitespace; there are no words iff the text is all whitespace |
| Text.WordsOfJoin | src/components/CurateResults.tsx:29 | words joined by single spaces split back into the same words |
| Text.ReplaceFirst | src/components/TrendResults.tsx:25 | a string-pattern `replace` leaves text without the character unchanged, and otherwise replaces the character at its first index only |
| Text.ReplaceFirstAfter | src/components/TrendResults.tsx:25 | when the character first occurs right after a prefix, the replacement goes exactly there and the rest is kept as it is |
| PercentEncoding.EncodeComponent | src/components/CurateResults.tsx:23 | the encoding uses only unreserved characters and `%`, and leaves an unreserved string unchanged |
| PercentEncoding.ComponentRoundTrip | src/components/CurateResults.tsx:23 | decoding the encoding of any string gives the string back |
| PercentEncoding.SlashIsEscaped | src/components/CurateResults.tsx:23 | a `/` inside a segment is written `%2F` |
| PublicUrls.StripLeadingSlashes | src/components/CurateResults.tsx:22 | only leading slashes are removed, all of them |
| PublicUrls.PathRoundTrip | src/components/CurateResults.tsx:22-23 | segment-wise encoding joined with `/` decodes back to the clean path |
| PublicUrls.ObjectUrl | src/components/CurateResults.tsx:17-25 | no URL without a path or base; otherwise the bucket prefix followed by an encoding of the clean path that decodes back to it and starts with no slash |
| PublicUrls.EmptyCleanPath | src/components/CurateResults.tsx:22-24 | a path of only slashes yields the bare bucket prefix |
| CurateResults.PublicAssetUrl | src/components/CurateResults.tsx:17-25 | a URL iff path and base are non-empty, under `assets/`, decoding to the path without leading slashes |
| BoardResults.PublicBoardUrl | src/components/BoardResults.tsx:16-24 | the same, under `boards/` |
| TrendResults.PublicCoverUrl | src/components/TrendResults.tsx:13-21 | the same, under `boards_covers/`, and the path is trimmed first |
| TrendResults.BlankCoverPath | src/components/TrendResults.tsx:14-20 | a blank cover path passes the truthiness test and yields the bare bucket prefix |
| Cards.OrEmpty | src/components/CurateResults.tsx:52 | `title \|\| ""`: the title when non-empty, else the empty string |
| Cards.TwoWordTitle | src/components/CurateResults.tsx:26-30 | "Untitled" for a blank title, else the first two whitespace-separated words joined by one space; always non-empty and trimmed |
| Cards.TwoWordTitleIdempotent | src/components/BoardResults.tsx:26-30 | applying the two-word title twice changes nothing |
| Cards.TitleOfShortTitle | src/components/BoardResults.tsx:26-30 | a trimmed title of at most two single-spaced words is kept as it is |
| CurateResults.AssetCardOf | src/components/CurateResults.tsx:42-72 | the card's key, link, image, two-word title and alt text; a source link iff both site and URL are non-empty |
| CurateResults.CurateResultsView | src/components/CurateResults.tsx:33-42 | nothing for no assets; the interpretation panel iff `q` is non-empty; the first nine assets as cards, in order |
| CurateResults.CardsIgnoreTail | src/components/CurateResults.tsx:42 | rows after the ninth do not change the grid |
| BoardResults.BoardCardOf | src/components/BoardResults.tsx:44-71 | the card's key, link to the slug, image, two-word title and alt text; a site line iff the site is non-empty |
| BoardResults.BoardResultsView | src/components/BoardResults.tsx:39-44 | nothing for no boards; otherwise one card per board, all of them, in order |
| TrendResults.FormatType | src/components/TrendResults.tsx:23-26 | empty for a missing or empty type; otherwise the upper-case type with its first `+` widened to ` + ` |
| TrendResults.FormatTypeAscii | src/components/TrendResults.tsx:23-26 | for ASCII text the line has a `+` iff the type does, and is two characters longer exactly then |
| TrendResults.OnlyFirstPlusWidened | src/components/TrendResults.tsx:25 | only the first `+` is widened; later ones stay as they are |
| TrendResults.TrendTitle | src/components/TrendResults.tsx:58 | the title when present (even if empty), else "Untitled" |
| TrendResults.TrendCardOf | src/components/TrendResults.tsx:34-65 | the card's key, link, cover, title and alt; a type line iff the report type is non-empty, formatted |
| TrendResults.TrendResultsView | src/components/TrendResults.tsx:29-34 | nothing for no boards; otherwise one card per board, in order |
| TrendResults.UntitledOnlyWhenNull | src/components/TrendResults.tsx:58 | the trend card says "Untitled" only for a null title (or the literal title), unlike the two-word title, which also does so for an empty one |
| InterpretRoute.DomainParts | src/app/api/interpret/route.ts:12-15 | each part is non-empty, trimmed and free of `,`, `;` and `\|` |
| InterpretRoute.DomainPartsOfJoin | src/app/api/interpret/route.ts:12-15 | parts joined with commas split back into the same parts |
| InterpretRoute.ParseDomainOptions | src/app/api/interpret/route.ts:10-17 | nothing for a missing or empty string; otherwise the first six parts |
| InterpretRoute.DomainOptionsOf | src/app/api/interpret/route.ts:80-83 | a falsy domain gives no options, a string is parsed, and any other truthy value makes the call throw |
| InterpretRoute.CompactEntry | src/app/api/interpret/route.ts:61-67 | a null element throws; otherwise the entry keeps exactly the summary fields the element has, with their values |
| InterpretRoute.CompactAssets | src/app/api/interpret/route.ts:61-67 | fails iff one of the first nine elements is null; otherwise the first nine elements, projected |
| InterpretRoute.CompactAsset | src/app/api/interpret/route.ts:69-78 | exactly the five summary fields; a missing or null one becomes `null` |
| InterpretRoute.Prepare | src/app/api/interpret/route.ts:20-83 | no credential answers 500 first; going on needs a credential and a body; the mode is `asset` only when the body asks for it |
| InterpretRoute.MissingCredentialFirst | src/app/api/interpret/route.ts:21-26 | without the credential the reply is always "Missing OPENAI_API_KEY", whatever the body |
| InterpretRoute.ValidationBeforeModel | src/app/api/interpret/route.ts:21-59 | an early answer does not depend on the model's reply |
| InterpretRoute.BoardValidation | src/app/api/interpret/route.ts:45-52 | board mode answers 400 "Missing query or assets" iff the query is empty or there are no assets |
| InterpretRoute.BoardPrepared | src/app/api/interpret/route.ts:45-83 | a board body with a query and assets, none of the first nine null, is prepared in board mode with its compact assets and no domain options |
| InterpretRoute.AssetValidation | src/app/api/interpret/route.ts:54-59 | asset mode answers 400 "Missing asset" iff `asset` is absent, falsy or not an object |
| InterpretRoute.BlankQueryPasses | src/app/api/interpret/route.ts:36-46 | the query is not trimmed: a single space passes board validation |
| InterpretRoute.PreparedShape | src/app/api/interpret/route.ts:61-83 | a prepared asset request carries a five-field summary; a board request carries none and no domain options |
| InterpretRoute.CleanFences | src/app/api/interpret/route.ts:168-172 | the cleaned text is trimmed, and text without fences and with no outer whitespace is left unchanged |
| InterpretRoute.FencedReplyCleans | src/app/api/interpret/route.ts:168-172 | a fenced block, with or without the `json` tag, cleans to its trimmed body |
| InterpretRoute.ClosingFenceBeforeWhitespaceKept | src/app/api/interpret/route.ts:171-172 | a closing fence followed by whitespace is not removed; only the trim applies |
| InterpretRoute.CleanFencesNotIdempotent | src/app/api/interpret/route.ts:168-172 | cleaning twice can remove more than cleaning once |
| InterpretRoute.BulletsOf | src/app/api/interpret/route.ts:186-191 | at most five bullets; none for a missing or non-array value; otherwise the first five elements converted to strings |
| InterpretRoute.TextField | src/app/api/interpret/route.ts:185 | a text field exists iff the value converts to a string, and is then that string trimmed; a missing or `null` field gives the empty text |
| InterpretRoute.Coerce | src/app/api/interpret/route.ts:184-203 | the summary is the reply's `curatorial_summary` as text, trimmed; in board mode the title is its `board_title` the same way, and in asset mode there is no title; each bullet list is the converted first five entries; there is no envelope exactly when one of these conversions throws |
| InterpretRoute.Finish | src/app/api/interpret/route.ts:158-210 | a model call that throws answers "Server error"; no or empty content answers "No content returned from model"; unparsable cleaned text answers "Invalid JSON from model" with the cleaned text; the handler succeeds exactly when the cleaned content parses and coerces, and then answers with the coerced envelope, which has a title iff board mode |
| InterpretRoute.ResponseShape | src/app/api/interpret/route.ts:184-203 | every successful reply has at most five bullets per list, and a title iff the request was not in asset mode |
| AssetInterpretation.DomainLine | src/components/AssetInterpretation.tsx:11-22 | none for a missing domain or one with no parts; otherwise the parts joined with ` • ` |
| AssetInterpretation.DomainLineAgreesWithRoute | src/components/AssetInterpretation.tsx:11-22 | the panel shows a domain line iff the route finds domain options, and the route's options are the first six of the same parts |
| AssetInterpretation.DomainLineOfCommaList | src/components/AssetInterpretation.tsx:11-22 | a comma-separated list of clean parts is shown with bullets between the same parts |
| AssetInterpretation.AssetPayload | src/components/AssetInterpretation.tsx:37-49 | the body has exactly `mode: "asset"` and the asset's five summary fields, a missing one as `null`; there is no body for a null asset |
| AssetInterpretation.RouteKeepsPayloadAsset | src/app/api/interpret/route.ts:69-78 | the route's summary of a posted asset is the posted asset itself: the projection is idempotent |
| AssetInterpretation.RouteAcceptsAssetPayload | src/components/AssetInterpretation.tsx:37-63 | the posted body always passes validation in asset mode with an empty query and the posted summary; it fails only with a server error, when the domain is truthy and not a string |
| CurateInterpretation.ColumnJson | src/components/CurateInterpretation.tsx:27-31 | a missing column is posted as `null`, and a present one as its string |
| CurateInterpretation.PayloadEntry | src/components/CurateInterpretation.tsx:26-32 | each posted entry has exactly the five summary fields, and each field holds the asset's column of that name, `null` when missing |
| CurateInterpretation.CuratePayload | src/components/CurateInterpretation.tsx:23-35 | the body has exactly `q` and `assets`, with the first nine assets as entries, in order |
| CurateInterpretation.RouteKeepsEntries | src/app/api/interpret/route.ts:61-67 | the route's compact assets for a posted body are the posted entries |
| CurateInterpretation.RouteAcceptsCuratePayload | src/components/CurateInterpretation.tsx:41-51 | whenever the panel posts, the route accepts the body in board mode, with the query and the entries as posted |
| CurateInterpretation.StricterThanRoute | src/components/CurateInterpretation.tsx:41 | the panel does not post a blank query, which the route would accept |
| CurateInterpretation.DisplayTitle | src/components/CurateInterpretation.tsx:87 | the model's title when non-empty, else the query |
| CurateInterpretation.DisplayTitleNonEmpty | src/components/CurateInterpretation.tsx:41-87 | whenever the panel has posted, the title it shows is non-empty |
| CurateInterpretation.ErrorLine | src/components/CurateInterpretation.tsx:82 | the error line is shown exactly for a non-empty message, and shows that message |
| CurateInterpretation.Panel | src/components/CurateInterpretation.tsx:74-114 | nothing for a blank query; otherwise the loading state as given, the error only when non-empty, and a title iff there is data; with data, the title, summary and bullet lists come from it; without data, no summary and no bullets |
| Json.GetOrDefault | src/app/api/interpret/route.ts:72-76 | `v?.key ?? fallback`: the fallback for a missing or null property, the property otherwise |
| Json.DecimalRoundTrip | src/app/api/interpret/route.ts:187 | a number's decimal text reads back as the number |
| Json.StringsOf | src/app/api/interpret/route.ts:187 | `map(String)` succeeds iff every element converts, and converts each in place |

## Left out

- The prompt text, the model name, the temperature and the OpenAI call. The call's outcome is the `Completion` parameter.
- The parsing that `JSON.parse` does. It is the `parse` parameter; only its success or failure and its result are used.
- The running of Supabase queries: what `eq`, `ilike`, `or` and `limit` select in the database. The model builds the filters; the rows come in as parameters.
- The library and search pages' `console.error` logging. The search page throws on `raw.map` when Supabase reports an error and returns `data: null`; that case is not modelled, because the default `[]` applies only to `undefined`.
- React state and effects: `useMemo`, `useEffect`, the `cancelled` flag, the collapse toggle in AssetInterpretation.tsx, and the client's handling of a failed `fetch`. `CurateInterpretation.Panel` takes the state as a value.
- Markup, class names, images, `next/link` and `next/image`.
- `process.env.NEXT_PUBLIC_SUPABASE_URL` is the `base` parameter, and `OPENAI_API_KEY` is the `hasKey` flag.
- Json.StringOf: JSON numbers are integers only and are always printed in full. JavaScript prints numbers of magnitude 10^21 and above in exponent form (`1e+21`) and rounds integers above 2^53; neither is modelled, and neither is floating point.
- Case mapping follows Unicode only for Latin-1 and a few special characters (Kelvin sign, dotted capital I). Other characters are left unchanged.
- `encodeURIComponent` on lone surrogates, which throws, is not modelled. Dafny's `char` holds only Unicode scalar values.
- `split(/\s+/)` is modelled as `Text.Words`, which drops empty pieces. The tokenizer filters out empty pieces itself, and `twoWordTitle` splits only trimmed text, which has none.
- The `detail` message of the catch-all reply (`err?.message`) is not modelled; only the error text and the status are.
- BoardInterpretation.tsx, CurateInterpretationClient.tsx, the headers, the layout, the asset and board detail pages and src/lib/storage.ts are not part of this model.
- TrendPage.SelectedColumns: the literal column string is not proved equal to the `SelectedColumnNames` list. The list is what `Fetched` uses.
- SearchPage.SearchResults: returns the shown rows without the `__score` property the page adds to each (src/app/search/page.tsx:61). No renderer reads that property; `SearchPage.Ranked` keeps each row's score beside it.
- A query parameter given more than once arrives as an array of strings, and `trim` then throws on all three pages (src/app/page.tsx:42, src/app/search/page.tsx:25, src/app/trend/page.tsx:26-30). This is not modelled: every parameter is an `Option<string>`.
- The trend header's market input is named `market` (src/components/TrendHeader.tsx:55), but the trend page reads the `domain` parameter, so that input never sets the domain pill. The header's form is not part of this model, so this wiring is not modelled.
- TrendPage.Pill: a `%` or `_` in a pill value acts as a wildcard in the database. This is not modelled, because the database side is left out.

## Findings

| source | as written | input that shows it | evidently intended | confidence | as-written member | corrected member |
|---|---|---|---|---|---|---|
| src/app/trend/page.tsx:34-37 | the trend query selects ten columns and leaves out `report_type`, which TrendResults.tsx:59-65 formats and shows | any board whose `report_type` is `"ss26"` | the card shows the line `SS26` | not executed | TrendPage.ReportTypeNeverShown | TrendPage.ReportTypeShownWhenSelected |

`TrendPage.TrendQuery` and `TrendPage.TrendPageView` model the page as written, with its ten columns. `TrendPage.TrendQueryCorrected` and `TrendPage.TrendPageViewCorrected` model it with the column list that ends with `report_type`.
