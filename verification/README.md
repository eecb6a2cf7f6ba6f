# compare-ui scraping core in Dafny

compare-ui scrapes the documentation sites of about twenty React component
libraries and shows which library offers which component. The project models
the pure part of that pipeline. That part begins once a page has been fetched
and its link selector has matched a list of DOM nodes:

- **Extractors** turn the matched nodes into components `{ name, url }`. The
  generic link extractor uses the first child's text and `base + href`. The
  GitHub file-listing extractor strips the extension, converts kebab case to
  Pascal case and strips trailing digits. The GitHub folder-listing extractor
  keeps only entries without a `.`.
- **Name normalisers and per-library post-processing** are the regular
  expressions `splitCamelcase`, `capitalizeSubsequentWords`, `/s$/`, `/\d+$/`,
  `/\..+$/` and `/\.css.*}/g`. The post-processing also includes the url
  filters of Material UI and Theme UI, the `_` filter of Ant Design and the url
  lower-casing of Blueprint JS.
- **The scrapers of `allScrapers`**: twenty fixed pipelines, each tagging its
  result with a name and a site.
- **The index route**: its loader builds an `Effect.all` over nine sources, and its page is a
  comparison table. The table has one column per library and one row per
  distinct component name (`allPossibilities`). The cell in row *n*, column *c*
  links to the first component of *c* named exactly *n*.
- **The effect route**: its loader runs three sources, naming each link by its
  whole text with inline CSS cut out.

Regular-expression replacements are modelled as the left-to-right scans that
JavaScript's `replace`/`replaceAll` perform. This includes the rule that `.`
matches no line terminator. Where the natural statement of a property only
holds on one line, the lemma requires the text to have no line terminator.

Two behaviours of the code are worth knowing when reading the model:

- `Effect.all` fails as a whole when one source fails (`Seqs.Collect`).
- Ant Design's filter tests the Pascal-case name itself for a leading `_`.

Modules:

| file | module | models |
|---|---|---|
| text.dfy | Text | character classes of the regular expressions, `indexOf`, `lastIndexOf`, ASCII `toLowerCase` |
| seqs.dfy | Seqs | `map`, `filter`, `Array.from(new Set(...))`, all-or-nothing `Effect.all` |
| effect_string.dfy | EffectString | `String.kebabToSnake` and `String.snakeToPascal` of the `effect` library (assumed definitions, see below) |
| scraping_helpers.dfy | ScrapingHelpers | app/scapingHelpers.ts |
| scrapers.dfy | Scrapers | app/scrapers.ts |
| index_route.dfy | IndexRoute | app/routes/_index.tsx |
| effect_route.dfy | EffectRoute | app/routes/effect.tsx |

## Model

| member | source | states |
|---|---|---|
| Text.LowerCaseHasNoUpper | app/scrapers.ts:233 | after `toLowerCase` no upper-case letter is left, and lower-casing again changes nothing |
| Text.IndexOf | app/scrapers.ts:131-132 | the result is the first index where the pattern occurs; `None` means it occurs nowhere |
| Text.ContainsIff | app/scrapers.ts:253 | a literal pattern tests true exactly when it occurs at some index |
| Seqs.MapMembers | app/routes/_index.tsx:160-162 | the values of `map` are exactly the images of the input's elements |
| Seqs.Filter | app/scapingHelpers.ts:86-88 | `filter` never lengthens, and it keeps exactly the elements that satisfy the predicate |
| Seqs.FilterConcat | app/scrapers.ts:129-134 | filtering keeps relative order: the filter of `a + b` is the filter of `a` followed by the filter of `b` |
| Seqs.FilterKeepsAll | app/scrapers.ts:129-134 | a filter that rejects no element returns its input unchanged |
| Seqs.DedupFrom | app/routes/_index.tsx:158-164 | a `Set` built from the list holds each value exactly once, nothing else, and orders values by first occurrence |
| Seqs.Collect | app/routes/_index.tsx:84 | `Effect.all` succeeds exactly when every outcome succeeds, and then yields every value in order |
| EffectString.KebabToSnake | app/scapingHelpers.ts:59-61 | same length; every `-` becomes `_` and nothing else changes |
| EffectString.SnakeToPascal | app/scapingHelpers.ts:58-62 | a result exists only for non-empty input, and it begins with the upper-cased first character |
| EffectString.TrailingUnderscoresCons | app/scapingHelpers.ts:58-62 | putting a character in front extends the trailing `_` run only when the whole string was `_` |
| EffectString.PascalTailDefined | app/scapingHelpers.ts:58-62 | the conversion loop completes exactly when its input ends in an even run of `_` |
| EffectString.SnakeToPascalDefined | app/scapingHelpers.ts:58-62 | `snakeToPascal` throws exactly on the empty string and on an odd trailing run of `_` after the first character |
| EffectString.SnakeToPascalWithoutUnderscore | app/scapingHelpers.ts:92-93 | without `_`, only the first character changes, and it is upper-cased |
| EffectString.PascalTailLength | app/scapingHelpers.ts:58-62 | each dropped `_` separator shortens the output by exactly one character |
| ScrapingHelpers.SplitCamelcase | app/scapingHelpers.ts:5-6 | the output is at least as long as the input and keeps its first character |
| ScrapingHelpers.SplitCamelcaseInsertsSpaces | app/scapingHelpers.ts:5-6 | `splitCamelcase` equals the reference that inserts one space after every lower-case letter followed by an upper-case one and changes nothing else |
| ScrapingHelpers.SplitCamelcaseLength | app/scapingHelpers.ts:5-6 | output length = input length + number of lower-upper pairs |
| ScrapingHelpers.SplitCamelcaseNoBoundary | app/scapingHelpers.ts:5-6 | the output contains no lower-case letter directly followed by an upper-case one |
| ScrapingHelpers.SplitCamelcaseFixed | app/scapingHelpers.ts:5-6 | a string without a lower-upper pair is returned unchanged |
| ScrapingHelpers.SplitCamelcaseUnchangedIff | app/scapingHelpers.ts:5-6 | a string is unchanged exactly when it has no lower-upper pair |
| ScrapingHelpers.SplitCamelcaseIdempotent | app/scapingHelpers.ts:5-6 | splitting twice gives the same result as splitting once |
| ScrapingHelpers.CapitalizeSubsequentWords | app/scapingHelpers.ts:7-8 | length is preserved |
| ScrapingHelpers.CapitalizeSubsequentWordsAt | app/scapingHelpers.ts:7-8 | a character is upper-cased exactly when it is an `a`-`z` letter right after white space; every other character, the first included, is kept |
| ScrapingHelpers.CapitalizeSubsequentWordsIdempotent | app/scapingHelpers.ts:7-8 | capitalising twice gives the same result as capitalising once |
| ScrapingHelpers.RemoveExtension | app/scapingHelpers.ts:60 | the result is a prefix of the file name |
| ScrapingHelpers.RemoveExtensionOnOneLine | app/scapingHelpers.ts:60 | on one line: when the first `.` is not the last character, everything from it on is cut; otherwise the name is unchanged |
| ScrapingHelpers.RemoveTrailingDigits | app/scapingHelpers.ts:62 | the result is a prefix, all removed characters are digits, and the result does not end in a digit |
| ScrapingHelpers.RemoveTrailingDigitsUnique | app/scapingHelpers.ts:62 | these three properties determine the result: it removes the whole trailing run of digits and nothing else |
| ScrapingHelpers.RemoveTrailingDigitsIdempotent | app/scapingHelpers.ts:62 | stripping digits twice gives the same result as stripping once |
| ScrapingHelpers.PascalName | app/scapingHelpers.ts:92-94 | a successful Pascal name never ends in a digit |
| ScrapingHelpers.PascalNameDefined | app/scapingHelpers.ts:92-94 | the name pipeline throws exactly on an empty stem and on an odd trailing run of `-`/`_` after the first character |
| ScrapingHelpers.PascalNameOfPlainWord | app/scapingHelpers.ts:58-62 | a stem without `-`, `_` or a final digit only gets its first letter upper-cased |
| ScrapingHelpers.ComponentLinks | app/scapingHelpers.ts:31-37 | one component per node, in order, named by the first child's text, with url `base + href` (no nodes, no components) |
| ScrapingHelpers.ComponentLinksConcat | app/scapingHelpers.ts:31-37 | node order is kept: the links of `a + b` are the links of `a` followed by the links of `b` |
| ScrapingHelpers.GithubLinks | app/scapingHelpers.ts:56-68 | succeeds exactly when every name succeeds; one component per node, with url = `base` + name |
| ScrapingHelpers.GithubDirectoryFileLinks | app/scapingHelpers.ts:56-68 | one component per file, named by its file name, with url = `base` + name; no name ends in a digit; fails exactly when some name throws |
| ScrapingHelpers.FolderEntries | app/scapingHelpers.ts:86-88 | keeps exactly the entries whose first-child text has no `.`, and never more of them than were matched |
| ScrapingHelpers.FolderEntriesConcat | app/scapingHelpers.ts:86-88 | the folder filter keeps the original order |
| ScrapingHelpers.GithubDirectoryFolderLinks | app/scapingHelpers.ts:86-99 | one component per folder entry, in order, named by its Pascal name with no extension stripped, with url = `base` + name; never more than the matched count |
| Scrapers.SplitComponentNames | app/scrapers.ts:80-86 | count, order and urls are kept; every name is camel-split |
| Scrapers.MaterialUiComponents | app/scrapers.ts:129-134 | keeps exactly the components whose url contains neither `about-the-lab` nor `react-use-media-query`, unchanged |
| Scrapers.MaterialUiKeepsOrder | app/scrapers.ts:129-134 | the Material UI filter keeps the original order |
| Scrapers.MaterialUiUnchangedIff | app/scrapers.ts:129-134 | a page is passed through unchanged exactly when none of its urls matches an excluded fragment |
| Scrapers.DropTrailingS | app/scrapers.ts:182 | removes one final `s` when there is one, and otherwise nothing |
| Scrapers.ReactBootstrapComponents | app/scrapers.ts:180-183 | count, order and urls are kept |
| Scrapers.ReactBootstrapNamesAt | app/scrapers.ts:180-183 | each name loses at most one final `s`, and every `a`-`z` letter after white space is upper-cased |
| Scrapers.AntDesignComponents | app/scrapers.ts:193-200 | no resulting name starts with `_`; the result is exactly the camel-split components not named `_...` |
| Scrapers.AntDesignKeepsOrder | app/scrapers.ts:193-200 | Ant Design's rewriting keeps the original order |
| Scrapers.BlueprintJsComponents | app/scrapers.ts:228-234 | count and order are kept; names are camel-split and urls lower-cased |
| Scrapers.ThemeUiComponents | app/scrapers.ts:248-257 | never longer than the input; no surviving url contains `variants`; its members are exactly the camel-split survivors, with urls unchanged |
| Scrapers.ThemeUiKeepsOrder | app/scrapers.ts:248-257 | the Theme UI filter distributes over concatenation, so survivors keep their order and their number of occurrences |
| Scrapers.ThemeUiOfOne | app/scrapers.ts:248-257 | one component survives exactly when its url has no `variants`, and then only its name is camel-split |
| Scrapers.Scrape | app/scrapers.ts:11-22 | a scraper fails exactly when its extractor fails, and it tags its result with its fixed name and site and the load time |
| Scrapers.AllScraperKeysOfNames | app/scrapers.ts:312-333 | the twenty names of `allScrapers` have the listed length-and-initial keys |
| Scrapers.AllScrapersTagged | app/scrapers.ts:312-333 | `allScrapers` has 20 entries, each tags a site, and their names are pairwise distinct |
| Scrapers.ArekUiComponents | app/scrapers.ts:74-92 | one component per file; the name is the camel-split Pascal name, while the url still ends with the unsplit one |
| Scrapers.ReactAriaComponents | app/scrapers.ts:138-155 | never fails; one component per link, with a camel-split name and the url as extracted |
| Scrapers.MaterialUiLinks | app/scrapers.ts:119-136 | never fails; exactly the extracted links that pass the url filter |
| Scrapers.AntDesignLinks | app/scrapers.ts:187-207 | no name starts with `_`; every url starts with `https://ant.design/`; never more than the matched count |
| Scrapers.BlueprintJsLinks | app/scrapers.ts:222-241 | one component per folder; the name is camel-split and the url is the lower-cased link to the Pascal name |
| Scrapers.ThemeUiLinks | app/scrapers.ts:243-259 | never fails; no url contains `variants`, and every url starts with the site's base |
| Scrapers.ReactBootstrapLinks | app/scrapers.ts:170-185 | never fails; one component per link, url `base + href`, with the normalised name |
| IndexRoute.Loader | app/routes/_index.tsx:84-148 | the loader's `Effect.all`, when run, fails exactly when a request fails or an Arek UI file name throws; otherwise yields nine collections, in order, each with its source's name, no site and its load time |
| IndexRoute.LoadOutcome | app/routes/_index.tsx:85-147 | one source fails only when its request fails, or, for the GitHub file listing, when a file name throws; its result carries its name, no site and its load time |
| IndexRoute.LoaderSourcesOfAllScrapers | app/routes/_index.tsx:84-147 | the nine sources are the first nine scrapers of `allScrapers`, with the same names, bases and extractors; the Material UI filter is the same one, and only Arek UI and React Aria skip the camel split |
| IndexRoute.LoaderAgreesWithScrapers | app/routes/_index.tsx:24-80 | on the same pages, the route's local extractors give the same components as the scrapers of app/scrapers.ts, with Arek UI and React Aria names left unsplit |
| IndexRoute.LoaderArekUiLinks | app/routes/_index.tsx:63-78 | the Arek UI column has one component per file, named by its unsplit Pascal name, with url `https://arek-ui.fly.dev/?q=` + name |
| IndexRoute.LoaderNamesDistinct | app/routes/_index.tsx:85-147 | the loader's nine names are pairwise distinct |
| IndexRoute.NamesOf | app/routes/_index.tsx:161 | one name per component, in order |
| IndexRoute.ComponentNames | app/routes/_index.tsx:160-162 | the flattened list holds exactly the names some collection offers |
| IndexRoute.AllPossibilities | app/routes/_index.tsx:157-165 | every offered name appears exactly once, nothing else appears, and names are ordered by first occurrence (collections in order, then components in order) |
| IndexRoute.FindByName | app/routes/_index.tsx:192-194 | finds a component exactly when one has that exact name, and returns the first such component |
| IndexRoute.RenderShape | app/routes/_index.tsx:174-191 | one heading per collection, giving its name, component count and load time; one row per distinct name in `allPossibilities` order, each with one cell per collection |
| IndexRoute.RenderCell | app/routes/_index.tsx:191-209 | a cell is filled exactly when its collection has a component with the row's exact name, and it links to the url of the first such component |
| IndexRoute.RenderRowChecked | app/routes/_index.tsx:188-211 | no row is empty: each row has a filled cell |
| IndexRoute.RenderRowKeys | app/routes/_index.tsx:188-189 | row keys are distinct, and every component name of every collection has a row |
| EffectRoute.LineRun | app/routes/effect.tsx:38 | `.*` covers exactly the characters up to the first line terminator |
| EffectRoute.CssMatchAt | app/routes/effect.tsx:38 | a match at the front starts with `.css`, ends with `}`, and is at least five characters long |
| EffectRoute.CssCleanup | app/routes/effect.tsx:38 | the cleanup never lengthens a text |
| EffectRoute.CssMatchAtIff | app/routes/effect.tsx:38 | a match starts at the front exactly when `.css` starts there with a `}` after it on the same line |
| EffectRoute.CssBlockShift | app/routes/effect.tsx:38 | `.css`…`}` blocks of the tail are those of the text, shifted by one |
| EffectRoute.CssCleanupShrinks | app/routes/effect.tsx:38 | a text holding a `.css`…`}` block on one line gets shorter |
| EffectRoute.CssCleanupKeeps | app/routes/effect.tsx:38 | a text without such a block is returned unchanged |
| EffectRoute.CssCleanupUnchangedIff | app/routes/effect.tsx:38 | the cleanup changes a text exactly when the pattern matches somewhere in it |
| EffectRoute.NoCloseNoBlock | app/routes/effect.tsx:38 | a text without `}` holds no match |
| EffectRoute.CssMatchAtFront | app/routes/effect.tsx:38 | on one line starting with `.css`, the greedy match runs to the last `}` |
| EffectRoute.CssCleanupCut | app/routes/effect.tsx:38 | on one line, the span from the first `.css` through the last `}` is deleted |
| EffectRoute.CssCleanupOnOneLine | app/routes/effect.tsx:38 | on one line, the result is the text without the span from the first `.css` through the last `}` when a `}` follows that `.css`, and the text itself otherwise |
| EffectRoute.CssCleanupIdempotent | app/routes/effect.tsx:38 | on one line, no match is left in the result, and cleaning twice gives the same result as cleaning once |
| EffectRoute.CssCleanupKeepsEnds | app/routes/effect.tsx:38 | on one line, the result is a prefix of the text joined to a `}`-free suffix of it |
| EffectRoute.SectionLinks | app/routes/effect.tsx:33-43 | one component per node, in order, with url `base + href` (no nodes, no components) |
| EffectRoute.SectionLinkNames | app/routes/effect.tsx:38 | a name is the node's whole text when that text holds no CSS block; on one line, it is the text with the CSS span cut out, and no match is left in it |
| EffectRoute.Loader | app/routes/effect.tsx:47-66 | fails exactly when a request fails; otherwise the three sections hold their pages' links with the Shadcn, Ark UI and ZagJS bases |
| EffectRoute.PageShows | app/routes/effect.tsx:68-111 | three sections titled Shadcn, Ark UI and ZagJS, in that order; each counts exactly its links and shows one link per component, in order |

## Left out

- HTTP requests (`HttpClientRequest.get`, `HttpClientResponse.text`) are network I/O. A failed request is an input: the page is `None`.
- JSDOM parsing and `querySelectorAll` come from a foreign library. The model takes the matched nodes as an input sequence and treats `href` as an opaque string, because JSDOM's url resolution is not part of this model.
- `loadedAt: new Date()` reads the wall clock; the time is a parameter.
- `Effect.all` is modelled only for its all-or-nothing outcome. Without a `concurrency` option it runs its effects one after another, so the order of the requests is not modelled either.
- IndexRoute.Loader: models the `Effect.all` that the cached effect would run. As written, the loader wraps it in `Effect.cachedWithTTL` and returns the cached effect without running it (app/routes/_index.tsx:148-150), so no request runs and none can fail while the loader itself runs. Caching is not modelled.
- IndexRoute.Loader: app/routes/_index.tsx:82 hands `loaderFunction` an effect value, while app/Remix.server.ts:10,15 calls its argument as a function; the model takes the effect as what the route means to run.
- Retries, backoff, per-source failure isolation, trimming and sorting have no code in the modelled files, so they are not modelled.
- `scrapeComponentLinksSeekOss` is not part of this model. The Seek-Oss scraper takes its node-to-component mapping as a parameter.
- EffectString.KebabToSnake, EffectString.SnakeToPascal: the bodies of `String.kebabToSnake` and `String.snakeToPascal` are not part of this model. Their definitions here are assumed from the `effect` library's documented behaviour, and a throw is modelled as `None`.
- Text.LowerCase, Text.ToUpper: case mapping is modelled on ASCII letters only, not full Unicode `toUpperCase`/`toLowerCase`.
- Strings are sequences of characters; JavaScript's UTF-16 code units (surrogate pairs) are not modelled.
- A node whose `firstChild` or `textContent` is `null` is not modelled; such a node makes the source's non-null assertion fail at run time.
- The page urls, the CSS selectors, `meta`, and the JSX markup beyond the table and section structure have no behaviour of their own, so they are not modelled. Neither is app/Remix.server.ts, the Remix runtime glue.
- RemoveExtensionOnOneLine, CssCleanupOnOneLine, CssCleanupCut, CssCleanupIdempotent, CssCleanupKeepsEnds: proved for texts without line terminators only. For multi-line texts, the model still computes the exact JavaScript result, and CssCleanupUnchangedIff and CssCleanupShrinks hold for every text.
