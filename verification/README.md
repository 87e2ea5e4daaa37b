# threads-rss: extraction, deduplication and feed mapping

A Dafny model of the pure core of `scraper.py`, which turns a rendered Threads
profile page into an RSS feed. The model begins once the page's
`application/json` script texts are in hand. It covers five stages:

1. **Block filter** (`Blocks`). A script text is parsed only if it contains both
   `"ScheduledServerJS"` (quotes included) and `thread_items`.
2. **Nested key search** (`Json.Lookup`). This collects every value bound to
   `thread_items` at any depth of a parsed block, in `nested_lookup` traversal
   order. `Extract` then iterates each value the way Python's `for` does.
3. **Post normaliser** (`Threads.ParseThread`). Five dotted jmespath paths are
   resolved independently. A `url` is derived only when both `code` and
   `username` are truthy.
4. **Deduplicator** (`Deduplicator`). This is a fold with a seen-set of codes
   that is local to one call. A draft is kept iff its text is truthy and its
   code is new. `None` is one code of its own. `True` and `1` are one code,
   and so are `False` and `0`, because Python's `bool` is a subtype of `int`
   and they compare and hash equal.
5. **Feed mapping** (`Feed`). Each post becomes one item. The title is the
   text cut to 80 characters, plus `...` if the text was cut. `link` and `guid`
   are both the url, and `pubDate` is present iff `published_on` is truthy.
   `Feed` also holds the output file name rule.

JSON is a tagged union. Objects are ordered member sequences, so dict insertion
order is kept. Python truthiness is stated explicitly (`Json.Truthy`).

The modules differ in which exceptions they model:

- Every exception this model distinguishes is an `Errors.Error` value inside
  a `Result`. A failed `json.loads` is `BadJson`. A null thread
  item, whose jmespath result is `None` and then breaks `result.get`, is
  `NullItem`. A `thread_items` value that cannot be iterated is `NotIterable`.
- A kept-text draft whose code is a list or dict cannot be a set element, so
  it is `Unhashable`.
- A post whose text is neither a string nor an empty list or dict is
  `NotText`. An empty list or dict text is written as an empty title and
  description. A truthy `published_on` that is not a number is `BadTimestamp`.

`Scrape.ScrapeProfile` is the loop of `scrape_profile` as written. It
interleaves filtering, parsing, search, normalisation and deduplication in one
pass. `Scrape.Staged` composes the stages instead, and
`Scrape.ScrapeProfileIsStaged` proves that the two return the same posts and
fail on the same inputs.

Three behaviours of the code are kept as written:

- A parse failure on any block that passed the filter is not isolated to that
  block. It escapes the loop and fails the whole account (scraper.py:60,
  scraper.py:118).
- The fields of a normalised post are whatever JSON values the paths resolve
  to. They are not restricted to strings and integers.
- "Present" means truthy. An empty code or username gives `url == ""`, and a
  `published_on` of 0 omits `pubDate`.

Injected rather than modelled: `json.loads` is the parameter
`parse: string -> Option<Json>`, and the clock reading behind `lastBuildDate`
is the parameter `buildDate`. The `nested_lookup` library is not part of this
model. `Json.Lookup` follows that library's traversal: it walks lists element
by element, and for each dict member it yields the value when the key matches
and then descends into the value.

## Model

| member | source | states |
|---|---|---|
| `Json.Field` | scraper.py:14-20 | A field step gives null on a non-object or a missing key. When the object binds the key, it gives the bound value, and any non-null result is such a binding. |
| `Json.PathReaches` | scraper.py:14-20 | A dotted path resolves to the value reached by following each key's binding from object to object. A non-null result is always reached that way, so with no such chain the result is null. |
| `Json.PathOfNull` | scraper.py:14-20 | Once a path step gives null, every later step gives null. |
| `Json.PathAppend` | scraper.py:14-20 | Resolving a dotted path `a.b` is resolving `a`, then resolving `b` from where `a` landed. |
| `Json.PathBlocked` | scraper.py:14-20 | A missing key or a non-object at any step makes the whole path null instead of raising. |
| `Json.PathWalksObjects` | scraper.py:14-20 | A non-null path result means every step landed on an object that binds the next key. |
| `Json.LookupFindsBound` | scraper.py:61 | `nested_lookup` returns exactly the values bound to the key by some object reachable at any depth, both directions. |
| `Blocks.Candidates` | scraper.py:55-59 | The surviving blocks are exactly the blocks that contain both markers, kept as an order-preserving subsequence. Each qualifying block survives as many times as it occurs, and no other block survives. |
| `Blocks.NoMarkersNoCandidates` | scraper.py:55-59 | If no script text carries both markers, no block survives the filter. |
| `Threads.Url` | scraper.py:21-24 | The url is non-empty iff code and username are both truthy. For string values it is `https://www.threads.net/@` + username + `/post/` + code. |
| `Threads.ParseThread` | scraper.py:13-25 | Normalising raises exactly on a null item, whose jmespath result is `None`. Otherwise the url is non-empty iff the resolved code and username are both truthy. |
| `Threads.ParseThreadFields` | scraper.py:14-20 | Each of the five fields is the value reached from the item through its own chain of object bindings: `post.caption.text`, `post.taken_at`, `post.code`, `post.user.username` and `post.like_count`. A field is null when no chain reaches a non-null value. |
| `Threads.ParseWithoutPost` | scraper.py:13-25 | An item with no `post` object (a string, a list, a dict without the key) normalises to the all-null post with an empty url. |
| `Extract.Iterate` | scraper.py:62-63 | Iterating a found value raises exactly for null, booleans and numbers. A list yields its elements. |
| `Extract.NonArrayYieldsStrings` | scraper.py:62-64 | A dict or string value yields only strings, and each normalises to the all-null post. |
| `Extract.IterateAll` | scraper.py:61-63 | Flattening the found values succeeds iff each is iterable. The result holds exactly the items of the found values. |
| `Extract.IterateAllSingle` | scraper.py:62-63 | Flattening a single found value is iterating it. |
| `Extract.IterateAllAppend` | scraper.py:62-63 | The flattened items of `a + b` are those of `a` followed by those of `b`. With `IterateAllSingle`, this fixes the order and multiplicity of every item: lookup order, then iteration order. |
| `Extract.ItemsOfAppend` | scraper.py:55-63 | Items follow block order: the items of `a + b` are those of `a` followed by those of `b`. |
| `Extract.ItemsOfSingle` | scraper.py:60-63 | The items of one candidate block are those of parsing it, looking up `thread_items` and flattening the found values. |
| `Extract.UnqualifiedBlocksNotParsed` | scraper.py:55-60 | A block missing a marker is never parsed. Two parsers that agree on qualifying blocks give the same items. |
| `Extract.NoCandidatesNoItems` | scraper.py:53-59 | A page with no qualifying block yields no items, and the parser cannot fail on it. |
| `Extract.ThreadItemsAreBoundElements` | scraper.py:55-63 | As a set, the items are exactly the elements of the values bound to `thread_items` at any depth of the parsed qualifying blocks, both directions. Their order and multiplicity come from `ItemsOfAppend`, `ItemsOfSingle`, `IterateAllAppend` and `IterateAllSingle`. |
| `Extract.Drafts` | scraper.py:62-64 | Normalising all items raises iff one of them is null. Otherwise there is one draft per item, in order. |
| `Extract.DraftsAppend` | scraper.py:62-64 | The drafts of `a + b` are the drafts of `a` followed by the drafts of `b`. |
| `Deduplicator.HashKey` | scraper.py:65-66 | A code can be a set element unless it is a list or a dict. |
| `Deduplicator.HashKeyIsPythonEquality` | scraper.py:65-66 | Two hashable codes are the same set element iff Python's `==` holds between them, so `None`, `True == 1` and `False == 0` each form one key. |
| `Deduplicator.DedupStep` | scraper.py:65-67 | One loop step raises iff the draft has truthy text and an unhashable code. |
| `Deduplicator.DedupFromAppend` | scraper.py:55-67 | The fold over `a + b` is the fold over `a`, continued over `b` from the state `a` left. |
| `Deduplicator.StepSkips` | scraper.py:65-67 | A draft with falsy text, or whose code is already in the seen-set, is dropped and leaves the seen-set unchanged. |
| `Deduplicator.StepKeeps` | scraper.py:65-67 | A draft with truthy text and an unseen hashable code is appended to the output, and its code is added to the seen-set. |
| `Deduplicator.DedupFromStart` | scraper.py:54-67 | From an empty seen-set, the fold keeps exactly the first occurrences. Its seen-set is then exactly the codes of the drafts with truthy text. |
| `Deduplicator.Dedup` | scraper.py:54-67 | Deduplication raises iff some kept-text draft has an unhashable code. Otherwise the output equals the reference definition: drafts with truthy text that are first with their code. |
| `Deduplicator.DedupKeepsUniqueTextPosts` | scraper.py:65-67 | Every kept post has truthy text and a hashable code, and no two kept posts share a code. The output is an order-preserving subsequence of the drafts. |
| `Deduplicator.DedupFirstWins` | scraper.py:55-67 | A draft is kept iff it has truthy text and no earlier kept-text draft has its code. Every code of a kept-text draft appears in the output. |
| `Deduplicator.DedupOnePerCode` | scraper.py:65-67 | However many drafts share a code, the output holds exactly one post with that code: the first such draft. |
| `Deduplicator.DedupAtMostOneCodeless` | scraper.py:65-66 | `None` counts as one shared code, so at most one code-less post survives. |
| `Deduplicator.DedupIdempotent` | scraper.py:55-67 | Deduplicating the output again returns it unchanged. |
| `Scrape.ScrapeProfileIsStaged` | scraper.py:53-68 | The interleaved loop returns the same posts as filter, search, normalise and deduplicate run in sequence. It raises exactly when they do. |
| `Scrape.ScrapeProfileResult` | scraper.py:53-68 | The returned posts are the first occurrences among the drafts of the found items. Each has truthy text, and no two share a code. |
| `Scrape.ScrapeProfileNoCandidates` | scraper.py:53-59 | A page with no qualifying block returns the empty list and cannot raise. |
| `Feed.Title` | scraper.py:84-86 | A text of at most 80 characters is its own title. A longer text gives its first 80 characters followed by `...`, 83 characters in all. |
| `Feed.TitleLengths` | scraper.py:84-86 | An 85-character text gives an 83-character title. An 80-character text passes through unchanged. |
| `Feed.PubDate` | scraper.py:90-94 | `pubDate` is present iff `published_on` is truthy, so 0 and null omit it. A truthy non-number raises. |
| `Feed.FeedItem` | scraper.py:83-95 | An item is made iff the text is a string or an empty list or dict, and the date is usable. Any other text raises `NotText`. The title is the cut text and the description the full text, both empty for an empty list or dict. `link == guid == url`, and `pubDate` is present iff `published_on` is truthy. |
| `Feed.FeedItems` | scraper.py:82-95 | There is one item per post, in order. The mapping raises iff some post's item cannot be made. |
| `Feed.GenerateRss` | scraper.py:71-97 | The channel has the account's title, link and description, the given build date, and one item per post in order. |
| `Feed.Dashed` | scraper.py:114 | The account name keeps its length and every character except `.`, and each `.` becomes `-`. The result has no `.`. |
| `Feed.OutputName` | scraper.py:114 | The file name is `feeds/` + the dashed account name + `.xml`. |
| `Account.RunAccount` | scraper.py:109-117 | An account produces a file iff scraping and feed building both succeed. The file is named by the dashed account name and holds one item per scraped post. |
| `Account.EmptyPageEmptyFeed` | scraper.py:109-117 | A page without a qualifying block still produces a feed file, with the channel metadata and no items. |
| `Account.ItemOfTruthyText` | scraper.py:83-95 | The item of a post with truthy text has a non-empty description, a title of at most 83 characters, and `link == guid`. |
| `Account.FeedItemsFromKeptPosts` | scraper.py:82-95 | Every item of a written feed has a non-empty description, a title of at most 83 characters, and `link == guid`. |

## Left out

- Browser automation (scraper.py:29-46) is left out because it is I/O and
  timing: launching Chromium, navigation, the selector wait, scrolling and the
  sleeps. The page's script texts are an input.
- CSS selection of `script[type="application/json"][data-sjs]` by `parsel`
  (scraper.py:48-51) is left out because it is a foreign HTML parser. Its
  output is the input `blocks`.
- JSON text parsing by `json.loads` (scraper.py:60) is a foreign library. It
  is the parameter `parse`, so which texts it rejects is not modelled.
- JSON floating-point numbers are not modelled.
- Json.Field: it reads the first binding of a key, and `Json.Lookup` visits
  every binding. `json.loads` keeps only the last binding of a repeated key.
  The two agree on every object `json.loads` can produce, because those
  objects never bind a key twice.
- Threads.Show: a truthy list or dict code or username is written as the empty
  string inside the url, whereas Python writes its `repr`. Strings, integers and
  booleans are written exactly.
- Feed.PubDate: the formatting of `published_on` with `strftime` is left out
  as library calendar code, and so is the range of epoch seconds that
  `datetime.fromtimestamp` accepts. `pubDate` is modelled as the epoch second
  it is formatted from.
- The `lastBuildDate` clock reading from `datetime.now` is non-deterministic,
  so it is the parameter `buildDate`.
- XML serialisation by `ElementTree.tostring` (scraper.py:97) is left out as a
  formatting detail. The feed is the `Feed.Channel` value.
- File writing, `os.makedirs`, the console lines and the per-account
  `try`/`except` in `main` (scraper.py:100-119) are I/O. `Account.RunAccount`
  returns the file name and feed to write, or the exception that prevents
  writing.
- The model does not say which exception is reported when a run would raise
  for two reasons, only whether it raises. `Scrape.ScrapeProfileIsStaged`
  compares outcomes up to the exception kind. A non-empty list text is
  reported as `NotText` at its item, whereas Python fails on it only when
  `tostring` writes it as element text (scraper.py:97). A non-empty dict text
  fails at the title slice of its own item (scraper.py:84), as modelled.
- Interpreter limits are not modelled. `nested_lookup` is recursive, so a very
  deeply nested block can raise `RecursionError` in Python, whereas
  `Json.Lookup` is total.
