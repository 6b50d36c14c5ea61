# VLR.gg scraper extraction core, modelled in Dafny

This project models the part of the vlr.gg scraper that turns a parsed HTML page
into records. The scraper is `VLRScraper` in `vlr_scraper.py`, plus the team
filter of `example_usage.py`. The Dafny proves properties of that model.

- **`Html`** (`html.dfy`) is the page as an explicit tree. A `Node` is an element
  (tag, class set, optional `href`, ordered children) or a text leaf. It defines
  the three queries the scraper uses:
  - `FindAll(n, tag, cls)` is `find_all`: a recursive descent that lists the
    matching descendants of `n` (not `n` itself) in document order. It is proved
    equal to filtering the pre-order `Descendants(n)`.
  - `Find` is `find`, which bs4 runs as the same search as `find_all`, stopped
    at the first result: the head of `FindAll`, or nothing. `FindEdge` is a
    depth-first search that also reports the found node's parent. It is proved
    to find the head of `FindAll`, and it models `location_icon.parent`.
  - `Text` is `get_text(strip=True)`: every text leaf, stripped with Python's
    whitespace set, concatenated in document order. This is an assumed model of
    the library, not its code.
- **`VlrScraper`** (`vlr_scraper.dfy`) holds the card parsers and the page extractors.
  - `MatchFields` and `EventFields` are the field rules as functions. They
    compose one step function per rule (`AddTeams`, `AddScores`, …, `AddLocation`),
    in the source's order.
    `ParseMatchCard` and `ParseEventCard` are methods that fill the dictionary
    key by key, as the source does. Each is proved equal to its function.
  - The three getters are methods with the source's `for` loops.
    `GetLatestMatches` and `GetUpcomingEvents` parse the first `limit` cards.
    `GetLiveMatches` parses every card whose status text, upper-cased, contains
    `LIVE`.
  - The HTTP request is a parameter `fetch` from URL to page. `None` stands for
    a failed request, and then each getter returns `[]`.
- **`ExampleUsage`** (`example_usage.dfy`) holds the case-insensitive team
  filter over the latest 20 matches.
- **`Strings`** and **`Seqs`** are helpers: Python's `strip`, ASCII case
  mapping, `in` on strings, list filtering, `Take` (what `find_all(limit=…)`
  returns) and `Collect` (parse each card and keep the records that are present).

Records are maps from a `Key` enumeration. `KeyName` gives each key's spelling
(`"url"`, `"team1"`, …). Match records map keys to strings. Event records map keys
to `Option<string>`, because `location` can be bound to `None` (vlr_scraper.py:157).

Facts about the code that the model makes explicit:
- Every card yields a record, because `url` is always set (vlr_scraper.py:60,
  vlr_scraper.py:135). The `if match_data:` / `if event_data:` guards therefore
  never drop a card (`MatchCardTotal`, `EventCardTotal`).
- `team1`/`team2` and `score1`/`score2` come from the first two matching
  descendants in document order, not from siblings.
- `location` inspects only the first `div.event-item-desc-item`, even when a
  later item holds the location icon.
- `prize` is the second `div.event-item-desc-item-value` of the whole card, so
  it can repeat any value node and is never "the first that is not the dates".

## Model

| member | source | states |
|---|---|---|
| `Strings.Strip` | vlr_scraper.py:65 | the stripped text has no whitespace at either end; it is empty exactly when the input is all whitespace, and otherwise it is the input between its first and last non-whitespace characters |
| `Strings.ContainsAt` | vlr_scraper.py:192 | `Contains(s, sub)` (Python's `sub in s`) holds exactly when `sub` occurs in `s` at some index |
| `Html.FindAllIsFilter` | vlr_scraper.py:63 | the recursive `find_all` descent equals filtering all descendants of the node in pre-order by tag and class |
| `Html.FindAllSpec` | vlr_scraper.py:63 | `find_all` returns exactly the matching descendants, each as often as it occurs among the descendants |
| `Html.FindEdgeFirst` | vlr_scraper.py:155 | the depth-first search for the location icon finds a node exactly when `find_all` is non-empty, and that node is the first of `find_all` in document order, so it is what `find` returns |
| `Html.FindEdgeParent` | vlr_scraper.py:155-157 | the parent reported with a found node holds it among its children and is the searched node or one of its descendants |
| `Html.TextTrimmed` | vlr_scraper.py:65 | extracted text never starts or ends with whitespace, so stripping it again changes nothing |
| `VlrScraper.KeyNameInjective` | vlr_scraper.py:57-89 | distinct record keys have distinct dictionary names |
| `VlrScraper.MatchFields` | vlr_scraper.py:54-91 | every match record has `url` equal to `BASE_URL` followed by the card's `href`, or by `""` when it has none; no keys other than the eight match fields appear |
| `VlrScraper.MatchTeams` | vlr_scraper.py:63-66 | `team1` and `team2` are both present exactly when at least two `div.text-of` descendants exist; they are the texts of the first and second in document order |
| `VlrScraper.MatchScores` | vlr_scraper.py:69-72 | `score1` and `score2` are both present exactly when at least two `div.match-item-vs-team-score` exist; they are the texts of the first two |
| `VlrScraper.MatchStatus` | vlr_scraper.py:75-77 | `status` is present exactly when a `div.ml-status` exists, and is the text of the first one |
| `VlrScraper.MatchEvent` | vlr_scraper.py:80-84 | `event` is present exactly when a `div.match-item-event` exists and the first one holds a `div.match-item-event-series`; it is the text of that series node |
| `VlrScraper.MatchFormat` | vlr_scraper.py:87-89 | `format` is present exactly when a `div.ml-eta` exists, and is the text of the first one |
| `VlrScraper.BareMatchCard` | vlr_scraper.py:60 | an anchor with no children yields the record holding only its `url` |
| `VlrScraper.ParseMatchCard` | vlr_scraper.py:54-95 | the key-by-key construction returns the record of the match rules and never `None`, and its record holds `url` |
| `VlrScraper.EventFields` | vlr_scraper.py:129-166 | every event record has `url` equal to `BASE_URL` plus `href` (or `""`); only the six event keys appear; every value except `location` is a string, never `None` |
| `VlrScraper.EventName` | vlr_scraper.py:138-140 | `name` is present exactly when a `div.event-item-title` exists, and is the text of the first |
| `VlrScraper.EventDatesPrize` | vlr_scraper.py:143-150 | `dates` is present exactly when a `div.event-item-desc-item-value` exists and is the first one's text; `prize` is present exactly when two exist and is the second one's text; so `prize` implies `dates` |
| `VlrScraper.EventLocation` | vlr_scraper.py:153-159 | `location` is set exactly when the first `div.event-item-desc-item` holds an `i.fa-location-dot`; the icon's parent lies inside that item, and the value is the text of the parent's first `div.event-item-desc-item-value`, or `None` when there is none |
| `VlrScraper.EventStatus` | vlr_scraper.py:162-164 | `status` is present exactly when a `div.event-item-status` exists, and is the text of the first |
| `VlrScraper.ParseEventCard` | vlr_scraper.py:129-170 | the key-by-key construction, with `location` bound first to `None` and then overwritten with text, returns the record of the event rules and never `None` |
| `VlrScraper.MatchCardTotal` | vlr_scraper.py:43-46 | parsing a list of match cards drops none: the i-th record is the i-th card's record |
| `VlrScraper.EventCardTotal` | vlr_scraper.py:118-121 | parsing a list of event cards drops none: the i-th record is the i-th card's record |
| `VlrScraper.LiveStatusMatches` | vlr_scraper.py:192 | the status texts `LIVE`, `live` and `Live now` pass the live test |
| `VlrScraper.WithoutVNotLive` | vlr_scraper.py:192 | a status text with no `v` or `V` never passes the live test, since upper-casing is the only change and `LIVE` holds a `V` |
| `VlrScraper.NotLiveStatuses` | vlr_scraper.py:192 | the status texts `Upcoming` and `Final` fail the live test |
| `VlrScraper.LiveCards` | vlr_scraper.py:190-192 | the live selection keeps exactly the live cards, each as often as it occurs; a card without a `div.ml-status` is never kept |
| `VlrScraper.LiveRecordsAreLive` | vlr_scraper.py:191-195 | every record parsed from a live card has a `status` whose upper-cased text contains `LIVE` |
| `VlrScraper.LiveStep` | vlr_scraper.py:190-195 | one more card extends the live records by that card's record exactly when the card is live |
| `VlrScraper.GetLatestMatches` | vlr_scraper.py:22-52 | a failed fetch gives `[]`; otherwise the result is the parses of the first `limit` `a.wf-module-item` cards in document order, has exactly `min(limit, cards)` records, the i-th being the i-th card's record, and every record has a `url` |
| `VlrScraper.GetUpcomingEvents` | vlr_scraper.py:97-127 | a failed fetch gives `[]`; otherwise the result is the parses of the first `limit` `a.wf-card` cards in document order, with exactly `min(limit, cards)` records, the i-th being the i-th card's record |
| `VlrScraper.GetLiveMatches` | vlr_scraper.py:172-201 | a failed fetch gives `[]`; otherwise the result is the parses of the live `a.wf-module-item` cards in document order, with no count limit and one record per live card; every record's `status` contains `LIVE` once upper-cased |
| `ExampleUsage.FilterByTeam` | example_usage.py:50-54 | the comprehension keeps every match whose lower-cased `team1` or `team2` contains the lower-cased team name, as often as it occurs, and no other match; the result is no longer than the input |
| `ExampleUsage.FilterByTeamOrder` | example_usage.py:50-54 | filtering a concatenation filters each part, so kept matches stay in their original order |
| `ExampleUsage.NoTeamsNeverKept` | example_usage.py:52-53 | a match with neither `team1` nor `team2` compares against `""` and is never kept for a non-empty team name |
| `ExampleUsage.CaseInsensitiveTeam` | example_usage.py:49-53 | the name `Sentinels` lower-cases to `sentinels` and matches `SENTINELS` in `team1` or `sentinels` in `team2` |
| `ExampleUsage.ExampleFilterMatchesByTeam` | example_usage.py:46-54 | the filtered list is the team filter of the latest 20 matches; it has at most 20 entries, each with `sentinels` in a lower-cased team name, and is empty when the fetch fails |

## Left out

- HTTP: the `requests.Session`, the User-Agent header, `timeout=10`,
  `raise_for_status` and the `RequestException` handler (vlr_scraper.py:16-20,
  32-35, 50-52). They are network I/O, reduced to the `fetch` parameter, where
  `None` is a failed request.
- HTML parsing of the response bytes by BeautifulSoup. The model takes the
  parsed tree as given. It models only the `class` and `href` attributes, and
  only element and text nodes. Comments and other special strings are not
  modelled.
- `Text`: an assumed definition of `get_text(strip=True)`, not the library's code.
- `Strings.ToUpper`, `Strings.ToLower`: ASCII letters only. Python's full Unicode
  `.upper()`/`.lower()` case mapping is not modelled.
- `GetLatestMatches`: requires `limit > 0`. What `find_all` does with a zero or
  negative `limit` depends on the library version.
- `GetUpcomingEvents`: requires `limit > 0`, for the same reason.
- Selector matching is "the tag is equal and the class set contains the class".
  bs4 also matches `class_` against the whole class string, which never matters
  for the single-word classes used here.
- `location_icon.parent` being null is not modelled. A node found by a
  descendant search always has a parent, so the check is always true.
- The `except Exception` handlers of the card parsers (vlr_scraper.py:93-95,
  168-170). The model is total over any tree, so nothing raises.
- Node identity: nodes are values, so two identical subtrees cannot be told apart.
  The records depend only on content, so this does not change any result.
- `main()` and its console printing (vlr_scraper.py:204-275). Also left out:
  every `print`, the `json.dumps`/`json.dump` export, the other example
  functions and the example runner loop in example_usage.py. All of this is I/O
  around the getters.
- Dictionary insertion order and JSON formatting. Records are maps.
