# Portfolio repository loader, modelled in Dafny

This project models the repository loader of a personal portfolio page
(`script.js`, lines 1-115). The loader reads the user's repository list from
a one-hour cache in browser storage, or fetches it from the hosting API and
caches it. It keeps the repositories updated within the last 365 days and
orders them newest first. It then replaces the projects grid with one card
per repository, a "no projects" placeholder, or an error placeholder. Each
card takes its title, description and "Visit Site" link from an optional
per-repository override, and carries a relative-time label ("Updated 3 days
ago").

Modules, one per part of the loader:

- `Wrappers`: `Option` (JavaScript's `null`/`undefined`) and `Result` (a thrown error).
- `Repository`: the API's repository record, the override record, and JavaScript truthiness of optional strings (`||` fallback).
- `TimeAgo`: `timeAgo` as a method walking the unit table, specified by the function `Ago`.
- `TitleCase`: `titleCase` as two per-character maps over a `seq<char>`.
- `Recency`: the one-year filter and the stable newest-first sort, as functions over `seq<Repo>`.
- `Cards`: the card view-model of `renderCard`.
- `Loader`: class `Loader`, which holds the storage slot and the grid, with `getCached`, `setCache`, `fetchRepos` and the main flow as methods. Beside it are the functions that specify them and the lemmas about those functions.

Timestamps are integer milliseconds. Clock readings and network replies are
parameters. `now` is the clock for the cache read, the cutoff and the card
labels. `fetchedAt` is the later reading that `setCache` stamps after the
request. Dafny's `/` by a positive divisor rounds down, as `Math.floor` of a
quotient does, negative elapsed time included.

Four behaviours of the code worth noting:

- The cutoff is strict (`updated > now - ONE_YEAR`), so a repository updated exactly 365 days ago is excluded.
- `fetchRepos` tests the cached value for truthiness. An array is always truthy, so a fresh cached empty list is a hit and makes no request.
- The "Visit Site" link and each override field depend on JavaScript truthiness, so an empty string counts as absent.
- A configuration file whose body is JSON `null` makes the first card's `config[repo.name]` throw, so the grid shows the error placeholder whenever some repository is recent. With no recent repository the empty placeholder is shown, since no card is rendered.

## Model

| member | source | states |
|---|---|---|
| `TimeAgo.ElapsedSeconds` | script.js:12 | the elapsed seconds are the floor of the millisecond difference divided by 1000, for negative differences too |
| `TimeAgo.Decimal` | script.js:23 | the printed count is a non-empty run of decimal digits with no leading zero |
| `TimeAgo.DecimalRoundTrip` | script.js:23 | reading the printed digits back gives the count |
| `TimeAgo.TimeAgoLabel` | script.js:11-26 | the table walk with its early return yields exactly the label `Ago` of the elapsed seconds |
| `TimeAgo.IntervalsDescending` | script.js:13-20 | the unit table is strictly descending and no unit is shorter than a minute |
| `TimeAgo.SkipShortRows` | script.js:21-24 | rows whose unit is longer than the elapsed time are passed over |
| `TimeAgo.AgoPicksLargestUnit` | script.js:13-24 | the label names the largest unit that fits at least once, with the floored count, and the count stays below the next larger unit; "s" is added only when the count is above 1 |
| `TimeAgo.JustNowIffUnderAMinute` | script.js:21-25 | the label is "just now" exactly when fewer than 60 seconds have elapsed, negative elapsed time included |
| `TimeAgo.Examples` | script.js:11-26 | 90000 s gives "1 day ago", 3599 s "59 minutes ago", 45 s "just now", 63072000 s "2 years ago" |
| `TitleCase.TitleCaseShape` | script.js:28-32 | the title keeps the length; each `-` and `_` becomes a space, so none remains; a lower-case letter at the start or after a non-word character is upper-cased; other characters are kept |
| `TitleCase.TitleCaseIdempotent` | script.js:28-32 | deriving the title of a title changes nothing |
| `TitleCase.Example` | script.js:28-32 | "nc-agent_core" becomes "Nc Agent Core" |
| `Recency.KeepRecentSpec` | script.js:96-98 | the filter keeps every repository updated after the cutoff as often as it occurs, drops all others, and keeps the input order per timestamp |
| `Recency.InsertPermutes` | script.js:99 | inserting one repository adds exactly that repository |
| `Recency.InsertOrdered` | script.js:99 | inserting into a newest-first list keeps it newest first |
| `Recency.InsertStable` | script.js:99 | an inserted repository goes before the list's repositories with the same timestamp |
| `Recency.SortSpec` | script.js:99 | the sort is a permutation, newest first, and stable per timestamp |
| `Recency.RecentNewestFirstSpec` | script.js:96-99 | the grid's list holds exactly the repositories updated after `now - 365*24*60*60*1000`, each as often as listed, none at or before the cutoff, newest first, ties in the API's order |
| `Cards.RenderCard` | script.js:74-89 | a card is built from the overrides and the `timeAgo` label, and equals `CardFor` |
| `Cards.OverridePrecedence` | script.js:75-84 | a non-empty override display name wins over the derived title; the description is the override's, else the repository's, else "No description provided."; the "Visit Site" link is present exactly when the override's site URL is non-empty |
| `Cards.CardText` | script.js:76-77 | a card's description is never empty; without a display-name override the title has the name's length and no `-`/`_` |
| `Cards.UpdatedJustNow` | script.js:86 | the label is "Updated just now" exactly when less than a minute has elapsed |
| `Loader.Loader.GetCached` | script.js:45-53 | the read returns the stored list while it is under an hour old, otherwise absent, and absent for a missing or corrupt slot |
| `Loader.Loader.SetCache` | script.js:55-59 | the slot then holds the list stamped with the write time, or is unchanged when storage refuses the write |
| `Loader.Loader.FetchRepos` | script.js:61-70 | a request is made exactly on a cache miss; the result and the new slot are those of `FetchResult` and `SlotAfterFetch` |
| `Loader.Loader.Load` | script.js:93-114 | the grid is replaced by `Page` of the fetch result, and the slot is updated as by `fetchRepos` alone |
| `Loader.SetThenGet` | script.js:45-59 | writing the cache at `t` and reading it at `later` returns the written list exactly when `later - t < 3600000`, absent otherwise |
| `Loader.CacheRoundTrip` | script.js:45-53 | an entry is read back unchanged while younger than an hour and is absent from then on; missing and corrupt slots read as absent |
| `Loader.FetchOutcomes` | script.js:61-70 | a hit returns the cached list and writes nothing; a miss with a network error, a status outside 200-299 or a body that is not JSON is an error; a failure leaves the slot unchanged; a good response is returned and stored if storage accepts it |
| `Loader.CardItemsAt` | script.js:108-110 | the loop appends one card per repository, in order |
| `Loader.PageOutcomes` | script.js:101-113 | the grid is the error placeholder alone on failure, the empty placeholder alone when nothing is recent, the error placeholder alone when the configuration is `null` and some repository is recent, otherwise exactly one card per recent repository in newest-first order |
| `Loader.ConfigOutcomes` | script.js:36-43 | a network error, a status outside 200-299 or a body that is not JSON gives the empty configuration; a good response gives its parsed body |
| `Loader.ForbiddenShowsError` | script.js:65-66 | a 403 response on a cache miss yields the error placeholder alone and leaves the cache slot untouched |

## Left out

- The activity chart (script.js:117-222) is not modelled. It is declarative configuration of a charting library that is not part of this model, and its formatting uses floating point and locale-dependent number formatting.
- HTTP requests, `Promise.all` and JSON parsing of responses are not modelled. Each request's outcome is an input `Reply`: a network error, or a status with a body that is parsed or not.
- A JSON body that parses but is not a list of repository records is not modelled. The body is taken as a list of records.
- A configuration entry that is `null` or not an object is not modelled, and neither is an override field that is not a string.
- `localStorage`, `JSON.stringify` and `JSON.parse` are replaced by the `Slot` value. A parse failure, a stored value without a usable timestamp, and an unreadable storage all read as `Corrupt` or `Missing`, which the source treats identically. A failed write is the input `writeOk`.
- Date parsing is not modelled, so an unparseable date (a `NaN` timestamp) is out of scope. Timestamps are integers.
- `Cards.CardFor` uses one clock reading for all labels, although the source reads the clock once per card. The cutoff and the cache read share that reading too.
- The markup is not modelled: element creation, `innerHTML` templates, the link attributes (`target`, `rel`), the placeholder wording, and the absence of HTML escaping of the interpolated strings. The grid is a sequence of `Item` values.
- `console.error` logging and a missing grid element are not modelled.
- Concurrency is not modelled. The configuration fetch never rejects, so its outcome is an input that `ConfigOf` maps to a parsed body, `null` included.
