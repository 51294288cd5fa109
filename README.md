# BrowserBuddie active-interval tracker, modelled in Dafny

BrowserBuddie credits the wall-clock time spent in the browser to the domain
of the focused tab. This project models its core: the **active-interval
tracker**. The tracker holds a live triple (tab id, domain, start timestamp).
Its flush operation turns the time elapsed since the start into durable
aggregates: all-time totals per domain, per-day records per domain, and a
per-day summary. Each crediting flush also drops day records older than a
cutoff. `switchTo` flushes and then follows another tab or pauses.
`restoreState` resumes an interval persisted before a restart.

Modules, one per source file or component:

- `Wrappers`: `Option`, for the source's nullable values.
- `Text`: JavaScript's `<` on strings (`LexLess`) and `${n}` for integers.
- `Storage`: the stored record shapes (src/types/storage.ts) and JavaScript truthiness of nullable fields.
- `Aggregates`: a day record as its property list in insertion order (`Lookup`, `Put`); the all-time update; the retention loop `Prune`, shared by both trackers.
- `Summary`: `buildSummary` as a loop (`BuildSummary`), proved against the scan `Summarize`, whose meaning is proved in `SummarizeSpec`.
- `Background`: the tracker of src/background/tracker.ts. It is a class whose fields are the live triple and the four storage records. Each method is proved equal to a function on values (`Flushed`, `Saved`, `Restored`, `Switched`).
- `BackgroundProperties`: the tracker's guarantees, proved on those functions. These include the idempotent flush, the exact crediting, retention, and summary consistency.
- `Legacy` and `LegacyProperties`: the earlier tracker of background.js, and how its policy differs from the later one.
- `Time` and `Popup`: the duration formatter `formatTime` of src/utils/time.ts and its copy in popup.js.

Inputs the code reads from its host are parameters of the operations:

- the clock reading `now`;
- today's day key and the retention cutoff key;
- the outcome of the tab lookup (`Found(url)` or `Failed`);
- the URL parser `hostOf` (None when `new URL` throws).

Each operation is one atomic step, so the two clock readings inside one `switchTo` are the same instant.

Three behaviours of the code are easy to miss; the model follows the code in each:

- Summaries of pruned days are not removed. Only `dailyData` is pruned (src/background/tracker.ts:58-60). The consistency invariant therefore covers summaries of days still on record.
- A found tab whose domain is missing or empty keeps its tab id, with no domain or start (src/background/tracker.ts:105-107). The triple is not all-or-nothing.
- The later tracker persists `_state` after a failed tab lookup (src/background/tracker.ts:114). The earlier one persists no `_state` (background.js:42-62).

## Model

| member | source | states |
|---|---|---|
| `Text.LexLessIrreflexive` | src/background/tracker.ts:59 | No day key is before itself under the string order used for the cutoff |
| `Text.LexLessAsymmetric` | src/background/tracker.ts:59 | Two keys are never each before the other |
| `Text.LexLessTransitive` | src/background/tracker.ts:59 | The key order is transitive |
| `Text.LexLessTotal` | src/background/tracker.ts:59 | Any two distinct keys are ordered one way or the other |
| `Text.NatToString` | src/utils/time.ts:7 | The decimal text of a number is non-empty and all digits, with no leading zero from 10 on |
| `Text.IntToString` | src/utils/time.ts:7 | The text of a non-negative number reads back to the number; a negative number is a minus sign before text that reads back to its absolute value |
| `Text.ParseNatToString` | src/utils/time.ts:7 | The digits of a number read back to the number |
| `Time.Split` | src/utils/time.ts:9-11 | Minutes and seconds are below 60, and hours*3600 + mins*60 + secs is the whole seconds |
| `Time.FormatTime` | src/utils/time.ts:5-15 | The text always ends with the unit letter `s` or `m` |
| `Time.FormatTimeIgnoresSubSeconds` | src/utils/time.ts:6 | Two durations with the same whole seconds give the same text |
| `Time.FormatTimeReadBack` | src/utils/time.ts:5-15 | Read back, the text is `<t>s` below a minute, `<m>m <s>s` giving exactly t below an hour, and `<h>h <m>m` with seconds dropped from an hour on |
| `Popup.FormatTime` | popup.js:1-9 | The popup's copy ends with the unit letter `s` or `m` |
| `Popup.FormatTimeMatchesUtility` | popup.js:1-9 | The popup's copy with literal 60/3600 gives the same text as the shared utility for every input |
| `Aggregates.LookupFound` | src/background/tracker.ts:49 | A domain has a value in a day record exactly when the record has an entry for it, and the value is that entry's |
| `Aggregates.LookupAbsent` | src/background/tracker.ts:49 | A domain without a value has no entry in the record |
| `Aggregates.Put` | src/background/tracker.ts:48-49 | Setting a domain gives it the new value and leaves every other domain's value. An existing entry keeps its position; a new one is appended |
| `Aggregates.PutKeepsDistinct` | src/background/tracker.ts:48-49 | Setting a domain never makes a day record list one domain twice |
| `Aggregates.CreditedBucketDistinct` | src/background/tracker.ts:48-49 | Crediting today's record (created empty when missing) keeps it free of duplicate domains |
| `Aggregates.AddMsFrame` | src/background/tracker.ts:44 | The all-time update adds elapsed to one domain, starting from 0 when absent, adds that key if new, and changes no other domain |
| `Aggregates.CreditDayFrame` | src/background/tracker.ts:47-60 | After crediting a day and pruning, no key before the cutoff remains, every other day at or after it keeps its record, no new day appears besides the credited one, and the credited day, when kept, has the domain raised by elapsed and every other domain as it was |
| `Aggregates.RetainLaterCutoff` | src/background/tracker.ts:55-60 | Pruning with a cutoff makes any earlier pruning with an earlier cutoff redundant |
| `Aggregates.Prune` | src/background/tracker.ts:58-60 | After the deletion loop, a key remains exactly when it was present and is not before the cutoff, with its record unchanged |
| `Summary.SummarizeSpec` | src/background/tracker.ts:123-138 | totalMs is the sum of the values and sites the number of entries. topSiteMs is the largest value, or 0 if none is larger. topSite is absent exactly when no value is positive; otherwise it is the first entry holding topSiteMs |
| `Summary.TopSiteValue` | src/background/tracker.ts:131-134 | In a record with distinct domains, the top site's own value is topSiteMs |
| `Summary.BuildSummary` | src/background/tracker.ts:123-138 | The loop returns the summary of the scan, for empty input {0, 0, null, 0} |
| `Background.GetDomain` | src/utils/domain.ts:2-9 | A missing or empty URL has no domain; a non-empty URL's domain is the parser's hostname, none when the parser throws |
| `Background.Tracker.constructor` | src/background/tracker.ts:15-17 | A restarted worker over the persisted store: the triple is null, storage is as given |
| `Background.Tracker.ActiveTabId` | src/background/tracker.ts:118-120 | Returns the live tab id without changing anything |
| `Background.Tracker.FlushTime` | src/background/tracker.ts:20-70 | The new triple and records are those of `Flushed`; when tracking, the start becomes `now` |
| `Background.Tracker.SaveState` | src/background/tracker.ts:73-77 | `_state` becomes the live triple; nothing else changes |
| `Background.Tracker.RestoreState` | src/background/tracker.ts:80-89 | The new triple is that of `Restored`; storage is unchanged |
| `Background.Tracker.SwitchTo` | src/background/tracker.ts:92-115 | The new state is that of `Switched`, and `_state` equals the live triple |
| `BackgroundProperties.FlushIdleIsNoOp` | src/background/tracker.ts:23-25 | With a falsy domain or start (null, "" or 0), a flush changes neither the triple nor storage |
| `BackgroundProperties.FlushClaimsInterval` | src/background/tracker.ts:27-34 | A flush always advances the start to `now`. An elapsed time below 500 ms (negative included) or above 600000 ms leaves all storage untouched |
| `BackgroundProperties.FlushTwiceCreditsOnce` | src/background/tracker.ts:27-34 | A second flush at the same instant changes nothing |
| `BackgroundProperties.FlushCredits` | src/background/tracker.ts:44-69 | A credited flush adds exactly elapsed to the domain's total and to its entry in today's record, each starting at 0. Other domains are unchanged. Today's summary is rebuilt from today's record, other summaries are untouched, and `_state` is the advanced triple |
| `BackgroundProperties.FlushCreditsTotal` | src/background/tracker.ts:44 | The all-time part of `FlushCredits`: elapsed is added to the domain's total, other totals are unchanged |
| `BackgroundProperties.FlushCreditsToday` | src/background/tracker.ts:47-52 | The today part of `FlushCredits`: when today is kept, its entry for the domain grows by elapsed, every other entry is unchanged, and today's summary is that of today's record |
| `BackgroundProperties.FlushCreditsSummaries` | src/background/tracker.ts:52-68 | The summaries part of `FlushCredits`: only today's summary is written, and `_state` is the advanced triple |
| `BackgroundProperties.FlushRetention` | src/background/tracker.ts:55-60 | After a credited flush no day key is before the cutoff. Every other day at or after the cutoff keeps its record. No day appears besides today |
| `BackgroundProperties.FlushKeepsToday` | src/background/tracker.ts:55-60 | With the cutoff today or before, today's record survives pruning |
| `BackgroundProperties.FlushPreservesValid` | src/background/tracker.ts:20-70 | A flush keeps day records free of duplicate domains and every summary of a recorded day equal to its record's summary. It also keeps the triple coherent: no start without a truthy domain, no domain without a tab id |
| `BackgroundProperties.RecordDayKeepsConsistent` | src/background/tracker.ts:48-60 | Writing a day record with distinct domains and its summary, then pruning, keeps every record distinct and every summary of a recorded day equal to its record's summary |
| `BackgroundProperties.CreditedFlushKeepsConsistent` | src/background/tracker.ts:44-69 | A crediting flush keeps the store consistent in that sense |
| `BackgroundProperties.RestorePreservesValid` | src/background/tracker.ts:80-89 | Restoring keeps the same invariant |
| `BackgroundProperties.SwitchPreservesValid` | src/background/tracker.ts:92-115 | Switching keeps the same invariant |
| `BackgroundProperties.SwitchOutcome` | src/background/tracker.ts:92-115 | A switch writes the records of a flush first. Then null or a failed lookup clears the triple, and a found tab sets its id and domain, with start = now exactly when the domain is truthy. `_state` is the new triple in every branch |
| `BackgroundProperties.SwitchThenTracking` | src/background/tracker.ts:103-107 | After a switch, time accrues exactly when a tab was found whose domain is truthy |
| `BackgroundProperties.RestoreOutcome` | src/background/tracker.ts:80-89 | The saved triple is adopted exactly when its domain and start are truthy; otherwise the live triple stays. Storage is unchanged |
| `BackgroundProperties.RestoreThenFlushCredits` | src/background/tracker.ts:20-89 | After a restart with `_state` = {tab, domain, t0}, a flush at t0 + elapsed credits elapsed to that domain |
| `BackgroundProperties.RestartResumesInterval` | src/background/tracker.ts:15-89 | A worker restarted over storage whose `_state` is {tab, domain, t0}, restored and flushed at t0 + elapsed, holds the old total of the domain plus elapsed |
| `BackgroundProperties.SwitchThenFlushCredits` | src/background/tracker.ts:92-107 | Switching away credits the interval to the old domain. A later flush credits the new domain from the switch instant and leaves the old one alone |
| `Legacy.GetDomain` | background.js:5-11 | The domain is the parser's hostname, none when it throws; an undefined URL is parsed as "undefined" |
| `Legacy.Tracker.constructor` | background.js:1-3 | A restarted worker over the persisted records: the triple is null, totals and day records are as given |
| `Legacy.Tracker.FlushTime` | background.js:13-40 | The new triple and records are those of `Legacy.Flushed` |
| `Legacy.Tracker.SwitchTo` | background.js:42-62 | The new triple and records are those of `Legacy.Switched` |
| `LegacyProperties.FlushIdleIsNoOp` | background.js:14 | With a falsy domain or start, a flush changes nothing |
| `LegacyProperties.FlushCredits` | background.js:13-39 | A flush advances the start. Below 500 ms nothing is written. From 500 ms on, however long, elapsed is added to the domain's total and today's entry; other domains keep their totals, and no day key before the cutoff remains |
| `LegacyProperties.FlushTwiceCreditsOnce` | background.js:16-19 | A second flush at the same instant changes nothing |
| `LegacyProperties.FlushVersionsCompared` | background.js:16-24 | Up to 10 minutes both trackers write the same totals and day records. Beyond that the later one discards the interval while the earlier one credits all of it |
| `LegacyProperties.GetDomainVersionsAgree` | background.js:5-11 | The two getDomain versions agree whenever the parser rejects "" and "undefined" |
| `LegacyProperties.SwitchOutcome` | background.js:42-61 | The flush is the only write. A falsy tab id (null or 0) or a failed lookup clears the triple. A found tab sets its id and domain, with start = now exactly when the domain is truthy |
| `LegacyProperties.TabZeroDiffers` | background.js:45-50 | Tab id 0 pauses the earlier tracker, while the later one follows tab 0 |

## Left out

- Event wiring: src/background/index.ts and background.js:64-107. This is listener registration, tab queries, idle detection and the 30-second timer, which only dispatch to `switchTo` and `flushTime`.
- Browser storage and the tab lookup. The store is fields of the tracker object. Failure and latency of storage writes are not modelled.
- Interleaving at `await` points. Each operation is one atomic step, so the model does not show a concurrent `switchTo` changing the triple that a flush persists (src/background/tracker.ts:68).
- Clock and date handling: `Date.now()`, `getTodayKey` and the cutoff date arithmetic (src/background/tracker.ts:55-57). They are inputs. The two clock readings of one `switchTo` (src/background/tracker.ts:93, 107) and of one legacy flush (background.js:16-17) are taken as the same instant.
- URL parsing (`new URL(...).hostname`) is a parameter. `faviconUrl`, in src/utils/domain.ts and popup.js, is a foreign call and is not part of this model.
- Popup rendering: src/popup/index.ts, and `render` and `isToday` in popup.js.
- Numbers are unbounded integers. JavaScript doubles, `NaN` and fractional milliseconds are not modelled, nor `${n}` switching to exponent notation at 1e21.
- `LexLess` compares by Unicode code point, whereas JavaScript compares UTF-16 code units. The two differ only for characters beyond the Basic Multilingual Plane, which day keys never contain.
- Day records keep insertion order. JavaScript would list integer-like property names first; hostnames never are integer-like.
- The plain-object records are modelled as maps, which drops inherited-property lookup. In JavaScript a hostname `constructor` would read a function from `Object.prototype`, and an assignment to `__proto__` is silently ignored; the model treats both as ordinary keys.
- `Time.FormatTimeReadBack`: states the read-back for non-negative durations only. A negative duration is shown as `-<n>s` (`Text.IntToString`), which the reader does not parse.
- `BackgroundProperties.FlushPreservesValid`: relates a summary to its day record only while that day is still on record, since the code never prunes summaries.
