# Random Quote — a Dafny model of its client-side state logic

The app fetches a random quote, keeps a list of favourite quotes in the
browser's local storage, translates quotes through a translation endpoint,
and keeps a log of categorised errors. Under the React glue sit five pieces of
sequential logic, each modelled here as pure functions over immutable
datatypes, with every network answer passed in as a parameter:

- `Favorites` (favorites.dfy) — `useFavorites`: toggle by content, persist the
  whole list, load from the store.
- `FetchQuote` (fetch_quote.dfy) — `useFetchQuote`: initial quote from the
  store, the mount-time auto-fetch rule, and the start / success / failure /
  cancel steps of `fetchRandomQuote`.
- `Translation` (translation.dfy) — `translateText`, which both translation
  hooks define identically, and the paired quote/author translation.
- `FavoriteTranslations` (favorite_translations.dfy) — `useFavoriteTranslations`:
  three maps keyed by favourite id, with start, finish, clear and toggle
  transitions and defaulting getters.
- `Translate` (translate.dfy) — `useTranslate`: the five-field state of the
  main view's translation and its transitions.
- `Diagnostics` (diagnostics.dfy) — `DiagnosticManager`: keyword categoriser,
  per-category counters, append-only log, health score, report counts.

Support modules: `Results` (optional values and settled promises), `Quotes`
and `Storage` (the quote record and the key/value store, holding decoded
values under "quote" and "favorites"), `Text` (lower-casing of ASCII letters and the Kelvin sign, and
substring search).

Every asynchronous operation is modelled as one step that receives how its
requests settled. A request is `Response` for the translation endpoint
(`RequestFailed`, or a body whose `data[0]` is absent or a list of segments)
and `Outcome` for the quote endpoint (`Success(q)`, `Failure`, `Cancelled`).
Where a hook has an observable in-flight state, the step is split into
`Start` and `Finish`/`Complete` as well.

## Model

| member | source | states |
|---|---|---|
| Favorites.HasContent | src/components/useFavorites.js:12 | `favorites.some(fav => fav.content === content)`: some entry has the content |
| Favorites.RemoveContent | src/components/useFavorites.js:15 | the filtered list has no entry with the content, never grows, and is strictly shorter when such an entry existed |
| Favorites.RemoveContentCounts | src/components/useFavorites.js:15 | each quote occurs as often as before unless it has the removed content, in which case it does not occur at all |
| Favorites.RemoveContentDistributes | src/components/useFavorites.js:15 | filtering a concatenation is concatenating the filtered parts, so kept entries keep their relative order |
| Favorites.RemoveContentKeepsOrder | src/components/useFavorites.js:15 | two kept entries appear in the filtered list in the same order as in the original |
| Favorites.RemoveAbsentContent | src/components/useFavorites.js:15 | filtering a content no entry has returns the list unchanged |
| Favorites.Toggle | src/components/useFavorites.js:11-16 | without a matching content the quote is appended at the end (length + 1); with one, the result is the order- and multiplicity-preserving filter, every matching entry goes, nothing else does, and the list shrinks |
| Favorites.ToggleTwiceRestores | src/components/useFavorites.js:12-16 | toggling a quote whose content is absent twice gives back the original list exactly |
| Favorites.ToggleMatchesByContentOnly | src/components/useFavorites.js:12-15 | toggling {A, Y} when {A, X} is stored removes {A, X}: identity is by content only |
| Favorites.Load | src/components/useFavorites.js:6-9 | an absent "favorites" entry loads as the empty list, a present one as its list |
| Favorites.Mount | src/components/useFavorites.js:4-9 | the hook's state after the mount effect: the loaded list beside the store it came from |
| Favorites.ToggleFavorite | src/components/useFavorites.js:11-20 | after a toggle the stored "favorites" value is the new in-memory list and no other key changes |
| Favorites.ReloadAfterToggle | src/components/useFavorites.js:6-19 | mounting from the store a toggle left shows that toggle's list, and the saved "quote" is untouched |
| FetchQuote.InitialQuote | src/components/useFetchQuote.js:5-10 | with no saved quote the initial quote is {"", "Unknown"}; otherwise it is the saved quote |
| FetchQuote.Mount | src/components/useFetchQuote.js:5-13 | a mounted hook holds the initial quote, is not loading and has no error |
| FetchQuote.Start | src/components/useFetchQuote.js:16-17 | starting a fetch sets loading and clears the error, keeping quote and store |
| FetchQuote.Complete | src/components/useFetchQuote.js:26-40 | success writes the same quote to memory and to "quote" and clears loading; failure sets the fixed message and clears loading, quote and store unchanged; cancellation changes nothing |
| FetchQuote.Fetch | src/components/useFetchQuote.js:15-43 | a whole fetch: on success quote and store agree and there is no error; on failure nothing is written; on cancellation the error stays empty and loading stays set |
| FetchQuote.AutoFetches | src/components/useFetchQuote.js:45-49 | the mount effect fetches exactly when the current quote has no text |
| FetchQuote.FirstVisitFetchesOnce | src/components/useFetchQuote.js:45-49 | with an empty store the mount auto-fetches; after a successful fetch of a quote with text, mounting again shows it and does not fetch |
| FetchQuote.FailureLeavesMountUnchanged | src/components/useFetchQuote.js:36-40 | after a failed fetch the next mount is exactly as this one was |
| FetchQuote.SavedQuoteDecidesFetch | src/components/useFetchQuote.js:45-49 | a saved quote is shown on mount, and the auto-fetch fires exactly when its content is empty |
| Translation.JoinSegments | src/hooks/useFavoriteTranslations.js:23 | `data[0].map(item => item[0]).join("")`, a missing element 0 joining as "" |
| Translation.JoinSegmentsAppend | src/hooks/useFavoriteTranslations.js:23 | joining segments concatenates their fragments in the order returned |
| Translation.JoinSegmentsStartsWithFirst | src/hooks/useFavoriteTranslations.js:23 | the joined text begins with the first segment's fragment |
| Translation.TranslateText | src/hooks/useFavoriteTranslations.js:8-30 | empty text gives "" whatever the endpoint would say; otherwise the call fails exactly when the request fails, gives "" without `data[0]`, and the joined segments with it |
| Translation.TranslatePair | src/hooks/useFavoriteTranslations.js:42-47 | the pair resolves exactly when neither non-empty field's request fails, and holds both translations; empty fields become "" |
| FavoriteTranslations.GetTranslation | src/hooks/useFavoriteTranslations.js:101-106 | an unknown id reads as the empty pair |
| FavoriteTranslations.IsTranslating | src/hooks/useFavoriteTranslations.js:108-113 | an unknown id reads as not in flight |
| FavoriteTranslations.GetError | src/hooks/useFavoriteTranslations.js:115-120 | an unknown id reads as no error |
| FavoriteTranslations.HasTranslation | src/hooks/useFavoriteTranslations.js:122-128 | a pair is stored for the id and has some text |
| FavoriteTranslations.Start | src/hooks/useFavoriteTranslations.js:38-39 | the id is marked in flight with an empty error; translations and every other id are untouched |
| FavoriteTranslations.Finish | src/hooks/useFavoriteTranslations.js:47-60 | success stores the pair, failure stores the fixed message and leaves the translations; the id ends not in flight; other ids untouched |
| FavoriteTranslations.TranslateItem | src/hooks/useFavoriteTranslations.js:32-63 | with empty quote and author: empty pair, no state change; otherwise the id ends not in flight with either the pair and no error or the fixed message and old translations; other ids untouched |
| FavoriteTranslations.Clear | src/hooks/useFavoriteTranslations.js:65-81 | the id leaves all three maps; every other id keeps its entries |
| FavoriteTranslations.ClearRestoresDefaults | src/hooks/useFavoriteTranslations.js:65-120 | after a clear all getters give their defaults for the id |
| FavoriteTranslations.InitialDefaults | src/hooks/useFavoriteTranslations.js:4-6 | a fresh hook gives the defaults for every id |
| FavoriteTranslations.Toggle | src/hooks/useFavoriteTranslations.js:83-99 | clears when a translation with text exists, otherwise translates when there is input, otherwise changes nothing; other ids untouched; the promise rejects exactly when the translate branch runs and the pair's translation fails |
| FavoriteTranslations.ToggleTwiceClears | src/hooks/useFavoriteTranslations.js:83-99 | a toggle that stores a non-empty translation is undone by the next toggle, back to the defaults, other ids untouched |
| Translate.ShouldShowContent | src/hooks/useTranslate.js:108-110 | content shows when translation is off or its content is ready |
| Translate.HasTranslation | src/hooks/useTranslate.js:98 | translation is on and the pair has some text |
| Translate.Clear | src/hooks/useTranslate.js:90-95 | the pair and error are emptied, translation is off and content is ready |
| Translate.Start | src/hooks/useTranslate.js:61-64 | in flight, no error, translation on, content not ready (so hidden) |
| Translate.Finish | src/hooks/useTranslate.js:73-85 | success stores the result pair, failure empties it and sets the fixed message; in both cases no longer in flight and content ready |
| Translate.TranslateQuoteAndAuthor | src/hooks/useTranslate.js:54-88 | with empty input only content-ready is set and the empty pair returned; otherwise translation ends on, settled and ready, with the pair or the fixed message |
| Translate.Toggle | src/hooks/useTranslate.js:97-105 | clears when on with a non-empty pair, otherwise translates when there is input, otherwise changes nothing; the promise rejects exactly when the translate branch runs and the pair's translation fails |
| Translate.AutoTranslate | src/hooks/useTranslate.js:113-120 | translates only when translation is on and there is input, otherwise changes nothing; the promise rejects exactly when it translates and the translation fails |
| Translate.SettledStatesShowContent | src/hooks/useTranslate.js:108-110 | of the transitions alone: clear and translate always leave content showable, toggle and auto-translate keep it showable |
| Translate.InitialShowsContent | src/hooks/useTranslate.js:3-8 | the initial state shows content and has nothing to clear |
| Translate.ToggleTwiceClears | src/hooks/useTranslate.js:97-105 | a toggle that yields a non-empty translation is undone by the next toggle: pair empty, translation off, content shown |
| Text.Lower | src/utils/diagnosticManager.js:48 | `toLowerCase` character by character: 'A'..'Z' to 'a'..'z', the Kelvin sign to 'k', other characters kept |
| Text.Contains | src/utils/diagnosticManager.js:51 | `includes`: the word occurs at the start or in the rest of the string |
| Text.ContainsIffOccurs | src/utils/diagnosticManager.js:51 | the substring search succeeds exactly when the word occurs at some position |
| Text.LowerCharEqualIffSameLetter | src/utils/diagnosticManager.js:48 | two characters lower-case alike exactly when they are equal, an ASCII capital and its small letter, or the Kelvin sign and a 'k' or 'K' |
| Text.LowerEqualIffSameIgnoringCase | src/utils/diagnosticManager.js:48 | two strings lower-case alike exactly when, position by position, their characters are the same letter up to case |
| Text.LowerIdempotent | src/utils/diagnosticManager.js:48 | lower-casing twice is lower-casing once |
| Diagnostics.Classify | src/utils/diagnosticManager.js:50-70 | the chain of keyword tests on lower-cased text, in the source's order |
| Diagnostics.Categorize | src/utils/diagnosticManager.js:47-71 | a missing or empty message is UNKNOWN_ERROR; the result is UNKNOWN_ERROR exactly when the lower-cased message mentions no keyword, and otherwise a category whose keyword it mentions |
| Diagnostics.ClassifyIsFirstMatch | src/utils/diagnosticManager.js:50-70 | the category is the earliest whose keywords occur, and UNKNOWN_ERROR exactly when none occurs |
| Diagnostics.CategorizeIgnoresCase | src/utils/diagnosticManager.js:48 | messages that lower-case alike character by character (ASCII letters and the Kelvin sign) get the same category |
| Diagnostics.NetworkKeywordsWin | src/utils/diagnosticManager.js:50-56 | a message whose lower-cased form mentions network, fetch or cors is NETWORK_ERROR whatever else it mentions |
| Diagnostics.KelvinSignCompletesNetwork | src/utils/diagnosticManager.js:48-56 | "NETWOR" followed by the Kelvin sign lower-cases to "network" and is NETWORK_ERROR |
| Diagnostics.FetchTimeoutIsNetwork | src/utils/diagnosticManager.js:50-56 | "Fetch Timeout" is NETWORK_ERROR, not TIMEOUT_ERROR |
| Diagnostics.NamesIdentifyCategories | src/utils/diagnosticManager.js:55-70 | the six category names are pairwise distinct, so a count keyed by category is a count keyed by name |
| Diagnostics.Increment | src/utils/diagnosticManager.js:231-234 | the category's count rises by exactly one and every other count is unchanged |
| Diagnostics.LogError | src/utils/diagnosticManager.js:17-42 | exactly one record is appended and returned, its type is the message's category and its message falls back to "Unknown error"; that type's count rises by one, the others do not |
| Diagnostics.FreshIsConsistent | src/utils/diagnosticManager.js:7-9 | a new manager's counters agree with its empty log |
| Diagnostics.LogErrorKeepsConsistent | src/utils/diagnosticManager.js:30-31 | logging keeps every category's count equal to the number of its log entries |
| Diagnostics.OccurrencesSum | src/utils/diagnosticManager.js:30-31 | every log entry falls in exactly one category |
| Diagnostics.Count | src/utils/diagnosticManager.js:232 | the count stored for a category, or 0 for a category never counted |
| Diagnostics.Total | src/utils/diagnosticManager.js:240-243 | the sum of the per-category counts over the six categories |
| Diagnostics.TotalIsLogLength | src/utils/diagnosticManager.js:240-243 | with agreeing counters the summed counts equal the number of logged errors |
| Diagnostics.HealthScore | src/utils/diagnosticManager.js:239-263 | the score lies in [10,100], and is 100 with no errors, whatever the uptime |
| Diagnostics.HealthScoreMonotone | src/utils/diagnosticManager.js:247-262 | more errors or more network errors never raise the score, more uptime never lowers it |
| Diagnostics.LastRecords | src/utils/diagnosticManager.js:275 | the recent records are a suffix of the log of length min(5, log length) |
| Diagnostics.GenerateReport | src/utils/diagnosticManager.js:268-282 | totalErrors is the log length, the summary is the counters, recentErrors is the last min(5, length) records in order, systemHealth is the health score of the counters at the given uptime (so in [10,100]), and uptime is the given uptime |
| Diagnostics.ReportHealthMonotone | src/utils/diagnosticManager.js:271 | a report after more errors and no more uptime never shows a better health score |
| Diagnostics.ReportTotalsAgree | src/utils/diagnosticManager.js:273-274 | for agreeing counters the report's total equals the sum of its per-category summary |

## Left out

- HTTP requests (axios, `fetch`, URL building with `encodeURIComponent`): their outcomes are parameters.
- JSON encoding and decoding and local storage itself: the store is a map from key to decoded value; a value of the wrong shape under a key (which the app never writes) reads as absent.
- The 500 ms deferral of the success step and the parallelism of `Promise.all`: each is one sequential step, so interleavings of overlapping fetches or translations are not modelled.
- The React effects of src/hooks/useTranslate.js:11-23 (they depend on render scheduling); `Translate.SettledStatesShowContent` holds of the transitions alone.
- Timestamps, stack traces' content, context objects, `window.location`, `navigator`, `performance` and memory figures in the log records; uptime is a parameter of the health score and the report.
- `testEndpoint`, `diagnoseNetworkConnectivity` and the paint, memory and connection readers (src/utils/diagnosticManager.js:76-226): network probes and floating-point environment reads.
- `console` logging; the error boundary UI; every view component; the older fetch path in src/components/randomQuote.jsx; the dev-server configuration.
- The target-language parameter of the translation calls: it only shapes the request.
- Text.Lower: lower-cases ASCII letters and the Kelvin sign U+212A (to "k"), where JavaScript lower-cases all of Unicode. The other non-ASCII upper-case characters are kept; apart from U+0130, none has a lower-case form containing an ASCII letter. U+0130 becomes "i" followed by U+0307 in JavaScript. No keyword starts or ends with "i", and in every keyword an "i" is followed by a letter, never by U+0307, so that fold cannot create a match and the categories agree.
- Diagnostics.Total: sums the six categories' counts; the source sums the map's values, which are the same numbers because only categoriser results are ever counted.
- Favourite ids are plain strings supplied by the caller; how a view builds them is not part of this model.
- FavoriteTranslations.GetTranslation: the three maps model the objects' own properties only. An id naming a member inherited from `Object.prototype` ("constructor", "toString", "__proto__", …) reads that inherited member in the source, not the default. Such ids are outside the model, and so the defaults of `InitialDefaults` and `ClearRestoresDefaults` are promised only for ids that name no inherited member.
- FavoriteTranslations.IsTranslating: same restriction. In the source an inherited member name reads a truthy function, not `false`, even on a fresh hook or after a clear; the model reads `false`.
- FavoriteTranslations.GetError: same restriction. In the source an inherited member name reads that member, not ""; the model reads "".
