# YouTube analytics dashboard: a verified model of its data logic

This project models the data-handling core of a Next.js dashboard for YouTube activity. The core has seven parts.

- **Watch-history analytics.** The dashboard reads an uploaded Google Takeout `watch-history.json` and keeps the entries that have a title. It computes four charts from them:
  - keyword frequencies of the titles, for the word cloud;
  - watches per calendar month;
  - watches per hour of the day, plus the day/night split of that histogram;
  - the fifteen most-watched channels.
- **Activity utilities.** These compute the monthly chart and the three-slice pie of liked videos, playlists and subscriptions.
- **YouTube API errors.** `extractYouTubeAPIError` turns whatever the API client threw into a message, a status code and details.
- **Liked-videos route.** It lists the "LL" playlist and joins each item with its `videos.list` details. It also classifies API errors.
- **Watch-history route.** It lists the "HL" playlist and maps each failure reason to a status.
- **Authentication middleware.** It lets public paths through, redirects requests without a proper token, and sets security headers.
- **Client session clean-up.**
  - It expires auth cookies.
  - It purges auth keys from local and session storage.
  - It computes the 32-bit string hash behind the browser fingerprint.

The model has one Dafny module per source file. Five helper modules support them:

| module | what it holds |
|---|---|
| `Wrappers` | `Option` |
| `Text` | ECMAScript white space, `\w`, lower-casing, `split`, `trim`, `includes`, decimal print and parse |
| `Sorting` | a stable sort by an integer key |
| `Ranking` | the count-in-a-map-then-rank pattern |
| `Calendar` | parsed timestamps, month labels and the chronological comparator |

Where the source updates state step by step, the model does too:

- Loops that fill a `Map` or a plain object are methods with loop invariants.
- The 24-slot histogram is an `array`.
- `response.headers` and the two web storages are classes whose methods modify their fields.

Timestamps reach the model already parsed. `new Date(...)`, `getFullYear`, `getHours` and the short month name of `toLocaleString` are treated as a trusted parser that yields a year, a month 1..12 and an hour 0..23. API calls, the session lookup and `getToken` appear only through their outcomes: a value or what they threw. Browser state is an input:

- `document.cookie`;
- the hostname;
- the storages;
- the fingerprint's JSON text.

## Model

| member | source | states |
|---|---|---|
| WatchHistoryAnalytics.ValidEntries | components/watch-history-analytics.tsx:114 | an entry survives the upload filter iff its title is present and non-empty; never more entries than given |
| WatchHistoryAnalytics.ValidEntriesAppend | components/watch-history-analytics.tsx:147 | the filter distributes over concatenation, so it keeps the order of the surviving entries |
| WatchHistoryAnalytics.LoadWatchHistory | components/watch-history-analytics.tsx:109-123 | a non-array upload is rejected; an array yields exactly its titled entries |
| WatchHistoryAnalytics.KeepKeywordsCounts | components/watch-history-analytics.tsx:207-211 | the length-and-stop-word filter keeps a word's full count when it is a keyword and drops it entirely otherwise |
| WatchHistoryAnalytics.WordsAreLowerWordCharacters | components/watch-history-analytics.tsx:202-205 | every token of a title consists of `\w` characters with no upper-case letter |
| WatchHistoryAnalytics.CountWords | components/watch-history-analytics.tsx:207-211 | counting one title's words extends the tally by exactly that title's keywords |
| WatchHistoryAnalytics.CountKeywords | components/watch-history-analytics.tsx:200-213 | the word loop over all titles leaves the object holding every keyword with its number of occurrences, in order of first sight |
| WatchHistoryAnalytics.GenerateWordCloudData | components/watch-history-analytics.tsx:191-221 | at most 100 keywords, each longer than 2 characters, not a stop word, with value > 3 equal to its number of occurrences over all titles; values non-increasing and texts distinct; a frequent keyword is missing only when 100 keywords at least as frequent are shown |
| WatchHistoryAnalytics.WordCloudSpec | components/watch-history-analytics.tsx:216-220 | mapping the ranked entries to `{ text, value }` keeps every ranking property |
| WatchHistoryAnalytics.GenerateMonthlyWatchData | components/watch-history-analytics.tsx:224-253 | one bucket per month in which an entry with a `time` falls, and only those; each count is that month's number of entries; entries without `time` are skipped; counts sum to the number of timed entries; buckets strictly chronological and strictly ordered by the name comparator |
| WatchHistoryAnalytics.CountMonths | components/watch-history-analytics.tsx:227-239 | the month loop leaves the map holding every month of an entry with a `time`, with its number of entries, in order of first sight |
| WatchHistoryAnalytics.ChronologicalSpec | components/watch-history-analytics.tsx:242-252 | sorting the month buckets by the comparator's key yields a strictly chronological, complete, correctly counted list |
| WatchHistoryAnalytics.SortedMonthsStrict | components/watch-history-analytics.tsx:242-252 | buckets sorted by the comparator's key with distinct months are in strictly increasing chronological order |
| WatchHistoryAnalytics.PermutedMonthEntries | components/watch-history-analytics.tsx:242-252 | sorting keeps exactly the months that occur, each with its number of occurrences |
| WatchHistoryAnalytics.HourName | components/watch-history-analytics.tsx:260 | every hour label ends in ":00" |
| WatchHistoryAnalytics.HourTallyStep | components/watch-history-analytics.tsx:267 | bumping one slot keeps the 24 buckets equal to the per-hour counts and their sum equal to the number of hours seen |
| WatchHistoryAnalytics.GenerateHourlyWatchData | components/watch-history-analytics.tsx:256-272 | exactly 24 buckets, bucket h has hour h, name "h:00" and the number of timed entries in hour h (all zero for empty input); counts sum to the number of timed entries |
| WatchHistoryAnalytics.NewHourCounts | components/watch-history-analytics.tsx:257-261 | the fresh array holds the 24 zero buckets "0:00" to "23:00", the tally of no hours |
| WatchHistoryAnalytics.BumpHour | components/watch-history-analytics.tsx:267 | adding one to the hour's bucket turns the tally of the hours so far into the tally with that hour appended |
| WatchHistoryAnalytics.SumHoursAppend | components/watch-history-analytics.tsx:657 | the bucket sum of a concatenation is the sum of the parts |
| WatchHistoryAnalytics.DayNightSplit | components/watch-history-analytics.tsx:657-661 | the 7..19 slice plus the 0..6 and 20.. slices add up to the whole histogram, for a histogram of any length |
| WatchHistoryAnalytics.DayNightCoversTimed | components/watch-history-analytics.tsx:655-662 | on the hourly output, day plus night equals the number of entries with a `time` |
| WatchHistoryAnalytics.ChannelKeysFromEntries | components/watch-history-analytics.tsx:279-280 | every counted channel is the first subtitle's name of an entry with a non-empty `subtitles` |
| WatchHistoryAnalytics.GenerateTopChannelsData | components/watch-history-analytics.tsx:275-295 | the result is the tally of first-subtitle names in order of first sight, ranked and cut to 15: each channel with count ≥ 1 equal to its number of entries; counts non-increasing, names distinct; a channel left out is out-counted by each of 15 shown; among equal counts the channels seen first are kept, in that order |
| WatchHistoryAnalytics.CountChannels | components/watch-history-analytics.tsx:278-289 | the channel loop leaves the map holding every first-subtitle name with its number of entries, in order of first sight |
| WatchHistoryAnalytics.TopChannelsSpec | components/watch-history-analytics.tsx:291-294 | ranking a complete channel tally keeps at most 15 channels with their true counts, non-increasing and distinct, each out-counting every channel left out, ties kept in first-seen order |
| WatchHistoryAnalytics.Read | components/watch-history-analytics.tsx:209 | a property read on the plain counting object: own value, else the two inherited names, else undefined |
| WatchHistoryAnalytics.PlusOne | components/watch-history-analytics.tsx:209 | `(v \|\| 0) + 1` yields a number exactly when v is a number or undefined |
| WatchHistoryAnalytics.Write | components/watch-history-analytics.tsx:209 | assignment stores the value except under "__proto__", which is ignored |
| WatchHistoryAnalytics.WordFrequencyAsWrittenCounts | components/watch-history-analytics.tsx:192-213 | for every key other than "constructor" and "__proto__", the object as written holds exactly the number of occurrences |
| WatchHistoryAnalytics.InheritedNamesNeverCounted | components/watch-history-analytics.tsx:209-217 | "__proto__" is never stored and "constructor" never holds a number, so neither passes `count > 3` |
| WatchHistoryAnalytics.ConstructorDropped | components/watch-history-analytics.tsx:209-217 | four occurrences of the keyword "constructor" are not reported by the object as written |
| Calendar.MonthIndex | lib/analytics-utils.ts:72-73 | `months.indexOf` gives -1 exactly for names outside the table and otherwise the name's position |
| Calendar.LabelFields | components/watch-history-analytics.tsx:230 | a bucket name splits at its space into the short month name and the year's digits |
| Calendar.YearOfLabel | lib/analytics-utils.ts:65-68 | `parseInt` of a bucket name's second field reads back its year |
| Calendar.MonthOfLabel | lib/analytics-utils.ts:72-73 | `months.indexOf` of a bucket name's first field reads back its month's position |
| Calendar.CompareLabels | lib/analytics-utils.ts:64-74 | on bucket names the comparator is negative iff the first month is chronologically earlier, zero iff same month: year first, then calendar month, never string order |
| Ranking.TallyStep | components/watch-history-analytics.tsx:232-237 | creating a missing key at 0 and adding one keeps the map equal to the keys seen, each with its multiplicity, and the key order equal to the order of first sight |
| Ranking.FirstSeenSpec | components/watch-history-analytics.tsx:232-234 | the insertion order of a counting map lists each key seen exactly once and nothing else |
| Ranking.EntriesAreTally | components/watch-history-analytics.tsx:242 | the values of a counting map fed a key list, in insertion order, are exactly the tally of that list |
| Ranking.TallySpec | components/watch-history-analytics.tsx:227-239 | the tally of a key list has distinct keys, holds only keys of the list with their multiplicities, and holds every key of the list |
| Ranking.FrequentEntries | components/watch-history-analytics.tsx:216-217 | the tally entries passing `count > threshold` are exactly the keys occurring more often than the threshold, each with its multiplicity |
| Ranking.TopByCountSpec | components/watch-history-analytics.tsx:292-294 | stable sort by descending count then truncation: as long as the input or n, whichever is shorter, non-increasing, taken from the input with distinct keys, every entry left out outnumbered by all n shown, and for each count the kept entries are a prefix of the input's entries with that count |
| Ranking.TopByCountStable | components/watch-history-analytics.tsx:292-294 | for every count, ranking and truncating keeps a prefix of the input's entries with that count, in input order |
| Ranking.RankedTallySpec | components/watch-history-analytics.tsx:216-219 | filtering a complete tally by a threshold, then ranking, yields distinct keys whose counts are their multiplicities above the threshold, with the completeness guarantee |
| Ranking.SumCountsOfTally | components/watch-history-analytics.tsx:227-239 | the counts of a complete tally over a list sum to the list's length |
| Sorting.SortBy | components/watch-history-analytics.tsx:293 | the sort returns a permutation of its input, ordered by the key |
| Sorting.SortByStable | components/watch-history-analytics.tsx:293 | the sort is stable: for every key value, the elements with that key come out in their input order |
| Sorting.InsertStable | components/watch-history-analytics.tsx:293 | inserting into a sorted list places the element before the elements already there with its key |
| Sorting.WithKeyOfPrefix | components/watch-history-analytics.tsx:294 | a prefix of a list keeps, for every key value, a prefix of the elements with that key |
| AnalyticsUtils.EmptyMonth | lib/analytics-utils.ts:26-28 | a new bucket starts with all four counters at zero |
| AnalyticsUtils.Bump | lib/analytics-utils.ts:30-32 | one record raises its own counter and the total by one and leaves the other counters alone |
| AnalyticsUtils.ActivityStep | lib/analytics-utils.ts:22-33 | one record keeps every bucket equal to its month's counts of the three kinds and their sum, creating a bucket only on first sight |
| AnalyticsUtils.AddActivity | lib/analytics-utils.ts:36-47 | one of the three loops extends the tally by all records of its kind |
| AnalyticsUtils.GenerateMonthlyActivityData | lib/analytics-utils.ts:13-75 | one bucket per month any record falls in, and only those; each bucket holds that month's likes, playlists and subscriptions with total their sum; buckets strictly chronological and strictly ordered by the name comparator; summed over buckets each counter equals its input's length and the totals equal all three lengths |
| AnalyticsUtils.MonthlyTotals | lib/analytics-utils.ts:58-61 | for buckets holding the expected counts, each counter sums to its input's length and the totals to the sum of lengths |
| AnalyticsUtils.GenerateActivityBreakdownData | lib/analytics-utils.ts:80-90 | three slices named Likes, Playlists, Subscriptions in that order, in three distinct colors, valued at the number of liked videos, playlists and subscriptions |
| AnalyticsUtils.BreakdownMatchesMonthly | lib/analytics-utils.ts:85-89 | each pie slice equals its counter summed over the monthly buckets, and the slices together equal the summed totals |
| YouTubeErrors.ErrorData | lib/youtube.ts:71-72 | the API error object is present exactly when response, data and error all are |
| YouTubeErrors.ExtractYouTubeAPIError | lib/youtube.ts:46-85 | message never empty, status never 0; with an API error object: its non-empty message else the default, its non-zero code else the non-zero response status else 500, and the object as details; without: the thrown non-empty message else the default, 500, no details |
| YouTubeSchema.VideoIdOf | app/api/youtube/liked-videos/route.ts:81 | the item's video id is "" exactly when it has no non-empty `contentDetails.videoId` |
| LikedVideosRoute.VideoIds | app/api/youtube/liked-videos/route.ts:58-60 | no id is empty, and there are no more ids than items |
| LikedVideosRoute.VideoIdsAppend | app/api/youtube/liked-videos/route.ts:58-60 | the id list distributes over concatenation of items, so order is kept |
| LikedVideosRoute.VideoIdsMembership | app/api/youtube/liked-videos/route.ts:58-60 | an id is listed iff it is non-empty and some item carries it |
| LikedVideosRoute.IdIndexSpec | app/api/youtube/liked-videos/route.ts:71-76 | the details map holds exactly the non-empty ids of the returned videos, each mapped to the last video carrying it |
| LikedVideosRoute.BuildVideoDetails | app/api/youtube/liked-videos/route.ts:71-76 | the `reduce` loop builds exactly that index |
| LikedVideosRoute.DetailOf | app/api/youtube/liked-videos/route.ts:82 | a detail is found iff the video id is non-empty and in the map |
| LikedVideosRoute.BestThumbnail | app/api/youtube/liked-videos/route.ts:89-91 | the high thumbnail url when present, else the medium one, else the default one, else "" |
| LikedVideosRoute.ToLikedVideo | app/api/youtube/liked-videos/route.ts:80-102 | every field is the item's own non-empty value or its fallback: id, description and publishedAt else ""; title else "Untitled Video"; channel title, then owner channel title, else "Unknown Channel"; channel id, then owner channel id, else ""; thumbnail the best one; with details: duration and category from the video else "", each of the three counts from its statistics else "0"; without details: "" and "0" |
| LikedVideosRoute.JoinFindsVideo | app/api/youtube/liked-videos/route.ts:71-82 | an item whose id is carried by a returned video gets that video's details, from the last video with that id |
| LikedVideosRoute.LikedVideosErrorMessage | app/api/youtube/liked-videos/route.ts:121-128 | 404 and 403 get their fixed texts; every other status gets the authorization prefix, the message and the suffix |
| LikedVideosRoute.ErrorResponse | app/api/youtube/liked-videos/route.ts:112-133 | an API failure keeps the extracted status (never 0) and details, with a non-empty message |
| LikedVideosRoute.GetLikedVideos | app/api/youtube/liked-videos/route.ts:18-142 | a session failure is 401 with its text; no session or token is 401 with no API call; a thrown list call is the classified error; missing or empty items give the empty-list message; otherwise one record per item in order, joined with the details when any id exists; a response status is never 0 |
| WatchHistoryRoute.ToHistoryRecord | app/api/youtube/watch-history/route.ts:38-47 | every field is the item's own non-empty value or its fallback: id and description else ""; title else "Untitled Video"; publishedAt else the current time; owner channel title else "Unknown Channel"; owner channel id else ""; thumbnail the default url, else the medium one, else "" |
| WatchHistoryRoute.FirstReason | app/api/youtube/watch-history/route.ts:59-60 | a first error exists iff details carry a non-empty `errors` |
| WatchHistoryRoute.ClassifyError | app/api/youtube/watch-history/route.ts:55-70 | authError, forbidden and insufficientPermissions give 403 and the authorization message; playlistNotFound gives 404 and its fixed text; any other reason or none keeps the extracted status and message |
| WatchHistoryRoute.ClassifiedErrorIsComplete | app/api/youtube/watch-history/route.ts:51-75 | the status sent is never 0, the message never empty, and the "Access denied" fallback never applies |
| WatchHistoryRoute.GetWatchHistory | app/api/youtube/watch-history/route.ts:12-77 | 401 exactly when there is no session or token; missing items give an empty list; otherwise one record per item in order; a thrown list call gives the classified status and message with the extracted details |
| Middleware.SecurityHeaders | middleware.ts:67-85 | the four base headers always, and Strict-Transport-Security and Content-Security-Policy with their values iff production; no other header |
| Middleware.SecurityHeaderCount | middleware.ts:67-85 | six headers in production, four otherwise |
| Middleware.ResponseHeaders.Set | middleware.ts:68 | setting a header adds it or replaces its value and changes nothing else |
| Middleware.AddSecurityHeaders | middleware.ts:64-85 | after the header block the response holds its earlier headers overlaid with exactly the security headers for the environment |
| Middleware.Decide | middleware.ts:10-88 | the request goes on iff the path is public or the token has a non-empty email; public paths get no headers; a failed lookup redirects to "/?error=auth_error", no token to "/", a token without email to "/?error=invalid_token" |
| Middleware.HandleRequest | middleware.ts:10-88 | the middleware's outcome is exactly the decision |
| SessionSecurity.CookieName | lib/session-security.ts:21-24 | a segment has a name iff its trimmed text has '=' after the first character; the name is non-empty, holds no '=', and is exactly the trimmed text up to its first '=' |
| SessionSecurity.PrefixThroughSeparator | lib/session-security.ts:23 | a string starts with its text before an '=' followed by that '=' |
| SessionSecurity.CookieDomain | lib/session-security.ts:16-17 | the cookie domain is empty iff the host is "localhost" or empty |
| SessionSecurity.ExpirationLines | lib/session-security.ts:29-39 | four expiration lines with a domain, two without; the plain one first and the `__Secure-` one last |
| SessionSecurity.AuthCookieNames | lib/session-security.ts:20-28 | every name expired looks like auth state and is non-empty; at most one per segment |
| SessionSecurity.AuthCookieNamesComplete | lib/session-security.ts:20-28 | every segment whose name looks like auth state has that name expired |
| SessionSecurity.ExpireAuthCookies | lib/session-security.ts:15-42 | the cookie writes are the expiration lines of the auth cookie names, segment by segment in order |
| SessionSecurity.DomainLinesOnlyOffLocalhost | lib/session-security.ts:17-36 | domain-scoped lines are written iff the host is neither "localhost" nor empty |
| SessionSecurity.WebStorage.Key | lib/session-security.ts:46-47 | `key(i)` is null exactly past the end, else the i-th key |
| SessionSecurity.WebStorage.RemoveItem | lib/session-security.ts:57 | removing a key drops it and its value, keeps every other key in place with its value, and keeps keys distinct |
| SessionSecurity.DropMembers | lib/session-security.ts:57 | after removal exactly the keys not removed remain |
| SessionSecurity.DropTwice | lib/session-security.ts:73 | removing keys one after another equals removing them all at once |
| SessionSecurity.CollectAuthKeys | lib/session-security.ts:45-56 | the collecting loop gathers exactly the auth keys, in storage order |
| SessionSecurity.RemoveEach | lib/session-security.ts:57 | removing each collected key removes exactly those keys and their values |
| SessionSecurity.PurgeAuthKeys | lib/session-security.ts:44-57 | afterwards a key remains iff it was there and is not an auth key; remaining keys keep their order and values |
| SessionSecurity.ClearAuthStorage | lib/session-security.ts:11-78 | without a window nothing changes; with one, the cookie writes, and both storages lose exactly their auth keys and keep all else |
| SessionSecurity.ToInt32 | lib/session-security.ts:110 | the result is a signed 32-bit value congruent to the input modulo 2^32 |
| SessionSecurity.ToInt32Congruent | lib/session-security.ts:109-110 | numbers congruent modulo 2^32 wrap to the same value |
| SessionSecurity.HashStepIsTimes31 | lib/session-security.ts:109-110 | `((h << 5) - h) + c` then `h & h` equals `31 * h + c` wrapped to 32 bits |
| SessionSecurity.HashString | lib/session-security.ts:106-112 | the hash loop computes the left fold from 0 of `31 * h + c` wrapped to signed 32 bits |
| SessionSecurity.Base36RoundTrip | lib/session-security.ts:114 | the base-36 text of a natural number parses back to it |
| SessionSecurity.ToString36RoundTrip | lib/session-security.ts:114 | the signed base-36 text parses back to the hash |
| SessionSecurity.GetBrowserFingerprint | lib/session-security.ts:84-118 | "" without a window or on failure; otherwise the non-empty base-36 text of the string hash |
| Text.ContainsSpec | lib/session-security.ts:27-28 | `includes` holds iff the substring occurs at some position |
| Text.SplitJoin | lib/session-security.ts:20 | joining the pieces of `split` with the separator gives back the string |

## Left out

- I/O is not modelled: FileReader, `JSON.parse`, `NextResponse`, the console, `document.cookie` assignment and `fetch`. Cookie writes are returned as a sequence of strings, in order.
- Date parsing is an input. `new Date`, the local time zone, `getHours`, `getFullYear` and `toLocaleString('default')` are a trusted parser. English short month names are assumed. An unparsable timestamp, which makes `hourCounts[NaN]` throw and is then swallowed, is not modelled.
- `NaN` results from `parseInt` and `indexOf` in the comparators cannot arise on the model's bucket names, which always have the form "Mon YYYY".
- WatchHistoryAnalytics.GenerateMonthlyWatchData keys its map by the month value rather than by the label string. `Calendar.CompareLabels` proves that two labels are equal only for the same month, so the buckets are the same.
- AnalyticsUtils.GenerateMonthlyActivityData keys its buckets by month in the same way.
- WatchHistoryAnalytics.GenerateWordCloudData does not state the order among keywords with equal counts. The model counts words in order of first sight, as a `Map` does; `Object.entries` on the plain object lists integer-like keys such as "2024" first, in numeric order, and that order is not modelled.
- WatchHistoryAnalytics.GenerateWordCloudData assumes ASCII: `toLowerCase` and `\w` are modelled over ASCII letters only.
- JSON values that are not strings are not modelled; for example, a numeric `title` is treated as an absent title.
- Floating point and clocks are not modelled:
  - `formatNumber`;
  - `averageVideosPerDay`;
  - the word-cloud font sizes.
- The charts, React state and the rest of the UI are outside the model.
- WatchHistoryRoute.GetWatchHistory takes the current time as a non-empty string input. It stands for `new Date().toISOString()`.
- The session lookup in the watch-history route throwing is not modelled, since that route has no handler for it.
- The response fields `pageInfo`, `nextPageToken` and `prevPageToken` are not modelled.
- `JSON.stringify` of the error in `extractYouTubeAPIError` only logs, and is not modelled. A thrown `null`, or a value that is not an object, is not modelled.
- A video id equal to an inherited property name reads from the `videoDetails` object's prototype chain. Every field read from such a value is undefined, the same as for a missing detail; the model treats the object as a map.
- Middleware: `Headers` lower-cases names, and the model keeps them as written. The `config.matcher` routing is not modelled. Redirect URLs are kept relative to the request URL. The production-only logging is not modelled.
- Session clean-up:
  - Any exception in the storage APIs is not modelled.
  - The two storages are distinct objects, as `localStorage` and `sessionStorage` are in a browser.
  - Key order in a storage is modelled as a sequence.
- Fingerprint: the fields `JSON.stringify` assembles from `navigator`, `screen`, `Intl` and the date are not modelled. Their JSON text is an input, as UTF-16 code units.
- `enhancedSignOut` (fetch, timers and redirect) is not modelled: it is asynchronous I/O.

## Findings

| source | as written | input that shows it | evidently intended | confidence | as-written member | corrected member |
|---|---|---|---|---|---|---|
| components/watch-history-analytics.tsx:192-217 | words are counted in a plain object literal, so `wordFrequency["constructor"]` first reads the inherited `Object` function; `(fn \|\| 0) + 1` becomes a string, which `count > 3` rejects; `"__proto__"` is never stored at all | four watched videos titled "constructor" | the keyword "constructor" is counted 4 times and appears in the word cloud | not executed | WatchHistoryAnalytics.ConstructorDropped | WatchHistoryAnalytics.GenerateWordCloudData |
