# Prediction list — a Dafny model

`app.js` is a browser script that shows a list of football match
predictions. It starts from five built-in sample records, replaces them by
the records a predictions endpoint returns when it answers, and on every
change of the navigation filter, the search box or the limit selector
re-renders the list: it keeps the matches of today, tomorrow or the weekend,
keeps those whose league or team names contain the search text (ignoring
case), sorts them by match time and shows at most `limit` of them. Small
helpers compare calendar days, format a date, describe how long until kick-off
and escape text for HTML.

This project models that core and proves what it promises:

- `wrappers.dfy` — `Option`.
- `text.dfy` — the string operations the script relies on: `trim`
  (ECMAScript white space and line terminators), `toLowerCase` on ASCII
  letters, `includes`, and `parseInt(…, 10)` with the decimal rendering of
  integers it reads back. The script never upper-cases; `ToUpper` is there
  only to state that the search ignores the case of what is typed.
- `calendar.dfy` — instants as epoch milliseconds, the local calendar date
  at a fixed zone offset (proleptic Gregorian), `isSameDay`, the day after,
  the weekday.
- `format.dfy` — `pad`, `formatDate`, `timeAgoOrDate`, `escapeHtml`.
- `records.dfy` — the record, the fetched payload (whose array elements may
  be `null`), the normalisation of the payload and the sample records.
- `sequences.dfy` — `filter` and `slice(0, end)` on sequences.
- `sorting.dfy` — the sort by match time: a functional stable insertion
  sort as the specification and an in-place insertion sort on an array
  proved equal to it.
- `view.dfy` — `render`'s derivation of the displayed list, as a function
  and as the step-by-step method mirroring `render`.
- `controller.dfy` — the module-level state (`dataStore`, `currentFilter`,
  the two inputs, the shown cards and the empty state) as a class whose
  methods are `render`, `loadPredictions`, the navigation click and the two
  input events.

Inputs the script takes from the environment are parameters: the current
instant and the local zone offset (`Clock`), the text of the search box and
the limit selector, the outcome of the fetch, the `data-filter` attribute of
a clicked button, and the five sample match times.

Behaviour of the code worth knowing, which the model follows:

- a filter name other than `today`, `tomorrow` and `weekend` filters nothing;
- a payload with status `"ok"` and an empty `predictions` array replaces the
  samples, so the list becomes empty;
- a `null` or `undefined` element in the `predictions` array makes the
  normalisation throw, and the samples stay;
- a limit that `parseInt` cannot read (`NaN`) shows nothing, `0` shows
  nothing, and a negative limit drops that many records from the end;
- a defaulted id (`index + 100`) can equal an id the payload supplies
  (`Records.DefaultIdCanCollide`).

## Model

| member | source | states |
|---|---|---|
| Records.SampleData | app.js:20-26 | five sample records with ids 1 to 5, the given match times and every text field present |
| Records.Accepted | app.js:47 | an accepted outcome is an answer that carries a `predictions` array |
| Records.Objects | app.js:49-50 | the elements read as records exactly when none is `null` or `undefined`, one record per element in order |
| Records.Normalize | app.js:49-57 | one record per payload element, same order and length; the id is the supplied one or `index + 100`; every other field is copied unchanged |
| Records.NormalizeToRaw | app.js:49-57 | normalising records that already carry ids gives them back unchanged |
| Records.DefaultIdsDistinct | app.js:50 | without supplied ids the ids are `100, 101, …` in order and pairwise distinct |
| Records.DefaultIdCanCollide | app.js:50 | a missing id at index 0 and a supplied id 100 give two records with id 100 |
| Calendar.LocateYear | app.js:139 | the returned year contains the day number, at a day-of-year within that year's length |
| Calendar.YearOfDayUnique | app.js:139 | no other (year, day-of-year) pair places the same day number inside its year, so the year `LocateYear` returns is the only one |
| Calendar.YearStartGrows | app.js:139 | every later year starts after an earlier year ends |
| Calendar.LocateMonth | app.js:139 | a day-of-year lies in a month of that year, at a day between 1 and the month's length |
| Calendar.DateOfDay | app.js:139 | the calendar date of a day number is valid and maps back to the same day number |
| Calendar.LocalDate | app.js:139 | the local date of an instant is a valid date (month 0 to 11, day within that month's length) whose day number is the instant's local day |
| Calendar.IsSameDay | app.js:138-140 | two instants have equal year, month and date exactly when they fall on the same local day |
| Calendar.NextDay | app.js:77 | in every zone, one day after `now` is the next local day at the same local time of day |
| Calendar.TodayAndTomorrowDisjoint | app.js:74-78 | no instant is on both today and tomorrow |
| Calendar.SaturdayThenSunday | app.js:82-83 | the day after a Saturday (6) is a Sunday (0) |
| Calendar.Weekday | app.js:82 | the weekday is between 0 (Sunday) and 6 (Saturday) |
| Calendar.Hours | app.js:145 | the local hour is between 0 and 23 |
| Calendar.Minutes | app.js:145 | the local minute is between 0 and 59 |
| Format.Pad | app.js:141 | from 0 to 99 the result is exactly the two digits of `n`, with a leading zero below 10; from 100 on the plain decimal |
| Format.PadReadsBack | app.js:141 | the padded text of 0..99 parses back to the number |
| Format.MonthIndex | app.js:144 | a recognised month abbreviation is the name of that month |
| Format.MonthIndexOfName | app.js:144 | every month's abbreviation is recognised as that month |
| Format.FormatDate | app.js:142-146 | the text is 14 characters: the abbreviation of the local month, a space, the padded local day, ` • `, the padded local hour, `:`, the padded local minute |
| Format.FormatDateReadsBack | app.js:142-146 | month, day, hour and minute read back from the text are the local date and time of the instant |
| Format.TimeAgoOrDate | app.js:147-150 | the label is `Started` exactly when the match time has passed |
| Format.CountLabel | app.js:152-154 | the label is `String(n)` followed by its unit, so at least two characters and never `Started` |
| Format.TimeAgoMeaning | app.js:147-155 | otherwise the label is `String(n)` of a count `n` that is never negative, followed by `h` exactly below a day with `n` the whole hours left, else by `d` with `n` the whole days left, at least 1 |
| Format.ReplaceAllAppend | app.js:158 | `replaceAll` of a concatenation is the concatenation of the replacements |
| Format.ReplaceAllAbsent | app.js:158 | `replaceAll` of an absent character changes nothing |
| Format.ReplaceAllRemoves | app.js:158 | after `replaceAll` the character is gone unless the replacement brings it back |
| Format.FourPassesEscape | app.js:158 | the four chained `replaceAll` passes escape each character on its own, `&` first so no entity is escaped twice |
| Format.EscapeTextIsEscaped | app.js:158 | escaped text has no `<`, `>` or `"`, and every `&` begins one of the four entities |
| Format.UnescapeEscapeText | app.js:158 | decoding the four entities gives back the original text |
| Format.EscapeHtml | app.js:156-159 | a falsy value other than `0` gives `''`; any other value gives its `String(...)` text with every character escaped on its own |
| Format.EscapeHtmlSafe | app.js:156-159 | a falsy value other than `0` gives `''`; every result is escaped; any other value round-trips to its `String(...)` text |
| Text.TrimStart | app.js:68 | removes exactly the leading white space |
| Text.TrimEnd | app.js:68 | removes exactly the trailing white space |
| Text.Trim | app.js:68 | the result is a slice of the input with white space only around it, not starting or ending in white space, and empty exactly for all-white-space input |
| Text.TrimOfUntrimmed | app.js:68 | a non-empty text that neither starts nor ends with white space trims to itself |
| Text.ToLower | app.js:68 | same length, no upper-case ASCII letter, each character lower-cases to the input's |
| Text.LowerAppend | app.js:68 | lower-casing distributes over concatenation |
| Text.LowerOfLowerCase | app.js:68 | a text without upper-case letters lower-cases to itself |
| Text.LowerAvoids | app.js:68 | a lower-case letter absent from a text in both cases is absent from its lower-cased form |
| Text.LowerOfUpper | app.js:68 | lower-casing forgets case: a text and its upper-cased form lower-case alike (a step towards `View.QueryIgnoresCase`) |
| Text.TrimUpper | app.js:68 | trimming commutes with upper-casing (a step towards `View.QueryIgnoresCase`) |
| Text.Includes | app.js:90-92 | `includes` holds only for a query no longer than the text, and holds whenever the text starts with the query |
| Text.IncludesIffOccurs | app.js:90-92 | `includes` holds exactly when the query occurs at some index |
| Text.IncludesEmpty | app.js:90-92 | every text includes the empty query |
| Text.NotIncludesSplit | app.js:90-92 | a text whose first part lacks the query's first character and whose second part lacks its second character does not include the query |
| Text.DigitPrefix | app.js:69 | the longest prefix made of digits |
| Text.ParseIntMeaning | app.js:69 | `parseInt` gives `NaN` exactly when no digit follows the leading white space and optional sign; a negative result needs a leading minus; a text starting with a digit reads as a number of at least 0 |
| Text.ParseDigits | app.js:69 | a non-empty run of digits parses to its decimal value |
| Text.ParseNegative | app.js:69 | a minus sign followed by digits parses to the negated value of the digits |
| Text.ParseDecimalString | app.js:69 | `parseInt` reads back the decimal text of every integer |
| Text.DigitsValueOfDigits | app.js:69 | the decimal digits of `n` have value `n` |
| Text.DecimalString | app.js:141 | `String(n)` of an integer starts with a minus sign exactly when `n` is negative; the rest is a non-empty run of digits with no leading zero, just `0` for zero, whose value is the magnitude of `n` |
| Sequences.Filter | app.js:75 | no longer than the input and every kept element passes the test |
| Sequences.FilterCounts | app.js:75 | each element is kept as often as it occurs when it passes, else never |
| Sequences.FilterMembers | app.js:75 | an element is kept exactly when it occurs and passes |
| Sequences.FilterIsSubsequence | app.js:75 | the kept elements keep their relative order |
| Sequences.FilterAppend | app.js:75 | filtering distributes over concatenation |
| Sequences.FilterKeepsThird | app.js:89 | filtering five elements of which only the third passes leaves the third alone |
| Sequences.Truncate | app.js:100 | `slice(0, limit)` is a prefix: empty for `NaN`, `min(limit, n)` long for a non-negative limit, `n + limit` (at least 0) for a negative one |
| Sorting.InsertMultiset | app.js:97 | inserting adds exactly the one record and lengthens the list by one |
| Sorting.InsertSorted | app.js:97 | inserting into a sorted list keeps it sorted and adds exactly the one record |
| Sorting.SortByDateSorted | app.js:97 | the sorted list is in non-decreasing match-time order |
| Sorting.SortByDatePermutes | app.js:97 | the sorted list is a permutation of the input |
| Sorting.SortByDateStable | app.js:97 | records with equal match times keep their relative order |
| Sorting.SortByDateOfSorted | app.js:97 | sorting an already sorted list changes nothing |
| Sorting.InsertLast | app.js:97 | shifting `a[i]` left into the sorted `a[..i]` inserts it and leaves the rest of the array alone |
| Sorting.SortInPlace | app.js:97 | sorting the array in place leaves exactly the stable sort of its old contents |
| View.DateFilterOf | app.js:74-85 | every name other than `today`, `tomorrow` and `weekend` selects no filtering |
| View.ApplyDateFilter | app.js:74-85 | no longer than the input, every kept record passes the date filter, and `all` keeps the input |
| View.QueryOf | app.js:68 | the query is no longer than the box text, has no upper-case letter, and is empty exactly when the box holds only white space |
| View.MatchesQuery | app.js:89-93 | the empty query matches every record |
| View.ApplySearch | app.js:88-94 | no longer than the input, every kept record matches the query, and the empty query keeps the input |
| View.LimitOf | app.js:69 | an empty limit selector means 20; any other value is what `parseInt` reads |
| View.ParseTwenty | app.js:69 | `parseInt('20', 10)` is 20 |
| View.Found | app.js:72-94 | the records left after filtering and searching are no more than the store, all match the query, and are the store itself with no filter and an empty query |
| View.DerivedView | app.js:67-100 | the displayed list is a prefix of the matches sorted by match time |
| View.SortItems | app.js:97 | sorting the records as an array gives the stable sort |
| View.DeriveView | app.js:67-100 | `render`'s step-by-step derivation yields the displayed list as the filter, search, sort and slice define it |
| View.DateFilterKeeps | app.js:74-85 | the date filter keeps exactly the accepted records, each as often as it occurs, in order; `all` keeps the list as is |
| View.KeptByDateMeaning | app.js:74-85 | `today` keeps the local day of now, `tomorrow` the day after, `weekend` weekdays 6 and 0 |
| View.SearchKeeps | app.js:88-94 | an empty query keeps everything; otherwise exactly the records whose league or team names contain the query, in order |
| View.BlankQueryKeepsAll | app.js:68-94 | a search box holding only white space keeps every record |
| View.QueryIgnoresCase | app.js:68 | upper-casing the search text does not change the query |
| View.QueryOfLiga | app.js:68 | typing `Liga` searches for `liga` |
| View.LigaLeagueMatches | app.js:89-90 | a record whose league ends in `Liga` matches `liga` |
| View.NoLigaRecord | app.js:89-93 | a record whose league and team names cannot contain `liga` in any case does not match it |
| View.SampleMatchesLiga | app.js:20-26 | of the five sample records exactly the third (`La Liga`) matches `liga` |
| View.SamplesMatchingLiga | app.js:88-94 | searching the samples for `liga` keeps the `La Liga` record alone |
| View.SearchLigaInSamples | app.js:68-94 | typing `Liga` in the search box over the samples shows the `La Liga` record and no other |
| View.DerivedViewSound | app.js:67-100 | every displayed record is in the store, passes the date filter and matches the query, and the list is sorted by match time |
| View.DerivedViewLength | app.js:69-100 | the displayed list is a prefix of a permutation of the matches, `min(limit, n)` long for a non-negative limit, all matches when they fit, empty for `NaN` |
| View.EmptyViewMeaning | app.js:100-107 | the empty state shows exactly when nothing matches, the limit is `NaN` or 0, or a negative limit drops every match |
| Controller.Display | app.js:100-109 | the cards are the derived list, and the empty state is visible exactly when that list is empty |
| Controller.PredictionList.constructor | app.js:17-26 | the samples are the five sample records, the store starts empty and the filter starts as `all` |
| Controller.PredictionList.Render | app.js:67-110 | the cards are the derived list and the empty state is visible exactly when it is empty; only the cards and the empty state change |
| Controller.PredictionList.LoadPredictions | app.js:37-64 | the store ends as the normalised payload when the answer is accepted and no element is `null`, otherwise as the samples; the page shows the store as of the last render; the filter and the inputs do not change |
| Controller.PredictionList.SelectFilter | app.js:167-174 | the filter becomes the button's tag, or `all` when it has none, and the page shows the new state; the store and the inputs do not change |
| Controller.PredictionList.Search | app.js:162 | the search text changes and the page shows the new state; nothing else changes |
| Controller.PredictionList.ChangeLimit | app.js:163 | the limit changes and the page shows the new state; nothing else changes |

## Left out

- Fetching, `async`/`await` and JSON parsing: the fetch is one `FetchOutcome` parameter (network error, non-OK status or a non-object body are all `Failed`).
- The DOM: element lookup, `innerHTML`, class lists; the shown cards are the list of records and the empty state is a boolean.
- `renderCard`'s markup: the model shows records, not HTML; its `aria-label` inserts the team names without escaping, so the model does not claim every field of a card is escaped.
- The mobile sidebar toggles, the Escape key handler and the active-button styling of the navigation buttons: they change no state the list reads.
- `debounce`: the search event renders at once; the delay and the cancelling of earlier timers are not modelled.
- `getFutureDateISO` and `new Date()`: the wall clock, and the sample match times it computes, are parameters.
- Time zones: local time is the instant plus a fixed zone offset; daylight-saving changes are not modelled, so `NextDay` is always 24 hours later.
- Dates that do not parse: every record's match time is a valid instant; `new Date` of a missing or malformed `match_date` (an invalid date, which sorts and compares as `NaN`) is not modelled.
- Text.ToLower: lower-cases ASCII letters only, not the full Unicode case mapping of `toLowerCase`.
- Text.ToUpper: upper-cases ASCII letters only.
- Text.ParseInt: returns the exact integer of the digits read; the rounding of `parseInt` to a double for more than 15 significant digits is not modelled.
- Format.Pad: states no result for a negative number (the script's `pad` would give `0-5`); it is only called on a day, an hour or a minute, which are never negative.
- Format.EscapeHtmlSafe: the values it takes are `undefined`, `null`, booleans, integers and strings; non-integer numbers, `NaN` and objects are not modelled.
- Format.EscapeHtml: a `Number` is an unbounded integer written out digit by digit; JavaScript numbers hold integers exactly only up to 2^53 and `String` switches to exponent notation from 1e21, so the text of larger numbers is not modelled.
- Records.Objects: an array element that is a number, string or boolean is not modelled; `p.id` does not throw on it and it would yield a record with every field missing.
- Records.Normalize: payload fields are taken as strings or missing; other JSON types in a text field are not modelled.
- The stray `<script>` block at the end of the file is not part of the program's behaviour.
