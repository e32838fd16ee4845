# Weather app core: forecast aggregation and the saved-cities list

A verified Dafny model of the two pieces of logic in this Next.js weather client that do
more than render:

- **Forecast aggregation** (`app/page.tsx`, module `Forecast`). It takes the record list of a
  five-day forecast (`forecast.list`) and builds two views:
  - the "today" strip: records whose day of the month is today's, at most six, in input order;
  - the weekly summary. Records are bucketed by weekday name in an insertion-ordered `Map` by a
    `forEach` loop (`GroupByWeekday`, proved equal to the fold `ByDay`). The first seven buckets
    are kept, each with a capitalised label, the first record's icon, and the max and min
    temperature. The mobile chart shows the first three days.
- **The saved-cities list** (`app/ciudades/page.tsx`). Module `Cities` holds the city record,
  the storage slot and the pure list transforms. Module `CityLookup` holds query trimming,
  the entry id, shaping of the weather service's answer and resolution of the default cities.
  Module `CitiesPage` has a class with the page's state (`query`, `cities`, `error` and the
  `localStorage["ciudades"]` slot) and one method per handler: boot, search-and-add, delete,
  drag-reorder, and the storage-sync effect. Every change of the list is written through to
  storage; `Mirrored()` states that storage holds exactly the list.

`wrappers.dfy` (Option) and `seqs.dfy` (`filter`, `map`, `slice(0, n)` and null-dropping as
functions, with their order lemmas) are shared helpers.

In these places the code does something easy to miss, and the model follows it:

- The weekly buckets are keyed by the **weekday name** (`toLocaleDateString` with
  `weekday: "long"`), not by the calendar date. Two records exactly a week apart share a
  bucket (`ByDayTemps` puts every record with an equal key in the same bucket).
- The today filter compares only `getDate()`, the day of the month.
- The week view keeps the first seven buckets (app/page.tsx:110). With a real locale there
  are only seven weekday names, so this cap never drops a bucket. It matters only for a
  `Calendar` with more names, which is the case `DaysKeepEarliest` describes.
- A stored blob that is not JSON makes `JSON.parse` throw inside `init`. Boot then stops:
  no defaults are fetched, the list stays empty and the blob stays in storage. It does not
  fall back to the defaults (`CitiesPage.CitiesPage.Init`, case `Malformed`). Only a missing
  blob, JSON that is not an array, or an empty array lead to the defaults.
- Delete removes **every** entry with the given id (`filter`), not only the first.
- Reorder uses `arrayMove`: remove the dragged entry at its index, then insert it at the
  index of the drop target. So `[A, B, C]` with A dropped on C gives `[B, C, A]`.

The locale is a parameter. The `Calendar` datatype gives the day of the month, the weekday
name and the time-of-day text of an instant, and the model treats them as opaque. The weather
service is a parameter too: `lookup(name)` is its answer to a request for `name`. The clock
is `now`.

## Model

| member | source | states |
|---|---|---|
| `Forecast.Records` | app/page.tsx:85 | a missing forecast or a missing `list` gives no records; otherwise the list itself |
| `Forecast.TodayItems` | app/page.tsx:85-99 | at most 6 items; each is the hour item of an input record whose day of month equals now's |
| `Forecast.TodayItemsArePrefix` | app/page.tsx:85-99 | the strip has min(6, #matching) items; the i-th is the hour item of the i-th matching record (a prefix of the filtered sequence, in input order) |
| `Forecast.TodayRecordsKeepOrder` | app/page.tsx:86-90 | the today filter distributes over concatenation, so it keeps input order |
| `Forecast.IconUrlInjective` | app/page.tsx:98 | the icon code can be recovered from the icon URL: different icons give different URLs |
| `Forecast.ByDay` | app/page.tsx:101-108 | the insertion-ordered map has no repeated key, its key list and key set agree, every bucket is non-empty, and its keys are exactly the weekday names of the records |
| `Forecast.GroupByWeekday` | app/page.tsx:101-108 | the `forEach` loop over the accumulator builds exactly `ByDay` of the records |
| `Forecast.ByDayTemps` | app/page.tsx:102-107 | each bucket holds exactly the temperatures of the records with its key, in input order |
| `Forecast.ByDayFirstIcon` | app/page.tsx:105 | a bucket's icon is that of the first record with its key; later records never change it |
| `Forecast.ByDayFirstSeenOrder` | app/page.tsx:101-109 | keys come out in first-seen order: an earlier key first appears earlier in the input |
| `Forecast.ByDayBucketSizesSum` | app/page.tsx:102-108 | the bucket sizes add up to the number of records (each record lands in exactly one bucket) |
| `Forecast.MaxOf` | app/page.tsx:114 | the maximum is one of the temperatures and no temperature exceeds it |
| `Forecast.MinOf` | app/page.tsx:115 | the minimum is one of the temperatures and no temperature is below it |
| `Forecast.Capitalize` | app/page.tsx:118-120 | same length; only the first character is upper-cased, the rest is unchanged; empty stays empty |
| `Forecast.CapitalizeIdempotent` | app/page.tsx:118-120 | capitalising a capitalised label changes nothing |
| `Forecast.Days` | app/page.tsx:109-116 | the week view has min(7, #distinct weekdays) days |
| `Forecast.DaysSummarise` | app/page.tsx:109-116 | day i has label = the i-th first-seen weekday capitalised, icon = the first record's icon, and min <= max, both temperatures of that weekday's records and bounding all of them |
| `Forecast.DaysKeepEarliest` | app/page.tsx:109-110 | a weekday left out of the week view first appears after every kept weekday |
| `Forecast.DaysDistinctKeys` | app/page.tsx:101-110 | no weekday is listed twice |
| `Forecast.MobileSubset` | app/page.tsx:167 | the mobile chart data is the prefix of the days of length min(3, #days) |
| `Forecast.EmptyForecastGivesEmptyViews` | app/page.tsx:85-116 | a missing forecast, a missing list or an empty list give an empty strip and an empty week, without error |
| `Forecast.SameDayExample` | app/page.tsx:101-116 | two records of one weekday at 20 and 25 degrees give one day with max 25, min 20 and the first record's icon |
| `Cities.RemoveId` | app/ciudades/page.tsx:213 | no survivor has the id; every entry without the id survives; only entries of the list remain |
| `Cities.RemoveIdKeepsOrder` | app/ciudades/page.tsx:213 | removal distributes over concatenation, so survivors keep their relative order |
| `Cities.RemoveUnknownId` | app/ciudades/page.tsx:213 | deleting an id no entry has leaves the list unchanged |
| `Cities.RemoveIdIdempotent` | app/ciudades/page.tsx:213 | deleting twice equals deleting once |
| `Cities.AddThenDelete` | app/ciudades/page.tsx:213-215 | appending a city and deleting its id gives the old list with that id removed |
| `Cities.FindIndex` | app/ciudades/page.tsx:162-163 | -1 exactly when no entry has the id; otherwise the first index whose entry has it |
| `Cities.ArrayMove` | app/ciudades/page.tsx:165 | same length; the dragged entry ends at the target index; taking it out again leaves the other entries as taking it out of the old list did |
| `Cities.ArrayMoveShifts` | app/ciudades/page.tsx:165 | position by position: entries between source and target shift one step towards the source; the others stay put |
| `Cities.ArrayMovePermutes` | app/ciudades/page.tsx:165 | a move is a permutation of the list |
| `Cities.ArrayMoveRoundTrip` | app/ciudades/page.tsx:165 | moving back from the target to the source undoes a move |
| `Cities.ArrayMoveExample` | app/ciudades/page.tsx:165 | in [A, B, C], dropping A on C gives [B, C, A] |
| `CityLookup.Trim` | app/ciudades/page.tsx:146 | `query.trim()`: the result is never longer than the query (its shape is stated by the two lemmas below) |
| `CityLookup.TrimIsSlice` | app/ciudades/page.tsx:146 | the trimmed query is a contiguous slice of the query that neither begins nor ends with white space |
| `CityLookup.TrimCutsSpace` | app/ciudades/page.tsx:146 | everything cut off before and after that slice is white space |
| `CityLookup.BlankQueryIsAllSpace` | app/ciudades/page.tsx:146 | the trimmed query is empty exactly when the query is all white space |
| `CityLookup.EntryId` | app/ciudades/page.tsx:110 | the id is the service's record number in decimal digits, a dash, then the clock reading in decimal digits |
| `CityLookup.EntryIdRoundTrip` | app/ciudades/page.tsx:110 | the service's record number and the clock reading can be read back from an entry id, so ids made at different times differ |
| `CityLookup.ShapeCity` | app/ciudades/page.tsx:109-115 | id from record number and clock; name is "name, country"; icon "01d" and description "despejado" when the first weather entry or its field is missing |
| `CityLookup.FetchCityWeather` | app/ciudades/page.tsx:96-119 | yields a city exactly when the API key is set and the answer is readable and ok; the city is the shaped answer; the missing-key error is set exactly when the key is missing |
| `CityLookup.ResolveDefaults` | app/ciudades/page.tsx:131-132 | the fallback list has at most 4 entries |
| `CityLookup.ResolveDefaultsInOrder` | app/ciudades/page.tsx:131-132 | the fallback list is exactly the shaped answers of the defaults that resolved, in `DEFAULT_CITY_NAMES` order; failed ones are dropped and no resolved one is |
| `CityLookup.FirstDefaultFails` | app/ciudades/page.tsx:131-132 | with Madrid failing and the other three resolving, the list is Barcelona, Bilbao, Málaga in that order |
| `CityLookup.DefaultsResolved` | app/ciudades/page.tsx:131-132 | each fallback entry is the shaped answer for a default name that resolved; without an API key the list is empty |
| `CityLookup.AllDefaultsResolve` | app/ciudades/page.tsx:131-132 | when every default resolves, the list is the four defaults in `DEFAULT_CITY_NAMES` order |
| `CitiesPage.CitiesPage.constructor` | app/ciudades/page.tsx:88-90 | the page mounts with an empty query, an empty list and no error |
| `CitiesPage.CitiesPage.SyncEffect` | app/ciudades/page.tsx:139-143 | a non-empty list is written to storage; an empty one leaves storage as it was |
| `CitiesPage.CitiesPage.Init` | app/ciudades/page.tsx:121-137 | a non-empty saved list is adopted verbatim and no error is set. A malformed blob changes nothing. Otherwise the list becomes the resolved defaults (at most 4), is stored, and the missing-key error is set when there is no key |
| `CitiesPage.CitiesPage.SetQuery` | app/ciudades/page.tsx:185 | typing changes only the query |
| `CitiesPage.CitiesPage.HandleSearch` | app/ciudades/page.tsx:145-157 | a blank query changes nothing. A failed lookup leaves list, storage and query unchanged and sets "Ciudad no encontrada". A found city is appended, stored, the error cleared and the query emptied. Storage mirroring is preserved |
| `CitiesPage.CitiesPage.Delete` | app/ciudades/page.tsx:212-216 | the list loses every entry with the id, keeps the rest, and storage mirrors it |
| `CitiesPage.CitiesPage.HandleDragEnd` | app/ciudades/page.tsx:159-170 | no target, a drop onto itself or an unknown id change nothing; otherwise the list is `arrayMove` from the dragged index to the target index and storage mirrors it |

## Left out

- Network I/O: the current-weather and forecast requests, geolocation and `fetchAll`
  (app/page.tsx:26-79), and the request in `fetchCityWeather`. Their answers are parameters.
- Chart.js charts (app/page.tsx:122-202), all JSX, the `components/*` files, dnd-kit's
  pointer sensing, and the pages app/mar/page.tsx and app/mapa/page.tsx. They are rendering,
  or logic outside this core.
- Locale formatting (`toLocaleDateString`, `toLocaleTimeString`, `getDate`) is opaque.
  It comes from the `Calendar` parameter.
- Forecast.TodayItems: the source builds a fresh `new Date()` for every record, so a filter
  running across midnight could compare against two different days. The model uses one `now`.
- Forecast.Capitalize: `toUpperCase` is modelled for ASCII and Latin-1 lower-case letters,
  including 'µ' (to Greek capital mu) and 'ÿ' (to U+0178). Other scripts, and expansions
  such as "ß" to "SS", are not modelled.
- Temperatures are `real`, so `NaN` and infinities are not modelled. Display rounding
  (`Math.round`, wind and UV arithmetic) is left out.
- A forecast record without `weather[0]` makes the page throw only where that field is read:
  when the record is one of the first six of today's records (app/page.tsx:98), or when it is
  the first record of its weekday (app/page.tsx:105; the `||` skips the read for later
  records). Any other such record renders normally and its temperature still lands in its
  bucket. The model's records always carry an icon, so neither throw is modelled.
- Storage holds the list itself, not its JSON text. A stored array whose elements are not
  city records is taken as a list of cities. Storage writes always succeed: quota errors
  are not modelled.
- CityLookup.FetchCityWeather: a readable answer that lacks `sys`, `main` or `id` is treated
  like a failed request. The record number is a natural number.
- CitiesPage.CitiesPage.Init: `Promise.all` runs the four default lookups concurrently,
  each reading its own `Date.now()`. The model uses one clock reading for all four.
- Asynchrony: the handlers are atomic here. The stale-closure and last-writer-wins races
  between an in-flight `handleSearch` and other handlers, and between `init` and user
  actions, are not modelled.
- Cities.ArrayMove: negative target indices are handled by `arrayMove` but never passed by
  `handleDragEnd`, which uses `findIndex` results checked against -1.
