# Movie catalogue and weather views — a Dafny model

This project models the data-shaping core of two small React front ends
kept in one repository: a movie/TV catalogue (CinemaVault) and a weather
dashboard (Nimbus). Nothing here renders, fetches or stores anything; the
model states what each view computes from the data it receives and what its
component state becomes, and proves the properties the code relies on.

Modelled, module by module:

- `JsValues` holds the JavaScript value semantics the views lean on. `Option` stands for `null`/`undefined`. It defines truthiness of strings and numbers, `||` and `??` with their defaults, and template-literal interpolation (where `undefined` prints as `"undefined"`).
- `Typings` is the catalogue's `Movie` record.
- `Modal` is the details modal:
  - the YouTube Trailer/Teaser/Clip filter and the six-step priority chain that picks the trailer;
  - the media-type, runtime and release-date fallbacks, and the ten-member cast slice;
  - a `ModalState` class for the component state. The "My List" flag is derived from a snapshot of the user's stored list, and `handleList` toggles it.
- `Catalogue` is the merge of category results (`flatMap`) and the removal of duplicate ids through a JavaScript `Map`. The `Map` is modelled as its keys in insertion order plus their entries.
- `MoviesPage` and `SeriesPage` are the two pages that store the de-duplicated merge. They are classes with a `movies` / `tvShows` field.
- `Search` is the movies-and-TV filter and the field-by-field normalisation of search results, plus the page's `searchResults`/`loading` state.
- `MyList` maps stored list documents to the records the grid shows. The page keeps its old list when the stored list is empty.
- `WeatherDetails` is `getWindDirection`, including JavaScript's truncating `%` and `Math.round`.
- `WeatherForecast` is the `reduce` that groups three-hourly entries into days, written as a loop over an accumulator map and its key order, then cut to six days.
- `HourlyTemperature` covers the first eight chart points and the y-axis domain, rounded outward to multiples of five and padded.
- `CitySearch` is the `lat | lon | name | country` item value, its decoding with `split(' | ')` (modelled character by character), and the selection handler that records history, closes the dialog and navigates.
- `ThemeUtils` reads and writes the theme in a key–value store, held as a class with a map field. `Header` models the theme toggle and the logo choice.

One precondition is sharper than "no field contains the separator". The
item value round-trips (`CitySearch.DecodeEncode`) when lat, lon and name
have no `" | "` and do not end in `" |"`, and the country has no `" | "`.
A field ending in `" |"` merges with the following separator's leading
space. `CitySearch.SepFreeIsNotEnough` exhibits such a value: latitude
`"1 |"` decodes as `"1"` and the longitude as `"| 2"`. Real coordinates
never end that way, so this is a limit of the encoding rather than a defect
the code runs into.

## Model

| member | source | states |
|---|---|---|
| Modal.Candidates | components/Modal.tsx:56-60 | a video is kept exactly when it is in the list, on YouTube and a Trailer, Teaser or Clip; the result is no longer than the input |
| Modal.CandidatesAppend | components/Modal.tsx:56-60 | the filter keeps order and duplicates: filtering a concatenation concatenates the filtered parts, so the candidates are the response's candidates in response order |
| Modal.FindIndex | components/Modal.tsx:63-68 | `find` returns the first position whose video matches the wanted type and officialness; none means no video matches |
| Modal.SelectIndex | components/Modal.tsx:62-69 | the chain of finds ending in `filtered[0]` yields a valid position, and nothing exactly when the filtered list is empty |
| Modal.SelectVideo | components/Modal.tsx:62-69 | the chosen video is one of the filtered videos; none is chosen only for an empty list |
| Modal.TrailerKey | components/Modal.tsx:56-71 | a non-empty trailer key always belongs to a YouTube Trailer, Teaser or Clip from the response |
| Modal.MatchesAtLevel | components/Modal.tsx:63-68 | among candidates ranked at least k, the k-th `find` matches exactly those of rank k |
| Modal.SelectFromLevel | components/Modal.tsx:62-69 | once all candidates rank at least k, the rest of the chain picks the first video of the best rank present |
| Modal.SelectedIsBest | components/Modal.tsx:62-69 | the chain picks a video no candidate outranks, and the first of that rank (official Trailer > Trailer > official Teaser > Teaser > official Clip > Clip) |
| Modal.FallbackNeverDecides | components/Modal.tsx:62-69 | over a non-empty list of candidates some `find` always succeeds, so `filteredVideos[0]` never decides |
| Modal.TrailerKeyIsBest | components/Modal.tsx:56-71 | without candidates the key is "", otherwise it is the key of the first best-ranked candidate |
| Modal.MediaType | components/Modal.tsx:34 | the record's media type when truthy, else "movie" exactly when the title is truthy and "tv" otherwise; never empty |
| Modal.TopCast | components/Modal.tsx:51-52 | the first min(10, n) cast members in their original order; missing credits give an empty cast |
| Modal.RuntimeOf | components/Modal.tsx:125-127 | a truthy runtime wins; otherwise the first episode runtime when the list exists, `undefined` for an empty list, and "N/A" exactly when there is no details record or no episode list |
| Modal.ReleaseDateOf | components/Modal.tsx:133 | release date if truthy, else first-air date if truthy, else "Unknown"; never empty |
| Modal.NextTrailer | components/Modal.tsx:55-72 | an absent or empty video list leaves the trailer as it was; otherwise the trailer becomes the selected key |
| Modal.ModalState.constructor | components/Modal.tsx:18-27 | initial state: no details, empty trailer, genres and cast, flag false |
| Modal.ModalState.OnDetailsFetched | components/Modal.tsx:29-79 | nothing changes without a current movie or on an exception; a non-ok status clears the details only; a loaded body sets details, genres (or []), the ten-member cast and the next trailer |
| Modal.ModalState.DeliverSnapshot | components/Modal.tsx:81-92 | a signed-in snapshot copies the stored list, and the flag then holds exactly when the current movie's id is in it; the stored list and the details, trailer, genres and cast are left as they were |
| Modal.ModalState.HandleList | components/Modal.tsx:94-118 | the details, trailer, genres, cast and snapshot are never touched; without a user or movie, or when the write fails, the stored list and the flag stay as they were; a successful write removes or adds the id and flips the flag; a flag in step with the stored list stays in step |
| Catalogue.MergeAppend | pages/movies.tsx:34 | merging a concatenation of category lists concatenates their merges, keeping each category's records together and in order |
| Catalogue.Merge | pages/movies.tsx:34 | a single category merges to itself, and every category's records are in the merged list at least as often as the category returned them; with MergeAppend this makes the merge the concatenation of the categories in request order |
| Catalogue.MergeSnoc | pages/movies.tsx:34 | one more category list appends exactly its records after the merge of the earlier ones, so `flatMap` is plain concatenation |
| Catalogue.MergeMembers | pages/movies.tsx:34 | a record is in the merge exactly when some category returned it |
| Catalogue.BuildMap | pages/movies.tsx:35 | the built `Map` has distinct keys covering exactly the ids of the input |
| Catalogue.Values | pages/movies.tsx:35 | `map.values()` lists one entry per key, in key order |
| Catalogue.BuildMapKeepsLast | pages/movies.tsx:35 | each entry of the map is the last input record with that id |
| Catalogue.BuildMapFirstOrder | pages/movies.tsx:35 | map keys are ordered by the first occurrence of each id in the input |
| Catalogue.UniqueIdsDistinct | pages/movies.tsx:33-35 | no id occurs twice in the de-duplicated list |
| Catalogue.UniqueById | pages/movies.tsx:35 | every record of the de-duplicated list is a record of the merged input |
| Catalogue.UniqueIdSet | pages/movies.tsx:33-35 | the de-duplicated list has exactly the ids of the merged list |
| Catalogue.UniqueKeepsLast | pages/movies.tsx:35 | the record kept for an id is the last one with that id |
| Catalogue.UniqueFirstOccurrenceOrder | pages/movies.tsx:35 | ids appear in the order of their first occurrence |
| Catalogue.UniqueOfDistinct | pages/movies.tsx:35 | a list without repeated ids comes back unchanged |
| Catalogue.UniqueIdempotent | pages/movies.tsx:35 | de-duplicating twice is de-duplicating once |
| MoviesPage.Movies.constructor | pages/movies.tsx:12 | the movie list starts empty |
| MoviesPage.Movies.FetchMovies | pages/movies.tsx:16-40 | on success the state is the de-duplicated merge of the ten category lists, with distinct ids, every merged id, ids in order of first occurrence, and the last record per id; on failure it is unchanged |
| SeriesPage.Series.constructor | pages/series.tsx:12 | the show list starts empty |
| SeriesPage.Series.FetchTVShows | pages/series.tsx:16-39 | the same for the nine TV category lists: distinct ids, every merged id, first-occurrence order and the last record per id on success, unchanged on failure |
| Search.KeepMoviesAndTv | pages/search.tsx:28-29 | an entry is kept exactly when its media type is "movie" or "tv" |
| Search.KeepMoviesAndTvAppend | pages/search.tsx:28-29 | the filter keeps relative order (it distributes over concatenation) |
| Search.Normalise | pages/search.tsx:30-43 | every field takes its nullish or falsy default exactly as written; the title falls back from title to name to "Unknown Title" and is never empty |
| Search.SearchResults | pages/search.tsx:28-43 | one result per movie or TV entry, in response order, each the normalisation of that entry; every result has media type movie or tv and a non-empty title |
| Search.SearchResultsProvenance | pages/search.tsx:28-43 | every result is the normalisation of a movie or TV entry of the response |
| Search.MediaTypeKept | pages/search.tsx:29-39 | the "movie" default for media type never applies to a kept entry |
| Search.NumbersDefaultOnlyWhenMissing | pages/search.tsx:31-42 | numeric fields use `??`: a present value, 0 included, is kept |
| Search.SearchPage.constructor | pages/search.tsx:13-14 | no results, not loading |
| Search.SearchPage.Start | pages/search.tsx:21-22 | a missing or empty query starts nothing; otherwise loading begins; results untouched |
| Search.SearchPage.Finish | pages/search.tsx:23-49 | loading ends; a success stores the normalised results, a failure keeps the old ones |
| MyList.ToMovie | pages/mylist.tsx:21-31 | id kept; title is the title when truthy, else the name, with no further default; each other field has its falsy default |
| MyList.ToMovies | pages/mylist.tsx:20-31 | one record per document, same order and ids |
| MyList.VoteAverageDefault | pages/mylist.tsx:27 | the falsy default 0 on the vote average gives the same as the nullish default 0 |
| MyList.TitleHasNoDefault | pages/mylist.tsx:23 | with neither title nor name the shown title stays falsy |
| MyList.MyListPage.constructor | pages/mylist.tsx:16 | the grid starts empty |
| MyList.MyListPage.OnListChanged | pages/mylist.tsx:18-34 | a non-empty stored list replaces the grid with its mapping; an empty one leaves it, so the empty message shows only if the grid was already empty |
| MyList.MyListPage.ShowsEmptyMessage | pages/mylist.tsx:48-63 | the "No movies or shows added yet." text shows exactly when the grid has no movies |
| WeatherDetails.RoundDiv | src/components/weather-details.tsx:21 | `Math.round(n / d)`: the result r satisfies r - 1/2 <= n/d < r + 1/2 |
| WeatherDetails.WindDirection | src/components/weather-details.tsx:17-23 | the result is always one of the eight compass labels, never `undefined` |
| WeatherDetails.JsRemBounds | src/components/weather-details.tsx:21 | JavaScript `%`: quotient and remainder recompose the dividend, and the remainder lies strictly between -b and b and takes the dividend's sign (non-negative for a non-negative dividend, non-positive for a negative one) |
| WeatherDetails.NormalizeIsMod | src/components/weather-details.tsx:21 | the normalised bearing is in [0, 360) and equals the Euclidean remainder, negative bearings included |
| WeatherDetails.Normalize | src/components/weather-details.tsx:21 | `(degrees %= 360) < 0 ? degrees + 360 : degrees` always lies in [0, 360) |
| WeatherDetails.WindIndex | src/components/weather-details.tsx:20-21 | `Math.round(normalized / 45) % 8` always lies in 0..7 |
| WeatherDetails.WindIndexInRange | src/components/weather-details.tsx:20-22 | the index is in 0..7, so the `8 + index` branch is dead |
| WeatherDetails.WindIndexIsNearestPoint | src/components/weather-details.tsx:20-21 | the index is the nearest multiple of 45 degrees (halves up) modulo 8 |
| WeatherDetails.FullTurnInvariant | src/components/weather-details.tsx:17-23 | adding or removing 360 degrees does not change the direction |
| WeatherDetails.CardinalBearings | src/components/weather-details.tsx:18-22 | 0, 90, 180 and 270 degrees name N, E, S and W |
| WeatherDetails.BucketEdges | src/components/weather-details.tsx:18-22 | 22 is N, 23 and 45 are NE, 337 is NW, -90 is W |
| WeatherDetails.NorthWraps | src/components/weather-details.tsx:20-22 | bearings 338 to 359 wrap to N |
| WeatherForecast.LowestMin | src/components/weather-forecast.tsx:38 | the running `Math.min` is at most every entry's minimum |
| WeatherForecast.LowestMinAttained | src/components/weather-forecast.tsx:38 | the running minimum equals the minimum of one of the entries |
| WeatherForecast.HighestMax | src/components/weather-forecast.tsx:39 | the running `Math.max` is at least every entry's maximum |
| WeatherForecast.HighestMaxAttained | src/components/weather-forecast.tsx:39 | the running maximum equals the maximum of one of the entries |
| WeatherForecast.DayKeys | src/components/weather-forecast.tsx:26-28 | the accumulator's keys are distinct (order and membership in the two lemmas below) |
| WeatherForecast.DayKeysFirstOrder | src/components/weather-forecast.tsx:26-28 | the keys are ordered by the position of their day's first entry, which decides which six days `slice(0, 6)` keeps |
| WeatherForecast.FirstOfDaySnoc | src/components/weather-forecast.tsx:26-28 | a later entry never moves the first entry of a day already seen |
| WeatherForecast.FirstOfDayNew | src/components/weather-forecast.tsx:26-34 | a day first met in the newest entry starts at that entry |
| WeatherForecast.DayKeysMembers | src/components/weather-forecast.tsx:25-43 | a day key is present exactly when the day has entries |
| WeatherForecast.SummaryStep | src/components/weather-forecast.tsx:28-40 | one more entry creates a new day from that entry, widens its own day's minimum and maximum, and leaves other days unchanged |
| WeatherForecast.AccStepNewDay | src/components/weather-forecast.tsx:28-36 | inserting an unseen day keeps the accumulator equal to the summary of the entries so far |
| WeatherForecast.AccStepKnownDay | src/components/weather-forecast.tsx:37-40 | updating a seen day's minimum and maximum keeps the accumulator equal to the summary of the entries so far |
| WeatherForecast.AccValues | src/components/weather-forecast.tsx:45 | `Object.values` of the finished accumulator lists the days in key order |
| WeatherForecast.Days | src/components/weather-forecast.tsx:25-45 | one day per key, in key order, each the summary of all entries carrying that key |
| WeatherForecast.NextDays | src/components/weather-forecast.tsx:25-45 | the loop returns the first six of the per-day summaries |
| WeatherForecast.DayExtremes | src/components/weather-forecast.tsx:38-39 | each day's minimum and maximum bound all of that day's entries and are attained by some of them |
| WeatherForecast.DayFirstFields | src/components/weather-forecast.tsx:29-36 | date, humidity, wind and conditions come from the day's first entry |
| WeatherForecast.OneDayPerKey | src/components/weather-forecast.tsx:25-43 | day keys are distinct, every entry's day is listed, and no entries give no days |
| HourlyTemperature.ChartData | src/components/hourly-temperature.tsx:18-22 | the first min(8, n) entries in order, with their temperatures and hour labels |
| HourlyTemperature.Plotted | src/components/hourly-temperature.tsx:24-25 | the plotted values are exactly the temperatures and feels-like values of the points |
| HourlyTemperature.MinOf | src/components/hourly-temperature.tsx:26 | `Math.min` of a non-empty list is a lower bound and one of its values |
| HourlyTemperature.MaxOf | src/components/hourly-temperature.tsx:27 | `Math.max` of a non-empty list is an upper bound and one of its values |
| HourlyTemperature.PaddedFloor | src/components/hourly-temperature.tsx:31 | `Math.floor(m / 5) * 5 - 5` is a multiple of 5 in (m - 10, m - 5] |
| HourlyTemperature.FloorToFive | src/components/hourly-temperature.tsx:31 | `Math.floor(m / 5) * 5` is the multiple of 5 at or just below m |
| HourlyTemperature.CeilToFive | src/components/hourly-temperature.tsx:32 | `Math.ceil(m / 5) * 5` is the multiple of 5 at or just above m |
| HourlyTemperature.PaddedCeil | src/components/hourly-temperature.tsx:32 | `Math.ceil(m / 5) * 5 + 5` is a multiple of 5 in [m + 5, m + 10) |
| HourlyTemperature.YAxisDomain | src/components/hourly-temperature.tsx:26-33 | no points give (Infinity, -Infinity); any points give a finite domain |
| HourlyTemperature.LowerBoundShape | src/components/hourly-temperature.tsx:31 | the lower end is a multiple of 5 with min - 10 < lower <= min - 5 |
| HourlyTemperature.UpperBoundShape | src/components/hourly-temperature.tsx:32 | the upper end is a multiple of 5 with max + 5 <= upper < max + 10 |
| HourlyTemperature.PointsInsideDomain | src/components/hourly-temperature.tsx:24-33 | every temperature and feels-like value lies in [lower + 5, upper - 5], so lower < upper |
| HourlyTemperature.ChartDomainFinite | src/components/hourly-temperature.tsx:18-33 | the domain is finite exactly when the forecast list is non-empty |
| CitySearch.Encode | src/components/city-search.tsx:72 | the item value is lat, lon, name and country joined by the space-bar-space separator (the same template at lines 113 and 149) |
| CitySearch.Split | src/components/city-search.tsx:28 | splitting on the separator always yields at least one piece |
| CitySearch.Decode | src/components/city-search.tsx:28 | the first four pieces, missing ones `undefined`; lat is always present, and a present country implies lon and name |
| CitySearch.SplitJoin | src/components/city-search.tsx:28 | splitting loses nothing: the pieces joined by the separator give back the string |
| CitySearch.SplitPiecesSepFree | src/components/city-search.tsx:28 | no piece contains the separator |
| CitySearch.DecodeEncode | src/components/city-search.tsx:28 | decoding an item value gives back lat, lon, name and country when the first three are safe fields and the country has no separator |
| CitySearch.SepFreeIsNotEnough | src/components/city-search.tsx:28 | a separator-free latitude ending in space and bar decodes wrongly: the latitude comes back cut short and the longitude with a leading bar |
| CitySearch.StateNotEncoded | src/components/city-search.tsx:72-81 | the state is shown but not encoded: locations differing only in state share one value and decode alike |
| CitySearch.CityPath | src/components/city-search.tsx:40 | the navigation target starts with "/city/" |
| CitySearch.PathOfEncoded | src/components/city-search.tsx:40 | for a safely encoded location the path is /city/name?lat=lat&lon=lon |
| CitySearch.CitySearchDialog.constructor | src/components/city-search.tsx:20-21 | closed dialog, empty query, nothing recorded |
| CitySearch.CitySearchDialog.Open | src/components/city-search.tsx:50 | the search button opens the dialog and changes nothing else |
| CitySearch.CitySearchDialog.SetQuery | src/components/city-search.tsx:59 | typing replaces the query and changes nothing else |
| CitySearch.CitySearchDialog.ShowsNoCities | src/components/city-search.tsx:62 | the guard around the "No cities found." element holds exactly when the query has at least three characters and no search is loading; it is a necessary condition for the message |
| CitySearch.CitySearchDialog.SelectLocation | src/components/city-search.tsx:27-41 | one history entry with the current query and the decoded name, lat, lon and country; the dialog closes; one navigation to the decoded city path |
| CitySearch.SelectEncoded | src/components/city-search.tsx:27-41 | selecting a safely encoded location records and navigates to exactly that location |
| ThemeUtils.GetItem | src/context/themeUtils.ts:7 | `getItem` is present exactly for a stored key and returns its value |
| ThemeUtils.InitialTheme | src/context/themeUtils.ts:7 | a stored non-empty value is returned as it is; a missing key or "" gives the default |
| ThemeUtils.LocalStorage.constructor | src/context/themeUtils.ts:3-12 | the store starts with the given items |
| ThemeUtils.LocalStorage.GetInitialTheme | src/context/themeUtils.ts:3-8 | the initial theme read from the store, never empty |
| ThemeUtils.LocalStorage.SetThemeInLocalStorage | src/context/themeUtils.ts:10-12 | the store maps the key to the theme, every other key unchanged |
| ThemeUtils.GetAfterSet | src/context/themeUtils.ts:7-11 | after storing a theme, reading it back gives that theme whatever the default |
| ThemeUtils.OtherKeysUnchanged | src/context/themeUtils.ts:11 | storing under one key leaves every other key's reading unchanged |
| ThemeUtils.StoredValueUnchecked | src/context/themeUtils.ts:7 | the cast checks nothing: a stored "blue" is returned although it is not a theme |
| ThemeUtils.SetThenGet | src/context/themeUtils.ts:3-12 | set then get through the store returns the theme just set and leaves other keys alone |
| Header.Toggle | src/components/header.tsx:25 | the toggle sets "dark" exactly from "light", and "light" from anything else |
| Header.Logo | src/components/header.tsx:15 | the light logo is chosen exactly when the theme is "light", otherwise the dark logo |
| Header.ToggleCases | src/components/header.tsx:7-25 | light goes to dark, dark to light, system to light |
| Header.ToggleTwice | src/components/header.tsx:25 | two toggles restore light and dark but take system to dark |
| Header.ToggleLeavesSystem | src/components/header.tsx:15-25 | a toggle never yields system, and after it the light logo shows exactly when the theme was not light |

## Left out

- Network and fetch plumbing. Request URLs, the API key, `Promise.all`, `fetch` and `.json()` are not modelled. Each request's outcome is a parameter: `Option` for success or failure, or `FetchOutcome` in the modal.
- Firebase. Auth, the Firestore listeners and the `setDoc`/`deleteDoc` writes are not modelled. The stored "My List" is a set of ids, and a write's success is a parameter of `HandleList`.
- Exceptions thrown halfway through an update are left out. One example is a `videos` object without `results` after `setCast` has run. The modal models a failure before any state is set; the search page models a failure that skips storing results.
- Floating point. Temperatures, wind speed and bearings are whole numbers. The display `Math.round` of temperatures and the vote-average `toFixed` formatting are not modelled. Ratings and popularity are `real`, and NaN is not modelled.
- `parseFloat` of the coordinates is not modelled. The history entry keeps the decoded text.
- Time zones and `date-fns` formatting. The forecast's day key and the chart's hour label are function parameters of the entry timestamp.
- Rendering, layout, the toasts, timers, the router (only the navigation paths are recorded) and the banner's random pick.
- The search page's `router.query` can be an array; the query is taken as one optional string.
- The search-history store (`useSearchHistory`: de-duplication, ordering, clearing) is not part of this model. `historyAdds` records the entries handed to it.
- CitySearch.CitySearchDialog.ShowsNoCities: models only the guard at line 62. cmdk's `Command.Empty` also renders only when no item is visible, which depends on the favourites, history and suggestion lists; that is not modelled. The query length is counted in characters, not the UTF-16 code units of `query.length`.
- cmdk may normalise an item's value before `onSelect` receives it; the value is taken as passed.
- The forecast accumulator relies on `Object.values` following insertion order, which JavaScript guarantees for non-integer keys such as `yyyy-MM-dd` dates. The model keeps the key order explicitly.
- Modal.ModalState.DeliverSnapshot: the listener's subscription is keyed on the movie id and `db`. Re-subscription and stale snapshots are not modelled: one call delivers the current stored list.
