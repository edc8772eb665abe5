# Mood journals, day journal and grocery search, in Dafny

This project models the record-keeping logic of a small collection of apps and proves properties of it:

- **EMO** (Swift). `EmotionDataService` keeps `EmotionRecord`s as one JSON array in `UserDefaults`. Over it, the service can:
  - append a record;
  - read every record, newest first;
  - take the most recent records;
  - filter by an inclusive date range;
  - count records per mood;
  - bucket the average mood onto a five-point scale.

  The `Mood` enum, with its `Codable` conversion under the key `"rawValue"`, decides which stored values decode. The record view's "Save" action stores nothing.
- **Moomo** (Swift), in three parts:
  - `MoodDataManager` holds the in-memory `records`. It provides a guarded reload, an append, the newest record of a calendar day, and the `"yyyy-MM-dd"` day keys.
  - `MonthView` lays a month out as a 7-column grid, with weeks starting on Sunday. A vertical swipe steps the month.
  - The mood widget holds a fixed list of six images, which `Array.chunked(into:)` lays out in rows.
- **Day journal** (Python, Flask). A dictionary `days_data`, keyed by date, has list, read, add-or-replace (filling in the weather) and delete handlers, and is saved after every change.
- **Grocery dashboard** (TypeScript, React). `handleSearch` filters a constant product list by a case-insensitive substring of the product name.

The modules:

| module | file | contents |
|---|---|---|
| `Wrappers` | `wrappers.dfy` | `Option` (Swift's `T?`, `??`) and `Result` (`throws`, `try?`). |
| `Sequences` | `sequences.dfy` | `filter`, a descending sort by key, `min`, ceiling division, joining, sums. |
| `Json` | `json.dfy` | Parsed JSON values. |
| `Uuids` | `uuids.dfy` | `UUID` as its `uuidString`, and `UUID(uuidString:)`. |
| `Calendars` | `calendars.dfy` | Foundation's `Calendar` as a value whose fields are the library calls the apps make. |
| `EmoMood`, `EmotionRecord`, `EmoService`, `EmotionRecordView` | `emo_*.dfy` | EMO. |
| `MoomoData`, `MoomoCalendar`, `MoodWidget` | `moomo_*.dfy` | Moomo. |
| `DaysApi` | `days_api.dfy` | The Flask day journal. |
| `GroceryDashboard` | `grocery_dashboard.dfy` | The dashboard search. |

Objects whose fields the code updates in place are classes, and their handlers are methods with `modifies` clauses:

- `EmotionDataService`, whose state is the `UserDefaults` dictionary;
- `MoodDataManager`;
- `MonthView` (`currentDate`);
- the Flask module state (`DayStore`);
- the React component state (`Dashboard`).

Queries are functions that read those fields. `getMoodDistribution`, which fills a dictionary in a loop, is a method with a loop.

Instants are integers. The calendar day and the weekday of an instant, the number of days in its month, the building of a date from components, and adding months are all fields of a `Calendar` value. Every property is proved for every such calendar. The properties that place an instant on a calendar day (`DateForDay`, the month steps, `CellShowsLatestOfItsDay`) assume the calendar is `Coherent`: every instant falls on a valid day, the month length is the calendar's table entry for that month, `date(from:)` finds every valid day and gives an instant on it, and adding `k` months moves the year and month `k` months on. A Gregorian calendar is such a calendar for common-era dates in a time zone that never skipped a day; calendars with a thirteenth month or with era-relative years are not. "Now", fresh UUIDs and the weather lookup are parameters.

Some behaviour worth knowing before reading the contracts:

- **Corrupt records.** In EMO, one record that does not decode makes the service read no records at all (`EmotionRecord.OneBadRecordFailsBatch`, `EmoService.EmotionDataService.GetAllRecords`). Moomo's `load` ignores a file that does not decode as a whole and keeps the records it already holds (`MoomoData.MoodDataManager.Load`).
- **Week start.** The month grid's weeks start on Sunday, the first column of the `Sun`..`Sat` header.
- **Average of happy, happy, sad.** The mean weight is 10/3, so the average mood is `Neutral` (`EmoService.AverageOfHappyHappySad`).
- **Upsert and delete.** Neither Swift store has a per-day upsert or a delete; the only upsert and delete are the Flask handlers.

## Model

| member | source | states |
|---|---|---|
| `EmoMood.AllCasesEnumerates` | EMO/EMO/Sources/Views/EmotionRecordView.swift:56-61 | `allCases` has exactly the five moods, each once, from `veryHappy` to `verySad` |
| `EmoMood.FromRawValue` | EMO/EMO/Sources/Views/EmotionRecordView.swift:56-61 | `Mood(rawValue:)` gives a mood only for that mood's exact raw value, and nil for every string that is no raw value |
| `EmoMood.RawValueRoundTrip` | EMO/EMO/Sources/Views/EmotionRecordView.swift:57-61 | the raw values are distinct, so `Mood(rawValue: s)` is `m` exactly when `s` is `m`'s raw value |
| `EmoMood.FromRawValueIsCaseSensitive` | EMO/EMO/Sources/Models/EmotionRecord.swift:25-28 | differently cased spellings such as "happy" are not moods |
| `EmoMood.IdIdentifiesMood` | EMO/EMO/Sources/Views/EmotionRecordView.swift:63-65 | `id` and `description` are the raw value, and `id` tells moods apart |
| `EmoMood.IconsAndColorsDistinct` | EMO/EMO/Sources/Views/EmotionRecordView.swift:67-85 | every mood has an icon and a colour, and no two moods share either |
| `Uuids.ParseUuid` | EMO/EMO/Sources/Models/EmotionRecord.swift:4 | `UUID(uuidString:)` accepts exactly the 8-4-4-4-12 hexadecimal text in either case, and yields it upper-cased |
| `Uuids.ParseUuidString` | EMO/EMO/Sources/Models/EmotionRecord.swift:4 | a UUID's `uuidString` parses back to the same UUID |
| `EmotionRecord.EncodeMoodShape` | EMO/EMO/Sources/Models/EmotionRecord.swift:32-35 | a mood encodes as an object whose only key is `"rawValue"`, holding its raw value |
| `EmotionRecord.MoodRoundTrip` | EMO/EMO/Sources/Models/EmotionRecord.swift:23-35 | decoding inverts encoding for every mood, and decodes to `m` only an object whose `"rawValue"` is `m`'s raw value |
| `EmotionRecord.DecodeMoodRejectsUnknown` | EMO/EMO/Sources/Models/EmotionRecord.swift:25-28 | a string that is no raw value fails as data corrupted at `"rawValue"` with "Invalid mood value" |
| `EmotionRecord.RecordRoundTrip` | EMO/EMO/Sources/Models/EmotionRecord.swift:3-15 | a record decodes back from its encoding with id, mood, note and timestamp intact |
| `EmotionRecord.RecordsRoundTrip` | EMO/EMO/Sources/Services/EmotionDataService.swift:14-21 | an encoded array of records decodes back to the same array |
| `EmotionRecord.OneBadRecordFailsBatch` | EMO/EMO/Sources/Services/EmotionDataService.swift:20-23 | one element that does not decode makes the whole array fail to decode |
| `EmotionRecord.UnknownMoodFailsRecord` | EMO/EMO/Sources/Models/EmotionRecord.swift:26-28 | a record whose mood is not one of the five raw values does not decode |
| `Sequences.Filter` | EMO/EMO/Sources/Services/EmotionDataService.swift:32-34 | `filter` keeps every element that satisfies the predicate, as often as it occurs, and nothing else |
| `Sequences.FilterIsSubsequence` | EMO/EMO/Sources/Services/EmotionDataService.swift:32-34 | `filter` keeps the original order |
| `Sequences.FilterPreservesSorted` | EMO/EMO/Sources/Services/EmotionDataService.swift:32-34 | filtering a newest-first list leaves it newest first |
| `Sequences.SortByKeyDesc` | EMO/EMO/Sources/Services/EmotionDataService.swift:24 | `sorted { key($0) > key($1) }` is a permutation of its input in non-increasing key order |
| `Sequences.SortedHeadIsGreatest` | Moomo/Moomo/MoodDataManager.swift:53-54 | the first element of such a sort is an input element whose key no input element exceeds |
| `Sequences.SumByPermutation` | EMO/EMO/Sources/Services/EmotionDataService.swift:62 | `reduce(0, +)` over mapped values does not depend on the order of the elements |
| `EmoService.Bucket` | EMO/EMO/Sources/Services/EmotionDataService.swift:62-70 | the bucket's weight `w` satisfies `w - 1/2 <= mean < w + 1/2`, with the ends `veryHappy` and `verySad` open |
| `EmoService.WeightSumBounds` | EMO/EMO/Sources/Services/EmotionDataService.swift:52-62 | the weight sum of `n` records lies between `n` and `5n` |
| `EmoService.CountsCoverRecords` | EMO/EMO/Sources/Services/EmotionDataService.swift:41-43 | the five per-mood counts add up to the record count |
| `EmoService.CountMoodIsFilterCount` | EMO/EMO/Sources/Services/EmotionDataService.swift:42 | the per-mood count equals the length of `records.filter { $0.mood == mood }` |
| `EmoService.RangeSelection` | EMO/EMO/Sources/Services/EmotionDataService.swift:31-35 | filtering a newest-first list by `[from, to]` keeps exactly the in-range records, each as often as listed, in their order, newest first; nothing when `from > to` |
| `EmoService.CountEachMood` | EMO/EMO/Sources/Services/EmotionDataService.swift:38-45 | the loop over `Mood.allCases` leaves a key for every mood, holding that mood's count; the counts add up to the number of records |
| `EmoService.AverageMood` | EMO/EMO/Sources/Services/EmotionDataService.swift:49-70 | nil exactly for no records; otherwise the mood whose weight is within one half of the mean weight |
| `EmoService.EmotionDataService.GetAllRecords` | EMO/EMO/Sources/Services/EmotionDataService.swift:19-25 | no records when the stored value is missing or does not decode; otherwise the stored records, permuted, newest first |
| `EmoService.EmotionDataService.GetRecentRecords` | EMO/EMO/Sources/Services/EmotionDataService.swift:27-29 | the first `min(limit, n)` records of `getAllRecords()`, default limit 5, none of them older than a record left out |
| `EmoService.EmotionDataService.GetRecordsByDateRange` | EMO/EMO/Sources/Services/EmotionDataService.swift:31-35 | exactly the records with `from <= timestamp <= to`, each as often as stored, in newest-first order; none when `from > to` |
| `EmoService.EmotionDataService.GetMoodDistribution` | EMO/EMO/Sources/Services/EmotionDataService.swift:37-46 | every mood has a key, zero counts included; each value counts that mood's records; the values add up to the record count |
| `EmoService.EmotionDataService.GetAverageMood` | EMO/EMO/Sources/Services/EmotionDataService.swift:48-71 | nil exactly when there are no records; otherwise the mood whose weight is within one half of the mean weight, halves rounding up |
| `EmoService.EmotionDataService.SaveRecord` | EMO/EMO/Sources/Services/EmotionDataService.swift:10-17 | only the `"emotionRecords"` entry changes; it then holds the previous `getAllRecords()` with the record appended, or just the record when the old value did not decode |
| `EmoService.SavedRecordIsRead` | EMO/EMO/Sources/Services/EmotionDataService.swift:10-25 | after saving, reading everything gives the earlier records plus the new one |
| `EmoService.AverageIgnoresStoredOrder` | EMO/EMO/Sources/Services/EmotionDataService.swift:48-62 | the average depends on which records are stored, not on their stored order |
| `EmoService.HappyHappySadIsNeutral` | EMO/EMO/Sources/Services/EmotionDataService.swift:52-67 | weights 4, 4 and 2 have mean 10/3, which falls in the neutral bucket |
| `EmoService.AverageOfHappyHappySad` | EMO/EMO/Sources/Services/EmotionDataService.swift:48-71 | stored records happy, happy, sad average to `neutral` |
| `EmoService.EmptyRangeSelectsNothing` | EMO/EMO/Sources/Services/EmotionDataService.swift:31-35 | a range whose start is after its end selects no record |
| `EmotionRecordView.SaveRecord` | EMO/EMO/Sources/Views/EmotionRecordView.swift:32-35 | the view's save action leaves the stored records unchanged |
| `MoomoData.DigitsRoundTrip` | Moomo/Moomo/MoodDataManager.swift:57-61 | a zero-padded field of the date pattern reads back as its number |
| `MoomoData.FormatDayRoundTrip` | Moomo/Moomo/MoodDataManager.swift:57-61 | for four-digit years, `"yyyy-MM-dd"` writes ten characters that read back as the same year, month and day |
| `MoomoData.DayStringIsDayKey` | Moomo/Moomo/MoodDataManager.swift:57-61 | for four-digit years, two instants have equal day strings exactly when the calendar puts them on the same day |
| `MoomoData.RecordDayStringAgrees` | Moomo/Moomo/MoodDataManager.swift:10-14 | a record's `dayString` is `dayString(from:)` of its `dateTime` and names the record's day |
| `MoomoData.MoodDataManager.constructor` | Moomo/Moomo/MoodDataManager.swift:26-28 | a new manager holds the decoded file contents, or no records |
| `MoomoData.MoodDataManager.Load` | Moomo/Moomo/MoodDataManager.swift:30-35 | the records are replaced only when the file was read and decoded as a whole, and otherwise left unchanged |
| `MoomoData.MoodDataManager.AddRecord` | Moomo/Moomo/MoodDataManager.swift:43-47 | exactly one record is appended, with the given emotion and content, the fresh id and the current time; earlier records keep their values and order |
| `MoomoData.MoodDataManager.LatestRecord` | Moomo/Moomo/MoodDataManager.swift:50-55 | nil exactly when no record is on the calendar day of the date; otherwise a record of that day that no record of that day is later than |
| `MoomoData.LatestIgnoresOrder` | Moomo/Moomo/MoodDataManager.swift:51-54 | reordering `records` changes neither whether a day has a latest record nor its time |
| `MoomoData.AddedRecordIsLatest` | Moomo/Moomo/MoodDataManager.swift:43-55 | a record that no same-day record is later than is found as its day's latest, up to ties |
| `Sequences.CeilDiv` | Moomo/Moomo/MonthView.swift:90 | the integer ceiling of `a / b`: the least `r` with `r * b >= a` |
| `MoomoCalendar.Grid` | Moomo/Moomo/MonthView.swift:87-137 | the grid has `rows` rows of seven cells, each showing day `row*7 + col - (firstWeekday-1) + 1` when that is between 1 and `days`, and a spacer otherwise |
| `MoomoCalendar.RowCountIsFewest` | Moomo/Moomo/MonthView.swift:88-90 | the rows hold the leading blanks and every day, and one row fewer would not |
| `MoomoCalendar.DayAppearsOnce` | Moomo/Moomo/MonthView.swift:90-97 | each day of the month is in exactly one cell, at row `(d + fw - 2) / 7`, column `(d + fw - 2) % 7` |
| `MoomoCalendar.FirstDayPosition` | Moomo/Moomo/MonthView.swift:145-150 | day 1 is in row 0, column `firstWeekday - 1` |
| `MoomoCalendar.BlanksOnlyAtTheEnds` | Moomo/Moomo/MonthView.swift:95-130 | spacers are exactly the `firstWeekday - 1` cells before day 1 and fewer than seven after the last day |
| `MoomoCalendar.ColumnsMatchHeader` | Moomo/Moomo/MonthView.swift:34-41 | every day stands under the Sun..Sat header of its weekday, counting on from day 1 |
| `MoomoCalendar.DragStep` | Moomo/Moomo/MonthView.swift:51-56 | below -50 steps forward, above 50 steps back, and anything from -50 to 50 does not step |
| `MoomoCalendar.MonthView.OnDragEnded` | Moomo/Moomo/MonthView.swift:51-56 | `currentDate` becomes the next month, the previous month or stays, as the drag's step says |
| `MoomoCalendar.MonthView.DaysInMonth` | Moomo/Moomo/MonthView.swift:140-143 | the day count of the month `currentDate` falls in; with a coherent calendar it is that month's length and `currentDate`'s day is within it. The force unwrap of `range(of:in:for:)` needs no precondition: the count is a total field of the calendar |
| `MoomoCalendar.MonthView.FirstWeekdayOfMonth` | Moomo/Moomo/MonthView.swift:146-150 | the weekday of the instant `date(from:)` gives for day 1 built from `currentDate`'s year and month; with a coherent calendar that instant is on that day 1. The force unwrap becomes the `requires` that the calendar finds that day |
| `MoomoCalendar.FirstOfMonthExists` | Moomo/Moomo/MonthView.swift:146-150 | with a coherent calendar the force unwrap of `firstWeekdayOfMonth` always succeeds |
| `MoomoCalendar.MonthView.PreviousMonth` | Moomo/Moomo/MonthView.swift:153-155 | the calendar's date one month back, or `date` itself when there is none; with a coherent calendar the result's month is the month before `date`'s |
| `MoomoCalendar.MonthView.NextMonth` | Moomo/Moomo/MonthView.swift:158-160 | the calendar's date one month on, or `date` itself when there is none; with a coherent calendar the result's month is the month after `date`'s |
| `MoomoCalendar.MonthView.DateForDay` | Moomo/Moomo/MonthView.swift:163-166 | the calendar's date for that day of the current year and month, or "now" when there is none; with a coherent calendar, every day from 1 to `daysInMonth()` gives an instant on exactly that calendar day |
| `MoomoCalendar.CellShowsLatestOfItsDay` | Moomo/Moomo/MonthView.swift:95-126 | with a coherent calendar, a dated cell shows the empty circle exactly when no record falls on its calendar day (current year and month, the cell's day), and otherwise the emotion of a record of that day that no record of the day is later than |
| `MoomoCalendar.MonthView.DayMarks` | Moomo/Moomo/MonthView.swift:112-126 | each day's mark is its latest record's emotion icon, or the empty circle when the day has no record |
| `MoomoCalendar.MonthView.CalendarGrid` | Moomo/Moomo/MonthView.swift:87-137 | the current month's grid; every dated cell is a day of the month showing its latest record's mark |
| `MoodWidget.Chunked` | Moomo/Moomo/MoodWidgetView.swift:57-61 | a size of zero or less gives the whole array as one chunk; a positive size gives `ceil(count / size)` chunks |
| `MoodWidget.ChunkedFlattens` | Moomo/Moomo/MoodWidgetView.swift:59-61 | with a positive size, joining the chunks gives back the array |
| `MoodWidget.ChunkSizes` | Moomo/Moomo/MoodWidgetView.swift:59-61 | with a positive size, every chunk has 1 to `size` elements, and all but the last have exactly `size` |
| `MoodWidget.EmptyHasNoChunks` | Moomo/Moomo/MoodWidgetView.swift:59 | an empty array has no chunks |
| `MoodWidget.TruncateToInt` | Moomo/Moomo/MoodWidgetView.swift:26 | `Int(_:)` truncates toward zero |
| `MoodWidget.ItemsPerRow` | Moomo/Moomo/MoodWidgetView.swift:25-26 | `itemsPerRow` is at least 1 |
| `MoodWidget.ItemsPerRowIsMostThatFit` | Moomo/Moomo/MoodWidgetView.swift:19-26 | the row's images and spacing fit the padded width unless not even one does, and one image more would not fit |
| `MoodWidget.WidgetRowsShowEveryMood` | Moomo/Moomo/MoodWidgetView.swift:8-27 | the widget's rows show all six moods once, in order, at most `itemsPerRow` per row |
| `DaysApi.Dict.Set` | app.py:49 | `days_data[date] = data` keeps the dictionary well formed; it changes that key's value and no other; an existing key keeps its place and a new key goes last |
| `DaysApi.Dict.Remove` | app.py:56 | `del days_data[date]` removes that key and keeps the dictionary valid; every other key keeps its value, and the key list loses exactly that key's position |
| `DaysApi.Dict.Values` | app.py:30 | `list(days_data.values())` has one value per key, in key order |
| `DaysApi.WithWeather` | app.py:44-47 | the posted object changes only under `weather`, exactly when `weather` is falsy, `location` truthy and the fetch yields a non-empty string |
| `DaysApi.DayStore.constructor` | app.py:15-26 | the store starts from the saved file's dictionary, or `{}` when there is no file |
| `DaysApi.DayStore.GetAllDays` | app.py:28-30 | 200 with exactly one value per stored date, in insertion order |
| `DaysApi.DayStore.GetDay` | app.py:32-34 | 200 with the stored object, or `{}` when the date is not stored |
| `DaysApi.DayStore.AddOrUpdateDay` | app.py:36-51 | a falsy date gives 400 and changes nothing; otherwise the object, weather filled in, replaces the date's entry, is saved and is echoed with 201; a body or date Python cannot use gives 500 and changes nothing |
| `DaysApi.DayStore.DeleteDay` | app.py:53-59 | a stored date is removed, saved and answered with 204; a missing date gives 404 and changes nothing |
| `DaysApi.PostedDayIsServed` | app.py:32-51 | after posting a day, reading that date gives the stored object |
| `DaysApi.DeletedDayIsGone` | app.py:32-59 | after deleting a day, reading it gives `{}` and it is no longer stored |
| `DaysApi.RepostIsIdempotent` | app.py:49 | posting the same object for the same date twice is the same as posting it once |
| `DaysApi.ListingOrderAfterPost` | app.py:28-49 | replacing a date keeps the listing's length and order, with the new object in that date's place; a new date is listed last |
| `GroceryDashboard.TrimStart` | Downloads/grocery-assistant/app/dashboard/page.tsx:54 | drops exactly the leading whitespace |
| `GroceryDashboard.TrimEnd` | Downloads/grocery-assistant/app/dashboard/page.tsx:54 | drops exactly the trailing whitespace |
| `GroceryDashboard.TrimEmptyIffBlank` | Downloads/grocery-assistant/app/dashboard/page.tsx:54-55 | a query trims to `""` exactly when all of it is whitespace |
| `GroceryDashboard.Lower` | Downloads/grocery-assistant/app/dashboard/page.tsx:57 | `toLowerCase` maps every character and keeps the length |
| `GroceryDashboard.IncludesIffOccurs` | Downloads/grocery-assistant/app/dashboard/page.tsx:57 | `includes` is true exactly when the needle occurs at some offset |
| `GroceryDashboard.SearchResults` | Downloads/grocery-assistant/app/dashboard/page.tsx:54-58 | a blank query gives all of `PRODUCTS`; any other gives exactly the products whose lower-cased name contains the lower-cased, untrimmed query; the result keeps `PRODUCTS`' order |
| `GroceryDashboard.FullNameFindsProduct` | Downloads/grocery-assistant/app/dashboard/page.tsx:57 | a query equal to a product's name, in any letter case, finds that product |
| `GroceryDashboard.SearchIgnoresCase` | Downloads/grocery-assistant/app/dashboard/page.tsx:57 | lower-casing the query does not change the results |
| `GroceryDashboard.Dashboard.constructor` | Downloads/grocery-assistant/app/dashboard/page.tsx:48-49 | the page starts with an empty query, showing all of `PRODUCTS` |
| `GroceryDashboard.Dashboard.SetSearchQuery` | Downloads/grocery-assistant/app/dashboard/page.tsx:78 | typing changes the query and not the list shown |
| `GroceryDashboard.Dashboard.HandleSearch` | Downloads/grocery-assistant/app/dashboard/page.tsx:51-60 | the shown list becomes the search results for the query, whatever was shown before, so repeating a search changes nothing |

## Left out

- Persistence I/O. This covers `UserDefaults` reads and writes, Moomo's file reads and `save()`, and `load_data`/`save_data`. The JSON byte level is out too, and so is the conversion of non-string keys to strings when Python writes the file. The stored data are values: a `UserDefaults` dictionary, an `Option` of decoded records, and a saved dictionary.
- `MoodDataManager.generateMockData`: it depends on random choices, the clock, calendar arithmetic and a file write.
- `fetch_weather`: an HTTP request. Its result is a parameter.
- Flask routing, CORS, `jsonify` and request parsing: the handlers take the parsed body. A body Flask cannot parse as JSON is not modelled.
- Python's `True == 1` dictionary-key equality: the model's keys `JBool(true)` and `JNumber(1)` are different keys. JSON numbers are integers only, so `0.0` and other floats are not modelled.
- Floating point. The `Double` mean, the `ceil` of the row count and the `CGFloat` widths are exact integers or reals in the model. Rounding at extreme magnitudes is not captured.
- Foundation's calendar, `DateFormatter`, `UUID()` and `Date()`. They are the fields of `Calendar` and parameters. Calendar facts beyond `Calendars.Coherent` are not built in; for example, that consecutive days have consecutive weekdays, or that two instants on the same day have the same weekday. `Coherent` is a hypothesis of the members that need it, not derived from a calendar algorithm. The formatter is assumed to use the same time zone as `Calendar.current`.
- Moomo's `EmotionType` is not defined in the code shown. Its six cases come from `generateMockData`, and its `iconName` is represented by the emotion itself.
- `EmotionRecord`'s initializer defaults, a fresh `UUID()` and `Date()`, are not modelled. A record is built from all four values.
- `Sequences.SortByKeyDesc`: the contract does not state the order of records with equal timestamps. It promises a permutation in non-increasing key order, and nothing about stability.
- `Calendar.current` is assumed to be `Calendars.Coherent` by the members that place instants on calendar days. Skipped days (a time zone that jumped over a date), era boundaries (1 BC to AD 1) and calendars other than the Gregorian one can break that assumption, and the model says nothing about them.
- `EmoService.EmotionDataService.GetRecentRecords`: `limit` is a `nat`. Swift's `Int` limit can be negative, and `prefix` then traps; that trap is not modelled.
- The `shared` singletons and `ObservableObject`/`@Published` plumbing: the model uses explicit objects.
- JavaScript's `toLowerCase` folds only the ASCII letters in the model. `trim` uses the full ECMAScript whitespace set.
- Presentation: view layout, fonts, colours as drawn, the month and year titles, the widget's tap action (it only logs), and the other pages and views of the apps.
- The widget's `Mood.id` (a fresh `UUID` per item) only keys SwiftUI's `ForEach`.
