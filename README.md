# Turnover-collision engine of the cleaning dashboard

This project models the derivations of the dashboard page `pages/Dashboard.tsx`.
The page warns an operations team about turnover collisions: days on which one stay at a property checks out and another stay at the same property checks in.
The parts read three read-only collections: the reservations, the properties and the inventory. The page's clock is replaced by a `today` parameter, an ISO `YYYY-MM-DD` string.

- **Portfolio scanner** (`criticalDays`). A loop collects, per check-out date, the set of properties at which some reservation checks out and some reservation checks in that day. This is `PortfolioScanner.GroupCollisions`. A pipeline then turns the groups into `{date, count, propertyIds}` records: it keeps dates from today on, sorts them by date and keeps the first four. This is `PortfolioScanner.RankDays`. `PortfolioScanner.CriticalDays` runs both phases.
- **Priority-property watch** (`casaAmpliaCritical`). It picks the first property whose operational name (else commercial name), upper-cased, contains `CASA AMPLIA`. It then picks the first of that property's reservations, in list order, that checks out today or later into some check-in there. That reservation is the outgoing guest; with it goes the first reservation arriving on its check-out date. The result is absent when no property matches, and `Clear` when that property has no such turnover. This is `PriorityWatch.CasaAmpliaCritical`.
- **Detail expander** (`handleOpenCriticalDetail` without its state update). For each requested property id, in order, it gives the display name plus the first reservation leaving and the first arriving on the date. Either may be absent. This is `CriticalDetail.OpenCriticalDetail`.
- **Counters.** `DashboardStats.ShoppingList` keeps the inventory items at or below their minimum stock. `DashboardStats.TodayStats` holds the stats tiles' numbers.

The JavaScript library behaviour the page relies on is modelled once, in two modules. `JsString` covers string `<`/`>=`, `toUpperCase`, `includes` and `||` on possibly-absent strings. `JsArray` covers `find`, `some`, `filter` and `filter(...).length`. A turnover collision is the relation `Records.Collides(rs, p, d)`: some reservation at `p` checks out on `d` and some reservation at `p` checks in on `d`. As in the source, these may be the same reservation when its check-in equals its check-out.

The scanner sorts its days, but the watch reports the first qualifying reservation in list order. When reservations are not listed chronologically, the watch can therefore report a later turnover than the earliest upcoming one. `WorkedCases.WatchTakesListOrder` shows such an input. The model keeps this behaviour as written.

## Model

| member | source | states |
|---|---|---|
| `JsString.StrLeTotalOrder` | pages/Dashboard.tsx:75-76 | The string order used by `>=` and by the date sort is total, antisymmetric and transitive. |
| `JsString.StrLtAt` | pages/Dashboard.tsx:75 | `a < b` holds when the strings agree up to some position where `a` ends or has the smaller character. This is the lexicographic reading that makes ISO dates compare chronologically. |
| `JsString.ToUpper` | pages/Dashboard.tsx:84 | Upper-casing keeps the length and leaves no lower-case ASCII letter. It shifts each such letter to its capital and keeps every other character. |
| `JsString.Includes` | pages/Dashboard.tsx:84 | `includes` holds exactly when the marker occurs at some position of the string. |
| `JsString.OrElse` | pages/Dashboard.tsx:84 | The `internalName`-else-`name` fallback yields the first value when it is present and non-empty, and the second otherwise. The result is non-empty whenever the second value is. |
| `JsArray.Find` | pages/Dashboard.tsx:83-85 | `find` is absent exactly when no element satisfies the test. Otherwise it returns the element at the first satisfying position. |
| `JsArray.FindIsFirst` | pages/Dashboard.tsx:98 | The first satisfying position determines `find`'s result. |
| `JsArray.Any` | pages/Dashboard.tsx:68 | `some` holds exactly when some element satisfies the test. |
| `JsArray.Filter` | pages/Dashboard.tsx:123 | `filter` keeps every satisfying element as often as it occurs and drops every other element. |
| `JsArray.FilterConcat` | pages/Dashboard.tsx:123 | `filter` keeps relative order: it distributes over concatenation. |
| `JsArray.Count` | pages/Dashboard.tsx:126-128 | `filter(...).length` is the number of positions holding a satisfying element, so it is at most the list's length. |
| `PortfolioScanner.HasCheckIn` | pages/Dashboard.tsx:68 | The inner `some` holds exactly when some reservation at the property checks in on the date. |
| `PortfolioScanner.GroupCollisions` | pages/Dashboard.tsx:65-72 | The object's keys are distinct and each holds a non-empty set with no repeats. `p` is under `d` exactly when `Collides(rs, p, d)`, including the case where one reservation is its own partner. |
| `PortfolioScanner.NoDupSize` | pages/Dashboard.tsx:74 | A repetition-free list of ids is as long as the set of its ids, so `count` is the number of distinct properties. |
| `PortfolioScanner.SortByDate` | pages/Dashboard.tsx:76 | The sort returns a permutation of its input. |
| `PortfolioScanner.SortByDateSorted` | pages/Dashboard.tsx:76 | The sort orders by date, and strictly when no two entries share a date. |
| `PortfolioScanner.Entries` | pages/Dashboard.tsx:73-74 | There is one record per key, in key order, carrying that key's date and set. |
| `PortfolioScanner.RankedMembers` | pages/Dashboard.tsx:73-76 | Before the slice, the sorted list holds exactly the records of the keys from today on. |
| `PortfolioScanner.RankedStrictlySorted` | pages/Dashboard.tsx:73-76 | Before the slice, the sorted list is in strictly ascending date order, because one object's keys are distinct. |
| `PortfolioScanner.RankedHasKey` | pages/Dashboard.tsx:73-76 | Every key from today on has its record at some position of the sorted list. |
| `PortfolioScanner.RankDays` | pages/Dashboard.tsx:77 | The slice keeps at most four days. |
| `PortfolioScanner.RankDaysSound` | pages/Dashboard.tsx:73-77 | Every kept day is a key from today on and carries that key's whole set, with `count` its size. The days are in strictly ascending date order. |
| `PortfolioScanner.RankDaysComplete` | pages/Dashboard.tsx:75-77 | Any key from today on that is not kept comes after each of the four kept days. |
| `PortfolioScanner.CriticalDays` | pages/Dashboard.tsx:64-78 | At most four days, all from today on, in strictly ascending date order. Each day lists, without repeats, exactly the properties with a collision that day, and `count` is their number. A collision date from today on that is left out is later than all four listed days. |
| `PriorityWatch.CasaAmpliaCritical` | pages/Dashboard.tsx:81-106 | The result is absent exactly when no property's name, upper-cased, contains the marker. Otherwise it names the first matching property. `Clear` means that property has no collision from today on. Otherwise the outgoing guest is the first reservation there that checks out from today on into a check-in, and the date is its check-out. The incoming guest is present and is the first reservation there arriving that day. |
| `CriticalDetail.PropertyName` | pages/Dashboard.tsx:110-115 | The name is never empty. It is `Desconocido` when no property has the id. Otherwise it is the first such property's operational name, else its commercial name, else `Desconocido`. |
| `CriticalDetail.Expand` | pages/Dashboard.tsx:110-118 | The outgoing guest is absent exactly when nobody at the property leaves on the date, and otherwise is the first who does. The incoming guest is absent exactly when nobody arrives that day, and otherwise is the first who does. |
| `CriticalDetail.OpenCriticalDetail` | pages/Dashboard.tsx:108-119 | The result has one entry per requested id, in the same order, and each entry is that id's expansion (`Expand`): its name resolved as `PropertyName` states, and the first reservation leaving and the first arriving. Each entry carries its id and a non-empty name. Each present guest is a reservation at that property leaving, or arriving, on the date. A guest is absent exactly when there is none. |
| `CriticalDetail.ScannerDayExpandsFully` | pages/Dashboard.tsx:108-119 | Expanding a day whose properties all collide on it finds both guests for every property. |
| `WatchDetail.WatchExpandsToSameGuests` | pages/Dashboard.tsx:96-98 | Expanding the watch's turnover for its property reports the same outgoing and incoming guests that the watch reports. |
| `DashboardStats.ShoppingList` | pages/Dashboard.tsx:123 | The list holds exactly the items with `stock <= minStock`, each as often as it is listed. |
| `DashboardStats.ShoppingListKeepsOrder` | pages/Dashboard.tsx:123 | The shopping list keeps the inventory's order. |
| `DashboardStats.CheckOutsOn` | pages/Dashboard.tsx:126-128 | The check-out filter's length is the number of positions of reservations leaving today, at most the total. |
| `DashboardStats.CheckInsOn` | pages/Dashboard.tsx:127 | The check-in filter's length is the number of positions of reservations arriving today, at most the total. |
| `DashboardStats.TodayStats` | pages/Dashboard.tsx:125-136 | Cleanings and check-outs both count the positions of reservations leaving today, and check-ins count those arriving today. Each count is at most the total. The missing-stock tile is the shopping list's length. |
| `DashboardStats.TodayTurnoverCounted` | pages/Dashboard.tsx:126-128 | A collision today at any property makes today's check-out and check-in counts both at least one. |
| `WorkedCases.BackToBackWatch` | pages/Dashboard.tsx:81-106 | For any priority property with two stays, the second arriving the day the first leaves, from today on, the watch reports that day, the first stay leaving and the second arriving. |
| `WorkedCases.FirstListedTurnover` | pages/Dashboard.tsx:88-92 | When the first listed reservation at a priority property leaves from today on into the second's arrival, the watch reports its check-out date, whatever the later entries hold. |
| `WorkedCases.TwoStaysWatch` | pages/Dashboard.tsx:81-106 | For two back-to-back stays at "Casa Amplia" (out 2024-06-10, in 2024-06-10) and any today up to that day, the watch reports the changeover day with the leaving guest and the arriving guest. |
| `WorkedCases.WatchTakesListOrder` | pages/Dashboard.tsx:88-92 | With July's turnover listed before June's and any today up to 2024-06-05, the watch reports July although June's collision is earlier and still upcoming. |
| `ScannerCase.TwoStaysScan` | pages/Dashboard.tsx:64-78 | For the same two stays and any today up to the changeover, the scanner returns exactly one day, the changeover date, with the one property and `count` 1. |

## Left out

- Rendering, CSS classes and icons (pages/Dashboard.tsx:152-351), the tile labels and colours, and the navigation closures of `stats` (pages/Dashboard.tsx:130-135) are presentation only.
- React state and hooks are not modelled: `useState`, `useMemo`, `useStore`, `useNavigate` and the `setSelectedCriticalDay` call (pages/Dashboard.tsx:120). The expander returns the value it would store.
- The clock and `todayStr` construction (pages/Dashboard.tsx:60-61) depend on the environment: `today` is a parameter.
- AI image import through `geminiService` (pages/Dashboard.tsx:138-150) is an asynchronous foreign call. `geminiService` is not part of this model.
- The tiles show their counts as `toString()` text. The model keeps them as numbers.
- JsString.ToUpper: upper-cases ASCII letters only. JavaScript's `toUpperCase` follows full Unicode case mapping, which can change the string's length (for example `ß` becomes `SS`).
- JsString.StrLt: compares Unicode code points, where JavaScript compares UTF-16 code units. The two differ only for characters outside the Basic Multilingual Plane.
- PortfolioScanner.SortByDate: models `localeCompare` by the same code-point order that `StrLt` gives `<`. The two agree on fixed-width ISO dates but not on arbitrary strings. The sort is modelled as a stable insertion sort. The keys are distinct, so every correct sort gives the same result.
- PortfolioScanner.GroupCollisions: the contract does not state the order of a day's property ids. The model does keep insertion order, as a JavaScript `Set` does, but the contract states only membership and the absence of repeats.
- The grouping object is modelled as its keys in insertion order plus a map. JavaScript would enumerate integer-like keys first, which makes no difference after the sort. Keys that clash with `Object.prototype` members, such as `__proto__`, are not modelled.
- Inventory `stock` and `minStock` are modelled as integers. JavaScript numbers may be fractional or `NaN`, and `NaN` makes `stock <= minStock` false.
- The reservations' optional `checkInTime` and `checkOutTime` are used only when rendering and are not modelled.
