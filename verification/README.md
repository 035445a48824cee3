# Portfolio demo apps: a Dafny model of their client-side state logic

This project models the sequential, side-effect-free logic of the portfolio
site's demo screens. Every network call, JSON call and local-storage access is
replaced by an outcome given as a parameter, and each asynchronous handler is
modelled as one atomic step from a state to a state.

- **Todo screen** (`Todos`, todos.dfy): the `Todo` record and how `fetchTodos`,
  `addTodo`, `toggleTodo` and `deleteTodo` change the in-memory list, the
  add-task input, the loading flag and the error banner. Each handler also
  returns the request it sends, if it sends one. The module also covers the
  error-message derivation of the list call and the pending/completed views.
- **Weather screen** (`Weather`, weather.dfy): the `weatherCodes` table and its
  `'Unknown'` fallback, the icon thresholds of `getWeatherIcon`, the unit labels,
  the temperature conversion on exact reals, and the outcomes of the
  geocode-then-forecast search.
- **Session store** (`Session`, session.dfy): the `AuthProvider` state
  `(user, token, loading)` over a key-to-string storage map with the keys
  `authToken` and `userData`. It covers the restore on page load, `login`,
  `signup` and `logout`. `JSON.stringify`/`JSON.parse` of the user record is a
  `UserCodec` parameter. Lemmas that need JSON to round-trip assume `Faithful`.
- **Project catalogue** (`Catalogue`, catalogue.dfy): the category buttons
  (`'All'` followed by `[...new Set(categories)]`), the filtered project list,
  the links of the project dialog, and the shipped catalogue itself.

Shared modules: `Js` (js.dfy) holds nullable values, thrown values, string
truthiness and `||`, `String.prototype.trim` with the whitespace set of
ECMA-262, and decimal rendering of status codes. `Http` (http.dfy) holds the
`Reply`/`Read` outcomes of one request. `Seqs` (seqs.dfy) holds
`Array.prototype.filter`, subsequences, and order-preserving de-duplication.

How outcomes are modelled: `Reply<E, T>` is one of three cases. `Rejected(thrown)`
means the `fetch` promise rejected. `NotOk(status, body)` is a response whose
`ok` flag is false, carrying what the handler reads from the error body.
`Ok(payload)` is a response whose `ok` flag is true. `Read<T>` is the result of
reading a body: either the value or the thrown value. Reading covers any
`response.json()`/`response.text()` call and the property accesses made on the
result. A missing or falsy string field is modelled as `""`.

On the list call's error path, the code calls `response.text()` after
`response.json()` has failed. `FetchTodos` takes the outcome of that text read
as an abstract `Read<string>`, so its contract covers both results: text
obtained, or the read threw. Under the Fetch standard (WHATWG) a body can be
read only once, so a browser takes the second branch; "## Findings" records
what that means for the banner.

Login and signup reject with the value that was actually thrown. That is the
server's `error` text, the `'Login failed'`/`'Signup failed'` fallback, or the
network or JSON error itself; they do not collapse these into one generic
error.

## Model

| member | source | states |
|---|---|---|
| Js.Trim | src/projects/TodoApp.tsx:111-121 | the trimmed text is no longer than the input and neither starts nor ends with whitespace |
| Js.TrimEmptyIffBlank | src/projects/TodoApp.tsx:111 | the add guard `!newTodo.trim()` holds exactly when the input is all JavaScript whitespace |
| Js.TrimFrames | src/projects/TodoApp.tsx:121 | the trimmed task is a slice of the input with only whitespace cut from either end, and it neither starts nor ends with whitespace |
| Js.TrimIdempotent | src/projects/TodoApp.tsx:121 | trimming the already-trimmed task changes nothing |
| Js.DecimalRoundTrip | src/projects/TodoApp.tsx:82 | the decimal text of a status code reads back as the same number |
| Http.StatusMessage | src/projects/TodoApp.tsx:126 | a mutation's error message is its prefix, then `: `, then digits that read back as the status code (also lines 158 and 187) |
| Http.HttpErrorInjective | src/projects/TodoApp.tsx:82 | different status codes give different `HTTP error: <status>` messages |
| Seqs.Dedup | src/components/Sections/Projects.tsx:71 | `[...new Set(xs)]` has no duplicates and holds exactly the elements of `xs` |
| Seqs.DedupOrder | src/components/Sections/Projects.tsx:71 | the de-duplicated list is ordered by each element's first occurrence in the input |
| Seqs.DedupIsSubseq | src/components/Sections/Projects.tsx:71 | the de-duplicated list is a subsequence of the input |
| Seqs.FilterPartition | src/projects/TodoApp.tsx:215-216 | two tests that disagree on every element split a list: the multiset union of the two filtered lists is the original, and their lengths sum to its length |
| Todos.Flip | src/projects/TodoApp.tsx:143 | the requested status is always `pending` or `done`, and it is `done` exactly when the current status is `pending` |
| Todos.FlipInvolution | src/projects/TodoApp.tsx:143 | flipping a valid status twice restores it, and one flip always changes it |
| Todos.FetchFailureMessage | src/projects/TodoApp.tsx:80-91 | the list error is the JSON `error` field when it is non-empty and `HTTP error: <status>` when it is empty; for a non-JSON body it is the non-empty text or else `HTTP error: <status>`; when reading the body threw, it is the thrown error's message, or `Failed to fetch todos` for a non-`Error` value |
| Todos.FetchFailureMessageCases | src/projects/TodoApp.tsx:80-101 | the list error is empty only if reading the body threw an `Error` with an empty message |
| Todos.BodyTextNeverShown | src/projects/TodoApp.tsx:86-89 | as written in a browser, two non-JSON bodies give the same message; a `502` with body `Bad Gateway` shows the body-already-used error instead |
| Todos.IntendedFailureMessage | src/projects/TodoApp.tsx:80-91 | reading the body once: the message is never empty, and for a non-JSON body it is the body text, or `HTTP error: <status>` when that text is empty |
| Todos.IntendedMessageShowsBody | src/projects/TodoApp.tsx:80-91 | the intended message equals the as-written one for every JSON body, and shows any non-empty non-JSON body text |
| Todos.FetchTodos | src/projects/TodoApp.tsx:55-106 | without a token: the no-token error, no request, nothing else changes; with a token: one GET, loading false afterwards, the list replaced wholesale and the error cleared on success, the list untouched on failure; a refused call shows the message `Todos.FetchFailureMessage` derives from the error body, and a rejected fetch or an unreadable body shows the thrown error's message, or `Failed to fetch todos` for a non-`Error` value |
| Todos.AddTodo | src/projects/TodoApp.tsx:109-137 | no request and no change when the input is blank or there is no token; otherwise the POST carries the trimmed text; success appends the server item at the end and clears input and error; failure changes only the error, to `Failed to add todo: <status>` for a refused request, and to the thrown error's message (or `Failed to add todo` for a non-`Error` value) for a rejected fetch or an unreadable body |
| Todos.SetStatus | src/projects/TodoApp.tsx:161-165 | the updated list has the same length; each todo differs from the old one in its status only; the status is the new one exactly for the matching ids |
| Todos.SetStatusAbsent | src/projects/TodoApp.tsx:161-165 | updating an id that is not in the list leaves the list unchanged |
| Todos.ToggleTodo | src/projects/TodoApp.tsx:140-171 | without a token nothing happens; otherwise the PUT carries the flipped status; success updates the matching todos and clears the error; failure changes only the error, to `Failed to update todo: <status>` for a refused request and to the thrown error's message (or `Failed to update todo`) for a rejected fetch |
| Todos.WithoutId | src/projects/TodoApp.tsx:190 | the remaining todos are exactly the old ones whose id differs from the deleted id, every copy kept: the remaining list and the removed todos together make up the old list as a multiset and by length |
| Todos.WithoutIdKeepsOrder | src/projects/TodoApp.tsx:190 | delete keeps the remaining todos in their relative order, deleting an absent id changes nothing, and deleting twice equals deleting once |
| Todos.DeleteTodo | src/projects/TodoApp.tsx:174-196 | without a token nothing happens; otherwise one DELETE; success removes the id and clears the error; failure changes only the error, to `Failed to delete todo: <status>` for a refused request and to the thrown error's message (or `Failed to delete todo`) for a rejected fetch |
| Todos.RefusedRequestKeepsList | src/projects/TodoApp.tsx:125-194 | a non-ok response to add, toggle or delete leaves the list unchanged and sets a non-empty error |
| Todos.PendingTodos | src/projects/TodoApp.tsx:215 | the pending view holds exactly the todos whose status is `pending` |
| Todos.CompletedTodos | src/projects/TodoApp.tsx:216 | the completed view holds exactly the todos whose status is `done` |
| Todos.ViewsPartition | src/projects/TodoApp.tsx:215-216 | both views keep the list order; with valid statuses every todo is in exactly one view and the view sizes sum to the total; a todo with any other status is in neither |
| Todos.ToggleMovesBetweenViews | src/projects/TodoApp.tsx:161-216 | toggling a pending todo with a unique id shrinks the pending view by one and grows the completed view by one |
| Todos.HandlersKeepIdsUnique | src/projects/TodoApp.tsx:130-190 | toggle and delete keep ids unique; add keeps them unique exactly when the server's id is fresh |
| Weather.IconFor | src/projects/WeatherApp.tsx:47-54 | the buckets are 0, then negative or 1..3, then 4..48, then 49..82 (so `<= 67` adds nothing), then 83..99, then above 99, each stated as an if-and-only-if |
| Weather.WeatherIcon | src/projects/WeatherApp.tsx:47-54 | the emoji shown is the sun exactly for code 0, the rainbow exactly above 99, and each other emoji exactly on its code range |
| Weather.IconsOrdered | src/projects/WeatherApp.tsx:47-54 | on non-negative codes a larger code never gets an earlier bucket |
| Weather.GlyphInjective | src/projects/WeatherApp.tsx:48-53 | the six buckets show six different emoji |
| Weather.Describe | src/projects/WeatherApp.tsx:97 | the description is never empty; it is the table entry for a listed code and `Unknown` for every other code |
| Weather.DescribeUnknownIff | src/projects/WeatherApp.tsx:26-45 | the table lists exactly the eighteen codes, and `Unknown` is shown exactly for the codes it does not list |
| Weather.ListedCodesHaveIcons | src/projects/WeatherApp.tsx:26-54 | no listed code falls into the catch-all icon, and the sun is shown exactly for `Clear sky` |
| Weather.TemperatureUnit | src/projects/WeatherApp.tsx:118-120 | the temperature label is `°C` exactly in Celsius mode and `°F` exactly in Fahrenheit mode |
| Weather.WindUnit | src/projects/WeatherApp.tsx:122-124 | the wind label is `km/h` exactly in Celsius mode and `mph` exactly in Fahrenheit mode |
| Weather.UnitLabels | src/projects/WeatherApp.tsx:118-124 | the two labels shown together always belong to the same system |
| Weather.ConvertTemperature | src/projects/WeatherApp.tsx:114-116 | Celsius mode leaves the number alone; the Fahrenheit number converts back to the Celsius one |
| Weather.TemperatureReadingAgreesWithLabel | src/projects/WeatherApp.tsx:114-120 | in Fahrenheit mode 0 °C shows as 32 and 100 °C as 212, and a warmer temperature always shows a larger number |
| Weather.WindReading | src/projects/WeatherApp.tsx:231 | the wind number is the forecast's number in both unit modes; the label is `mph` exactly in Fahrenheit mode |
| Weather.WindMislabelled | src/projects/WeatherApp.tsx:231 | 16.09344 km/h, which is 10 mph, is shown as the number 16.09344 with the label `mph` in Fahrenheit mode |
| Weather.ConvertedWindAgreesWithLabel | src/projects/WeatherApp.tsx:122-124 | with the conversion, the shown wind number measures the forecast's speed in the unit its label names |
| Weather.LocateCity | src/projects/WeatherApp.tsx:66-76 | a refused geocoding call gives `Failed to find city`; missing or empty `results` gives `City not found`; otherwise the first result alone is used; a rejected fetch or an unreadable body throws the thrown error's message, or `Failed to fetch weather data` for a non-`Error` value |
| Weather.ReadForecast | src/projects/WeatherApp.tsx:83-98 | the card is built exactly when the forecast arrives, with the place's name and the table description of the code; a refused call gives `Failed to fetch weather data`; a rejected fetch or an unreadable body gives the thrown error's message, or that fallback for a non-`Error` value |
| Weather.FetchWeather | src/projects/WeatherApp.tsx:56-107 | loading is false on exit in every path; the forecast is requested at the first result's coordinates exactly when geocoding found a place; a card is shown exactly when both stages succeed, holding the forecast's temperature, feels-like, humidity, wind, code and description for the first place, and then the error is empty; otherwise the banner shows the failing stage's message |
| Weather.SearchForgetsPreviousView | src/projects/WeatherApp.tsx:57-58 | a search's result does not depend on the previous card, error or loading flag |
| Weather.CityNotFound | src/projects/WeatherApp.tsx:72-74 | missing or empty `results` ends with `City not found`, no card and no forecast request |
| Weather.OnlyFirstMatchUsed | src/projects/WeatherApp.tsx:76 | geocoding answers that agree on their first result give the same search |
| Weather.SearchOutcomes | src/projects/WeatherApp.tsx:101-105 | every failure clears the card and shows the failing stage's message |
| Weather.ClearSkyScenario | src/projects/WeatherApp.tsx:90-98 | a city whose forecast has code 0 shows `Clear sky` with the sun icon |
| Session.RestoreOnLoad | src/context/AuthContext.tsx:27-37 | user and token come back only when both keys hold truthy values, otherwise both stay null; loading ends unless parsing the stored user throws |
| Session.Authenticate | src/context/AuthContext.tsx:39-95 | loading is false afterwards; a failure rejects and leaves user, token and storage untouched; a refused call rejects with the server's `error` text or the fallback; a rejected fetch or an unreadable body rejects with the thrown value itself; success writes both keys and sets token and user from the same body, keeping other keys; a `null` field is stored as `"null"` and a missing one as `"undefined"`, and both leave the in-memory field empty |
| Session.Login | src/context/AuthContext.tsx:39-66 | login resolves exactly for a parsed ok body; on rejection only loading changes; a refused call rejects with the `error` text or `Login failed`; any other failure rejects with the thrown value itself |
| Session.Signup | src/context/AuthContext.tsx:68-95 | signup resolves exactly for a parsed ok body; on rejection only loading changes; a refused call rejects with the `error` text or `Signup failed`; any other failure rejects with the thrown value itself |
| Session.RefusedAuthChangesNothing | src/context/AuthContext.tsx:50-53 | a refused login rejects with the `error` field or `Login failed`, a refused signup with it or `Signup failed`, and nothing but loading changes |
| Session.Logout | src/context/AuthContext.tsx:97-102 | both keys are removed, other keys kept, and user and token cleared whatever the prior state |
| Session.LogoutIdempotent | src/context/AuthContext.tsx:97-102 | logging out twice equals logging out once |
| Session.SuccessAgrees | src/context/AuthContext.tsx:55-60 | after a successful call with a complete body, the in-memory token and user equal the stored values |
| Session.OperationsKeepAgreement | src/context/AuthContext.tsx:39-102 | login, signup and logout preserve memory–storage agreement and the both-or-neither invariant, for complete success bodies |
| Session.ReloadAfterLogin | src/context/AuthContext.tsx:27-60 | reloading after a successful login restores exactly the signed-in session |
| Session.ReloadAfterLoginWithoutUser | src/context/AuthContext.tsx:58 | a success body without a user stores `"undefined"`, and the next page load throws in `JSON.parse` |
| Session.ReloadAfterLoginWithNullUser | src/context/AuthContext.tsx:27-60 | a success body whose user is `null` stores `"null"`, and the next page load restores the same token-without-user session |
| Session.ReloadAfterLoginWithNullToken | src/context/AuthContext.tsx:27-60 | a success body whose token is `null` leaves no token in memory, but the stored text `"null"` is truthy and comes back as the token on the next page load |
| Session.ReloadAfterLogout | src/context/AuthContext.tsx:97-102 | reloading after logout restores nobody |
| Session.RestoreAgrees | src/context/AuthContext.tsx:32-35 | unless the stored user text is `null`, the restored session agrees with storage and has both fields or neither |
| Catalogue.CategoryNames | src/components/Sections/Projects.tsx:71 | one category name per project, in catalogue order |
| Catalogue.Categories | src/components/Sections/Projects.tsx:71 | the list starts with `All`; the rest has no duplicates, contains every project's category, and only project categories |
| Catalogue.CategoriesInFirstAppearanceOrder | src/components/Sections/Projects.tsx:71 | the categories after `All` follow the order of first appearance in the catalogue |
| Catalogue.CollectCategories | src/components/Sections/Projects.tsx:71 | filling a set in catalogue order yields the same category list |
| Catalogue.Select | src/components/Sections/Projects.tsx:73-75 | `All` yields the full list unchanged; any other category yields exactly the projects filed under it |
| Catalogue.SelectKeepsOrder | src/components/Sections/Projects.tsx:73-75 | every selection is a subsequence of the catalogue |
| Catalogue.DistinctSelectionsDisjoint | src/components/Sections/Projects.tsx:75 | two different non-`All` categories share no project |
| Catalogue.CategoryButtonsPartition | src/components/Sections/Projects.tsx:71-75 | if no project is filed under `All`, each project is shown by its own category's button, and the non-`All` buttons together show the catalogue exactly once |
| Catalogue.Links | src/components/Sections/Projects.tsx:186-202 | the dialog shows `Live Demo` exactly when `liveUrl` is truthy and `View Code` exactly when `githubUrl` is; the live link comes first |
| Catalogue.ShippedCatalogue | src/components/Sections/Projects.tsx:20-75 | the shipped catalogue's buttons are `All`, `Full Stack`, `Frontend`, `Machine Learning`; `Frontend` shows projects 2 and 3 |

## Left out

- Network, `fetch`, `response.json()`/`text()`, `localStorage`, `JSON.parse`/`JSON.stringify`: these are I/O and foreign calls. They appear as `Reply`/`Read` outcome parameters, a storage map, and the `UserCodec` parameter.
- Request details: URLs, headers, the bearer header, `encodeURIComponent` and the login/signup request bodies are not modelled. The todo handlers record only which request they send and its payload. The weather search records only the forecast coordinates.
- Asynchronous interleaving: each handler is one atomic step. The stale `todos` closure and racing toggles are not modelled.
- Payload shapes other than the expected ones are not modelled. Examples: a non-array todo list, a `results` value that is not an array, a non-string `error` field, `current` missing from the forecast. An exception thrown while reading them falls under the `ReadFailed` outcome.
- Session.RestoreOnLoad: when `JSON.parse` throws, the model reports `LoadThrew` and does not model the React state (the token set just before the throw, loading left true).
- Session.Faithful: JSON round-tripping of the user record is assumed, not modelled. Stored values that parse to JSON other than an object or `null` are not distinguished.
- Floating point: temperatures and wind speeds are exact reals. `Math.round` and IEEE rounding are not modelled. Weather codes are integers.
- Todos.BrowserErrorBody: the text of the body-already-used `TypeError` differs between browsers, so it is a parameter. Of the JSON bodies that are not objects, only `null` counts as not JSON, because reading its `error` field throws. A JSON number, string, boolean or array has no `error` field, so it counts as `JsonError("")` and the banner shows `HTTP error: <status>`.
- `formatDate`: depends on locale date formatting.
- Rendering, effects that only trigger handlers, routing, the login/signup forms, `useAuth`, and the static pages and sections are UI with no state logic.
- The chat screen is a static placeholder with no message handling.
- Project fields `description`, `longDescription` and `image` are display-only text and are not modelled.

## Findings

| source | as written | input that shows it | evidently intended | confidence | as-written member | corrected member |
|---|---|---|---|---|---|---|
| src/projects/TodoApp.tsx:86-89 | when the error body of the list call is not JSON, the code calls `response.text()` after `response.json()` has already consumed the body, so the text read rejects and the banner shows that rejection's message | a `502` response whose body is `Bad Gateway` shows the browser's body-already-used `TypeError` message instead of `Bad Gateway` | read the body once as text, then parse it, so that a non-JSON body's text reaches the banner | high, not executed | Todos.BodyTextNeverShown | Todos.IntendedMessageShowsBody |
| src/projects/WeatherApp.tsx:231 | in Fahrenheit mode the wind speed from the forecast (km/h, the service's default unit) is shown unchanged with the label `mph` | a wind speed of 16.09344 km/h (10 mph) is shown as 16.09344 with the label `mph` (rounded to 16 on screen) | convert the number to miles per hour when the label says `mph`, as the temperature is converted to °F | medium, not executed | Weather.WindMislabelled | Weather.ConvertedWindAgreesWithLabel |
