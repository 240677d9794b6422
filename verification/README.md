# smartbus-connect core in Dafny

A functional model of the logic at the heart of smartbus-connect, a bus
tracking and trip-planning web application, with proofs about that model.

- **The rate-limit retry of the AI trip planner** (`AiTripPlanner`):
  - The error classifier.
  - The bounded retry loop. The model call is a scripted function
    `attempt -> Ok(v) | Err(thrown)`. Each run records a trace of calls
    and sleeps.
  - The planner flow's single retried prompt call.
- **Trip-planner page state** (`TripPlannerUi`):
  - form validation and submission;
  - the five-entry most-recent-first history, loading from it and clearing it;
  - speech dictation into the notes and the microphone toggle;
  - the keyword-priority step icon.
- **Fleet management table** (`BusTable`): status badges, the route cell, the route and status column filters, and the status checkbox toggle.
- **Static fleet data and its fallbacks** (`FleetData`): fetched-or-fallback routes and buses, lookups by id, and the integrity of the fallback fleet.
- **Client data service** (`DbService`):
  - mapping API documents to domain records, with their fallback chains;
  - empty results on every failure;
  - the stops query parameter.
- **Document store** (`Store`): counter-assigned ids, `findOne` by (name, lat, lng), and `populate`.
- **Routes API** (`RoutesApi`): POST's find-or-create stop loop and route creation, and GET's listing ordered by number.
- **Seeding endpoint** (`Seed`): clear, create the stops and routes, create the buses, and report the counts.
- **Profile page** (`Profile`): avatar initials, the login redirect, and the trip-history fetch.
- **Sign-in form** (`AuthForm`): login and signup validation, and the Google sign-in loading flag.
- **Mock authentication provider** (`AuthContext`) and its `useAuth` guard.
- **Live map** (`LiveMap`): initial center and zoom, the pan effect, marker colours and marker clicks.

Shared helpers:
- `Wrappers`: `Option` and JavaScript truthiness of optional strings.
- `Text`: ASCII case mapping, substring search, `split`/`join` on one character.
- `Seqs`: `find`, `filter`, and removing every occurrence.
- `Domain`: the shapes of routes, stops, buses and trip plans.

Modelling choices:
- Time, `fetch`, `localStorage` and `setTimeout` become parameters or recorded events.
- `now` stands for the current time where the code calls `new Date()` once. Where it calls `new Date()` once per bus, the model takes a clock `clock(i)` instead, one reading per bus: in the seeding, after each awaited create, and in `getBuses`, inside the map callback.
- Latitude and longitude are `real` values compared only for equality.
- Store ids are natural numbers drawn from one counter.

## Model

| member | source | states |
|---|---|---|
| AiTripPlanner.MessageOf | src/ai/ai-trip-planner.ts:19-24 | The string classified is the error's message for an Error, the value itself for a string, and its JSON text otherwise |
| AiTripPlanner.IsRateLimitMessageMeaning | src/ai/ai-trip-planner.ts:25-30 | A message is a rate limit iff it contains "429" or its lower-cased form contains "too many requests", "quota exceeded" or "rate limit" |
| AiTripPlanner.ClassificationByMessage | src/ai/ai-trip-planner.ts:18-31 | Two thrown values with the same inspected string are classified alike |
| AiTripPlanner.ClassificationIgnoresCase | src/ai/ai-trip-planner.ts:26-29 | Lower-casing a message never changes whether it is a rate limit |
| AiTripPlanner.BackoffSchedule | src/ai/ai-trip-planner.ts:41 | The waits after attempts 1, 2 and 3 are 1500, 3000 and 6000 ms |
| AiTripPlanner.BackoffDoubles | src/ai/ai-trip-planner.ts:41 | Each backoff is twice the one before |
| AiTripPlanner.RetryFrom | src/ai/ai-trip-planner.ts:36-44 | A run from an attempt starts by calling at that attempt and ends with a call whose outcome is the result |
| AiTripPlanner.StopAttempt | src/ai/ai-trip-planner.ts:36-40 | The attempt the loop stops at: every earlier attempt failed with a rate limit, and this one did not unless it is the fourth |
| AiTripPlanner.RetryCharacterization | src/ai/ai-trip-planner.ts:33-44 | The retry loop returns the outcome of the stopping attempt, after exactly the calls and backoff sleeps up to it |
| AiTripPlanner.RetryStep | src/ai/ai-trip-planner.ts:39-43 | A retried attempt contributes its call and its backoff sleep, then the loop continues at the next attempt |
| AiTripPlanner.ExpectedTraceShape | src/ai/ai-trip-planner.ts:36-42 | A run over attempts from..n makes n-from+1 calls and sleeps the backoff of each attempt but the last |
| AiTripPlanner.AtMostFourCalls | src/ai/ai-trip-planner.ts:35-36 | The call is invoked at least once and at most four times |
| AiTripPlanner.RunSleeps | src/ai/ai-trip-planner.ts:41-42 | The sleeps of a run are the first (calls - 1) entries of 1500, 3000, 6000 ms |
| AiTripPlanner.BackoffTotal | src/ai/ai-trip-planner.ts:41 | Each sleep doubles the previous one and a run sleeps at most 10500 ms in all |
| AiTripPlanner.SleepsFollowRateLimits | src/ai/ai-trip-planner.ts:40-42 | Every sleep directly follows a call that failed with a rate-limit error |
| AiTripPlanner.FailFast | src/ai/ai-trip-planner.ts:40 | The first error that is not a rate limit is returned at once: no further call and no sleep after it |
| AiTripPlanner.SuccessOnAttempt | src/ai/ai-trip-planner.ts:37-42 | A first success on attempt k is returned after k calls and the first k-1 backoff sleeps |
| AiTripPlanner.ExhaustedRethrowsLast | src/ai/ai-trip-planner.ts:40 | Four rate-limit failures rethrow the fourth error itself, after sleeping 1500, 3000 and 6000 ms |
| AiTripPlanner.ResultIsAnAttempt | src/ai/ai-trip-planner.ts:45-46 | The result is always the outcome of an attempt actually made: the fallback throw after the loop is never reached |
| AiTripPlanner.RetryFirstSettled | src/ai/ai-trip-planner.ts:36-44 | When attempt k is the first settled one, the run returns its outcome with the trace of attempts 1..k |
| AiTripPlanner.PlannerFlow | src/ai/ai-trip-planner.ts:129-133 | The flow answers from the first prompt attempt that is not rate-limited, or from the fourth: its structured output, or its error rethrown. Every earlier attempt failed with a rate-limit error |
| AiTripPlanner.ThreeRateLimitsThenSuccess | src/ai/ai-trip-planner.ts:37-43 | Three "429" errors followed by a success return the success after sleeping 1500, 3000 and 6000 ms |
| Wrappers.OrElse | src/components/TripPlanner.tsx:153 | `a \|\| b` on optional strings keeps `a` exactly when it is a non-empty string |
| Text.ToLower | src/ai/ai-trip-planner.ts:27 | Lower-casing keeps the length and maps each character on its own |
| Text.Contains | src/ai/ai-trip-planner.ts:26 | `includes` holds iff the pattern occurs at some position |
| Text.Split | src/app/profile/page.tsx:66 | `split` on one character yields at least one part and no part contains the separator |
| Text.JoinSplit | src/app/profile/page.tsx:66 | Joining the parts of a split with the separator gives back the string |
| Text.SplitJoin | src/app/profile/page.tsx:66 | Splitting a join of separator-free parts gives back the parts |
| Seqs.RemoveAll | src/components/BusManagementTable.tsx:189 | Removing a value drops every occurrence of it and keeps every other value as often as before |
| TripPlannerUi.FormIssues | src/components/TripPlanner.tsx:35-39 | Start and destination each get their own message exactly when shorter than 3 UTF-16 code units; notes are never checked |
| TripPlannerUi.FormAcceptsIff | src/components/TripPlanner.tsx:35-39 | The form submits iff start and destination both have length at least 3 |
| TripPlannerUi.AstralCharCountsTwice | src/components/TripPlanner.tsx:35-39 | An emoji is two code units, so an emoji and one letter pass the minimum of 3 while two letters do not |
| Text.Utf16LengthIsCount | src/components/TripPlanner.tsx:35-36 | A string's JavaScript length equals its number of characters exactly when none lies above U+FFFF |
| TripPlannerUi.PushHistory | src/components/TripPlanner.tsx:142-150 | The new item leads, followed by the old history in order, cut to 5 entries |
| TripPlannerUi.HistoryMostRecentFirst | src/components/TripPlanner.tsx:148 | After several successful submissions the history is the new items newest first, then the older history, cut to 5 entries |
| TripPlannerUi.BeginSubmit | src/components/TripPlanner.tsx:128-130 | A submission starts loading and clears the error and the shown plan, and nothing else changes |
| TripPlannerUi.Submit | src/components/TripPlanner.tsx:127-156 | On success the plan is shown and pushed onto the history. On failure the error is the result's message, or "An unknown error occurred.", and the history is unchanged. Loading always ends |
| TripPlannerUi.HandleSubmit | src/components/TripPlanner.tsx:127-156 | A form the schema rejects leaves the state untouched. An accepted one ends not loading: on success it shows the returned plan, clears the error and puts the new entry first in a history of at most five; on failure it clears the plan, sets an error and keeps the history |
| TripPlannerUi.LoadFromHistory | src/components/TripPlanner.tsx:158-163 | Loading an entry shows its plan and inputs and leaves the history as it was |
| TripPlannerUi.ClearHistory | src/components/TripPlanner.tsx:165-168 | Clearing empties the history and touches nothing else |
| TripPlannerUi.ClearedHistoryAfterFailure | src/components/TripPlanner.tsx:152-154 | A failed submission after clearing leaves the history empty |
| TripPlannerUi.AppendTranscript | src/components/TripPlanner.tsx:76 | A transcript replaces empty notes, and is otherwise appended after the notes and one space |
| TripPlannerUi.OnSpeechResult | src/components/TripPlanner.tsx:73-78 | A speech result writes the appended notes, stops listening and keeps start and destination |
| TripPlannerUi.DictationAccumulates | src/components/TripPlanner.tsx:75-76 | Two dictations onto non-empty notes give notes, space, first, space, second, for any transcripts |
| TripPlannerUi.HandleMicClick | src/components/TripPlanner.tsx:171-181 | Without a recognizer nothing happens; otherwise listening flips and the matching start or stop command is issued |
| TripPlannerUi.MicClickTwiceRestores | src/components/TripPlanner.tsx:174-180 | Two clicks with a recognizer restore the state |
| TripPlannerUi.WalkWins | src/components/TripPlanner.tsx:186 | Any instruction mentioning "walk", in any case, gets the walking icon |
| TripPlannerUi.BusIconMeaning | src/components/TripPlanner.tsx:186-187 | The bus icon is chosen iff the lower-cased instruction mentions "bus" and not "walk" |
| TripPlannerUi.StepIconMeaning | src/components/TripPlanner.tsx:188-190 | The start pin, destination pin and tram icon are each chosen exactly when no earlier keyword matched and their own keywords say so |
| TripPlannerUi.StepIconCaseInsensitive | src/components/TripPlanner.tsx:184-185 | Lower- or upper-casing the instruction never changes its icon |
| BusTable.KnownStatusBadges | src/components/BusManagementTable.tsx:46-55 | Each of the four known statuses gets a non-default style, a badge of its own, and a caption that is the status name with its first letter upper-cased |
| BusTable.UnknownStatusVerbatim | src/components/BusManagementTable.tsx:56-57 | Any other status is shown verbatim in a default badge |
| BusTable.RouteOf | src/components/BusManagementTable.tsx:81 | The route found for a bus has the bus's route id, and none is found only when no route has it |
| BusTable.RouteCell | src/components/BusManagementTable.tsx:80-83 | The cell reads "Unassigned" exactly when no route matches; otherwise it is "number - name" |
| BusTable.FilteredRows | src/components/BusManagementTable.tsx:84-102 | The rows shown are exactly those passing both the route filter and the status filter |
| BusTable.NoFilterShowsAll | src/components/BusManagementTable.tsx:137 | With no column filter set, every row is shown in order |
| BusTable.StatusFilterExcludes | src/components/BusManagementTable.tsx:100-102 | A row whose status is not in a set status filter is not shown |
| BusTable.ToggleStatus | src/components/BusManagementTable.tsx:187-191 | Checking appends the status. Unchecking removes all its occurrences. An empty list is stored as no filter |
| BusTable.ToggleKeepsOthers | src/components/BusManagementTable.tsx:186-190 | Toggling one status never changes whether another is checked |
| BusTable.UncheckKeepsOrder | src/components/BusManagementTable.tsx:189 | Unchecking keeps the remaining entries in their order |
| BusTable.CheckThenUncheck | src/components/BusManagementTable.tsx:187-190 | Checking then unchecking a status not in the filter restores the filter |
| BusTable.FallbackRowsAllAssigned | src/components/BusManagementTable.tsx:80-87 | Every fallback bus shows a route label and passes the filter of all route numbers |
| FleetData.GetRoutes | src/lib/data.ts:97-105 | The fetched routes when non-empty, otherwise the fallback routes (also when the fetch throws) |
| FleetData.GetBusesData | src/lib/data.ts:107-115 | The fetched buses when non-empty, otherwise the fallback buses (also when the fetch throws) |
| FleetData.GetRouteById | src/lib/data.ts:121 | Returns a fallback route with the given id, or nothing when no fallback route has it |
| FleetData.GetBusById | src/lib/data.ts:122 | Returns a fallback bus with the given id, or nothing when no fallback bus has it |
| FleetData.FallbackReferentialIntegrity | src/lib/data.ts:43-94 | Every fallback bus's route id names a fallback route |
| FleetData.FallbackKeysDistinct | src/lib/data.ts:5-94 | Fallback route ids, route numbers and bus ids are each pairwise distinct |
| FleetData.LookupFindsFallbacks | src/lib/data.ts:121-122 | Looking up a fallback route or bus by its own id finds exactly it |
| FleetData.RoutesFromServer | src/lib/data.ts:97-100 | A failed server fetch gives the fallback routes; a successful non-empty one gives the mapped routes |
| DbService.SuccessData | src/lib/db-service.ts:14-16 | The data is used only when the response is ok, parses and has `success` |
| DbService.MapNestedStop | src/lib/db-service.ts:22-29 | A nested stop's id is its `_id` when present, else its `id`; the other fields are copied |
| DbService.MapRoute | src/lib/db-service.ts:18-30 | A route keeps its id, name and number, and maps each stop in order |
| DbService.MapBus | src/lib/db-service.ts:56-65 | A bus's route id comes from the populated route or the raw reference. Its time stamp is `lastUpdated`, else `updatedAt`, else now |
| DbService.GetRoutes | src/lib/db-service.ts:4-39 | Empty on any failure; otherwise one mapped route per document, in order |
| DbService.GetRoutesServer | src/lib/db-service.ts:113-146 | Empty on any failure; otherwise one route per document |
| DbService.RouteFetchersAgree | src/lib/db-service.ts:125-139 | The server fetcher maps a response exactly as the client fetcher does |
| DbService.GetBuses | src/lib/db-service.ts:42-73 | Empty on any failure; otherwise one mapped bus per document, in order, each unstamped bus falling back to its own clock reading |
| DbService.StopsQuery | src/lib/db-service.ts:78-81 | A `cityType` parameter holding the digit is added exactly when a city type is given |
| DbService.GetStops | src/lib/db-service.ts:76-110 | Empty on failure or when a document lacks `_id`; otherwise one mapped stop per document, in order |
| Store.CreateStop | src/app/api/routes/route.ts:35 | A created stop gets the next counter value as id and is appended; nothing else changes |
| Store.CreateRoute | src/app/api/routes/route.ts:41-45 | A created route gets the next id and the given name, number and stop ids |
| Store.CreateBus | src/app/api/seed/route.ts:124-127 | A created bus gets the next id and is appended |
| Store.FindStop | src/app/api/routes/route.ts:33 | `findOne` returns a stored stop with the key, and nothing only when no stored stop has that key |
| Store.FindStopAfterAppend | src/app/api/routes/route.ts:32-38 | Stops added later do not change which stop `findOne` returns for an already stored key |
| Store.Populate | src/app/api/routes/route.ts:47 | Population yields at most one stored stop per id, and each stop it yields carries one of the referenced ids |
| Store.PopulateAllResolved | src/app/api/routes/route.ts:47 | Nothing is dropped iff every referenced id is stored; then the i-th populated stop carries the i-th id |
| Store.FindById | src/app/api/routes/route.ts:47 | With unique ids, population finds a stored stop by its own id |
| RoutesApi.FindOrCreateStop | src/app/api/routes/route.ts:33-37 | A stored key reuses the first matching stop and creates nothing; a new key creates a stop; either way the key then finds the returned id |
| RoutesApi.ResolveStops | src/app/api/routes/route.ts:30-39 | One id per posted stop, in order, each the id `findOne` gives for that stop's key; only new keys are added |
| RoutesApi.Post | src/app/api/routes/route.ts:22-49 | The route is created with the body's name and number over the resolved ids. A body whose `stops` is not an array gives an empty stop list and creates no stop |
| RoutesApi.PostStopsMatchRequest | src/app/api/routes/route.ts:41-47 | The returned route lists one stop per posted stop, in order, with the posted name and position |
| RoutesApi.PostReusesStoredStops | src/app/api/routes/route.ts:33-37 | Posting only already stored stops creates no stop |
| RoutesApi.SameKeySameId | src/app/api/routes/route.ts:33-37 | Two posted stops with the same (name, lat, lng) resolve to the same id |
| RoutesApi.StrLeTotal | src/app/api/routes/route.ts:10 | The number order compares any two numbers |
| RoutesApi.Insert | src/app/api/routes/route.ts:10 | Insertion adds exactly the new route to the list |
| RoutesApi.InsertSorted | src/app/api/routes/route.ts:10 | Inserting into a list ordered by number keeps it ordered |
| RoutesApi.SortByNumber | src/app/api/routes/route.ts:10 | Sorting by number yields a permutation of the routes in ascending order |
| RoutesApi.Get | src/app/api/routes/route.ts:6-12 | Each stored route appears once, populated, in ascending order of number |
| Seed.AssignedRouteIndex | src/app/api/seed/route.ts:117-122 | The route index used for a bus is always below 3, so it stays within the created routes |
| Seed.AssignmentCoversFirstTwoRoutes | src/app/api/seed/route.ts:117-121 | Buses 0 and 1 go to route 0 and buses 2 to 4 go to route 1. The loop's own formula would send bus 4 to route 2 |
| Seed.CreateStops | src/app/api/seed/route.ts:98-102 | Each seed stop is created in order with consecutive fresh ids |
| Seed.CreateRoutes | src/app/api/seed/route.ts:95-111 | One route per seed route, in order, with its name and number; all their stops are added |
| Seed.CreatedRoutesHoldStops | src/app/api/seed/route.ts:97-109 | Each created route lists exactly the ids of its own seed stops, in seed order |
| Seed.CreatedRoutesFresh | src/app/api/seed/route.ts:94-111 | Created route and stop ids are fresh, and the route ids increase |
| Seed.CreateBuses | src/app/api/seed/route.ts:114-129 | Each seed bus is created with its assigned route's id and its own clock reading as time stamp |
| Seed.SeedWith | src/app/api/seed/route.ts:85-142 | The store ends with exactly the seeded stops, routes and buses, each bus stamped with its own clock reading, and the report gives their counts |
| Seed.SeedReplacesContents | src/app/api/seed/route.ts:89-92 | Nothing stored before survives: every stored id is freshly created by the seeding |
| Seed.SeedRoutesHoldOwnStops | src/app/api/seed/route.ts:97-110 | After seeding, each route's stops are its own seed stops, in order |
| Seed.SeedStopTotal | src/app/api/seed/route.ts:9-40 | The seed data holds 12 stops |
| Seed.SeedReportCounts | src/app/api/seed/route.ts:135-139 | Seeding reports 3 routes, 12 stops and 5 buses |
| Seed.ThirdRouteGetsNoBus | src/app/api/seed/route.ts:115-122 | No seeded bus references the third route |
| Seed.NoBusOnRoute303 | src/app/api/seed/route.ts:117-121 | Route "303" receives no bus |
| Profile.Head | src/app/profile/page.tsx:66 | A word contributes its first character, and an empty word contributes nothing |
| Profile.Prefix2 | src/app/profile/page.tsx:66 | `substring(0, 2)` keeps a prefix of at most two characters |
| Profile.HeadsOfSplit | src/app/profile/page.tsx:66 | The first characters of the space-split words are exactly the characters that start a word |
| Profile.Initials | src/app/profile/page.tsx:65-67 | "U" without a display name; otherwise the first two word starts, upper-cased; never longer than 2 |
| Profile.BlankNameHasNoInitials | src/app/profile/page.tsx:66 | A name made only of spaces has empty initials |
| Profile.InitialsComeFromWordStarts | src/app/profile/page.tsx:66 | Each initial is the upper-cased first character of some word of the name |
| Profile.WordStartIndex | src/app/profile/page.tsx:66 | Every collected character sits at a word start of the name |
| Profile.ScreenOf | src/app/profile/page.tsx:56-62 | The profile card shows iff loading is over and a user is signed in |
| Profile.RedirectTarget | src/app/profile/page.tsx:30-34 | The page redirects to "/login" iff loading is over and there is no user |
| Profile.ProfileShownOnlyWithoutRedirect | src/app/profile/page.tsx:30-62 | The card and the redirect never happen together |
| Profile.FetchTrips | src/app/profile/page.tsx:42-54 | The trips are replaced only by a successful response, and loading always ends |
| Profile.FailedFetchKeepsTrips | src/app/profile/page.tsx:46-52 | A throw or unsuccessful response only ends loading |
| AuthForm.MinLength | src/components/AuthForm.tsx:28 | A length check reports its message exactly when the text has too few UTF-16 code units |
| AuthForm.EmailCheck | src/components/AuthForm.tsx:27 | The email check reports "Invalid email address" exactly when the email predicate fails |
| AuthForm.LoginIssues | src/components/AuthForm.tsx:26-29 | Login is accepted iff the email is valid and the password has 6 or more code units. The email issue appears iff the email is invalid, the password issue iff the password is short; nothing else is raised, and no field twice |
| AuthForm.SignupIssues | src/components/AuthForm.tsx:31-39 | Signup is accepted iff name ≥ 2, valid email, password ≥ 6 code units and matching confirmation. Each of the four issues appears iff its own check fails; nothing else is raised, and no field twice |
| AuthForm.MismatchReportedAlongsideFieldIssues | src/components/AuthForm.tsx:36-39 | The password mismatch is reported together with the field errors |
| AuthForm.HandleGoogleSignIn | src/components/AuthForm.tsx:47-63 | Loading stays on after a successful sign-in and ends after a failure, which alone shows the destructive toast |
| AuthContext.EmailUser | src/context/AuthContext.tsx:45-50 | The email user has the fixed uid, the given email, no photo, and the name or "User" |
| AuthContext.Exec | src/context/AuthContext.tsx:28-59 | Each state change applies one effect to the state before it |
| AuthContext.Run | src/context/AuthContext.tsx:28-59 | Each operation ends not loading, with the demo user, the email user or no user |
| AuthContext.LoadingBracketsEachOperation | src/context/AuthContext.tsx:29-39 | Every operation sets loading, waits its delay, sets the user and clears loading |
| AuthContext.RunAll | src/context/AuthContext.tsx:23-59 | After a sequence of operations the user is the last operation's result |
| AuthContext.SignedOutIff | src/context/AuthContext.tsx:54-59 | From the initial state there is no user iff nothing ran or the last operation was sign-out |
| AuthContext.UseAuth | src/context/AuthContext.tsx:68-74 | Outside a provider the hook throws the fixed message; inside, it returns the provider's value |
| LiveMap.InitialCenter | src/components/LiveMap.tsx:112 | The center prop, else the user location, else (34.0522, -118.2437) |
| LiveMap.InitialZoom | src/components/LiveMap.tsx:113 | The zoom prop when truthy, else 14 |
| LiveMap.PanEffect | src/components/LiveMap.tsx:82-91 | With a map: the center and its truthy zoom, else the user location, else the first bus; nothing without a map or a target |
| LiveMap.PanAgreesWithInitialView | src/components/LiveMap.tsx:82-113 | With a center or a user location, the effect pans to the point the map started at, and any zoom it sets is the starting zoom |
| LiveMap.PanIgnoresBusesWhenPlaced | src/components/LiveMap.tsx:86-89 | With a center or a user location, the buses never influence the pan |
| LiveMap.MarkerColor | src/components/LiveMap.tsx:127 | A bus marker is "#f43f5e" iff the bus is delayed and "#8b5cf6" otherwise |
| LiveMap.HandleMarkerClick | src/components/LiveMap.tsx:93-96 | A click makes the marker active and, with a map, pans to it |

## Left out

- The generative-model prompt and flow plumbing (`definePrompt`, `defineFlow`, the prompt text): the prompt is an opaque function of the attempt number, so its output is a parameter.
- The itinerary transform in the trip-planner server action: that file is not part of this model. `planTripAction` is an opaque result with `success`, `data` and `error`.
- `localStorage`, `JSON.parse`, `fetch` and `setTimeout`: sleeps are recorded as durations in the trace, and fetch results are parameters. Parse failures of saved state are not modelled.
- `new Date()`: the current time is a parameter `now`, or the clock `clock` in the seeding and in `getBuses`.
- FleetData.FallbackBuses: the five `new Date().toISOString()` calls of the fallback buses share one `now`. The source makes five synchronous calls, which can straddle a millisecond boundary and then give different stamps.
- Unicode case mapping: `toLowerCase`/`toUpperCase` are modelled on ASCII letters only. Under full Unicode mapping one character can upper-case to two, so the two-character bound on initials is proved only for the ASCII mapping.
- TripPlannerUi.StepIconCaseInsensitive: the upper-casing half holds only for the ASCII case mapping. In JavaScript "ſ" (U+017F) upper-cases to "S" and lower-cases to itself, so "take buſ 5" gets the tram icon while its upper-cased form "TAKE BUS 5" gets the bus icon. The lower-casing half holds under the full mapping too, because lower-casing is idempotent there.
- The email format check of zod is an abstract predicate `isEmail`.
- The driver text filter and the column visibility, sorting and pagination of the fleet table: these are library behaviour with no project logic.
- Mongoose validation (enums, `unique`, `trim`, `required`): these are enforced inside the library. POST with a duplicate route number, which the unique index would reject, is not modelled.
- MongoDB's string collation for `sort({ number: 1 })`: it is modelled as character (code-point) order.
- Concurrency: two POSTs racing in find-or-create, and overlapping React effects. Every operation is sequential.
- The pulse animation of the user marker and all coordinate arithmetic.
- The exported `routes` and `buses` arrays are the fallback arrays by definition (`FleetData.Routes`, `FleetData.Buses`), so no separate property is stated about them.
- The stops, buses, user-trips and auth API handlers: these are query pass-through or foreign cryptography and OAuth.
- AiTripPlanner.RetryCharacterization: stated for any classifier function, and used with `isRateLimitError` through `WithRateLimitRetry`. The "failed unexpectedly" throw after the loop has no counterpart, because the recursion ends at attempt four.
- AuthContext.UseAuth: the provided context value is the state only; the three operations are the separate `Run` function.
- AiTripPlanner.MessageOf: a thrown value that `JSON.stringify` cannot render is not modelled. For `undefined`, a function or a symbol, `msg.includes` throws a TypeError; for a circular object or a BigInt, `JSON.stringify` throws. Either way that TypeError leaves the loop in place of the original error, without a retry. The model's thrown values are an Error, a string, or a value with JSON text.
- DbService.MapBus: a bus whose route document was deleted populates to `null`, and the source then yields a `null` route id. The model's route reference is always a populated route or a reference text, because a bus's `routeId` is a string in the data model.
- Profile.Head: `n[0]` is modelled as the first character. JavaScript takes the first UTF-16 code unit, so a word starting with a character above U+FFFF contributes a lone surrogate, which a Dafny `char` cannot hold.
- Profile.Prefix2: `substring(0, 2)` is modelled on characters, not UTF-16 code units. For the same reason the source can cut a surrogate pair in half.
- Profile.Initials: built from Profile.Head and Profile.Prefix2, so it shares their character-based indexing. A name such as "\u{1F600} Bob" gives "\uD83DB" in the source and the emoji followed by "B" in the model.
- DbService.MapNestedStop: a nested stop with neither `_id` nor `id` is not modelled; the raw record always carries an `id` text.
