# Training app core, modelled in Dafny

This project models the sequential core of a small training-log web application. It has four parts:

- **Chat-history windowing** (`ask_coach.py`). Each message's time comes from a fallback chain. Messages older than `max_age_days` are dropped and the rest are sorted stably by time. The output is three fixed header lines plus one `[date] role: content` line per message. The chat prompt is a fixed template with nine slots.
- **AI reply cleanup and fallbacks** (`ai_coach.py`). Markdown fences are removed and whitespace is stripped before parsing. Activity summaries are built from the first 10 or 5 activities. `days_left` is computed. Any failure inside the guarded block yields the fixed fallbacks `{"days": []}` and `{}`.
- **The service worker's cache policy** (`static/sw.js`). Install seeds the core assets. Activate deletes every other cache. Fetch routes each request to "not intercepted", network-first (HTML) or cache-first (everything else).
- **The training-store routes** (`app.py`). These create plans and template exercises, copy a plan into an activity, update notes, delete and partially update exercises, add exercises from JSON, and compute the 30-day dashboard count. The defaults of the two AI routes are modelled too.

Everything is pure functions over immutable values:

- the clock ("now", "today") is a parameter;
- the network, the language model, `json.loads`, `datetime.fromisoformat`, `strftime`, `float()` and the parsing and printing of numbers in text are function parameters (oracles) returning `Option` where the original can raise;
- timestamps are integer seconds and dates are integer day numbers.

Modules:

| file | module | models |
|---|---|---|
| wrappers.dfy | `Wrappers` | `Option`, Python attribute lookups (`Field`: missing / `None` / value), `Outcome` (returned or raised) |
| strings.dfy | `Strings` | `str.replace`, `str.strip` with Python's whitespace set, `split`/`join`, integer formatting, template filling |
| sequences.dfy | `Sequences` | Python's `xs[:n]` and an all-or-nothing map |
| models.dfy | `Models` | the stored records (`Activity`, `Exercise`, `WorkoutPlan`, `PlanExercise`, `UserData`), JSON values and the length of a day in seconds |
| askcoach.dfy | `AskCoach` | `build_chat_history`, `build_chat_prompt` |
| aicoach.dfy | `AiCoach` | `generate_plan`, `suggest_workout` |
| serviceworker.dfy | `ServiceWorker` | the install, activate and fetch handlers |
| app.dfy | `App` | the store routes and the AI route defaults |

Some behaviour follows the code rather than the natural reading of it:

- **A null message content.** A message whose `content` attribute is present but `None` renders as `None`. `getattr(m, 'content', '')` uses its default only when the attribute is missing (ask_coach.py:37).
- **An empty timestamp.** An empty-string `timestamp` is falsy, so the chain falls through to `created_at` (ask_coach.py:20). It does not reach the parse-failure branch.
- **Null durations and distances.** A null `duration` (or `distance` in plan generation) among the summarised activities raises a `TypeError`. That happens before the guarded block (ai_coach.py:14-15, 46-47), so the exception escapes instead of producing the fallback. The model returns `Raised` for it.
- **Responses stored by the HTML branch.** The network-first branch stores whatever response arrives, whatever its status (static/sw.js:39-41). `cache.addAll` on install is all-or-nothing and rejects a status outside 200-299.
- **Cache search order.** The cache storage is a list in creation order, because `caches.match` searches caches in that order.

## Model

| member | source | states |
|---|---|---|
| AskCoach.ResolveTimeChain | ask_coach.py:20-25 | the time is a truthy `timestamp`, else a truthy `created_at`, else now; for either attribute a datetime is used as is, a string is its parse, and a string that does not parse becomes now |
| AskCoach.UnparsedIsNow | ask_coach.py:21-25 | a truthy string timestamp that fails `fromisoformat` resolves to now |
| AskCoach.RecentEdges | ask_coach.py:26 | the age test is inclusive at exactly `max_age_days` days, excludes one second more, and keeps future-dated and current messages when `max_age_days >= 0` |
| AskCoach.KeepRecent | ask_coach.py:19-27 | the kept entries are exactly the messages whose resolved time is within the window, paired with that time, and no more than the input |
| AskCoach.KeepRecentAppend | ask_coach.py:19-27 | keeping commutes with concatenation and a single message is kept iff it is recent, so the kept entries are the recent messages in input order |
| AskCoach.UnparsedIsKept | ask_coach.py:20-27 | a message with an unparseable timestamp is always kept (paired with now) when `max_age_days >= 0` |
| AskCoach.SortByTime | ask_coach.py:29 | the result is ordered by time and is a permutation of the input |
| AskCoach.SortIsStable | ask_coach.py:29 | for every time, the entries with that time appear in their input order |
| AskCoach.SortedUnique | ask_coach.py:29 | two time-ordered sequences with the same entries per time are equal, so the stable sort's result is fully determined |
| AskCoach.RoleLabel | ask_coach.py:36 | the label is "Zawodnik" iff the sender is exactly "user", otherwise "Trener" (also for a missing sender) |
| AskCoach.HistoryLines | ask_coach.py:31-37 | the lines are the three header lines followed by one `[date] role: content` line per kept message, so there are 3 + kept of them |
| AskCoach.HistoryOrder | ask_coach.py:29-37 | the emitted entries are time-ordered, keep input order among equal times, and are a permutation of the kept ones |
| AskCoach.HistorySplits | ask_coach.py:38 | when no line contains a newline, splitting the joined history on newlines gives back the lines |
| AskCoach.BuildChatPrompt | ask_coach.py:53-75 | the prompt starts with the fixed preamble and holds each of the nine arguments verbatim, at increasing offsets, in the fixed order |
| AiCoach.Clean | ai_coach.py:38 | the cleaned reply has no surrounding whitespace and no code fence, and a reply that already has neither passes through unchanged |
| AiCoach.CleanFenced | ai_coach.py:37-38 | a reply wrapped in a `json` code fence whose body has no backtick cleans to the stripped body |
| AiCoach.CleanIdempotent | ai_coach.py:68 | cleaning a cleaned reply changes nothing |
| AiCoach.Minutes | ai_coach.py:14 | `duration // 60` is the whole number of minutes, rounded down also for negative durations |
| AiCoach.PlanSummary | ai_coach.py:14-15 | one line per activity among the first ten, in order, with whole minutes and formatted kilometres; absent exactly when one of those lacks a duration or distance |
| AiCoach.PlanSummaryIgnoresTail | ai_coach.py:15 | activities after the tenth never affect the plan summary |
| AiCoach.SuggestSummary | ai_coach.py:46-47 | one line per activity among the first five; absent exactly when one of those lacks a duration |
| AiCoach.DaysLeft | ai_coach.py:17 | the signed day difference: today plus the result is the target, negative iff the target has passed |
| AiCoach.AskModel | ai_coach.py:33-43 | when the model answers and the cleaned reply parses, the answer is that parse; when the call or the parse fails, it is the fallback |
| AiCoach.AnswerDependsOnCleanedReply | ai_coach.py:38-40 | two replies with the same cleaned text give the same answer |
| AiCoach.PlanPromptCarries | ai_coach.py:19-31 | the plan prompt holds the goal, the day count and the history verbatim, in that order |
| AiCoach.SuggestPromptCarries | ai_coach.py:49-61 | the suggestion prompt holds the workout type, the goal and the history verbatim, in that order |
| AiCoach.GeneratePlan | ai_coach.py:12-43 | raises exactly when the summary fails; otherwise answers the parsed cleaned reply whenever the call and the parse succeed, and `{"days": []}` when either fails |
| AiCoach.SuggestWorkout | ai_coach.py:45-73 | raises exactly when the summary fails; otherwise answers the parsed cleaned reply whenever the call and the parse succeed, and `{}` when either fails |
| ServiceWorker.Match | static/sw.js:43 | a match is the entry of the first cache, in creation order, that holds the URL, and none exactly when no cache holds it |
| ServiceWorker.Put | static/sw.js:41 | storing touches only the named cache (created if missing), keeps the other caches and their positions, and keeps names distinct |
| ServiceWorker.FetchAll | static/sw.js:11 | `addAll` fetches succeed exactly when every fetch returns an ok status, and then give those responses in order |
| ServiceWorker.StoreAssets | static/sw.js:2-6 | storing the fetched assets adds exactly the core asset URLs, each with its own response, and keeps the other entries |
| ServiceWorker.Install | static/sw.js:9-12 | install succeeds iff every core asset fetch is ok; then `CACHE_NAME` holds exactly the old keys plus the core assets; otherwise `CACHE_NAME` exists unchanged; other caches are untouched |
| ServiceWorker.Activate | static/sw.js:19-21 | only `CACHE_NAME` is left, with its contents unchanged; every other name is gone |
| ServiceWorker.Route | static/sw.js:31-37 | a request is not intercepted iff it is not a GET or is cross-origin; it is network-first iff, besides, its accept header contains "text/html" |
| ServiceWorker.HandleFetch | static/sw.js:27-55 | the browser's default handling happens exactly for requests not intercepted, and then the caches are untouched |
| ServiceWorker.NonGetIgnored | static/sw.js:31 | non-GET requests are never intercepted and change no cache |
| ServiceWorker.CrossOriginIgnored | static/sw.js:34 | cross-origin requests are never intercepted and change no cache |
| ServiceWorker.HtmlOnline | static/sw.js:37-42 | an HTML response from the network is returned whatever its status and stored under the request in `CACHE_NAME`; no other cache changes |
| ServiceWorker.HtmlOffline | static/sw.js:43 | offline, the cached page is served, else the cached "/", and nothing is stored |
| ServiceWorker.StaticHitSkipsNetwork | static/sw.js:50 | a cache hit for a static request does not depend on the network and changes nothing |
| ServiceWorker.StaticMiss | static/sw.js:50-54 | a static miss is fetched, returned and stored in `CACHE_NAME`; a network error reaches the page |
| ServiceWorker.OfflineReplay | static/sw.js:37-43 | after activation, a page fetched online is served identically when the network is later down |
| App.Find | app.py:70 | the lookup finds a row with the key, and fails exactly when no row has it |
| App.NextId | app.py:88-89 | a new key is one more than the largest key (1 for an empty table), so it is new |
| App.AddPlan | app.py:84-91 | a plan with the given name and a new key is appended exactly when the name is non-empty; otherwise nothing changes; always redirects to /plans |
| App.AddPlanExercise | app.py:94-109 | 404 iff the plan is unknown; a missing name changes nothing; empty counts become 0; a count `int()` rejects gives a 500 with nothing written; otherwise one template exercise is appended |
| App.ApplyPlan | app.py:114-135 | 404 iff the activity or a given plan is unknown; an empty or missing plan id changes nothing; otherwise exactly one exercise per template exercise is appended in template order, copying name and default counts, with weight 0 and the activity's id |
| App.UpdateNotes | app.py:138-144 | only the target activity's notes change, to the submitted value (`None` when missing) |
| App.DeleteExercise | app.py:147-153 | exactly the targeted exercise is removed, every other row is kept in order, and the answer redirects to its former activity |
| App.PyStr | app.py:168 | `str()` returns a string unchanged, writes `None` as "None", and writes an integer as text that reads back as that integer |
| App.PyInt | app.py:163-165 | `int()` keeps an integer, truncates a float toward zero, parses a string, and raises exactly for `None`, a list, a dict or an unparseable string |
| App.WeightText | app.py:168 | commas become dots, every other character and the length of `str(v)` are kept, and no comma remains |
| App.WeightTextOfString | app.py:168 | a submitted "72,5" reaches `float()` as "72.5", and "72.5" is unchanged |
| App.WeightValue | app.py:169 | an empty weight text reads as 0.0, and any other text is handed to `float()` with commas turned into dots |
| App.Patch | app.py:162-169 | only the keys present in the body change; the update fails exactly when a present value does not convert |
| App.UpdateExercise | app.py:156-172 | 404 iff the exercise is unknown; a 500 with nothing written iff the body is missing or a value does not convert; otherwise only the present fields of that exercise change |
| App.Get | app.py:183-186 | a key of a JSON object reads its last binding, and is missing exactly when no binding has it |
| App.TextColumn | app.py:183 | a text column keeps a string, stores null as null and a number as its decimal text, and fails exactly for a list or a dict |
| App.IntColumn | app.py:184-185 | an integer column keeps an integer and null, and rejects exactly strings, floats, lists and dicts |
| App.RealColumn | app.py:186 | a float column keeps a number and null, and rejects exactly strings, lists and dicts |
| App.ItemFields | app.py:180-187 | an item is accepted iff it is an object with name, sets and reps whose values fit their columns and a weight (default 0) that fits; the accepted fields are those column values |
| App.AddExerciseApi | app.py:174-191 | 404 iff the activity is unknown; otherwise succeeds iff every item is usable, then appends one exercise per item, in order, with the activity's id; on failure nothing is written |
| App.DashboardCountIsWindowSize | app.py:30-35 | the dashboard count is the number of activities whose start time is at most 30 days ago |
| App.SuggestGoal | app.py:224 | the user's goal if set and non-empty, else "Utrzymanie formy" |
| App.SuggestWorkoutRoute | app.py:218-227 | raises exactly when one of the five newest activities lacks a duration; otherwise the answer is the parsed cleaned reply to the prompt with the type (default "bieg") and goal, or `{}` when the call or parse fails |
| App.SuggestDefaults | app.py:220-224 | a missing type behaves as "bieg", and a missing user as one whose goal is the default goal |
| App.UpdatedUser | app.py:203-208 | the goal is required and stored as its text-column value, a list or dict goal failing; a truthy target date must parse or the route raises; a falsy one keeps the stored date |
| App.CreatePlanRoute | app.py:196-215 | a missing body or goal raises before anything is saved; otherwise the user record `UpdatedUser` computes is saved (or the route raises before saving), then the answer is the parsed plan for the stored target date (or 30 days from today), or `{"days": []}` when the call or parse fails |

## Left out

- I/O and time: real clocks, date parsing and formatting (`fromisoformat`, `strftime`, `.date()`) and the Gemini call are parameters.
- Timezones: a timezone-aware timestamp makes `now - ts` raise a `TypeError` in `build_chat_history`. The model has no timezones.
- Floating point: the `/ 1000` with `.1f` formatting of distances is the `formatKm` parameter. The dashboard's distance and hour sums and rounding (app.py:36-37), including the `TypeError` a null value raises there, are not modelled.
- Python conversions: `float()` of a string, `int()` of a string and the `str()` of a float, list or dict are parameters. `str()` of a string, `None`, a boolean or an integer and `int()` of every other JSON value are written out.
- The `print(f"Błąd AI: {e}")` in both `except` branches of ai_coach.py (lines 42 and 72) is console output and is not modelled; only the fallback value is.
- The service worker's async timing: the un-awaited `cache.put`, promise ordering, `skipWaiting`/`clients.claim` and the Cache API's refusal of partial (206) responses. Cache writes take effect at once, and the storage is keyed by URL.
- Database behaviour: ORM relationships, cascades and non-null constraints are not modelled (app.py creates exercises without `user_id`).
  - `plan.exercises` is taken in table order.
  - Query ordering (`ORDER BY start_time DESC LIMIT n`) is the caller's: the AI routes receive the activities newest first.
  - A text column (`name`, `goal`) follows SQLite's text affinity: a number is stored as its text, and a list or a dict fails, because binding one raises.
- App.IntColumn: rejects a string or a float. SQLite's integer affinity would instead store a numeric string or an integral float as an integer and keep any other value as it is. So `App.AddExerciseApi` answers with a failure and writes nothing for an item such as `{"name": "X", "sets": "3", "reps": "10"}`, which the program stores and acknowledges with `{"status": "ok"}`. `Exercise.sets` and `Exercise.reps` hold integers only, so a value kept as text has no place in the model.
- App.RealColumn: rejects a string. SQLite's real affinity would instead store a numeric string such as "72.5" as a number and keep any other string as text. So `App.AddExerciseApi` fails, with nothing written, on an item whose `weight` is a string, which the program stores.
- `UserData` is not defined in models.py, though app.py imports it (app.py:4). Its shape is an assumption of this model: `goal` is a text column, so `App.UpdatedUser` stores it through `App.TextColumn`, and `target_date` is a date, held as a day number.
- `request.json` is modelled as an optional JSON object. A body that is JSON but not an object is not modelled. With newer Flask versions a missing JSON body is rejected with 415 before the 404 lookup, while the model answers 404 first.
- Rendering routes (`index` page rendering, `activity_detail`, `plans_list`), the Strava routes and client, configuration and the user-profile text are outside this core.
- App.DashboardCount: its own contract only bounds the count by the number of activities; the exact meaning is stated by App.DashboardCountIsWindowSize.
