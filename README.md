# Task tracker store and streak engine: a Dafny model

This project models the server side of a personal task tracker. It covers three parts:

- the in-memory store `MemStorage` (`server/storage.ts`), which holds four insertion-ordered maps of users, tasks, projects and streak records;
- the request handlers built on the store (`server/routes.ts`): the task listing with its query dispatch and project attachment, task creation, the task update with its streak engine, deletion, the project routes, the user stats, the settings update and the streak listing;
- the constant tables and insert shapes of `shared/schema.ts`: the streak badge table, the priority levels, and the fields the insert schemas leave out.

Modules:

- `Wrappers`: the `Option` type, plus `Update` (`Keep` or `Put(v)`), which is one field of a JavaScript partial object.
- `JsMap`: a JavaScript `Map` as a sequence of keys in insertion order together with a Dafny `map`. It has `set`, `delete` and `values()`, and lemmas on how `values()` changes under each.
- `Seqs`: `Array.prototype.filter`, `find` and a stable descending sort (the ECMAScript sort is stable). The sort is proved sorted, a permutation of its input, and order-preserving among equal keys.
- `Text`: ASCII `toLowerCase` and `includes`. The scan is proved equal to the substring relation.
- `Clock`: `setHours(0, 0, 0, 0)` as truncation to local midnight at a fixed UTC offset.
- `Schema`: the records, the insert shapes, the partial-update merges, `PRIORITY_LEVELS` and `STREAK_BADGES`.
- `Storage`: the pure record builders and queries, and the class `MemStorage`. The class has the four maps as fields. Its mutators are methods that reassign the fields, and its queries are functions that read them. `MemStorage.Valid()` is the store invariant: the maps are well formed, and every task written by `createTask` or `updateTask` has an `overdue` flag equal to `dueDate < updatedAt && !completed`. The seeded tasks of `initializeDefaultData` are not part of the model and need not satisfy it: two of them take `dueDate` and `updatedAt` from separate clock readings (server/storage.ts:140-148, 156-164). This invariant is exact because the model uses one clock reading per request: the source reads the clock for `updatedAt` (server/storage.ts:263) and again for the overdue test (server/storage.ts:274), so a due date falling between those two readings is stored as overdue with `dueDate >= updatedAt`.
- `Routes`: one member per handler. The handler's 404 case is a `None` result or a `false` flag.

The clock, the random UUIDs and the time zone are parameters:

- `now` is one clock reading per request.
- Each fresh id is a parameter that must be absent from its map.
- `tzOffset` is the local zone's fixed offset from UTC in milliseconds.

## Model

| member | source | states |
|---|---|---|
| Schema.BadgeFor | shared/schema.ts:111-122 | a badge exists exactly for the keys 1, 4, 7, 14, 21, 28, 60, 120, 180, 365; there is no rounding down to a lower threshold |
| Schema.BadgeName | server/routes.ts:85 | `?.name \|\| null`: a name exactly when the table has a badge for that day, and it is that badge's name |
| Schema.BadgeExamples | shared/schema.ts:111-122 | day 7 is "Warrior of the Week", day 1 "Trailblazer", day 365 "The Invincible"; days 8, 0 and 366 have no badge |
| Schema.IsPriority | server/routes.ts:18 | `PRIORITY_LEVELS.includes(s)`; `PriorityLevelsExactly` states that it holds exactly for low, medium and high |
| Schema.PriorityLevelsExactly | shared/schema.ts:108-109 | a string is a priority level exactly when it is low, medium or high; the empty string is not |
| Schema.EmptyPatchesChangeNothing | server/storage.ts:218 | merging an empty partial update into a user, project or task leaves it unchanged |
| Schema.MergeUser | server/storage.ts:218 | `{ ...user, ...updates }`, field by field; `SettingsPatch` and `StreakCountersAdvance` state what it does with the two route updates, and `EmptyPatchesChangeNothing` that an empty update keeps the user |
| Schema.MergeProject | server/storage.ts:354 | `{ ...project, ...updates }`, field by field; `EmptyPatchesChangeNothing` states that an empty update keeps the project |
| Schema.MergeTask | server/storage.ts:260-262 | `{ ...task, ...updates }`, field by field; `UpdatedTask` states that the stored task agrees with it on every field but the three the store rewrites |
| Clock.StartOfDay | server/storage.ts:299-301 | local midnight is at or before `t`, less than a day before it, and a whole number of days from the epoch in local time |
| Clock.StartOfDayIdempotent | server/storage.ts:382-390 | truncating an already truncated date changes nothing |
| Clock.SameDayIffWindow | server/storage.ts:298-310 | two times share a local day exactly when the second lies in `[midnight, midnight + 24h)` of the first |
| Text.ToLower | server/storage.ts:318 | lower-casing keeps the length, maps every ASCII capital to its small letter and leaves every other character |
| Text.Includes | server/storage.ts:322-324 | `hay.includes(needle)` as a left-to-right scan; `IncludesIffOccurs` states that it is true exactly when the needle occurs in the haystack |
| Text.IncludesIffOccurs | server/storage.ts:322-324 | `includes` is true exactly when the needle occurs at some position of the haystack |
| Text.EmptyIsIncluded | server/storage.ts:322 | every string includes the empty string |
| Seqs.Filter | server/storage.ts:226 | the result is no longer than the input and holds exactly the input's elements that satisfy the predicate |
| Seqs.FilterAppend | server/storage.ts:226 | filtering distributes over concatenation |
| Seqs.Find | server/storage.ts:193 | no result exactly when no element matches; otherwise the result is the element at the first matching index |
| Seqs.FindAppend | server/storage.ts:385-391 | appending an element changes `find` only when nothing earlier matched and the new element does |
| Seqs.SortDesc | server/storage.ts:227 | the stable descending sort; `SortDescCorrect` states that its output is sorted and a permutation, and `SortDescStable` that equal keys keep their order |
| Seqs.SortDescCorrect | server/storage.ts:227 | the sort's output is in non-increasing key order and is a permutation of the input |
| Seqs.SortDescStable | server/storage.ts:227 | elements with equal keys keep their relative input order |
| JsMap.Set | server/storage.ts:210 | `set` keeps the map well formed and updates the entry; a new key goes last in iteration order and an existing key keeps its place |
| JsMap.Empty | server/storage.ts:45-48 | `new Map()`: a well-formed map with no entries and no keys |
| JsMap.Get | server/storage.ts:189 | `map.get(k)`: a value exactly when the key is present, and it is the stored one |
| JsMap.Delete | server/storage.ts:285 | `delete` removes exactly that entry and its key from the iteration order; an absent key changes nothing |
| JsMap.Values | server/storage.ts:225 | `values()` lists as many values as the map has keys |
| JsMap.ValuesAt | server/storage.ts:225 | the value at each position of `values()` is the one stored under the key at that position of the insertion order |
| JsMap.ValuesMembershipAll | server/storage.ts:225 | a value is listed exactly when some entry holds it |
| JsMap.ValuesSetNew | server/storage.ts:377 | setting a new key appends its value to `values()` |
| JsMap.ValuesSetExisting | server/storage.ts:219 | setting an existing key replaces its value in place in `values()` |
| JsMap.ValuesDelete | server/storage.ts:285 | deleting a key removes exactly its value from `values()`, keeping the order of the rest |
| Storage.TaskRecord | server/storage.ts:234-250 | a new task keeps every insert field; it has the given id, is not completed, has no completion time and has both timestamps `now`; it is overdue exactly when it has a due date before `now` |
| Storage.StoreFieldsIgnoreInsert | shared/schema.ts:82-89 | the insert shape cannot influence id, completed, completedAt, createdAt or updatedAt |
| Storage.UpdatedTask | server/storage.ts:260-278 | the merge of the update, with updatedAt `now` and overdue `dueDate < now && !completed`; completedAt becomes `now` on a false-to-true completion, null on `completed: false`, and otherwise keeps its merged value |
| Storage.OverdueAt | server/storage.ts:274 | the overdue test; `UpdatedTask` states that the stored flag equals it at `now`, and `MemStorage.Valid` that every stored task's flag equals it at `updatedAt` |
| Storage.UserRecord | server/storage.ts:200-209 | a new user keeps every insert field, has the given id and `now`, and starts with all three counters at 0 |
| Storage.DemoUser | server/storage.ts:54-66 | the seeded user satisfies `0 <= currentStreak <= longestStreak` and has a non-negative total |
| Storage.ProjectRecord | server/storage.ts:339-345 | a new project keeps every insert field, with the given id and `now` |
| Storage.StreakRecord | server/storage.ts:370-376 | a new streak record keeps every insert field, with the given id and `now` |
| Storage.UserTasks | server/storage.ts:226 | exactly the tasks of the user |
| Storage.TasksNewestFirst | server/storage.ts:224-228 | a permutation of the user's tasks, newest `createdAt` first, with ties in insertion order |
| Storage.ProjectTasks | server/storage.ts:288-291 | exactly the tasks that name the project |
| Storage.OverdueTasks | server/storage.ts:293-296 | exactly the user's tasks that are flagged overdue and not completed |
| Storage.QueriesWithinUserTasks | server/routes.ts:171-173 | the overdue list and the today list are each no longer than the user's task list |
| Storage.TodayTasks | server/storage.ts:298-310 | exactly the user's tasks whose due date lies in `[StartOfDay(now), StartOfDay(now) + 24h)`, or equivalently on the same local day as `now` |
| Storage.DueInWindow | server/storage.ts:304-309 | the today-window test; `TodayTasks` states that it holds exactly for a due date on the same local day as `now` |
| Storage.PriorityTasks | server/storage.ts:312-315 | exactly the user's tasks with that priority |
| Storage.MatchesSearchIffMentions | server/storage.ts:320-325 | the search predicate holds exactly when the lower-cased query occurs in the lower-cased title, in the description, or in some tag |
| Storage.MatchesSearch | server/storage.ts:320-325 | the search test as written; `MatchesSearchIffMentions` states its meaning as substring occurrence |
| Storage.SearchTasks | server/storage.ts:317-327 | exactly the user's tasks that mention the query in that sense |
| Storage.UserProjects | server/storage.ts:330-333 | exactly the projects of the user |
| Storage.UserStreaks | server/storage.ts:366 | exactly the streak records of the user |
| Storage.StreaksNewestFirst | server/storage.ts:364-368 | a permutation of the user's records, latest date first, with ties in insertion order |
| Storage.StreakOnDay | server/storage.ts:381-392 | nothing when no record of the user falls on the target's local day; otherwise the first such record in insertion order |
| Storage.RecordOnDay | server/storage.ts:386-391 | the day-match test of `getStreakByDate`; `StreakOnDay` and `StreakOnDayAppend` state the lookup in terms of it |
| Storage.StreakOnDayAppend | server/storage.ts:385-391 | after a record for that day is appended, the lookup still returns the earlier record if there was one, and otherwise the new one |
| Storage.MemStorage.constructor | server/storage.ts:44-67 | the store starts with the demo user as its only user and with no tasks, projects or streak records |
| Storage.MemStorage.GetUser | server/storage.ts:188-190 | the user stored under the id, if any |
| Storage.MemStorage.GetUserByUsername | server/storage.ts:192-194 | nothing exactly when no user has that username; otherwise the first stored user with it in insertion order |
| Storage.MemStorage.GetUserByEmail | server/storage.ts:196-198 | nothing exactly when no user has that email; otherwise the first stored user with it in insertion order |
| Storage.MemStorage.CreateUser | server/storage.ts:200-212 | stores `UserRecord` under the fresh id, with all counters 0; no other map changes |
| Storage.MemStorage.UpdateUser | server/storage.ts:214-221 | an unknown id gives nothing and changes nothing; otherwise the merged user replaces the stored one; no other map changes |
| Storage.MemStorage.GetTasks | server/storage.ts:224-228 | exactly the user's stored tasks, in non-increasing `createdAt` order; a permutation of the user's tasks in which tasks with equal `createdAt` keep their insertion order |
| Storage.MemStorage.GetTask | server/storage.ts:230-232 | the task stored under the id, if any |
| Storage.MemStorage.CreateTask | server/storage.ts:234-254 | stores `TaskRecord` under the fresh id; the store invariant is kept and no other map changes |
| Storage.MemStorage.UpdateTask | server/storage.ts:256-282 | an unknown id gives nothing and leaves every map unchanged; otherwise `UpdatedTask` replaces exactly that entry, and the overdue invariant is kept |
| Storage.MemStorage.DeleteTask | server/storage.ts:284-286 | true exactly when the id was present; afterwards it is absent, every other task is unchanged and no other map changes |
| Storage.MemStorage.GetTasksByProject | server/storage.ts:288-291 | exactly the stored tasks that name the project |
| Storage.MemStorage.GetOverdueTasks | server/storage.ts:293-296 | exactly the user's stored tasks flagged overdue; by the store invariant none of them is completed |
| Storage.MemStorage.GetTodayTasks | server/storage.ts:298-310 | exactly the user's stored tasks due in `[StartOfDay(now), StartOfDay(now) + 24h)`, stated also as due on today's local day |
| Storage.MemStorage.GetTasksByPriority | server/storage.ts:312-315 | exactly the user's stored tasks with that priority |
| Storage.MemStorage.SearchUserTasks | server/storage.ts:317-327 | exactly the user's stored tasks that mention the query |
| Storage.MemStorage.GetProjects | server/storage.ts:330-333 | exactly the user's stored projects |
| Storage.MemStorage.GetProject | server/storage.ts:335-337 | the project stored under the id, if any |
| Storage.MemStorage.CreateProject | server/storage.ts:339-348 | stores `ProjectRecord` under the fresh id; if every project carried its own key before, it still does |
| Storage.MemStorage.UpdateProject | server/storage.ts:350-357 | an unknown id gives nothing and changes nothing; otherwise the merged project replaces the stored one |
| Storage.MemStorage.DeleteProject | server/storage.ts:359-361 | true exactly when the id was present; only that project goes, and tasks, including their `projectId`s, are untouched |
| Storage.MemStorage.GetStreaks | server/storage.ts:364-368 | exactly the user's stored records, latest date first; a permutation of the user's records in which records with the same date keep their insertion order |
| Storage.MemStorage.CreateStreak | server/storage.ts:370-379 | stores `StreakRecord` under the fresh id, appending it to the record list; no other map changes |
| Storage.MemStorage.GetStreakByDate | server/storage.ts:381-392 | nothing exactly when no stored record of the user falls on that local day; otherwise the first such record in insertion order |
| Storage.MemStorage.GetCurrentStreak | server/storage.ts:394-397 | the user's current streak, or 0 for an unknown user |
| Routes.DefaultUserId | server/routes.ts:8 | the first key of the users map; nothing exactly when there are no users |
| Routes.DefaultUserIsDemoUser | server/routes.ts:8 | on a freshly constructed store the default user is the demo user |
| Routes.SelectListing | server/routes.ts:16-26 | each query kind is chosen exactly under its condition: search first, then a valid priority level, then `filter=overdue`, then `filter=today`, then all tasks |
| Routes.ListingTasks | server/routes.ts:16-26 | whichever query runs, every listed task is a stored task of the user |
| Routes.ProjectsById | server/routes.ts:30 | every id maps to a project with that id; every project's id is present; the last project with an id wins |
| Routes.LinkFor | server/routes.ts:34 | the `project` field of one listed task; `LinkForProjects` states its three cases |
| Routes.LinkForProjects | server/routes.ts:34 | null exactly for a missing or empty `projectId`; a linked project is one of the projects and has that id; absent exactly when no project has that id |
| Routes.WithProjects | server/routes.ts:32-35 | one view per task, in order; each view's project follows the same three cases |
| Routes.ListTasks | server/routes.ts:11-37 | the selected query's tasks, in its order, each with its project link; null exactly for a missing or empty `projectId`; absent exactly when no project of the user has that id; otherwise a project of the user with the task's `projectId` |
| Routes.DeletedProjectDangles | server/routes.ts:34 | when project records carry their own keys, a task that still names a deleted project lists that project as absent |
| Routes.CreateTaskRoute | server/routes.ts:43-51 | the stored task is `TaskRecord` of the body with `userId` set to the default user |
| Routes.Max | server/routes.ts:99 | `Math.max`: not less than either argument and equal to one of them |
| Routes.StreakCounters | server/routes.ts:97-101 | the user update of a new streak day: current + 1, max(longest, current + 1), total + 1 |
| Routes.StreakCountersAdvance | server/routes.ts:97-101 | that update changes only the three counters; it keeps `0 <= current <= longest` and a non-negative total, and never lowers the longest streak or the total |
| Routes.CompletionEntry | server/routes.ts:80-95 | the appended record is for today and the user, with day current + 1, that day's badge name, and 1 or the found record's count + 1 |
| Routes.SameDayRecordRunsAhead | server/routes.ts:79-86 | a user at streak 6 who already has a record today gets a record for day 7 with the "Warrior of the Week" badge and count found + 1, while the streak stays 6 |
| Routes.CompletedDayIsRecorded | server/routes.ts:78 | after a completion, any lookup on the same local day finds a record |
| Routes.RecordCompletion | server/routes.ts:73-103 | without a record for today, one record is appended and the user's counters advance; with one, another record is appended and the user is untouched; afterwards today has a record |
| Routes.CompleteTwiceInOneDay | server/routes.ts:72-103 | two completions on one local day advance the current streak at most once, and exactly once when the day had no record; both append a record |
| Routes.UpdateTaskRoute | server/routes.ts:61-110 | an unknown task gives 404 and changes nothing; otherwise the task is updated, and the streak engine runs exactly when the body has `completed: true` and the user exists, even if the task was already completed; the longest streak and the total never decrease, and `0 <= current <= longest` is kept |
| Routes.DeleteTaskRoute | server/routes.ts:112-125 | deleted exactly when the task existed; only that task goes |
| Routes.ListProjects | server/routes.ts:128-135 | exactly the user's stored projects |
| Routes.CreateProjectRoute | server/routes.ts:137-146 | the stored project is `ProjectRecord` of the body with `userId` set to the default user |
| Routes.CurrentBadge | server/routes.ts:175 | a badge exactly when the current streak is an exact key of the table, and then the table's badge |
| Routes.ComputeStats | server/routes.ts:167-176 | copies the three counters and the three list lengths; the completed count is the number of completed tasks and is at most the total |
| Routes.UserStats | server/routes.ts:156-178 | nothing exactly when the user is unknown; otherwise the stats of the user's lists, with every count at most the number of the user's tasks |
| Routes.SettingsPatch | server/routes.ts:186-190 | the update sets exactly `theme` and `simpleMode`, and an omitted one becomes `undefined` |
| Routes.UpdateSettingsRoute | server/routes.ts:184-200 | only theme and simple mode change, so the streak counters are kept; an unknown user gives 404 |
| Routes.ListStreaks | server/routes.ts:203-210 | the store's `getStreaks` result: exactly the user's records, latest date first, a permutation with same-date records in insertion order |

## Left out

- Express, HTTP status codes and JSON encoding. A 404 is a `None` result or a `false` flag. The 500 paths (`catch`) are not modelled, because nothing in the model throws.
- Zod validation (`insertTaskSchema.parse`, `insertProjectSchema.parse`) and its 400 path. The handlers receive the insert shape that validation would produce. The insert shapes have no `id`, `completed`, `overdue`, `completedAt`, `createdAt` or `updatedAt` fields, as the omit lists demand.
- `randomUUID` and `new Date()`. These become parameters: a fresh id that is not yet in its map, and one `now` per request. `updateTask` reads the clock up to three times; the model uses one reading for all of them.
- Real local time. `setHours(0, 0, 0, 0)` is modelled at a fixed UTC offset, so daylight-saving changes are not modelled.
- `toLowerCase` beyond ASCII. Full Unicode case mapping is not modelled.
- The badge emoji. Badges are modelled by name.
- The seeded projects and tasks of `initializeDefaultData` (server/storage.ts:69-184). The constructor creates the demo user only.
- The `await` gap between `getStreakByDate` and `createStreak` (server/routes.ts:78-101). Requests are modelled as atomic and sequential.
- Request values the TypeScript types do not admit are not modelled. Examples: a `completed` that is neither a boolean nor null, an array-valued query parameter, or a non-string `theme`.
- `completed: null` in a task update. `Partial<Task>` admits it because the column is nullable (shared/schema.ts:44). The source then stores null, keeps `completedAt` (neither branch of server/storage.ts:267-271 fires) and counts the task as not completed. `TaskPatch.completed` is an `Update<bool>` and cannot carry null.
- The distinction between `null` and `undefined` (for example, the stats' `currentBadge`). Both are `None`, except in a listed task's `project`, where `ProjectLink` keeps `null` (`NoProject`) apart from `undefined` (`Dangling`) as server/routes.ts:34 does.
- `DEFAULT_USER_ID` on a store with no users. It is `undefined` in the source; the routes simply take a user id.
- Nullable integer counters. The table columns allow null, but the store always writes integers.
- The untyped partial update. `req.body` can carry `overdue` or `updatedAt`, but `updateTask` always overwrites both, so `TaskPatch` omits them.
- Storage.MemStorage.UpdateProject: if an update rewrites `id`, the project record no longer carries its key. Preservation of that property is stated only for updates that keep `id`.
- Storage.MemStorage.GetOverdueTasks: the contract omits the source's `!task.completed` test. That test is implied by the store invariant `Valid()`.

## Behaviour of the code the model reproduces

- A second completion on the same day appends another streak record, with the found record's count plus one, and leaves the found record as it is. A day can therefore have several records. `getStreakByDate` keeps returning the first of them, so every later record that day has count 2.
- A same-day record gets `streakDay = currentStreak + 1` and that day's badge name, but the user's streak does not advance (server/routes.ts:84-85). A user at streak 6 who opened today and completes another task gets a record for day 7 with "Warrior of the Week" while `currentStreak` stays 6 (`Routes.SameDayRecordRunsAhead`).
- `createTask` applies no defaults. The table's column defaults (priority "medium", tags `[]`, shared/schema.ts:45,48) are not used by the in-memory store, so when the body omits them `priority` and `tags` stay unset (`None`), and a priority listing for "medium" misses such tasks.
- The streak never resets. Nothing compares today with the date of the user's last record, so a completion after an idle day still advances `currentStreak` from its previous value.
- The stored `overdue` flag is computed when the task is written. It is not recomputed when time passes, so the overdue listing reflects `updatedAt`, not the current time.
