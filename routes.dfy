/** The request handlers of server/routes.ts as operations on the store: the
    task listing with its query dispatch and project attachment, task
    creation, update (with the streak engine), deletion, projects, the user
    stats, the settings update and the streak listing. A handler's "absent"
    result is the 404 response. Every handler acts for `userId`, the id the
    server fixes at start-up (`DefaultUserId`). */
module Routes {
  import opened Wrappers
  import opened Schema
  import opened Clock
  import opened Seqs
  import opened Storage
  import JsMap

  /** `DEFAULT_USER_ID`: the first key of the users map. */
  function DefaultUserId(users: JsMap.OrderedMap<Id, User>): (r: Option<Id>)
    requires JsMap.Valid(users)
    ensures r.None? <==> users.entries == map[]
    ensures r.Some? ==> r.value in users.entries && r.value == users.keys[0]
  {
    JsMap.KeysAreTheMap(users);
    if users.keys == [] then None else Some(users.keys[0])
  }

  /** On a freshly constructed store the default user is the demo user. */
  lemma DefaultUserIsDemoUser(demoUserId: Id, now: int)
    ensures DefaultUserId(JsMap.Set(JsMap.Empty(), demoUserId, DemoUser(demoUserId, now))) == Some(demoUserId)
  {
  }

  // ------------------------------------------------------- GET /api/tasks

  /** The `filter`, `priority` and `search` query parameters; an absent one is
      `None`. Array-valued parameters are not modelled. */
  datatype TaskQuery = TaskQuery(filter: Option<string>, priority: Option<string>, search: Option<string>)

  /** Which store query answers the listing. */
  datatype Listing = Search(query: string) | ByPriority(priority: string) | OverdueOnly | DueToday | AllTasks

  /** Search first (a non-empty `search`), then a `priority` that is one of
      the priority levels, then `filter=overdue`, then `filter=today`, then
      every task of the user. */
  function SelectListing(q: TaskQuery): (l: Listing)
    ensures l.Search? <==> q.search.Some? && q.search.value != ""
    ensures l.Search? ==> l.query == q.search.value
    ensures l.ByPriority? <==> !l.Search? && q.priority.Some? && IsPriority(q.priority.value)
    ensures l.ByPriority? ==> l.priority == q.priority.value
    ensures l.OverdueOnly? <==> !l.Search? && !l.ByPriority? && q.filter == Some("overdue")
    ensures l.DueToday? <==> !l.Search? && !l.ByPriority? && q.filter == Some("today")
    ensures l.AllTasks? <==> !l.Search? && !l.ByPriority? && q.filter != Some("overdue") && q.filter != Some("today")
  {
    if q.search.Some? && q.search.value != "" then Search(q.search.value)
    else if q.priority.Some? && q.priority.value != "" && IsPriority(q.priority.value) then ByPriority(q.priority.value)
    else if q.filter == Some("overdue") then OverdueOnly
    else if q.filter == Some("today") then DueToday
    else AllTasks
  }

  /** The tasks the selected store query returns. */
  function ListingTasks(store: MemStorage, userId: Id, l: Listing, now: int, tzOffset: int): (r: seq<Task>)
    reads store
    requires store.Valid()
    ensures forall t :: t in r ==> t in store.tasks.entries.Values && t.userId == Some(userId)
  {
    match l
    case Search(query) => store.SearchUserTasks(userId, query)
    case ByPriority(priority) => store.GetTasksByPriority(userId, priority)
    case OverdueOnly => store.GetOverdueTasks(userId)
    case DueToday => store.GetTodayTasks(userId, now, tzOffset)
    case AllTasks => store.GetTasks(userId)
  }

  /** `new Map(projects.map(p => [p.id, p]))`: later projects overwrite
      earlier ones with the same `id`. */
  function ProjectsById(projects: seq<Project>): (m: map<Id, Project>)
    ensures forall k :: k in m ==> m[k] in projects && m[k].id == k
    ensures forall p :: p in projects ==> p.id in m
    ensures forall i :: 0 <= i < |projects| && (forall j :: i < j < |projects| ==> projects[j].id != projects[i].id) ==>
                          m[projects[i].id] == projects[i]
  {
    if projects == [] then map[]
    else
      var init := projects[..|projects| - 1];
      var last := projects[|projects| - 1];
      assert forall i :: 0 <= i < |init| ==> init[i] == projects[i];
      assert projects == init + [last];
      ProjectsById(init)[last.id := last]
  }

  /** What a listed task's `project` field holds: `null` when the task has no
      (or an empty) `projectId`, `undefined` when no project of the user has
      that id, and that project otherwise. */
  datatype ProjectLink = NoProject | Dangling | Linked(project: Project)

  datatype TaskView = TaskView(task: Task, project: ProjectLink)

  function LinkFor(t: Task, byId: map<Id, Project>): ProjectLink {
    if t.projectId.None? || t.projectId.value == "" then NoProject
    else if t.projectId.value in byId then Linked(byId[t.projectId.value])
    else Dangling
  }

  /** How `LinkFor` over the projects' id map resolves one task. */
  lemma LinkForProjects(projects: seq<Project>)
    ensures forall t: Task ::
              (LinkFor(t, ProjectsById(projects)).NoProject? <==> t.projectId.None? || t.projectId == Some(""))
    ensures forall t: Task :: LinkFor(t, ProjectsById(projects)).Linked? ==>
              LinkFor(t, ProjectsById(projects)).project in projects &&
              t.projectId == Some(LinkFor(t, ProjectsById(projects)).project.id)
    ensures forall t: Task ::
              (LinkFor(t, ProjectsById(projects)).Dangling? <==>
                 t.projectId.Some? && t.projectId.value != "" &&
                 forall p :: p in projects ==> p.id != t.projectId.value)
  {
  }

  /** `tasks.map(task => ({ ...task, project: ... }))` */
  function WithProjects(tasks: seq<Task>, projects: seq<Project>): (r: seq<TaskView>)
    ensures |r| == |tasks|
    ensures forall i :: 0 <= i < |r| ==> r[i].task == tasks[i]
    ensures forall i :: 0 <= i < |r| ==>
              (r[i].project.NoProject? <==> tasks[i].projectId.None? || tasks[i].projectId == Some(""))
    ensures forall i :: 0 <= i < |r| && r[i].project.Linked? ==>
              r[i].project.project in projects && tasks[i].projectId == Some(r[i].project.project.id)
    ensures forall i :: 0 <= i < |r| ==>
              (r[i].project.Dangling? <==>
                 tasks[i].projectId.Some? && tasks[i].projectId.value != "" &&
                 forall p :: p in projects ==> p.id != tasks[i].projectId.value)
  {
    var byId := ProjectsById(projects);
    var r := seq(|tasks|, i requires 0 <= i < |tasks| => TaskView(tasks[i], LinkFor(tasks[i], byId)));
    LinkForProjects(projects);
    r
  }

  /** `GET /api/tasks` */
  function ListTasks(store: MemStorage, userId: Id, q: TaskQuery, now: int, tzOffset: int): (r: seq<TaskView>)
    reads store
    requires store.Valid()
    ensures |r| == |ListingTasks(store, userId, SelectListing(q), now, tzOffset)|
    ensures forall i :: 0 <= i < |r| ==> r[i].task == ListingTasks(store, userId, SelectListing(q), now, tzOffset)[i]
    ensures forall v :: v in r ==> v.task in store.tasks.entries.Values && v.task.userId == Some(userId)
    ensures forall v :: v in r && v.project.Linked? ==>
              v.project.project in store.projects.entries.Values && v.project.project.userId == Some(userId) &&
              v.task.projectId == Some(v.project.project.id)
    ensures forall v :: v in r ==>
              (v.project.NoProject? <==> v.task.projectId.None? || v.task.projectId == Some(""))
    ensures forall v :: v in r ==>
              (v.project.Dangling? <==>
                 v.task.projectId.Some? && v.task.projectId.value != "" &&
                 forall p :: p in store.projects.entries.Values && p.userId == Some(userId) ==>
                   Some(p.id) != v.task.projectId)
    ensures r == WithProjects(ListingTasks(store, userId, SelectListing(q), now, tzOffset), store.GetProjects(userId))
  {
    var tasks := ListingTasks(store, userId, SelectListing(q), now, tzOffset);
    WithProjects(tasks, store.GetProjects(userId))
  }

  /** A task that still names a deleted project no longer resolves to it,
      provided project records carry their own keys. */
  lemma DeletedProjectDangles(projects: JsMap.OrderedMap<Id, Project>, pid: Id, userId: Id, t: Task)
    requires JsMap.Valid(projects)
    requires forall k :: k in projects.entries ==> projects.entries[k].id == k
    requires t.projectId == Some(pid) && pid != ""
    ensures WithProjects([t], UserProjects(JsMap.Values(JsMap.Delete(projects, pid)), userId))[0].project == Dangling
  {
    var after := JsMap.Delete(projects, pid);
    JsMap.ValuesMembershipAll(after);
    var listed := UserProjects(JsMap.Values(after), userId);
    forall p | p in listed ensures p.id != pid {
      var k :| k in after.entries && after.entries[k] == p;
    }
  }

  // ------------------------------------------------------- POST /api/tasks

  /** `POST /api/tasks`: the body, validated, is stored for the default user. */
  method CreateTaskRoute(store: MemStorage, userId: Id, body: NewTask, id: Id, now: int) returns (task: Task)
    requires store.Valid() && id !in store.tasks.entries
    modifies store
    ensures store.Valid()
    ensures task == TaskRecord(body.(userId := Some(userId)), id, now)
    ensures task.userId == Some(userId)
    ensures store.tasks == JsMap.Set(old(store.tasks), id, task)
    ensures store.users == old(store.users) && store.projects == old(store.projects) && store.streaks == old(store.streaks)
  {
    task := store.CreateTask(body.(userId := Some(userId)), id, now);
  }

  // ------------------------------------------------------- PUT /api/tasks/:id

  /** `Math.max` */
  function Max(a: int, b: int): (m: int)
    ensures m >= a && m >= b && (m == a || m == b)
  {
    if a >= b then a else b
  }

  /** The user update an opened streak day makes. */
  function StreakCounters(user: User): (p: UserPatch)
    ensures p.currentStreak == Put(user.currentStreak + 1)
    ensures p.longestStreak == Put(Max(user.longestStreak, user.currentStreak + 1))
    ensures p.totalTasksCompleted == Put(user.totalTasksCompleted + 1)
  {
    var newStreak := user.currentStreak + 1;
    UserPatch(Keep, Keep, Keep, Keep, Put(newStreak), Put(Max(user.longestStreak, newStreak)),
              Put(user.totalTasksCompleted + 1), Keep, Keep, Keep)
  }

  /** The counters a user may be expected to hold. */
  ghost predicate StreakInvariant(u: User) {
    0 <= u.currentStreak <= u.longestStreak && 0 <= u.totalTasksCompleted
  }

  /** Opening a streak day advances the streak by one, raises the longest
      streak to it when it is passed, counts one more completed task and
      changes nothing else; it keeps the invariant and never lowers the
      longest streak or the total. */
  lemma StreakCountersAdvance(user: User)
    ensures var v := MergeUser(user, StreakCounters(user));
            && v.currentStreak == user.currentStreak + 1
            && v.longestStreak == Max(user.longestStreak, user.currentStreak + 1)
            && v.totalTasksCompleted == user.totalTasksCompleted + 1
            && v == user.(currentStreak := v.currentStreak, longestStreak := v.longestStreak,
                          totalTasksCompleted := v.totalTasksCompleted)
            && v.longestStreak >= user.longestStreak && v.longestStreak >= v.currentStreak
            && (StreakInvariant(user) ==> StreakInvariant(v))
  {
  }

  /** The streak record a completion appends. */
  function CompletionEntry(userId: Id, user: User, today: int, found: Option<Streak>): (e: NewStreak)
    ensures e.userId == Some(userId) && e.date == today
    ensures e.streakDay == user.currentStreak + 1
    ensures e.badgeEarned == BadgeName(user.currentStreak + 1)
    ensures e.tasksCompleted == if found.Some? then found.value.tasksCompleted + 1 else 1
  {
    if found.Some? then
      NewStreak(Some(userId), today, found.value.tasksCompleted + 1, user.currentStreak + 1,
                BadgeName(user.currentStreak + 1))
    else
      var newStreak := user.currentStreak + 1;
      NewStreak(Some(userId), today, 1, newStreak, BadgeName(newStreak))
  }

  /** A same-day record runs ahead of the user: a user at streak 6 who has
      already opened today records day 7 with that day's badge on the next
      completion, while the streak itself stays at 6. */
  lemma SameDayRecordRunsAhead(userId: Id, user: User, today: int, found: Streak)
    requires user.currentStreak == 6
    ensures var e := CompletionEntry(userId, user, today, Some(found));
            e.streakDay == 7 && e.badgeEarned == Some("Warrior of the Week") &&
            e.tasksCompleted == found.tasksCompleted + 1
  {
    assert BadgeFor(7) == Some(Badge("Warrior of the Week"));
  }

  /** After a completion the user has a record for that calendar day, so a
      later completion the same day finds one and does not advance the
      streak again. */
  lemma CompletedDayIsRecorded(streaks: seq<Streak>, e: Streak, userId: Id, now: int, later: int, tzOffset: int)
    requires e.userId == Some(userId) && e.date == StartOfDay(now, tzOffset)
    requires StartOfDay(later, tzOffset) == StartOfDay(now, tzOffset)
    ensures StreakOnDay(streaks + [e], userId, later, tzOffset).Some?
  {
    StartOfDayIdempotent(now, tzOffset);
    StreakOnDayAppend(streaks, e, userId, later, tzOffset);
  }

  /** The counters of every user either stay or advance as an opened streak
      day advances them. */
  ghost predicate CountersAdvanced(before: map<Id, User>, after: map<Id, User>) {
    forall k :: k in before ==>
      k in after &&
      after[k].longestStreak >= before[k].longestStreak &&
      after[k].totalTasksCompleted >= before[k].totalTasksCompleted &&
      (StreakInvariant(before[k]) ==> StreakInvariant(after[k]))
  }

  /** The streak engine of `PUT /api/tasks/:id` (lines 73-103), run for an
      existing user: it looks for a record of the user for today; without one
      it appends a record for day `currentStreak + 1` with one completed task
      and advances the user's counters; with one it appends another record
      counting one more task and leaves the user untouched. Either way the
      user has a record for today afterwards. */
  method RecordCompletion(store: MemStorage, userId: Id, now: int, tzOffset: int, streakId: Id)
    requires store.Valid()
    requires userId in store.users.entries
    requires streakId !in store.streaks.entries
    modifies store
    ensures store.Valid()
    ensures store.tasks == old(store.tasks) && store.projects == old(store.projects)
    ensures var user := old(store.users.entries[userId]);
            var today := StartOfDay(now, tzOffset);
            var found := StreakOnDay(old(store.StreakList()), userId, today, tzOffset);
            var entry := StreakRecord(CompletionEntry(userId, user, today, found), streakId, now);
            && store.streaks == JsMap.Set(old(store.streaks), streakId, entry)
            && store.StreakList() == old(store.StreakList()) + [entry]
            && (found.None? ==> store.users == JsMap.Set(old(store.users), userId, MergeUser(user, StreakCounters(user))))
            && (found.Some? ==> store.users == old(store.users))
    ensures store.GetStreakByDate(userId, now, tzOffset).Some?
    ensures CountersAdvanced(old(store.users.entries), store.users.entries)
  {
    var user := store.GetUser(userId);
    var today := StartOfDay(now, tzOffset);
    var todayStreak := store.GetStreakByDate(userId, today, tzOffset);
    ghost var before := store.StreakList();
    ghost var entry := CompletionEntry(userId, user.value, today, todayStreak);
    var created;
    // Each branch appends `CompletionEntry(userId, user, today, todayStreak)`,
    // written out as the source writes it.
    if todayStreak.Some? {
      created := store.CreateStreak(
        NewStreak(Some(userId), today, todayStreak.value.tasksCompleted + 1,
                  user.value.currentStreak + 1, BadgeName(user.value.currentStreak + 1)),
        streakId, now);
    } else {
      var newStreak := user.value.currentStreak + 1;
      created := store.CreateStreak(
        NewStreak(Some(userId), today, 1, newStreak, BadgeName(newStreak)), streakId, now);
      StreakCountersAdvance(user.value);
      var updatedUser := store.UpdateUser(userId, StreakCounters(user.value));
    }
    assert created == StreakRecord(entry, streakId, now);
    assert store.StreakList() == before + [created];
    CompletedDayIsRecorded(before, created, userId, now, now, tzOffset);
  }

  /** Two completions on the same local day advance the streak at most once:
      the second one finds the record the first one left. Each of them appends
      a record. */
  method CompleteTwiceInOneDay(store: MemStorage, userId: Id, now: int, later: int, tzOffset: int,
                               firstId: Id, secondId: Id)
    requires store.Valid() && userId in store.users.entries
    requires firstId != secondId && firstId !in store.streaks.entries && secondId !in store.streaks.entries
    requires StartOfDay(later, tzOffset) == StartOfDay(now, tzOffset)
    modifies store
    ensures store.Valid() && userId in store.users.entries
    ensures store.users.entries[userId].currentStreak ==
            old(store.users.entries[userId].currentStreak) +
            (if StreakOnDay(old(store.StreakList()), userId, StartOfDay(now, tzOffset), tzOffset).None? then 1 else 0)
    ensures |store.StreakList()| == |old(store.StreakList())| + 2
  {
    ghost var user := store.users.entries[userId];
    ghost var found := StreakOnDay(store.StreakList(), userId, StartOfDay(now, tzOffset), tzOffset);
    RecordCompletion(store, userId, now, tzOffset, firstId);
    ghost var between := store.users.entries[userId];
    StreakCountersAdvance(user);
    assert between.currentStreak == user.currentStreak + (if found.None? then 1 else 0);
    StartOfDayIdempotent(now, tzOffset);
    StartOfDayIdempotent(later, tzOffset);
    assert StreakOnDay(store.StreakList(), userId, StartOfDay(later, tzOffset), tzOffset).Some?;
    RecordCompletion(store, userId, later, tzOffset, secondId);
  }

  /** `PUT /api/tasks/:id`. The update is applied; then, when the request
      carries `completed: true` (whether or not the task was already
      completed) and the default user exists, the streak engine runs. */
  method UpdateTaskRoute(store: MemStorage, userId: Id, id: Id, updates: TaskPatch,
                         now: int, tzOffset: int, streakId: Id) returns (r: Option<Task>)
    requires store.Valid()
    requires streakId !in store.streaks.entries
    modifies store
    ensures store.Valid()
    ensures store.projects == old(store.projects)
    // an unknown task: 404 and nothing changes
    ensures id !in old(store.tasks.entries) ==>
              r.None? && store.tasks == old(store.tasks) &&
              store.users == old(store.users) && store.streaks == old(store.streaks)
    ensures id in old(store.tasks.entries) ==>
              r == Some(UpdatedTask(old(store.tasks.entries[id]), updates, now)) &&
              store.tasks == JsMap.Set(old(store.tasks), id, r.value)
    // no streak logic unless `completed` is exactly true and the user exists
    ensures !(r.Some? && updates.completed == Put(true) && userId in old(store.users.entries)) ==>
              store.users == old(store.users) && store.streaks == old(store.streaks)
    // the streak engine
    ensures r.Some? && updates.completed == Put(true) && userId in old(store.users.entries) ==>
              var user := old(store.users.entries[userId]);
              var today := StartOfDay(now, tzOffset);
              var found := StreakOnDay(old(store.StreakList()), userId, today, tzOffset);
              var entry := StreakRecord(CompletionEntry(userId, user, today, found), streakId, now);
              && store.streaks == JsMap.Set(old(store.streaks), streakId, entry)
              && store.StreakList() == old(store.StreakList()) + [entry]
              && (found.None? ==> store.users == JsMap.Set(old(store.users), userId, MergeUser(user, StreakCounters(user))))
              && (found.Some? ==> store.users == old(store.users))
              && store.GetStreakByDate(userId, now, tzOffset).Some?
    // counters never go down, and the streak invariant is kept
    ensures CountersAdvanced(old(store.users.entries), store.users.entries)
  {
    r := store.UpdateTask(id, updates, now);
    if r.Some? && updates.completed == Put(true) {
      var user := store.GetUser(userId);
      if user.Some? {
        RecordCompletion(store, userId, now, tzOffset, streakId);
      }
    }
  }

  // ------------------------------------------------------- DELETE /api/tasks/:id

  /** `DELETE /api/tasks/:id`: 204 when the task existed, 404 otherwise. */
  method DeleteTaskRoute(store: MemStorage, id: Id) returns (deleted: bool)
    requires store.Valid()
    modifies store
    ensures store.Valid()
    ensures deleted <==> id in old(store.tasks.entries)
    ensures store.tasks == JsMap.Delete(old(store.tasks), id)
    ensures store.users == old(store.users) && store.projects == old(store.projects) && store.streaks == old(store.streaks)
  {
    deleted := store.DeleteTask(id);
  }

  // ------------------------------------------------------- projects

  /** `GET /api/projects` */
  function ListProjects(store: MemStorage, userId: Id): (r: seq<Project>)
    reads store
    requires store.Valid()
    ensures forall p :: p in r <==> p in store.projects.entries.Values && p.userId == Some(userId)
  {
    store.GetProjects(userId)
  }

  /** `POST /api/projects`: the body, validated, is stored for the default user. */
  method CreateProjectRoute(store: MemStorage, userId: Id, body: NewProject, id: Id, now: int) returns (project: Project)
    requires store.Valid() && id !in store.projects.entries
    modifies store
    ensures store.Valid()
    ensures project == ProjectRecord(body.(userId := Some(userId)), id, now)
    ensures store.projects == JsMap.Set(old(store.projects), id, project)
    ensures store.users == old(store.users) && store.tasks == old(store.tasks) && store.streaks == old(store.streaks)
  {
    project := store.CreateProject(body.(userId := Some(userId)), id, now);
  }

  // ------------------------------------------------------- GET /api/user/stats

  datatype Stats = Stats(
    currentStreak: int,
    longestStreak: int,
    totalTasksCompleted: int,
    totalTasks: nat,
    overdueTasks: nat,
    todayTasks: nat,
    completedTasks: nat,
    currentBadge: Option<Badge>)

  /** `currentStreak > 0 ? STREAK_BADGES[currentStreak] : null` */
  function CurrentBadge(currentStreak: int): (b: Option<Badge>)
    ensures b.Some? <==> currentStreak in {1, 4, 7, 14, 21, 28, 60, 120, 180, 365}
    ensures b.Some? ==> b == BadgeFor(currentStreak)
  {
    if currentStreak > 0 then BadgeFor(currentStreak) else None
  }

  /** The stats object built from the user and the three task listings. */
  function ComputeStats(user: User, tasks: seq<Task>, overdue: seq<Task>, today: seq<Task>): (s: Stats)
    ensures s.currentStreak == user.currentStreak && s.longestStreak == user.longestStreak
    ensures s.totalTasksCompleted == user.totalTasksCompleted
    ensures s.totalTasks == |tasks| && s.overdueTasks == |overdue| && s.todayTasks == |today|
    ensures s.completedTasks <= s.totalTasks
    ensures s.completedTasks == |Filter(tasks, (t: Task) => t.completed)|
    ensures s.currentBadge == CurrentBadge(user.currentStreak)
  {
    Stats(user.currentStreak, user.longestStreak, user.totalTasksCompleted,
          |tasks|, |overdue|, |today|, |Filter(tasks, (t: Task) => t.completed)|,
          if user.currentStreak > 0 then BadgeFor(user.currentStreak) else None)
  }

  /** `GET /api/user/stats`: absent (404) without the user. Every count is at
      most the number of the user's tasks. */
  function UserStats(store: MemStorage, userId: Id, now: int, tzOffset: int): (r: Option<Stats>)
    reads store
    requires store.Valid()
    ensures r.None? <==> userId !in store.users.entries
    ensures r.Some? ==>
              r.value == ComputeStats(store.users.entries[userId], store.GetTasks(userId),
                                      store.GetOverdueTasks(userId), store.GetTodayTasks(userId, now, tzOffset))
    ensures r.Some? ==> r.value.totalTasks == |store.GetTasks(userId)|
    ensures r.Some? ==> r.value.completedTasks <= r.value.totalTasks
    ensures r.Some? ==> r.value.overdueTasks <= r.value.totalTasks && r.value.todayTasks <= r.value.totalTasks
  {
    match store.GetUser(userId)
    case None => None
    case Some(user) =>
      var tasks := store.GetTasks(userId);
      var all := store.TaskList();
      QueriesWithinUserTasks(all, userId, now, tzOffset);
      assert |tasks| == |multiset(tasks)| == |multiset(UserTasks(all, userId))| == |UserTasks(all, userId)|;
      Some(ComputeStats(user, tasks, store.GetOverdueTasks(userId), store.GetTodayTasks(userId, now, tzOffset)))
  }

  // ------------------------------------------------------- PUT /api/user/settings

  /** `{ theme, simpleMode }` from the body: both fields are always present in
      the update, so an omitted one becomes `undefined` (`None`). */
  function SettingsPatch(theme: Option<string>, simpleMode: Option<bool>): (p: UserPatch)
    ensures forall u :: MergeUser(u, p) == u.(theme := theme, simpleMode := simpleMode)
  {
    UserPatch(Keep, Keep, Keep, Keep, Keep, Keep, Keep, Put(simpleMode), Put(theme), Keep)
  }

  /** `PUT /api/user/settings`: only the theme and the simple-mode preference
      change; the streak counters do not. */
  method UpdateSettingsRoute(store: MemStorage, userId: Id, theme: Option<string>, simpleMode: Option<bool>)
    returns (r: Option<User>)
    requires store.Valid()
    modifies store
    ensures store.Valid()
    ensures userId !in old(store.users.entries) ==> r.None? && store.users == old(store.users)
    ensures userId in old(store.users.entries) ==>
              var u := old(store.users.entries[userId]);
              && r == Some(u.(theme := theme, simpleMode := simpleMode))
              && store.users == JsMap.Set(old(store.users), userId, r.value)
              && r.value.currentStreak == u.currentStreak && r.value.longestStreak == u.longestStreak
              && r.value.totalTasksCompleted == u.totalTasksCompleted
    ensures store.tasks == old(store.tasks) && store.projects == old(store.projects) && store.streaks == old(store.streaks)
  {
    r := store.UpdateUser(userId, SettingsPatch(theme, simpleMode));
  }

  // ------------------------------------------------------- GET /api/streaks

  /** `GET /api/streaks`: the user's records, latest date first. */
  function ListStreaks(store: MemStorage, userId: Id): (r: seq<Streak>)
    reads store
    requires store.Valid()
    ensures forall s :: s in r <==> s in store.streaks.entries.Values && s.userId == Some(userId)
    ensures SortedDesc(r, DateKey)
    ensures multiset(r) == multiset(UserStreaks(store.StreakList(), userId))
    ensures forall k :: WithKey(r, DateKey, k) == WithKey(UserStreaks(store.StreakList(), userId), DateKey, k)
    ensures r == store.GetStreaks(userId)
  {
    store.GetStreaks(userId)
  }
}
