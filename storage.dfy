/** The in-memory store of server/storage.ts: the records the store builds,
    the filtered and sorted queries over the maps' values, and the
    `MemStorage` class that owns the four maps. */
module Storage {
  import opened Wrappers
  import opened Schema
  import opened Clock
  import opened Text
  import opened Seqs
  import JsMap

  // ---------------------------------------------------------------- records

  /** The derived overdue flag: a due date strictly before `now` on a task
      that is not completed. */
  predicate OverdueAt(dueDate: Option<int>, completed: bool, now: int) {
    dueDate.Some? && dueDate.value < now && !completed
  }

  /** The flag a stored task carries agrees with the derived flag at the time
      of its last write (`updatedAt`). `createTask` and `updateTask` keep this for
      every task they write. */
  ghost predicate FlagCurrent(t: Task) {
    t.overdue == OverdueAt(t.dueDate, t.completed, t.updatedAt)
  }

  /** The fields of a task a caller supplies on creation. */
  function InsertFields(t: Task): NewTask {
    NewTask(t.title, t.description, t.priority, t.dueDate, t.dueTime, t.tags, t.projectId, t.userId)
  }

  /** A task with the three fields `updateTask` itself decides blanked out. */
  function WithoutStoreFields(t: Task): Task {
    t.(overdue := false, completedAt := None, updatedAt := 0)
  }

  /** The task `createTask` stores for an insert shape, a fresh id and the
      current time. */
  function TaskRecord(insert: NewTask, id: Id, now: int): (t: Task)
    ensures InsertFields(t) == insert
    ensures t.id == id && !t.completed && t.completedAt == None
    ensures t.createdAt == now && t.updatedAt == now
    ensures t.overdue <==> insert.dueDate.Some? && insert.dueDate.value < now
    ensures FlagCurrent(t)
  {
    var task := Task(id, insert.title, insert.description, false, insert.priority, insert.dueDate,
                     insert.dueTime, insert.tags, insert.projectId, insert.userId,
                     false, None, now, now);
    if task.dueDate.Some? && task.dueDate.value < now then task.(overdue := true) else task
  }

  /** Whatever the insert shape holds, a created task's store-controlled
      fields are the same: they depend only on the id, the time and, for
      `overdue`, the due date. */
  lemma StoreFieldsIgnoreInsert(a: NewTask, b: NewTask, id: Id, now: int)
    ensures var s, t := TaskRecord(a, id, now), TaskRecord(b, id, now);
            && s.id == t.id && s.completed == t.completed && s.completedAt == t.completedAt
            && s.createdAt == t.createdAt && s.updatedAt == t.updatedAt
            && (a.dueDate == b.dueDate ==> s.overdue == t.overdue)
  {
  }

  /** The task `updateTask` stores: the update merged over the task, then
      `updatedAt`, `completedAt` and `overdue` decided by the store. */
  function UpdatedTask(task: Task, updates: TaskPatch, now: int): (r: Task)
    ensures r.updatedAt == now
    ensures r.overdue == OverdueAt(r.dueDate, r.completed, now)
    ensures FlagCurrent(r)
    ensures WithoutStoreFields(r) == WithoutStoreFields(MergeTask(task, updates))
    ensures r.completed == updates.completed.Over(task.completed)
    ensures updates.completed == Put(true) && !task.completed ==> r.completedAt == Some(now)
    ensures updates.completed == Put(false) ==> r.completedAt == None
    ensures !(updates.completed == Put(true) && !task.completed) && updates.completed != Put(false) ==>
              r.completedAt == updates.completedAt.Over(task.completedAt)
  {
    var merged := MergeTask(task, updates).(updatedAt := now);
    var completedAt :=
      if updates.completed == Put(true) && !task.completed then Some(now)
      else if updates.completed == Put(false) then None
      else merged.completedAt;
    var c := merged.(completedAt := completedAt);
    c.(overdue := c.dueDate.Some? && c.dueDate.value < now && !c.completed)
  }

  /** The fields of a user a caller supplies on creation. */
  function UserInsertFields(u: User): NewUser {
    NewUser(u.username, u.email, u.password, u.simpleMode, u.theme)
  }

  /** The user `createUser` stores: all three streak counters start at 0. */
  function UserRecord(insert: NewUser, id: Id, now: int): (u: User)
    ensures UserInsertFields(u) == insert
    ensures u.id == id && u.createdAt == now
    ensures u.currentStreak == 0 && u.longestStreak == 0 && u.totalTasksCompleted == 0
  {
    User(id, insert.username, insert.email, insert.password, 0, 0, 0,
         insert.simpleMode, insert.theme, now)
  }

  /** The seeded demo user of `initializeDefaultData`: a 7-day streak, a
      longest streak of 15 and 42 completed tasks. */
  function DemoUser(id: Id, now: int): (u: User)
    ensures 0 <= u.currentStreak <= u.longestStreak && 0 <= u.totalTasksCompleted
    ensures u.id == id && u.createdAt == now
  {
    User(id, "demo", "demo@tasksahead.com", "demo123", 7, 15, 42, Some(false), Some("light"), now)
  }

  function ProjectRecord(insert: NewProject, id: Id, now: int): (p: Project)
    ensures p.id == id && p.createdAt == now
    ensures NewProject(p.name, p.color, p.userId) == insert
  {
    Project(id, insert.name, insert.color, insert.userId, now)
  }

  function StreakRecord(insert: NewStreak, id: Id, now: int): (s: Streak)
    ensures s.id == id && s.createdAt == now
    ensures NewStreak(s.userId, s.date, s.tasksCompleted, s.streakDay, s.badgeEarned) == insert
  {
    Streak(id, insert.userId, insert.date, insert.tasksCompleted, insert.streakDay, insert.badgeEarned, now)
  }

  // ---------------------------------------------------------------- queries
  // Each query takes the values of a map in insertion order, as
  // `Array.from(map.values())` lists them.

  function CreatedKey(t: Task): int { t.createdAt }
  function DateKey(s: Streak): int { s.date }

  /** The tasks owned by `userId`, in insertion order. */
  function UserTasks(tasks: seq<Task>, userId: Id): (r: seq<Task>)
    ensures forall t :: t in r ==> t in tasks && t.userId == Some(userId)
    ensures forall t :: t in tasks && t.userId == Some(userId) ==> t in r
  {
    Filter(tasks, (t: Task) => t.userId == Some(userId))
  }

  /** `getTasks`: the user's tasks, newest `createdAt` first; tasks created at
      the same time keep their insertion order. */
  function TasksNewestFirst(tasks: seq<Task>, userId: Id): (r: seq<Task>)
    ensures multiset(r) == multiset(UserTasks(tasks, userId))
    ensures SortedDesc(r, CreatedKey)
    ensures forall k :: WithKey(r, CreatedKey, k) == WithKey(UserTasks(tasks, userId), CreatedKey, k)
  {
    var mine := UserTasks(tasks, userId);
    SortDescCorrect(mine, CreatedKey);
    SortDescStableAll(mine, CreatedKey);
    SortDesc(mine, CreatedKey)
  }

  /** `getTasksByProject` */
  function ProjectTasks(tasks: seq<Task>, projectId: Id): (r: seq<Task>)
    ensures forall t :: t in r ==> t in tasks && t.projectId == Some(projectId)
    ensures forall t :: t in tasks && t.projectId == Some(projectId) ==> t in r
  {
    Filter(tasks, (t: Task) => t.projectId == Some(projectId))
  }

  /** `getOverdueTasks`: the stored flag is read, not recomputed. */
  function OverdueTasks(tasks: seq<Task>, userId: Id): (r: seq<Task>)
    ensures forall t :: t in r ==> t in tasks && t.userId == Some(userId) && t.overdue && !t.completed
    ensures forall t :: t in tasks && t.userId == Some(userId) && t.overdue && !t.completed ==> t in r
  {
    Filter(tasks, (t: Task) => t.userId == Some(userId) && t.overdue && !t.completed)
  }

  /** The overdue and due-today listings are sub-lists of the user's tasks. */
  lemma QueriesWithinUserTasks(tasks: seq<Task>, userId: Id, now: int, tzOffset: int)
    ensures |OverdueTasks(tasks, userId)| <= |UserTasks(tasks, userId)|
    ensures |TodayTasks(tasks, userId, now, tzOffset)| <= |UserTasks(tasks, userId)|
  {
    FilterStronger(tasks, (t: Task) => t.userId == Some(userId) && t.overdue && !t.completed,
                          (t: Task) => t.userId == Some(userId));
    FilterStronger(tasks, (t: Task) => t.userId == Some(userId) && DueInWindow(t, now, tzOffset),
                          (t: Task) => t.userId == Some(userId));
  }

  /** A due date within `[midnight, midnight + 24h)` of the day of `now`. */
  predicate DueInWindow(t: Task, now: int, tzOffset: int) {
    var today := StartOfDay(now, tzOffset);
    var tomorrow := today + DAY_MS;
    t.dueDate.Some? && today <= t.dueDate.value && t.dueDate.value < tomorrow
  }

  /** `getTodayTasks`: the user's tasks due on the local calendar day of `now`. */
  function TodayTasks(tasks: seq<Task>, userId: Id, now: int, tzOffset: int): (r: seq<Task>)
    ensures forall t :: t in r ==> t in tasks && t.userId == Some(userId) && t.dueDate.Some?
    ensures forall t :: t in r ==> StartOfDay(now, tzOffset) <= t.dueDate.value < StartOfDay(now, tzOffset) + DAY_MS
    ensures forall t :: t in r ==> StartOfDay(t.dueDate.value, tzOffset) == StartOfDay(now, tzOffset)
    ensures forall t :: (t in tasks && t.userId == Some(userId) && t.dueDate.Some? &&
                         StartOfDay(t.dueDate.value, tzOffset) == StartOfDay(now, tzOffset)) ==> t in r
  {
    var r := Filter(tasks, (t: Task) => t.userId == Some(userId) && DueInWindow(t, now, tzOffset));
    assert forall t: Task :: t.dueDate.Some? ==>
        (DueInWindow(t, now, tzOffset) <==> StartOfDay(t.dueDate.value, tzOffset) == StartOfDay(now, tzOffset)) by {
      forall t: Task | t.dueDate.Some? ensures
          DueInWindow(t, now, tzOffset) <==> StartOfDay(t.dueDate.value, tzOffset) == StartOfDay(now, tzOffset) {
        SameDayIffWindow(now, t.dueDate.value, tzOffset);
      }
    }
    r
  }

  /** `getTasksByPriority` */
  function PriorityTasks(tasks: seq<Task>, userId: Id, priority: string): (r: seq<Task>)
    ensures forall t :: t in r ==> t in tasks && t.userId == Some(userId) && t.priority == Some(priority)
    ensures forall t :: t in tasks && t.userId == Some(userId) && t.priority == Some(priority) ==> t in r
  {
    Filter(tasks, (t: Task) => t.userId == Some(userId) && t.priority == Some(priority))
  }

  /** The search test as the code runs it: lower-cased `includes` on the
      title, on the description when there is one, and on any tag when there
      are tags. */
  predicate MatchesSearch(t: Task, query: string) {
    var q := ToLower(query);
    || Includes(ToLower(t.title), q)
    || (t.description.Some? && Includes(ToLower(t.description.value), q))
    || (t.tags.Some? && exists tag :: tag in t.tags.value && Includes(ToLower(tag), q))
  }

  /** What the search promises: the lower-cased query is a substring of the
      lower-cased title, description or some tag. */
  ghost predicate MentionsQuery(t: Task, query: string) {
    var q := ToLower(query);
    || OccursIn(q, ToLower(t.title))
    || (t.description.Some? && OccursIn(q, ToLower(t.description.value)))
    || (t.tags.Some? && exists tag :: tag in t.tags.value && OccursIn(q, ToLower(tag)))
  }

  lemma MatchesSearchIffMentions(t: Task, query: string)
    ensures MatchesSearch(t, query) <==> MentionsQuery(t, query)
  {
    var q := ToLower(query);
    IncludesIffOccurs(ToLower(t.title), q);
    if t.description.Some? { IncludesIffOccurs(ToLower(t.description.value), q); }
    if t.tags.Some? {
      forall tag | tag in t.tags.value ensures Includes(ToLower(tag), q) <==> OccursIn(q, ToLower(tag)) {
        IncludesIffOccurs(ToLower(tag), q);
      }
    }
  }

  /** `searchTasks`: exactly the user's tasks that mention the query,
      ignoring ASCII case. */
  function SearchTasks(tasks: seq<Task>, userId: Id, query: string): (r: seq<Task>)
    ensures forall t :: t in r ==> t in tasks && t.userId == Some(userId) && MentionsQuery(t, query)
    ensures forall t :: t in tasks && t.userId == Some(userId) && MentionsQuery(t, query) ==> t in r
  {
    var r := Filter(tasks, (t: Task) => t.userId == Some(userId) && MatchesSearch(t, query));
    assert forall t :: MatchesSearch(t, query) <==> MentionsQuery(t, query) by {
      forall t ensures MatchesSearch(t, query) <==> MentionsQuery(t, query) {
        MatchesSearchIffMentions(t, query);
      }
    }
    r
  }

  /** `getProjects` */
  function UserProjects(projects: seq<Project>, userId: Id): (r: seq<Project>)
    ensures forall p :: p in r ==> p in projects && p.userId == Some(userId)
    ensures forall p :: p in projects && p.userId == Some(userId) ==> p in r
  {
    Filter(projects, (p: Project) => p.userId == Some(userId))
  }

  /** The streak records of `userId`, in insertion order. */
  function UserStreaks(streaks: seq<Streak>, userId: Id): (r: seq<Streak>)
    ensures forall s :: s in r ==> s in streaks && s.userId == Some(userId)
    ensures forall s :: s in streaks && s.userId == Some(userId) ==> s in r
  {
    Filter(streaks, (s: Streak) => s.userId == Some(userId))
  }

  /** `getStreaks`: the user's streak records, latest `date` first; records
      of the same date keep their insertion order. */
  function StreaksNewestFirst(streaks: seq<Streak>, userId: Id): (r: seq<Streak>)
    ensures multiset(r) == multiset(UserStreaks(streaks, userId))
    ensures SortedDesc(r, DateKey)
    ensures forall k :: WithKey(r, DateKey, k) == WithKey(UserStreaks(streaks, userId), DateKey, k)
  {
    var mine := UserStreaks(streaks, userId);
    SortDescCorrect(mine, DateKey);
    SortDescStableAll(mine, DateKey);
    SortDesc(mine, DateKey)
  }

  /** A record of `userId` whose date falls on the local day of `date`. */
  predicate RecordOnDay(s: Streak, userId: Id, date: int, tzOffset: int) {
    s.userId == Some(userId) && StartOfDay(s.date, tzOffset) == StartOfDay(date, tzOffset)
  }

  /** `getStreakByDate`: the first record, in insertion order, of the user on
      that local day; none when the user has no record that day. */
  function StreakOnDay(streaks: seq<Streak>, userId: Id, date: int, tzOffset: int): (r: Option<Streak>)
    ensures r.None? <==> forall i :: 0 <= i < |streaks| ==> !RecordOnDay(streaks[i], userId, date, tzOffset)
    ensures r.Some? ==> exists i :: 0 <= i < |streaks| && streaks[i] == r.value &&
                          RecordOnDay(streaks[i], userId, date, tzOffset) &&
                          forall j :: 0 <= j < i ==> !RecordOnDay(streaks[j], userId, date, tzOffset)
  {
    Find(streaks, s => RecordOnDay(s, userId, date, tzOffset))
  }

  /** A record appended behind the others is found for its own day unless an
      earlier record of that day exists, in which case the earlier one still is. */
  lemma StreakOnDayAppend(streaks: seq<Streak>, s: Streak, userId: Id, date: int, tzOffset: int)
    requires RecordOnDay(s, userId, date, tzOffset)
    ensures StreakOnDay(streaks + [s], userId, date, tzOffset) ==
            if StreakOnDay(streaks, userId, date, tzOffset).Some? then StreakOnDay(streaks, userId, date, tzOffset)
            else Some(s)
  {
    FindAppend(streaks, s, x => RecordOnDay(x, userId, date, tzOffset));
  }

  // ---------------------------------------------------------------- the store

  class MemStorage {
    var users: JsMap.OrderedMap<Id, User>
    var tasks: JsMap.OrderedMap<Id, Task>
    var projects: JsMap.OrderedMap<Id, Project>
    var streaks: JsMap.OrderedMap<Id, Streak>

    ghost predicate Valid()
      reads this
    {
      && JsMap.Valid(users) && JsMap.Valid(tasks) && JsMap.Valid(projects) && JsMap.Valid(streaks)
      && forall id :: id in tasks.entries ==> FlagCurrent(tasks.entries[id])
    }

    /** Every project record carries the key it is stored under. Creating
        and deleting projects keep this; an update that rewrites `id` may not. */
    ghost predicate ProjectIdsAreKeys()
      reads this
    {
      forall k :: k in projects.entries ==> projects.entries[k].id == k
    }

    /** The store as constructed: the demo user only (the seeded projects
        and tasks are not modelled). */
    constructor (demoUserId: Id, now: int)
      ensures Valid()
      ensures users == JsMap.Set(JsMap.Empty(), demoUserId, DemoUser(demoUserId, now))
      ensures tasks == JsMap.Empty() && projects == JsMap.Empty() && streaks == JsMap.Empty()
    {
      users := JsMap.Set(JsMap.Empty(), demoUserId, DemoUser(demoUserId, now));
      tasks := JsMap.Empty();
      projects := JsMap.Empty();
      streaks := JsMap.Empty();
    }

    function TaskList(): seq<Task>
      reads this
      requires Valid()
    {
      JsMap.Values(tasks)
    }

    function ProjectList(): seq<Project>
      reads this
      requires Valid()
    {
      JsMap.Values(projects)
    }

    function StreakList(): seq<Streak>
      reads this
      requires Valid()
    {
      JsMap.Values(streaks)
    }

    // -- users

    function GetUser(id: Id): (r: Option<User>)
      reads this
      ensures r.Some? <==> id in users.entries
      ensures r.Some? ==> r.value == users.entries[id]
    {
      JsMap.Get(users, id)
    }

    /** `getUserByUsername`: the first user, in insertion order, with that name. */
    function GetUserByUsername(username: string): (r: Option<User>)
      reads this
      requires Valid()
      ensures r.None? <==> forall u :: u in users.entries.Values ==> u.username != username
      ensures r.Some? ==> r.value in users.entries.Values && r.value.username == username
      ensures r.Some? ==> exists i :: 0 <= i < |JsMap.Values(users)| && JsMap.Values(users)[i] == r.value &&
                            forall j :: 0 <= j < i ==> JsMap.Values(users)[j].username != username
    {
      JsMap.ValuesMembershipAll(users);
      Find(JsMap.Values(users), (u: User) => u.username == username)
    }

    /** `getUserByEmail`: the first user, in insertion order, with that email. */
    function GetUserByEmail(email: string): (r: Option<User>)
      reads this
      requires Valid()
      ensures r.None? <==> forall u :: u in users.entries.Values ==> u.email != email
      ensures r.Some? ==> r.value in users.entries.Values && r.value.email == email
      ensures r.Some? ==> exists i :: 0 <= i < |JsMap.Values(users)| && JsMap.Values(users)[i] == r.value &&
                            forall j :: 0 <= j < i ==> JsMap.Values(users)[j].email != email
    {
      JsMap.ValuesMembershipAll(users);
      Find(JsMap.Values(users), (u: User) => u.email == email)
    }

    method CreateUser(insert: NewUser, id: Id, now: int) returns (user: User)
      requires Valid() && id !in users.entries
      modifies this
      ensures Valid()
      ensures user == UserRecord(insert, id, now)
      ensures user.currentStreak == 0 && user.longestStreak == 0 && user.totalTasksCompleted == 0
      ensures users == JsMap.Set(old(users), id, user)
      ensures tasks == old(tasks) && projects == old(projects) && streaks == old(streaks)
    {
      user := UserRecord(insert, id, now);
      users := JsMap.Set(users, id, user);
    }

    method UpdateUser(id: Id, updates: UserPatch) returns (r: Option<User>)
      requires Valid()
      modifies this
      ensures Valid()
      ensures id !in old(users.entries) ==> r.None? && users == old(users)
      ensures id in old(users.entries) ==>
                r == Some(MergeUser(old(users.entries[id]), updates)) &&
                users == JsMap.Set(old(users), id, r.value)
      ensures tasks == old(tasks) && projects == old(projects) && streaks == old(streaks)
    {
      var found := JsMap.Get(users, id);
      if found.None? {
        return None;
      }
      var updated := MergeUser(found.value, updates);
      users := JsMap.Set(users, id, updated);
      r := Some(updated);
    }

    /** `getCurrentStreak`: `user?.currentStreak || 0`. */
    function GetCurrentStreak(userId: Id): (n: int)
      reads this
      ensures userId !in users.entries ==> n == 0
      ensures userId in users.entries ==> n == users.entries[userId].currentStreak
    {
      match JsMap.Get(users, userId)
      case None => 0
      case Some(u) => if u.currentStreak == 0 then 0 else u.currentStreak
    }

    // -- tasks

    function GetTask(id: Id): (r: Option<Task>)
      reads this
      ensures r.Some? <==> id in tasks.entries
      ensures r.Some? ==> r.value == tasks.entries[id]
    {
      JsMap.Get(tasks, id)
    }

    function GetTasks(userId: Id): (r: seq<Task>)
      reads this
      requires Valid()
      ensures forall t :: t in r <==> t in tasks.entries.Values && t.userId == Some(userId)
      ensures SortedDesc(r, CreatedKey)
      ensures multiset(r) == multiset(UserTasks(TaskList(), userId))
      ensures forall k :: WithKey(r, CreatedKey, k) == WithKey(UserTasks(TaskList(), userId), CreatedKey, k)
      ensures r == TasksNewestFirst(TaskList(), userId)
    {
      JsMap.ValuesMembershipAll(tasks);
      var r := TasksNewestFirst(TaskList(), userId);
      assert forall t :: t in r <==> t in multiset(r);
      r
    }

    function GetTasksByProject(projectId: Id): (r: seq<Task>)
      reads this
      requires Valid()
      ensures forall t :: t in r <==> t in tasks.entries.Values && t.projectId == Some(projectId)
    {
      JsMap.ValuesMembershipAll(tasks);
      ProjectTasks(TaskList(), projectId)
    }

    /** The `!completed` test is implied by the stored flag. */
    function GetOverdueTasks(userId: Id): (r: seq<Task>)
      reads this
      requires Valid()
      ensures forall t :: t in r <==> t in tasks.entries.Values && t.userId == Some(userId) && t.overdue
    {
      JsMap.ValuesMembershipAll(tasks);
      OverdueTasks(TaskList(), userId)
    }

    function GetTodayTasks(userId: Id, now: int, tzOffset: int): (r: seq<Task>)
      reads this
      requires Valid()
      ensures forall t :: t in r <==> (t in tasks.entries.Values && t.userId == Some(userId) &&
                                      t.dueDate.Some? && StartOfDay(t.dueDate.value, tzOffset) == StartOfDay(now, tzOffset))
      ensures forall t :: t in r <==> (t in tasks.entries.Values && t.userId == Some(userId) &&
                                      DueInWindow(t, now, tzOffset))
    {
      JsMap.ValuesMembershipAll(tasks);
      forall t: Task | t.dueDate.Some?
        ensures DueInWindow(t, now, tzOffset) <==> StartOfDay(t.dueDate.value, tzOffset) == StartOfDay(now, tzOffset)
      {
        SameDayIffWindow(now, t.dueDate.value, tzOffset);
      }
      TodayTasks(TaskList(), userId, now, tzOffset)
    }

    function GetTasksByPriority(userId: Id, priority: string): (r: seq<Task>)
      reads this
      requires Valid()
      ensures forall t :: t in r <==> t in tasks.entries.Values && t.userId == Some(userId) && t.priority == Some(priority)
    {
      JsMap.ValuesMembershipAll(tasks);
      PriorityTasks(TaskList(), userId, priority)
    }

    function SearchUserTasks(userId: Id, query: string): (r: seq<Task>)
      reads this
      requires Valid()
      ensures forall t :: t in r <==> t in tasks.entries.Values && t.userId == Some(userId) && MentionsQuery(t, query)
    {
      JsMap.ValuesMembershipAll(tasks);
      SearchTasks(TaskList(), userId, query)
    }

    method CreateTask(insert: NewTask, id: Id, now: int) returns (task: Task)
      requires Valid() && id !in tasks.entries
      modifies this
      ensures Valid()
      ensures task == TaskRecord(insert, id, now)
      ensures !task.completed && task.completedAt == None && task.createdAt == now && task.updatedAt == now
      ensures task.overdue <==> insert.dueDate.Some? && insert.dueDate.value < now
      ensures tasks == JsMap.Set(old(tasks), id, task)
      ensures users == old(users) && projects == old(projects) && streaks == old(streaks)
    {
      // Builds `TaskRecord(insert, id, now)` in the source's two steps.
      task := Task(id, insert.title, insert.description, false, insert.priority, insert.dueDate,
                   insert.dueTime, insert.tags, insert.projectId, insert.userId,
                   false, None, now, now);
      if task.dueDate.Some? && task.dueDate.value < now {
        task := task.(overdue := true);
      }
      tasks := JsMap.Set(tasks, id, task);
    }

    method UpdateTask(id: Id, updates: TaskPatch, now: int) returns (r: Option<Task>)
      requires Valid()
      modifies this
      ensures Valid()
      ensures id !in old(tasks.entries) ==> r.None? && tasks == old(tasks)
      ensures id in old(tasks.entries) ==>
                r == Some(UpdatedTask(old(tasks.entries[id]), updates, now)) &&
                tasks == JsMap.Set(old(tasks), id, r.value)
      ensures r.Some? ==> r.value.updatedAt == now && r.value.overdue == OverdueAt(r.value.dueDate, r.value.completed, now)
      ensures users == old(users) && projects == old(projects) && streaks == old(streaks)
    {
      var found := JsMap.Get(tasks, id);
      if found.None? {
        return None;
      }
      var task := found.value;
      var updatedTask := MergeTask(task, updates).(updatedAt := now);
      if updates.completed == Put(true) && !task.completed {
        updatedTask := updatedTask.(completedAt := Some(now));
      } else if updates.completed == Put(false) {
        updatedTask := updatedTask.(completedAt := None);
      }
      if updatedTask.dueDate.Some? && updatedTask.dueDate.value < now && !updatedTask.completed {
        updatedTask := updatedTask.(overdue := true);
      } else {
        updatedTask := updatedTask.(overdue := false);
      }
      tasks := JsMap.Set(tasks, id, updatedTask);
      r := Some(updatedTask);
    }

    method DeleteTask(id: Id) returns (deleted: bool)
      requires Valid()
      modifies this
      ensures Valid()
      ensures deleted <==> id in old(tasks.entries)
      ensures id !in tasks.entries
      ensures tasks == JsMap.Delete(old(tasks), id)
      ensures forall k :: k in tasks.entries ==> k in old(tasks.entries) && tasks.entries[k] == old(tasks.entries[k])
      ensures users == old(users) && projects == old(projects) && streaks == old(streaks)
    {
      deleted := id in tasks.entries;
      tasks := JsMap.Delete(tasks, id);
    }

    // -- projects

    function GetProjects(userId: Id): (r: seq<Project>)
      reads this
      requires Valid()
      ensures forall p :: p in r <==> p in projects.entries.Values && p.userId == Some(userId)
    {
      JsMap.ValuesMembershipAll(projects);
      UserProjects(ProjectList(), userId)
    }

    function GetProject(id: Id): (r: Option<Project>)
      reads this
      ensures r.Some? <==> id in projects.entries
      ensures r.Some? ==> r.value == projects.entries[id]
    {
      JsMap.Get(projects, id)
    }

    method CreateProject(insert: NewProject, id: Id, now: int) returns (project: Project)
      requires Valid() && id !in projects.entries
      modifies this
      ensures Valid()
      ensures project == ProjectRecord(insert, id, now)
      ensures projects == JsMap.Set(old(projects), id, project)
      ensures old(ProjectIdsAreKeys()) ==> ProjectIdsAreKeys()
      ensures users == old(users) && tasks == old(tasks) && streaks == old(streaks)
    {
      project := ProjectRecord(insert, id, now);
      projects := JsMap.Set(projects, id, project);
    }

    method UpdateProject(id: Id, updates: ProjectPatch) returns (r: Option<Project>)
      requires Valid()
      modifies this
      ensures Valid()
      ensures id !in old(projects.entries) ==> r.None? && projects == old(projects)
      ensures id in old(projects.entries) ==>
                r == Some(MergeProject(old(projects.entries[id]), updates)) &&
                projects == JsMap.Set(old(projects), id, r.value)
      ensures old(ProjectIdsAreKeys()) && updates.id == Keep ==> ProjectIdsAreKeys()
      ensures users == old(users) && tasks == old(tasks) && streaks == old(streaks)
    {
      var found := JsMap.Get(projects, id);
      if found.None? {
        return None;
      }
      var updated := MergeProject(found.value, updates);
      projects := JsMap.Set(projects, id, updated);
      r := Some(updated);
    }

    /** Deleting a project does not cascade: every task, including its
        `projectId`, stays as it was. */
    method DeleteProject(id: Id) returns (deleted: bool)
      requires Valid()
      modifies this
      ensures Valid()
      ensures deleted <==> id in old(projects.entries)
      ensures id !in projects.entries
      ensures projects == JsMap.Delete(old(projects), id)
      ensures old(ProjectIdsAreKeys()) ==> ProjectIdsAreKeys()
      ensures users == old(users) && tasks == old(tasks) && streaks == old(streaks)
    {
      deleted := id in projects.entries;
      projects := JsMap.Delete(projects, id);
    }

    // -- streaks

    function GetStreaks(userId: Id): (r: seq<Streak>)
      reads this
      requires Valid()
      ensures forall s :: s in r <==> s in streaks.entries.Values && s.userId == Some(userId)
      ensures SortedDesc(r, DateKey)
      ensures multiset(r) == multiset(UserStreaks(StreakList(), userId))
      ensures forall k :: WithKey(r, DateKey, k) == WithKey(UserStreaks(StreakList(), userId), DateKey, k)
      ensures r == StreaksNewestFirst(StreakList(), userId)
    {
      JsMap.ValuesMembershipAll(streaks);
      var r := StreaksNewestFirst(StreakList(), userId);
      assert forall s :: s in r <==> s in multiset(r);
      r
    }

    method CreateStreak(insert: NewStreak, id: Id, now: int) returns (streak: Streak)
      requires Valid() && id !in streaks.entries
      modifies this
      ensures Valid()
      ensures streak == StreakRecord(insert, id, now)
      ensures streaks == JsMap.Set(old(streaks), id, streak)
      ensures StreakList() == old(StreakList()) + [streak]
      ensures users == old(users) && tasks == old(tasks) && projects == old(projects)
    {
      streak := StreakRecord(insert, id, now);
      JsMap.ValuesSetNew(streaks, id, streak);
      streaks := JsMap.Set(streaks, id, streak);
    }

    function GetStreakByDate(userId: Id, date: int, tzOffset: int): (r: Option<Streak>)
      reads this
      requires Valid()
      ensures r.None? <==> forall s :: s in streaks.entries.Values ==> !RecordOnDay(s, userId, date, tzOffset)
      ensures r.Some? ==> r.value in streaks.entries.Values && RecordOnDay(r.value, userId, date, tzOffset)
      ensures r.Some? ==> exists i :: 0 <= i < |StreakList()| && StreakList()[i] == r.value &&
                            forall j :: 0 <= j < i ==> !RecordOnDay(StreakList()[j], userId, date, tzOffset)
      ensures r == StreakOnDay(StreakList(), userId, date, tzOffset)
    {
      JsMap.ValuesMembershipAll(streaks);
      StreakOnDay(StreakList(), userId, date, tzOffset)
    }
  }
}
