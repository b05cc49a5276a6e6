/** The shared record shapes (shared/schema.ts): the four entities, their
    insert shapes (what a caller may supply), their partial-update shapes, the
    priority levels and the streak badge table. Timestamps are milliseconds;
    a nullable column is an `Option`. */
module Schema {
  import opened Wrappers

  type Id = string

  datatype User = User(
    id: Id,
    username: string,
    email: string,
    password: string,
    currentStreak: int,
    longestStreak: int,
    totalTasksCompleted: int,
    simpleMode: Option<bool>,
    theme: Option<string>,
    createdAt: int)

  datatype Project = Project(
    id: Id,
    name: string,
    color: Option<string>,
    userId: Option<Id>,
    createdAt: int)

  datatype Task = Task(
    id: Id,
    title: string,
    description: Option<string>,
    completed: bool,
    priority: Option<string>,
    dueDate: Option<int>,
    dueTime: Option<string>,
    tags: Option<seq<string>>,
    projectId: Option<Id>,
    userId: Option<Id>,
    overdue: bool,
    completedAt: Option<int>,
    createdAt: int,
    updatedAt: int)

  /** A streak record; `date` and `streakDay` are required columns. */
  datatype Streak = Streak(
    id: Id,
    userId: Option<Id>,
    date: int,
    tasksCompleted: int,
    streakDay: int,
    badgeEarned: Option<string>,
    createdAt: int)

  /** `InsertUser`: the user columns minus id, the three streak counters and
      createdAt, which the store sets. */
  datatype NewUser = NewUser(
    username: string,
    email: string,
    password: string,
    simpleMode: Option<bool>,
    theme: Option<string>)

  /** `InsertProject`: the project columns minus id and createdAt. */
  datatype NewProject = NewProject(
    name: string,
    color: Option<string>,
    userId: Option<Id>)

  /** `InsertTask`: the task columns minus id, completed, overdue, completedAt,
      createdAt and updatedAt, which the store sets. */
  datatype NewTask = NewTask(
    title: string,
    description: Option<string>,
    priority: Option<string>,
    dueDate: Option<int>,
    dueTime: Option<string>,
    tags: Option<seq<string>>,
    projectId: Option<Id>,
    userId: Option<Id>)

  /** `InsertStreak`: the streak columns minus id and createdAt. The
      `tasksCompleted` column has a default, but every caller supplies it. */
  datatype NewStreak = NewStreak(
    userId: Option<Id>,
    date: int,
    tasksCompleted: int,
    streakDay: int,
    badgeEarned: Option<string>)

  /** `Partial<User>` */
  datatype UserPatch = UserPatch(
    id: Update<Id>,
    username: Update<string>,
    email: Update<string>,
    password: Update<string>,
    currentStreak: Update<int>,
    longestStreak: Update<int>,
    totalTasksCompleted: Update<int>,
    simpleMode: Update<Option<bool>>,
    theme: Update<Option<string>>,
    createdAt: Update<int>)

  /** `Partial<Project>` */
  datatype ProjectPatch = ProjectPatch(
    id: Update<Id>,
    name: Update<string>,
    color: Update<Option<string>>,
    userId: Update<Option<Id>>,
    createdAt: Update<int>)

  /** `Partial<Task>`. It has no `overdue` and no `updatedAt` field: whatever
      an update carries for those two, the store overwrites. */
  datatype TaskPatch = TaskPatch(
    id: Update<Id>,
    title: Update<string>,
    description: Update<Option<string>>,
    completed: Update<bool>,
    priority: Update<Option<string>>,
    dueDate: Update<Option<int>>,
    dueTime: Update<Option<string>>,
    tags: Update<Option<seq<string>>>,
    projectId: Update<Option<Id>>,
    userId: Update<Option<Id>>,
    completedAt: Update<Option<int>>,
    createdAt: Update<int>)

  /** `{ ...user, ...updates }` */
  function MergeUser(u: User, p: UserPatch): User {
    User(p.id.Over(u.id), p.username.Over(u.username), p.email.Over(u.email),
         p.password.Over(u.password), p.currentStreak.Over(u.currentStreak),
         p.longestStreak.Over(u.longestStreak), p.totalTasksCompleted.Over(u.totalTasksCompleted),
         p.simpleMode.Over(u.simpleMode), p.theme.Over(u.theme), p.createdAt.Over(u.createdAt))
  }

  /** `{ ...project, ...updates }` */
  function MergeProject(q: Project, p: ProjectPatch): Project {
    Project(p.id.Over(q.id), p.name.Over(q.name), p.color.Over(q.color),
            p.userId.Over(q.userId), p.createdAt.Over(q.createdAt))
  }

  /** `{ ...task, ...updates }`, before the store's own fields are set. */
  function MergeTask(t: Task, p: TaskPatch): Task {
    t.(id := p.id.Over(t.id), title := p.title.Over(t.title),
       description := p.description.Over(t.description), completed := p.completed.Over(t.completed),
       priority := p.priority.Over(t.priority), dueDate := p.dueDate.Over(t.dueDate),
       dueTime := p.dueTime.Over(t.dueTime), tags := p.tags.Over(t.tags),
       projectId := p.projectId.Over(t.projectId), userId := p.userId.Over(t.userId),
       completedAt := p.completedAt.Over(t.completedAt), createdAt := p.createdAt.Over(t.createdAt))
  }

  /** A patch that touches nothing leaves every record as it was. */
  lemma EmptyPatchesChangeNothing(u: User, q: Project, t: Task)
    ensures MergeUser(u, UserPatch(Keep, Keep, Keep, Keep, Keep, Keep, Keep, Keep, Keep, Keep)) == u
    ensures MergeProject(q, ProjectPatch(Keep, Keep, Keep, Keep, Keep)) == q
    ensures MergeTask(t, TaskPatch(Keep, Keep, Keep, Keep, Keep, Keep, Keep, Keep, Keep, Keep, Keep, Keep)) == t
  {
  }

  /** `PRIORITY_LEVELS` */
  const PRIORITY_LEVELS: seq<string> := ["low", "medium", "high"]

  /** `PRIORITY_LEVELS.includes(s)`, which validates the priority query parameter. */
  predicate IsPriority(s: string) {
    s in PRIORITY_LEVELS
  }

  lemma PriorityLevelsExactly(s: string)
    ensures IsPriority(s) <==> s == "low" || s == "medium" || s == "high"
    ensures !IsPriority("")
  {
  }

  /** A badge, by name (the emoji column is not modelled). */
  datatype Badge = Badge(name: string)

  /** `STREAK_BADGES`: streak-day counts that earn a badge. */
  const STREAK_BADGES: map<int, Badge> := map[
    1 := Badge("Trailblazer"),
    4 := Badge("Consistent"),
    7 := Badge("Warrior of the Week"),
    14 := Badge("Momentum Builder"),
    21 := Badge("Unstoppable"),
    28 := Badge("Elite"),
    60 := Badge("Momentum Master"),
    120 := Badge("Champion"),
    180 := Badge("The Iron Mind"),
    365 := Badge("The Invincible")]

  /** `STREAK_BADGES[n]`: a badge only for an exact key, never for the
      highest threshold below `n`. */
  function BadgeFor(n: int): (b: Option<Badge>)
    ensures b.Some? <==> n in {1, 4, 7, 14, 21, 28, 60, 120, 180, 365}
  {
    if n in STREAK_BADGES then Some(STREAK_BADGES[n]) else None
  }

  /** `STREAK_BADGES[n]?.name || null`, the name a streak record stores. */
  function BadgeName(n: int): (r: Option<string>)
    ensures r.Some? <==> BadgeFor(n).Some?
    ensures r.Some? ==> r.value == BadgeFor(n).value.name
  {
    match BadgeFor(n)
    case Some(b) => Some(b.name)
    case None => None
  }

  lemma BadgeExamples()
    ensures BadgeFor(7) == Some(Badge("Warrior of the Week"))
    ensures BadgeFor(1) == Some(Badge("Trailblazer"))
    ensures BadgeFor(365) == Some(Badge("The Invincible"))
    ensures BadgeFor(8) == None && BadgeFor(0) == None && BadgeFor(366) == None
  {
  }
}
