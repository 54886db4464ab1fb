/**
 * Record shapes of the task/goal service: the users, tasks, goals, task_tags
 * and blacklisted_tokens tables, their enumerated columns and defaults, the
 * uniqueness constraints, the foreign keys, and the delete cascades.
 *
 * Timestamps are integers (seconds); a nullable column is an Option.
 */
module Model {
  import opened Seqs

  /** Task.priority, an enumerated column. */
  datatype Priority = High | Medium | Low

  /** Task.repeat_frequency, a nullable enumerated column. */
  datatype Frequency = Daily | Weekly | Monthly | Yearly | Custom

  /** Goal.goal_type, an enumerated column. */
  datatype GoalType = LongTerm | Active

  /** The text the goal_type column stores and the goal list compares with. */
  function GoalTypeName(g: GoalType): string {
    match g
    case LongTerm => "long_term"
    case Active => "active"
  }

  /** The stored password_hash: the salt it was made with and the digest. */
  datatype PasswordHash = PasswordHash(salt: string, digest: string)

  datatype User = User(
    id: int,
    username: string,
    email: string,
    passwordHash: PasswordHash,
    createdAt: int,
    updatedAt: int,
    lastLogin: Option<int>,
    isActive: bool)

  datatype Task = Task(
    id: string,
    userId: int,
    goalId: Option<string>,
    title: string,
    completed: bool,
    dueDate: Option<int>,
    priority: Priority,
    estimatedTime: int,
    actualTime: int,
    createdAt: int,
    notes: Option<string>,
    expectedOutcome: Option<string>,
    enthusiasm: Option<int>,
    difficulty: Option<int>,
    importance: Option<int>,
    isRepeating: bool,
    repeatFrequency: Option<Frequency>,
    repeatInterval: Option<int>,
    repeatEndDate: Option<int>,
    repeatCount: Option<int>,
    parentTaskId: Option<string>,
    customWeekDays: Option<seq<string>>)

  datatype Goal = Goal(
    id: string,
    userId: int,
    title: string,
    description: Option<string>,
    category: Option<string>,
    color: string,
    icon: Option<string>,
    startDate: Option<int>,
    endDate: Option<int>,
    completed: bool,
    progress: int,
    createdAt: int,
    goalType: GoalType)

  /** A task_tags row; its surrogate key is not modelled. */
  datatype TaskTag = TaskTag(taskId: string, tagName: string)

  /** A blacklisted_tokens row; its surrogate key is not modelled. */
  datatype BlacklistedToken = BlacklistedToken(token: string, blacklistedOn: int)

  const DefaultColor: string := "#000000"

  /** A new users row: active, never logged in. */
  function NewUser(id: int, username: string, email: string, hash: PasswordHash, now: int): User {
    User(id, username, email, hash, now, now, None, true)
  }

  /** A new tasks row with every column at its default; the title is set by the caller. */
  function TaskDefaults(id: string, userId: int, now: int): Task {
    Task(id, userId, None, "", false, None, Medium, 0, 0, now, None, None, None, None, None,
         false, None, None, None, None, None, None)
  }

  /** A new goals row with every column at its default; the title is set by the caller. */
  function GoalDefaults(id: string, userId: int, now: int): Goal {
    Goal(id, userId, "", None, None, DefaultColor, None, None, None, false, 0, now, Active)
  }

  // ---------------------------------------------------------------------
  // The database and its constraints

  datatype Tables = Tables(
    users: seq<User>,
    tasks: seq<Task>,
    goals: seq<Goal>,
    tags: seq<TaskTag>,
    blacklist: seq<BlacklistedToken>)

  /** No two elements of `s` share a key: a UNIQUE column or a primary key. */
  predicate UniqueBy<T, K(==)>(s: seq<T>, key: T -> K) {
    forall i, j :: 0 <= i < j < |s| ==> key(s[i]) != key(s[j])
  }

  function UserIds(users: seq<User>): set<int> { set u | u in users :: u.id }
  function TaskIds(tasks: seq<Task>): set<string> { set t | t in tasks :: t.id }
  function GoalIds(goals: seq<Goal>): set<string> { set g | g in goals :: g.id }

  predicate UniqueUsers(users: seq<User>) {
    && UniqueBy(users, (u: User) => u.id)
    && UniqueBy(users, (u: User) => u.username)
    && UniqueBy(users, (u: User) => u.email)
  }

  /** Every foreign key names an existing row. */
  predicate Linked(t: Tables) {
    && (forall k :: 0 <= k < |t.tasks| ==> t.tasks[k].userId in UserIds(t.users))
    && (forall k :: 0 <= k < |t.tasks| && t.tasks[k].goalId.Some? ==>
          t.tasks[k].goalId.value in GoalIds(t.goals))
    && (forall k :: 0 <= k < |t.goals| ==> t.goals[k].userId in UserIds(t.users))
    && (forall k :: 0 <= k < |t.tags| ==> t.tags[k].taskId in TaskIds(t.tasks))
  }

  /** The constraints the schema declares. */
  predicate Consistent(t: Tables) {
    && UniqueUsers(t.users)
    && UniqueBy(t.tasks, (x: Task) => x.id)
    && UniqueBy(t.goals, (g: Goal) => g.id)
    && UniqueBy(t.blacklist, (b: BlacklistedToken) => b.token)
    && Linked(t)
  }

  /** Keeping a subsequence keeps a key unique. */
  lemma {:induction false} FilterKeepsUnique<T(!new), K>(s: seq<T>, p: T -> bool, key: T -> K)
    requires UniqueBy(s, key)
    ensures UniqueBy(Filter(s, p), key)
  {
    if s != [] {
      var tail := s[1..];
      assert UniqueBy(tail, key) by {
        forall i, j | 0 <= i < j < |tail| ensures key(tail[i]) != key(tail[j]) {
          assert tail[i] == s[i + 1] && tail[j] == s[j + 1];
        }
      }
      FilterKeepsUnique(tail, p, key);
      var rest := Filter(tail, p);
      if p(s[0]) {
        assert Filter(s, p) == [s[0]] + rest;
        forall y | y in rest ensures key(s[0]) != key(y) {
          HeadKeyDiffers(s, key, y);
        }
        ConsUnique(s[0], rest, key);
      } else {
        assert Filter(s, p) == rest;
      }
    }
  }

  lemma HeadKeyDiffers<T, K>(s: seq<T>, key: T -> K, y: T)
    requires UniqueBy(s, key) && |s| > 0 && y in s[1..]
    ensures key(s[0]) != key(y)
  {
    var m :| 0 <= m < |s[1..]| && s[1..][m] == y;
    assert s[m + 1] == y;
  }

  lemma ConsUnique<T, K>(x: T, s: seq<T>, key: T -> K)
    requires UniqueBy(s, key)
    requires forall y :: y in s ==> key(x) != key(y)
    ensures UniqueBy([x] + s, key)
  {
    var r := [x] + s;
    forall i, j | 0 <= i < j < |r| ensures key(r[i]) != key(r[j]) {
      assert r[j] == s[j - 1];
      if i > 0 {
        assert r[i] == s[i - 1];
      }
    }
  }

  /** Appending a row with a fresh key keeps the key unique. */
  lemma AppendUnique<T, K>(s: seq<T>, x: T, key: T -> K)
    requires UniqueBy(s, key)
    requires forall y :: y in s ==> key(x) != key(y)
    ensures UniqueBy(s + [x], key)
  {
    var r := s + [x];
    forall i, j | 0 <= i < j < |r| ensures key(r[i]) != key(r[j]) {
      assert r[i] == s[i];
      if j < |s| {
        assert r[j] == s[j];
      } else {
        assert s[i] in s;
      }
    }
  }

  /** Rewriting a row without changing its key keeps the key unique. */
  lemma UpdateUnique<T, K>(s: seq<T>, i: int, x: T, key: T -> K)
    requires UniqueBy(s, key)
    requires 0 <= i < |s| && key(x) == key(s[i])
    ensures UniqueBy(s[i := x], key)
  {
    var r := s[i := x];
    forall a, b | 0 <= a < b < |r| ensures key(r[a]) != key(r[b]) {
      assert key(r[a]) == key(s[a]) && key(r[b]) == key(s[b]);
    }
  }

  lemma UserIdsAppend(users: seq<User>, u: User)
    ensures UserIds(users + [u]) == UserIds(users) + {u.id}
  {
    forall v | v in users ensures v in users + [u] {}
    assert u in users + [u];
  }

  lemma UserIdsUpdate(users: seq<User>, i: int, u: User)
    requires 0 <= i < |users| && u.id == users[i].id
    ensures UserIds(users[i := u]) == UserIds(users)
  {
    forall k | 0 <= k < |users| ensures users[k].id in UserIds(users[i := u]) {
      assert users[i := u][k].id == users[k].id;
    }
    forall v | v in users[i := u] ensures v.id in UserIds(users) {
      var k :| 0 <= k < |users| && users[i := u][k] == v;
      assert users[k] in users;
    }
  }

  lemma TaskIdsAppend(tasks: seq<Task>, t: Task)
    ensures TaskIds(tasks + [t]) == TaskIds(tasks) + {t.id}
  {
    forall v | v in tasks ensures v in tasks + [t] {}
    assert t in tasks + [t];
  }

  lemma TaskIdsUpdate(tasks: seq<Task>, i: int, t: Task)
    requires 0 <= i < |tasks| && t.id == tasks[i].id
    ensures TaskIds(tasks[i := t]) == TaskIds(tasks)
  {
    forall k | 0 <= k < |tasks| ensures tasks[k].id in TaskIds(tasks[i := t]) {
      assert tasks[i := t][k].id == tasks[k].id;
    }
    forall v | v in tasks[i := t] ensures v.id in TaskIds(tasks) {
      var k :| 0 <= k < |tasks| && tasks[i := t][k] == v;
      assert tasks[k] in tasks;
    }
  }

  lemma GoalIdsAppend(goals: seq<Goal>, g: Goal)
    ensures GoalIds(goals + [g]) == GoalIds(goals) + {g.id}
  {
    forall v | v in goals ensures v in goals + [g] {}
    assert g in goals + [g];
  }

  lemma GoalIdsUpdate(goals: seq<Goal>, i: int, g: Goal)
    requires 0 <= i < |goals| && g.id == goals[i].id
    ensures GoalIds(goals[i := g]) == GoalIds(goals)
  {
    forall k | 0 <= k < |goals| ensures goals[k].id in GoalIds(goals[i := g]) {
      assert goals[i := g][k].id == goals[k].id;
    }
    forall v | v in goals[i := g] ensures v.id in GoalIds(goals) {
      var k :| 0 <= k < |goals| && goals[i := g][k] == v;
      assert goals[k] in goals;
    }
  }

  // ---------------------------------------------------------------------
  // Delete cascades

  function WithoutTask(tasks: seq<Task>, id: string): seq<Task> {
    Filter(tasks, (x: Task) => x.id != id)
  }

  function WithoutTagsOf(tags: seq<TaskTag>, taskId: string): seq<TaskTag> {
    Filter(tags, (g: TaskTag) => g.taskId != taskId)
  }

  /** The tag names attached to a task, in insertion order. */
  function TagNames(tags: seq<TaskTag>, taskId: string): (names: seq<string>)
    ensures |names| <= |tags|
  {
    if tags == [] then []
    else (if tags[0].taskId == taskId then [tags[0].tagName] else []) + TagNames(tags[1..], taskId)
  }

  lemma {:induction false} TagNamesAppend(a: seq<TaskTag>, b: seq<TaskTag>, taskId: string)
    ensures TagNames(a + b, taskId) == TagNames(a, taskId) + TagNames(b, taskId)
  {
    if a != [] {
      assert (a + b)[1..] == a[1..] + b;
      TagNamesAppend(a[1..], b, taskId);
    } else {
      assert a + b == b;
    }
  }

  lemma {:induction false} TagNamesNone(tags: seq<TaskTag>, taskId: string)
    requires forall k :: 0 <= k < |tags| ==> tags[k].taskId != taskId
    ensures TagNames(tags, taskId) == []
  {
    if tags != [] {
      TagNamesNone(tags[1..], taskId);
    }
  }

  /** Clears a task's reference to a deleted goal. */
  function Unlink(task: Task, goalIds: set<string>): Task {
    if task.goalId.Some? && task.goalId.value in goalIds then task.(goalId := None) else task
  }

  function UnlinkAll(tasks: seq<Task>, goalIds: set<string>): (r: seq<Task>)
    ensures |r| == |tasks|
    ensures forall k :: 0 <= k < |r| ==> r[k] == Unlink(tasks[k], goalIds)
  {
    seq(|tasks|, k requires 0 <= k < |tasks| => Unlink(tasks[k], goalIds))
  }

  /** Every task survives unlinking, and only unlinked tasks appear. */
  lemma UnlinkAllMembers(tasks: seq<Task>, goalIds: set<string>)
    ensures forall x :: x in tasks ==> Unlink(x, goalIds) in UnlinkAll(tasks, goalIds)
    ensures forall y :: y in UnlinkAll(tasks, goalIds) ==> exists x :: x in tasks && y == Unlink(x, goalIds)
  {
    var r := UnlinkAll(tasks, goalIds);
    forall x | x in tasks ensures Unlink(x, goalIds) in r {
      var k :| 0 <= k < |tasks| && tasks[k] == x;
      assert r[k] == Unlink(x, goalIds);
    }
    forall y | y in r ensures exists x :: x in tasks && y == Unlink(x, goalIds) {
      var k :| 0 <= k < |r| && r[k] == y;
      assert tasks[k] in tasks;
    }
  }

  /**
   * Deleting a task deletes its tags (the "all, delete-orphan" cascade on
   * Task.tags).
   */
  function DeleteTaskCascade(t: Tables, id: string): (r: Tables)
    ensures r.users == t.users && r.goals == t.goals && r.blacklist == t.blacklist
    ensures forall x :: x in r.tasks <==> x in t.tasks && x.id != id
    ensures forall g :: g in r.tags <==> g in t.tags && g.taskId != id
  {
    t.(tasks := WithoutTask(t.tasks, id), tags := WithoutTagsOf(t.tags, id))
  }

  /**
   * Deleting a goal deletes no task: Goal.tasks has no delete cascade, so the
   * ORM's default sets the goal_id of each of its tasks to NULL.
   */
  function DeleteGoalCascade(t: Tables, id: string): (r: Tables)
    ensures r.users == t.users && r.tags == t.tags && r.blacklist == t.blacklist
    ensures forall g :: g in r.goals <==> g in t.goals && g.id != id
    ensures |r.tasks| == |t.tasks|
    ensures forall k :: 0 <= k < |r.tasks| ==>
      r.tasks[k] == (if t.tasks[k].goalId == Some(id) then t.tasks[k].(goalId := None) else t.tasks[k])
  {
    t.(goals := Filter(t.goals, (g: Goal) => g.id != id), tasks := UnlinkAll(t.tasks, {id}))
  }

  /** The ids of the goals a user owns. */
  function GoalsOwnedBy(goals: seq<Goal>, userId: int): set<string> {
    set g | g in goals && g.userId == userId :: g.id
  }

  /** The ids of the tasks a user owns. */
  function TasksOwnedBy(tasks: seq<Task>, userId: int): set<string> {
    set x | x in tasks && x.userId == userId :: x.id
  }

  /**
   * Deleting a user deletes the user's tasks (and so their tags) and goals
   * (and so clears the goal_id of other users' tasks that pointed at them):
   * the "all, delete-orphan" cascades on User.tasks and User.goals.
   */
  function DeleteUserCascade(t: Tables, userId: int): (r: Tables)
    ensures r.blacklist == t.blacklist
    ensures forall u :: u in r.users <==> u in t.users && u.id != userId
    ensures forall g :: g in r.goals <==> g in t.goals && g.userId != userId
    ensures forall x :: x in r.tasks ==> x.userId != userId
    ensures forall x :: x in t.tasks && x.userId != userId ==> Unlink(x, GoalsOwnedBy(t.goals, userId)) in r.tasks
    ensures forall y :: y in r.tasks ==>
      exists x :: x in t.tasks && x.userId != userId && y == Unlink(x, GoalsOwnedBy(t.goals, userId))
    ensures forall g :: g in r.tags <==> g in t.tags && g.taskId !in TasksOwnedBy(t.tasks, userId)
  {
    var doomedGoals := GoalsOwnedBy(t.goals, userId);
    var doomedTasks := TasksOwnedBy(t.tasks, userId);
    UnlinkAllMembers(Filter(t.tasks, (x: Task) => x.userId != userId), doomedGoals);
    Tables(
      Filter(t.users, (u: User) => u.id != userId),
      UnlinkAll(Filter(t.tasks, (x: Task) => x.userId != userId), doomedGoals),
      Filter(t.goals, (g: Goal) => g.userId != userId),
      Filter(t.tags, (g: TaskTag) => g.taskId !in doomedTasks),
      t.blacklist)
  }

  lemma DeleteTaskKeepsConsistent(t: Tables, id: string)
    requires Consistent(t)
    ensures Consistent(DeleteTaskCascade(t, id))
  {
    FilterKeepsUnique(t.tasks, (x: Task) => x.id != id, (x: Task) => x.id);
    DeleteTaskKeepsTaskLinks(t, id);
    DeleteTaskKeepsTagLinks(t, id);
  }

  lemma DeleteTaskKeepsTaskLinks(t: Tables, id: string)
    requires Consistent(t)
    ensures var r := DeleteTaskCascade(t, id);
      && (forall k :: 0 <= k < |r.tasks| ==> r.tasks[k].userId in UserIds(r.users))
      && (forall k :: 0 <= k < |r.tasks| && r.tasks[k].goalId.Some? ==> r.tasks[k].goalId.value in GoalIds(r.goals))
  {
    var r := DeleteTaskCascade(t, id);
    forall k | 0 <= k < |r.tasks| ensures r.tasks[k].userId in UserIds(r.users) {
      assert r.tasks[k] in t.tasks;
      var m :| 0 <= m < |t.tasks| && t.tasks[m] == r.tasks[k];
    }
    forall k | 0 <= k < |r.tasks| && r.tasks[k].goalId.Some?
      ensures r.tasks[k].goalId.value in GoalIds(r.goals)
    {
      assert r.tasks[k] in t.tasks;
      var m :| 0 <= m < |t.tasks| && t.tasks[m] == r.tasks[k];
    }
  }

  lemma DeleteTaskKeepsTagLinks(t: Tables, id: string)
    requires Consistent(t)
    ensures var r := DeleteTaskCascade(t, id);
      forall k :: 0 <= k < |r.tags| ==> r.tags[k].taskId in TaskIds(r.tasks)
  {
    var r := DeleteTaskCascade(t, id);
    forall k | 0 <= k < |r.tags| ensures r.tags[k].taskId in TaskIds(r.tasks) {
      assert r.tags[k] in t.tags;
      var m :| 0 <= m < |t.tags| && t.tags[m] == r.tags[k];
      var x :| x in t.tasks && x.id == r.tags[k].taskId;
      assert x in r.tasks;
    }
  }

  lemma DeleteGoalKeepsConsistent(t: Tables, id: string)
    requires Consistent(t)
    ensures Consistent(DeleteGoalCascade(t, id))
  {
    FilterKeepsUnique(t.goals, (g: Goal) => g.id != id, (g: Goal) => g.id);
    DeleteGoalKeepsTaskIds(t, id);
    DeleteGoalKeepsTaskLinks(t, id);
    DeleteGoalKeepsGoalLinks(t, id);
  }

  lemma DeleteGoalKeepsTaskIds(t: Tables, id: string)
    ensures TaskIds(DeleteGoalCascade(t, id).tasks) == TaskIds(t.tasks)
  {
    var r := DeleteGoalCascade(t, id);
    forall x | x in t.tasks ensures x.id in TaskIds(r.tasks) {
      var m :| 0 <= m < |t.tasks| && t.tasks[m] == x;
      assert r.tasks[m].id == x.id;
    }
  }

  lemma DeleteGoalKeepsTaskLinks(t: Tables, id: string)
    requires Consistent(t)
    ensures var r := DeleteGoalCascade(t, id);
      && (forall k :: 0 <= k < |r.tasks| ==> r.tasks[k].userId in UserIds(r.users))
      && (forall k :: 0 <= k < |r.tasks| && r.tasks[k].goalId.Some? ==> r.tasks[k].goalId.value in GoalIds(r.goals))
  {
    var r := DeleteGoalCascade(t, id);
    forall k | 0 <= k < |r.tasks| && r.tasks[k].goalId.Some?
      ensures r.tasks[k].goalId.value in GoalIds(r.goals)
    {
      var g :| g in t.goals && g.id == t.tasks[k].goalId.value;
      assert g in r.goals;
    }
  }

  lemma DeleteGoalKeepsGoalLinks(t: Tables, id: string)
    requires Consistent(t)
    ensures var r := DeleteGoalCascade(t, id);
      forall k :: 0 <= k < |r.goals| ==> r.goals[k].userId in UserIds(r.users)
  {
    var r := DeleteGoalCascade(t, id);
    forall k | 0 <= k < |r.goals| ensures r.goals[k].userId in UserIds(r.users) {
      assert r.goals[k] in t.goals;
      var m :| 0 <= m < |t.goals| && t.goals[m] == r.goals[k];
    }
  }

  lemma DeleteUserKeepsConsistent(t: Tables, userId: int)
    requires Consistent(t)
    ensures Consistent(DeleteUserCascade(t, userId))
  {
    var r := DeleteUserCascade(t, userId);
    FilterKeepsUnique(t.users, (u: User) => u.id != userId, (u: User) => u.id);
    FilterKeepsUnique(t.users, (u: User) => u.id != userId, (u: User) => u.username);
    FilterKeepsUnique(t.users, (u: User) => u.id != userId, (u: User) => u.email);
    FilterKeepsUnique(t.goals, (g: Goal) => g.userId != userId, (g: Goal) => g.id);
    DeleteUserKeepsTaskIds(t, userId);
    DeleteUserKeepsTaskLinks(t, userId);
    DeleteUserKeepsGoalLinks(t, userId);
    DeleteUserKeepsTagLinks(t, userId);
  }

  lemma DeleteUserKeepsTaskIds(t: Tables, userId: int)
    requires Consistent(t)
    ensures UniqueBy(DeleteUserCascade(t, userId).tasks, (x: Task) => x.id)
  {
    var r := DeleteUserCascade(t, userId);
    var kept := Filter(t.tasks, (x: Task) => x.userId != userId);
    FilterKeepsUnique(t.tasks, (x: Task) => x.userId != userId, (x: Task) => x.id);
    forall i, j | 0 <= i < j < |r.tasks| ensures r.tasks[i].id != r.tasks[j].id {
      assert r.tasks[i].id == kept[i].id && r.tasks[j].id == kept[j].id;
    }
  }

  lemma DeleteUserKeepsTaskLinks(t: Tables, userId: int)
    requires Consistent(t)
    ensures var r := DeleteUserCascade(t, userId);
      && (forall k :: 0 <= k < |r.tasks| ==> r.tasks[k].userId in UserIds(r.users))
      && (forall k :: 0 <= k < |r.tasks| && r.tasks[k].goalId.Some? ==>
            r.tasks[k].goalId.value in GoalIds(r.goals))
  {
    var r := DeleteUserCascade(t, userId);
    var doomedGoals := GoalsOwnedBy(t.goals, userId);
    var kept := Filter(t.tasks, (x: Task) => x.userId != userId);
    forall k | 0 <= k < |r.tasks| ensures r.tasks[k].userId in UserIds(r.users) {
      assert kept[k] in t.tasks;
      var m :| 0 <= m < |t.tasks| && t.tasks[m] == kept[k];
      var u :| u in t.users && u.id == kept[k].userId;
      assert u in r.users;
    }
    forall k | 0 <= k < |r.tasks| && r.tasks[k].goalId.Some?
      ensures r.tasks[k].goalId.value in GoalIds(r.goals)
    {
      assert kept[k] in t.tasks;
      var m :| 0 <= m < |t.tasks| && t.tasks[m] == kept[k];
      var g :| g in t.goals && g.id == kept[k].goalId.value;
      assert g.id !in doomedGoals;
      assert g in r.goals;
    }
  }

  lemma DeleteUserKeepsGoalLinks(t: Tables, userId: int)
    requires Consistent(t)
    ensures var r := DeleteUserCascade(t, userId);
      forall k :: 0 <= k < |r.goals| ==> r.goals[k].userId in UserIds(r.users)
  {
    var r := DeleteUserCascade(t, userId);
    forall k | 0 <= k < |r.goals| ensures r.goals[k].userId in UserIds(r.users) {
      assert r.goals[k] in t.goals;
      var m :| 0 <= m < |t.goals| && t.goals[m] == r.goals[k];
      var u :| u in t.users && u.id == r.goals[k].userId;
      assert u in r.users;
    }
  }

  lemma DeleteUserKeepsTagLinks(t: Tables, userId: int)
    requires Consistent(t)
    ensures var r := DeleteUserCascade(t, userId);
      forall k :: 0 <= k < |r.tags| ==> r.tags[k].taskId in TaskIds(r.tasks)
  {
    var r := DeleteUserCascade(t, userId);
    forall k | 0 <= k < |r.tags| ensures r.tags[k].taskId in TaskIds(r.tasks) {
      KeptTagSurvives(t, userId, r.tags[k]);
    }
  }

  lemma KeptTagSurvives(t: Tables, userId: int, tag: TaskTag)
    requires Linked(t)
    requires tag in DeleteUserCascade(t, userId).tags
    ensures tag.taskId in TaskIds(DeleteUserCascade(t, userId).tasks)
  {
    var m :| 0 <= m < |t.tags| && t.tags[m] == tag;
    var x :| x in t.tasks && x.id == tag.taskId;
    KeptTaskSurvives(t, userId, x);
  }

  lemma KeptTaskSurvives(t: Tables, userId: int, x: Task)
    requires x in t.tasks && x.id !in TasksOwnedBy(t.tasks, userId)
    ensures x.id in TaskIds(DeleteUserCascade(t, userId).tasks)
  {
    var r := DeleteUserCascade(t, userId);
    assert x.userId != userId;
    var y := Unlink(x, GoalsOwnedBy(t.goals, userId));
    assert y in r.tasks && y.id == x.id;
  }
}
