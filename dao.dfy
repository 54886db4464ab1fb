/**
 * The data-access layer of the task/goal service. The queries are
 * selections and orderings over the tables; the writes are methods of a
 * Store that holds the tables and keeps their constraints.
 *
 * "Today" (midnight of the current day) and "now" are parameters. A write
 * that meets a database fault (OperationalError) rolls back: its `dbError`
 * parameter selects that path.
 */
module Dao {
  import opened Seqs
  import opened Model
  import TaskFields
  import GoalFields

  const Day: int := 86400
  const Week: int := 7 * Day

  /** Python truthiness of an optional string: None and "" are false. */
  predicate Truthy(s: Option<string>) {
    s.Some? && s.value != ""
  }

  /**
   * The owner filter of get_task_by_id and get_goal_by_id applies only
   * when the user id is truthy: not None and not 0.
   */
  predicate OwnerOk(rowOwner: int, owner: Option<int>) {
    owner.None? || owner.value == 0 || rowOwner == owner.value
  }

  // ---------------------------------------------------------------------
  // Users

  function UserIndex(users: seq<User>, id: int): Option<nat> {
    FirstIndex(users, (u: User) => u.id == id)
  }

  /** get_user_by_id: the user with that id; whether the account is active is not consulted. */
  function GetUserById(users: seq<User>, id: int): (r: Option<User>)
    ensures r.Some? ==> r.value in users && r.value.id == id
    ensures r.None? ==> forall u :: u in users ==> u.id != id
  {
    match UserIndex(users, id)
    case Some(i) => Some(users[i])
    case None => None
  }

  function GetUserByUsername(users: seq<User>, username: string): (r: Option<User>)
    ensures r.Some? ==> r.value in users && r.value.username == username
    ensures r.None? ==> forall u :: u in users ==> u.username != username
  {
    match FirstIndex(users, (u: User) => u.username == username)
    case Some(i) => Some(users[i])
    case None => None
  }

  function GetUserByEmail(users: seq<User>, email: string): (r: Option<User>)
    ensures r.Some? ==> r.value in users && r.value.email == email
    ensures r.None? ==> forall u :: u in users ==> u.email != email
  {
    match FirstIndex(users, (u: User) => u.email == email)
    case Some(i) => Some(users[i])
    case None => None
  }

  // ---------------------------------------------------------------------
  // The task list

  /** The due-date and completion keywords; any other keyword, and none, keeps every task. */
  predicate PassesFilter(t: Task, filter: Option<string>, today: int) {
    if !Truthy(filter) then true
    else if filter.value == "today" then t.dueDate.Some? && today <= t.dueDate.value < today + Day
    else if filter.value == "week" then t.dueDate.Some? && today <= t.dueDate.value < today + Week
    else if filter.value == "completed" then t.completed
    else if filter.value == "upcoming" then t.dueDate.Some? && today <= t.dueDate.value
    else if filter.value == "unscheduled" then t.dueDate.None?
    else true
  }

  /** The goal restriction, applied only for a truthy goal id. */
  predicate PassesGoal(t: Task, goalId: Option<string>) {
    !Truthy(goalId) || t.goalId == goalId
  }

  predicate Wanted(t: Task, userId: int, filter: Option<string>, goalId: Option<string>, today: int) {
    t.userId == userId && PassesFilter(t, filter, today) && PassesGoal(t, goalId)
  }

  /** The rows the task list selects, in storage order. */
  function WantedRows(tasks: seq<Task>, userId: int, filter: Option<string>, goalId: Option<string>, today: int): seq<Task> {
    Filter(tasks, (x: Task) => Wanted(x, userId, filter, goalId, today))
  }

  /** The orderings of the task list. */
  datatype Order = DueDateAsc | CreatedAtDesc | PriorityRank | TitleAsc | StorageOrder

  /** No sort key sorts newest first; an unknown non-empty key applies no ORDER BY. */
  function OrderOf(sortBy: Option<string>): Order {
    if !Truthy(sortBy) then CreatedAtDesc
    else if sortBy.value == "dueDate" then DueDateAsc
    else if sortBy.value == "createdAt" then CreatedAtDesc
    else if sortBy.value == "priority" then PriorityRank
    else if sortBy.value == "alphabetical" then TitleAsc
    else StorageOrder
  }

  /** The priority sort rank: high before medium before anything else. */
  function Rank(p: Priority): int {
    match p
    case High => 1
    case Medium => 2
    case Low => 3
  }

  /** Ascending due date with tasks without one first, as MySQL orders NULL. */
  predicate DueLe(a: Task, b: Task) {
    a.dueDate.None? || (b.dueDate.Some? && a.dueDate.value <= b.dueDate.value)
  }

  /** `a` may come before `b` under ordering `o`. */
  predicate KeyLe(o: Order, a: Task, b: Task) {
    match o
    case DueDateAsc => DueLe(a, b)
    case CreatedAtDesc => a.createdAt >= b.createdAt
    case PriorityRank => Rank(a.priority) <= Rank(b.priority)
    case TitleAsc => LexLe(a.title, b.title)
    case StorageOrder => true
  }

  function Le(o: Order): (Task, Task) -> bool {
    (a: Task, b: Task) => KeyLe(o, a, b)
  }

  lemma KeyLeTotalPreorder(o: Order)
    ensures TotalPreorder(Le(o))
  {
    if o == TitleAsc {
      forall a: Task, b: Task ensures KeyLe(o, a, b) || KeyLe(o, b, a) {
        LexLeTotal(a.title, b.title);
      }
      forall a: Task, b: Task, c: Task | KeyLe(o, a, b) && KeyLe(o, b, c) ensures KeyLe(o, a, c) {
        LexLeTransitive(a.title, b.title, c.title);
      }
    }
  }

  /**
   * get_tasks_by_user_id: exactly the caller's tasks that pass the keyword
   * and the goal restriction, each once, sorted by the requested key; with
   * an unknown key, in storage order.
   */
  function GetTasksByUserId(tasks: seq<Task>, userId: int, filter: Option<string>, goalId: Option<string>,
                            sortBy: Option<string>, today: int): (r: seq<Task>)
    ensures forall x :: x in r <==> x in tasks && Wanted(x, userId, filter, goalId, today)
    ensures multiset(r) == multiset(WantedRows(tasks, userId, filter, goalId, today))
    ensures OrderOf(sortBy) != StorageOrder ==> SortedBy(r, Le(OrderOf(sortBy)))
    ensures OrderOf(sortBy) == StorageOrder ==> r == WantedRows(tasks, userId, filter, goalId, today)
  {
    var rows := WantedRows(tasks, userId, filter, goalId, today);
    var o := OrderOf(sortBy);
    if o == StorageOrder then rows
    else
      var r := SortBy(rows, Le(o));
      KeyLeTotalPreorder(o);
      SortBySorted(rows, Le(o));
      assert forall x :: x in r <==> x in multiset(rows);
      r
  }

  /**
   * Each keyword, read off the rows themselves: among the caller's tasks
   * that pass the goal restriction, the list holds exactly those due in
   * [today, today + 1 day) for "today", in [today, today + 7 days) for
   * "week", due on or after today for "upcoming", without a due date for
   * "unscheduled", completed for "completed", and all of them otherwise.
   */
  lemma TaskListKeywords(tasks: seq<Task>, userId: int, filter: Option<string>, goalId: Option<string>,
                         sortBy: Option<string>, today: int, x: Task)
    requires x in tasks && x.userId == userId && PassesGoal(x, goalId)
    ensures var r := GetTasksByUserId(tasks, userId, filter, goalId, sortBy, today);
      && (filter == Some("today") ==> (x in r <==> x.dueDate.Some? && today <= x.dueDate.value < today + Day))
      && (filter == Some("week") ==> (x in r <==> x.dueDate.Some? && today <= x.dueDate.value < today + Week))
      && (filter == Some("upcoming") ==> (x in r <==> x.dueDate.Some? && today <= x.dueDate.value))
      && (filter == Some("unscheduled") ==> (x in r <==> x.dueDate.None?))
      && (filter == Some("completed") ==> (x in r <==> x.completed))
      && (filter.None? || filter == Some("") || filter == Some("all") ==> x in r)
  {
  }

  /** Every listed task is the caller's, and has the requested goal when one is given. */
  lemma TaskListOwnedAndInGoal(tasks: seq<Task>, userId: int, filter: Option<string>, goalId: Option<string>,
                               sortBy: Option<string>, today: int)
    ensures var r := GetTasksByUserId(tasks, userId, filter, goalId, sortBy, today);
      forall x :: x in r ==> x.userId == userId && (Truthy(goalId) ==> x.goalId == goalId)
  {
  }

  // ---------------------------------------------------------------------
  // Single rows and the goal list

  function TaskIndex(tasks: seq<Task>, id: string, owner: Option<int>): Option<nat> {
    FirstIndex(tasks, (x: Task) => x.id == id && OwnerOk(x.userId, owner))
  }

  /** get_task_by_id: the task with that id, if the owner filter admits it. */
  function GetTaskById(tasks: seq<Task>, id: string, owner: Option<int>): (r: Option<Task>)
    ensures r.Some? ==> r.value in tasks && r.value.id == id && OwnerOk(r.value.userId, owner)
    ensures r.None? ==> forall x :: x in tasks ==> !(x.id == id && OwnerOk(x.userId, owner))
  {
    match TaskIndex(tasks, id, owner)
    case Some(i) => Some(tasks[i])
    case None => None
  }

  function GoalIndex(goals: seq<Goal>, id: string, owner: Option<int>): Option<nat> {
    FirstIndex(goals, (g: Goal) => g.id == id && OwnerOk(g.userId, owner))
  }

  /** get_goal_by_id: the goal with that id, if the owner filter admits it. */
  function GetGoalById(goals: seq<Goal>, id: string, owner: Option<int>): (r: Option<Goal>)
    ensures r.Some? ==> r.value in goals && r.value.id == id && OwnerOk(r.value.userId, owner)
    ensures r.None? ==> forall g :: g in goals ==> !(g.id == id && OwnerOk(g.userId, owner))
  {
    match GoalIndex(goals, id, owner)
    case Some(i) => Some(goals[i])
    case None => None
  }

  /** The goal-type restriction, skipped for "all" and for a falsy type. */
  predicate PassesType(g: Goal, goalType: Option<string>) {
    !Truthy(goalType) || goalType.value == "all" || GoalTypeName(g.goalType) == goalType.value
  }

  function NewestGoalFirst(): (Goal, Goal) -> bool {
    (a: Goal, b: Goal) => a.createdAt >= b.createdAt
  }

  function OwnedGoals(goals: seq<Goal>, userId: int, goalType: Option<string>): seq<Goal> {
    Filter(goals, (g: Goal) => g.userId == userId && PassesType(g, goalType))
  }

  /** get_goals_by_user_id: exactly the caller's goals of the requested type, newest first. */
  function GetGoalsByUserId(goals: seq<Goal>, userId: int, goalType: Option<string>): (r: seq<Goal>)
    ensures forall g :: g in r <==> g in goals && g.userId == userId && PassesType(g, goalType)
    ensures multiset(r) == multiset(OwnedGoals(goals, userId, goalType))
    ensures SortedBy(r, NewestGoalFirst())
  {
    var rows := OwnedGoals(goals, userId, goalType);
    var r := SortBy(rows, NewestGoalFirst());
    SortBySorted(rows, NewestGoalFirst());
    assert forall g :: g in r <==> g in multiset(rows);
    r
  }

  // ---------------------------------------------------------------------
  // The token blacklist

  /** is_token_blacklisted: a failed lookup counts as blacklisted. */
  function IsTokenBlacklisted(blacklist: seq<BlacklistedToken>, token: string, lookupError: bool): (b: bool)
    ensures b <==> lookupError || exists k :: 0 <= k < |blacklist| && blacklist[k].token == token
  {
    lookupError || FirstIndex(blacklist, (e: BlacklistedToken) => e.token == token).Some?
  }

  /** Entries are only ever appended, so a blacklisted token stays blacklisted. */
  lemma BlacklistPermanent(before: seq<BlacklistedToken>, after: seq<BlacklistedToken>, token: string)
    requires before <= after
    requires IsTokenBlacklisted(before, token, false)
    ensures IsTokenBlacklisted(after, token, false)
  {
    var k :| 0 <= k < |before| && before[k].token == token;
    assert after[k] == before[k];
  }

  // ---------------------------------------------------------------------
  // Tags, toggling and progress, as functions of the tables

  /** The task_tags rows a tag list adds to a task, in list order. */
  function NewTags(taskId: string, names: seq<string>): (r: seq<TaskTag>)
    ensures |r| == |names|
    ensures forall k :: 0 <= k < |r| ==> r[k] == TaskTag(taskId, names[k])
  {
    seq(|names|, k requires 0 <= k < |names| => TaskTag(taskId, names[k]))
  }

  lemma {:induction false} NewTagsNames(taskId: string, names: seq<string>, other: string)
    ensures TagNames(NewTags(taskId, names), taskId) == names
    ensures other != taskId ==> TagNames(NewTags(taskId, names), other) == []
  {
    if names != [] {
      NewTagsNames(taskId, names[1..], other);
      assert NewTags(taskId, names)[1..] == NewTags(taskId, names[1..]);
    }
  }

  /**
   * update_task's tag handling: with a `tags` key, every old tag of the task
   * is deleted and one row per given name added; without one, the tags stay.
   */
  function Retagged(tags: seq<TaskTag>, taskId: string, given: Option<seq<string>>): seq<TaskTag> {
    match given
    case None => tags
    case Some(names) => WithoutTagsOf(tags, taskId) + NewTags(taskId, names)
  }

  /** After a retag the task has exactly the given tag list, and every other task its old one. */
  lemma RetaggedNames(tags: seq<TaskTag>, taskId: string, names: seq<string>, other: string)
    ensures TagNames(Retagged(tags, taskId, Some(names)), taskId) == names
    ensures other != taskId ==>
      TagNames(Retagged(tags, taskId, Some(names)), other) == TagNames(tags, other)
  {
    var kept := WithoutTagsOf(tags, taskId);
    TagNamesAppend(kept, NewTags(taskId, names), taskId);
    TagNamesAppend(kept, NewTags(taskId, names), other);
    TagNamesNone(kept, taskId);
    NewTagsNames(taskId, names, other);
    if other != taskId {
      TagNamesWithout(tags, taskId, other);
    }
  }

  lemma {:induction false} TagNamesWithout(tags: seq<TaskTag>, taskId: string, other: string)
    requires other != taskId
    ensures TagNames(WithoutTagsOf(tags, taskId), other) == TagNames(tags, other)
  {
    if tags != [] {
      var rest := WithoutTagsOf(tags[1..], taskId);
      TagNamesWithout(tags[1..], taskId, other);
      if tags[0].taskId != taskId {
        assert WithoutTagsOf(tags, taskId) == [tags[0]] + rest;
        assert ([tags[0]] + rest)[1..] == rest;
      } else {
        assert WithoutTagsOf(tags, taskId) == rest;
      }
    }
  }

  /** The tags create_task adds: the body's list, if it has a non-empty one. */
  function CreateTags(body: seq<TaskFields.TaskField>): seq<string> {
    match TaskFields.TagsGiven(body)
    case Some(names) => names
    case None => []
  }

  function Toggled(t: Task): Task {
    t.(completed := !t.completed)
  }

  /** toggle_task_complete on the tables: flip the matching task, if there is one. */
  function ToggleIn(tasks: seq<Task>, id: string, owner: Option<int>): seq<Task> {
    match TaskIndex(tasks, id, owner)
    case Some(i) => tasks[i := Toggled(tasks[i])]
    case None => tasks
  }

  /** A toggle flips `completed` and writes no other column. */
  lemma ToggledOnlyCompletion(t: Task)
    ensures Toggled(t).completed == !t.completed
    ensures TaskFields.AgreeOutside(Toggled(t), t, {TaskFields.CompletedColumn})
  {
  }

  /** Toggling twice restores the tasks. */
  lemma ToggleTwice(tasks: seq<Task>, id: string, owner: Option<int>)
    ensures ToggleIn(ToggleIn(tasks, id, owner), id, owner) == tasks
  {
    var p := (x: Task) => x.id == id && OwnerOk(x.userId, owner);
    match TaskIndex(tasks, id, owner)
    case None =>
    case Some(i) =>
      FirstIndexUpdate(tasks, i, Toggled(tasks[i]), p);
      assert tasks[i := Toggled(tasks[i])][i := Toggled(Toggled(tasks[i]))] == tasks;
  }

  /** The tasks linked to a goal, whoever owns them. */
  function GoalTasks(tasks: seq<Task>, goalId: string): seq<Task> {
    Filter(tasks, (x: Task) => x.goalId == Some(goalId))
  }

  function CompletedCount(tasks: seq<Task>): nat {
    Count(tasks, (x: Task) => x.completed)
  }

  /** done·100/total rounded down. */
  function Percent(done: nat, total: nat): (p: int)
    requires done <= total && total > 0
    ensures 0 <= p <= 100
    ensures p == 100 <==> done == total
  {
    PercentAtMostFull(done, total);
    PercentFullIff(done, total);
    (100 * done) / total
  }

  lemma MulMonotone(a: int, b: int, c: int)
    requires a <= b && c >= 0
    ensures a * c <= b * c
  {
    assert b * c - a * c == (b - a) * c;
  }

  /** Euclidean division brackets its dividend. */
  lemma DivBrackets(n: nat, d: nat)
    requires d > 0
    ensures (n / d) * d <= n < (n / d + 1) * d
  {
    assert n == (n / d) * d + n % d;
  }

  lemma PercentAtMostFull(done: nat, total: nat)
    requires done <= total && total > 0
    ensures (100 * done) / total <= 100
  {
    var q := (100 * done) / total;
    DivBrackets(100 * done, total);
    if q > 100 {
      MulMonotone(101, q, total);
      MulMonotone(done, total, 100);
    }
  }

  lemma PercentFullIff(done: nat, total: nat)
    requires done <= total && total > 0
    ensures (100 * done) / total == 100 <==> done == total
  {
    var q := (100 * done) / total;
    DivBrackets(100 * done, total);
    if done < total {
      MulMonotone(done + 1, total, 100);
      if q >= 100 {
        MulMonotone(100, q, total);
      }
    } else {
      assert 100 * done == 100 * total + 0;
    }
  }

  /** Percent is the floor of the completed share: done·100 lies in [p·total, (p+1)·total). */
  lemma PercentIsFloor(done: nat, total: nat)
    requires done <= total && total > 0
    ensures Percent(done, total) * total <= 100 * done < (Percent(done, total) + 1) * total
  {
    DivBrackets(100 * done, total);
  }

  /**
   * calculate_goal_progress on one goal: with no linked task it is left
   * alone; otherwise progress becomes the completed share in percent and a
   * full share marks the goal completed (a lower one never clears it).
   */
  function Recomputed(g: Goal, tasks: seq<Task>): Goal {
    var linked := GoalTasks(tasks, g.id);
    if |linked| == 0 then g
    else
      var p := Percent(CompletedCount(linked), |linked|);
      g.(progress := p, completed := if p == 100 then true else g.completed)
  }

  /** The three outcomes of a recompute, stated on the goal's linked tasks. */
  lemma RecomputedOutcome(g: Goal, tasks: seq<Task>)
    ensures var r, linked := Recomputed(g, tasks), GoalTasks(tasks, g.id);
      && r.id == g.id && r.userId == g.userId
      && (|linked| == 0 ==> r == g)
      && (|linked| > 0 ==>
            && r.progress == Percent(CompletedCount(linked), |linked|)
            && 0 <= r.progress <= 100
            && r.completed == (g.completed || CompletedCount(linked) == |linked|))
  {
    var linked := GoalTasks(tasks, g.id);
    if |linked| > 0 {
      var p := Percent(CompletedCount(linked), |linked|);
      assert Recomputed(g, tasks) == g.(progress := p, completed := if p == 100 then true else g.completed);
    }
  }

  lemma ThreeTasksCounts(goalId: string, a: Task, b: Task, c: Task)
    requires a.goalId == Some(goalId) && b.goalId == Some(goalId) && c.goalId == Some(goalId)
    requires a.completed && b.completed && !c.completed
    ensures GoalTasks([a, b, c], goalId) == [a, b, c]
    ensures CompletedCount([a, b, c]) == 2
  {
    var s := [a, b, c];
    FilterAll(s, (x: Task) => x.goalId == Some(goalId));
    assert s[1..] == [b, c] && s[1..][1..] == [c] && [c][1..] == [];
    assert CompletedCount([c]) == 0;
    assert CompletedCount([b, c]) == 1;
  }

  /** Two of three linked tasks done gives 66, and the goal's completion is left as it was. */
  lemma RecomputedExample(g: Goal, a: Task, b: Task, c: Task)
    requires a.goalId == Some(g.id) && b.goalId == Some(g.id) && c.goalId == Some(g.id)
    requires a.completed && b.completed && !c.completed
    ensures Recomputed(g, [a, b, c]).progress == 66
    ensures Recomputed(g, [a, b, c]).completed == g.completed
  {
    ThreeTasksCounts(g.id, a, b, c);
    assert Percent(2, 3) == 66;
  }

  // ---------------------------------------------------------------------
  // The writes keep the schema's constraints

  lemma AddUserKeepsConsistent(t: Tables, u: User)
    requires Consistent(t)
    requires forall v :: v in t.users ==> v.id != u.id && v.username != u.username && v.email != u.email
    ensures Consistent(t.(users := t.users + [u]))
  {
    AppendUnique(t.users, u, (u: User) => u.id);
    AppendUnique(t.users, u, (u: User) => u.username);
    AppendUnique(t.users, u, (u: User) => u.email);
    UserIdsAppend(t.users, u);
  }

  lemma TouchUserKeepsConsistent(t: Tables, i: int, u: User)
    requires Consistent(t) && 0 <= i < |t.users|
    requires u.id == t.users[i].id && u.username == t.users[i].username && u.email == t.users[i].email
    ensures Consistent(t.(users := t.users[i := u]))
  {
    UpdateUnique(t.users, i, u, (u: User) => u.id);
    UpdateUnique(t.users, i, u, (u: User) => u.username);
    UpdateUnique(t.users, i, u, (u: User) => u.email);
    UserIdsUpdate(t.users, i, u);
  }

  lemma AddTaskKeepsConsistent(t: Tables, x: Task, names: seq<string>)
    requires Consistent(t)
    requires x.id !in TaskIds(t.tasks)
    requires x.userId in UserIds(t.users) && (x.goalId.Some? ==> x.goalId.value in GoalIds(t.goals))
    ensures Consistent(t.(tasks := t.tasks + [x], tags := t.tags + NewTags(x.id, names)))
  {
    var r := t.(tasks := t.tasks + [x], tags := t.tags + NewTags(x.id, names));
    AppendUnique(t.tasks, x, (x: Task) => x.id);
    TaskIdsAppend(t.tasks, x);
    forall k | 0 <= k < |r.tags| ensures r.tags[k].taskId in TaskIds(r.tasks) {
      if k < |t.tags| {
        assert r.tags[k] == t.tags[k];
      } else {
        assert r.tags[k] == NewTags(x.id, names)[k - |t.tags|];
      }
    }
    forall k | 0 <= k < |r.tasks| ensures r.tasks[k].userId in UserIds(r.users) {
      if k < |t.tasks| {
        assert r.tasks[k] == t.tasks[k];
      }
    }
    forall k | 0 <= k < |r.tasks| && r.tasks[k].goalId.Some? ensures r.tasks[k].goalId.value in GoalIds(r.goals) {
      if k < |t.tasks| {
        assert r.tasks[k] == t.tasks[k];
      }
    }
  }

  lemma RetaggedLinked(tags: seq<TaskTag>, taskId: string, given: Option<seq<string>>, ids: set<string>)
    requires forall k :: 0 <= k < |tags| ==> tags[k].taskId in ids
    requires taskId in ids
    ensures var r := Retagged(tags, taskId, given);
      forall k :: 0 <= k < |r| ==> r[k].taskId in ids
  {
    if given.Some? {
      var kept, added := WithoutTagsOf(tags, taskId), NewTags(taskId, given.value);
      var r := kept + added;
      forall k | 0 <= k < |r| ensures r[k].taskId in ids {
        if k < |kept| {
          assert r[k] == kept[k] && kept[k] in tags;
        } else {
          assert r[k] == added[k - |kept|];
        }
      }
    }
  }

  lemma ReplaceTaskKeepsConsistent(t: Tables, i: int, x: Task, given: Option<seq<string>>)
    requires Consistent(t) && 0 <= i < |t.tasks| && x.id == t.tasks[i].id
    requires x.userId in UserIds(t.users) && (x.goalId.Some? ==> x.goalId.value in GoalIds(t.goals))
    ensures Consistent(t.(tasks := t.tasks[i := x], tags := Retagged(t.tags, x.id, given)))
  {
    var r := t.(tasks := t.tasks[i := x], tags := Retagged(t.tags, x.id, given));
    UpdateUnique(t.tasks, i, x, (x: Task) => x.id);
    TaskIdsUpdate(t.tasks, i, x);
    assert x.id in TaskIds(t.tasks) by {
      assert t.tasks[i] in t.tasks;
    }
    RetaggedLinked(t.tags, x.id, given, TaskIds(t.tasks));
    forall k | 0 <= k < |r.tasks| ensures r.tasks[k].userId in UserIds(r.users) {
      if k != i {
        assert r.tasks[k] == t.tasks[k];
      }
    }
    forall k | 0 <= k < |r.tasks| && r.tasks[k].goalId.Some? ensures r.tasks[k].goalId.value in GoalIds(r.goals) {
      if k != i {
        assert r.tasks[k] == t.tasks[k];
      }
    }
  }

  lemma AddGoalKeepsConsistent(t: Tables, g: Goal)
    requires Consistent(t)
    requires g.id !in GoalIds(t.goals) && g.userId in UserIds(t.users)
    ensures Consistent(t.(goals := t.goals + [g]))
  {
    var r := t.(goals := t.goals + [g]);
    AppendUnique(t.goals, g, (g: Goal) => g.id);
    GoalIdsAppend(t.goals, g);
    forall k | 0 <= k < |r.goals| ensures r.goals[k].userId in UserIds(r.users) {
      if k < |t.goals| {
        assert r.goals[k] == t.goals[k];
      }
    }
  }

  lemma ReplaceGoalKeepsConsistent(t: Tables, i: int, g: Goal)
    requires Consistent(t) && 0 <= i < |t.goals| && g.id == t.goals[i].id
    requires g.userId in UserIds(t.users)
    ensures Consistent(t.(goals := t.goals[i := g]))
  {
    var r := t.(goals := t.goals[i := g]);
    UpdateUnique(t.goals, i, g, (g: Goal) => g.id);
    GoalIdsUpdate(t.goals, i, g);
    forall k | 0 <= k < |r.goals| ensures r.goals[k].userId in UserIds(r.users) {
      if k != i {
        assert r.goals[k] == t.goals[k];
      }
    }
  }

  lemma AddTokenKeepsConsistent(t: Tables, e: BlacklistedToken)
    requires Consistent(t)
    requires forall b :: b in t.blacklist ==> b.token != e.token
    ensures Consistent(t.(blacklist := t.blacklist + [e]))
  {
    AppendUnique(t.blacklist, e, (b: BlacklistedToken) => b.token);
  }

  /** update_user_last_login's row change: last_login is now, and so is updated_at (its onupdate). */
  function LoggedIn(u: User, now: int): (r: User)
    ensures r.id == u.id && r.username == u.username && r.email == u.email
    ensures r.lastLogin == Some(now) && r.updatedAt == now
    ensures r.passwordHash == u.passwordHash && r.isActive == u.isActive && r.createdAt == u.createdAt
  {
    u.(lastLogin := Some(now), updatedAt := now)
  }

  /** The tag loop of create_task and update_task: one row per name, appended in list order. */
  method AddTags(tags: seq<TaskTag>, taskId: string, names: seq<string>) returns (r: seq<TaskTag>)
    ensures r == tags + NewTags(taskId, names)
  {
    r := tags;
    for k := 0 to |names|
      invariant r == tags + NewTags(taskId, names[..k])
    {
      assert NewTags(taskId, names[..k + 1]) == NewTags(taskId, names[..k]) + [TaskTag(taskId, names[k])];
      r := r + [TaskTag(taskId, names[k])];
    }
    assert names[..|names|] == names;
  }

  /** update_task's setattr loop: skips `tags` and keys the row has no attribute for. */
  method WriteTaskFields(task: Task, body: seq<TaskFields.TaskField>) returns (r: Task)
    ensures r == TaskFields.ApplyTaskFields(task, body)
  {
    r := task;
    for k := 0 to |body|
      invariant r == TaskFields.ApplyTaskFields(task, body[..k])
    {
      assert body[..k + 1][..k] == body[..k];
      match body[k]
      case SetTags(_) =>
      case Unrecognised(_) =>
      case _ => r := TaskFields.ApplyTaskField(r, body[k]);
    }
    assert body[..|body|] == body;
  }

  /** update_goal's setattr loop: skips keys the row has no attribute for. */
  method WriteGoalFields(goal: Goal, body: seq<GoalFields.GoalField>) returns (r: Goal)
    ensures r == GoalFields.ApplyGoalFields(goal, body)
  {
    r := goal;
    for k := 0 to |body|
      invariant r == GoalFields.ApplyGoalFields(goal, body[..k])
    {
      assert body[..k + 1][..k] == body[..k];
      match body[k]
      case Unrecognised(_) =>
      case _ => r := GoalFields.ApplyGoalField(r, body[k]);
    }
    assert body[..|body|] == body;
  }

  /** calculate_goal_progress's sum: the number of completed tasks among the goal's. */
  method CountCompleted(linked: seq<Task>) returns (done: nat)
    ensures done == CompletedCount(linked)
  {
    done := 0;
    for k := 0 to |linked|
      invariant done == CompletedCount(linked[..k])
    {
      assert linked[..k + 1] == linked[..k] + [linked[k]];
      CountSnoc(linked[..k], linked[k], (x: Task) => x.completed);
      if linked[k].completed {
        done := done + 1;
      }
    }
    TakeAll(linked);
  }

  /**
   * calculate_goal_progress on the goal row: with no linked task, leave it;
   * otherwise store the share and, at 100, mark the goal completed.
   */
  method RecomputeGoal(g: Goal, tasks: seq<Task>) returns (r: Goal)
    ensures r == Recomputed(g, tasks)
  {
    var linked := GoalTasks(tasks, g.id);
    if |linked| == 0 {
      return g;
    }
    var total := |linked|;
    var done := CountCompleted(linked);
    var progress := Percent(done, total);
    r := g.(progress := progress);
    if progress == 100 {
      r := r.(completed := true);
    }
  }

  // ---------------------------------------------------------------------
  // The store

  /**
   * The database the data-access layer works on. Each write method models
   * one function of the layer: it reads, changes the rows in place and
   * commits, or, when the database fails (`dbError`), rolls back and
   * reports failure with every table as it was.
   */
  class Store {
    var users: seq<User>
    var tasks: seq<Task>
    var goals: seq<Goal>
    var tags: seq<TaskTag>
    var blacklist: seq<BlacklistedToken>
    /** The next value of the users.id autoincrement. */
    var nextUserId: int

    function Snapshot(): Tables
      reads this
    {
      Tables(users, tasks, goals, tags, blacklist)
    }

    /** The schema's constraints hold, and every user id was handed out by the autoincrement. */
    ghost predicate Valid()
      reads this
    {
      && Consistent(Snapshot())
      && 1 <= nextUserId
      && forall u :: u in users ==> 1 <= u.id < nextUserId
    }

    constructor()
      ensures Valid()
      ensures Snapshot() == Tables([], [], [], [], []) && nextUserId == 1
    {
      users, tasks, goals, tags, blacklist := [], [], [], [], [];
      nextUserId := 1;
    }

    /**
     * create_user: a new active user with the next id. A taken username or
     * email is an IntegrityError the function does not catch.
     */
    method CreateUser(username: string, email: string, hash: PasswordHash, now: int, dbError: bool)
      returns (r: Option<User>)
      requires Valid()
      requires forall u :: u in users ==> u.username != username && u.email != email
      modifies this
      ensures Valid()
      ensures dbError ==> r.None? && unchanged(this)
      ensures !dbError ==>
        && r == Some(NewUser(old(nextUserId), username, email, hash, now))
        && Snapshot() == old(Snapshot()).(users := old(users) + [r.value])
        && nextUserId == old(nextUserId) + 1
    {
      if dbError {
        return None;
      }
      var u := NewUser(nextUserId, username, email, hash, now);
      AddUserKeepsConsistent(Snapshot(), u);
      users := users + [u];
      nextUserId := nextUserId + 1;
      r := Some(u);
    }

    /** update_user_last_login: stamp the user's login time; False for an unknown user. */
    method UpdateUserLastLogin(userId: int, now: int, dbError: bool) returns (ok: bool)
      requires Valid()
      modifies this
      ensures Valid()
      ensures ok <==> !dbError && UserIndex(old(users), userId).Some?
      ensures !ok ==> unchanged(this)
      ensures ok ==>
        && var i := UserIndex(old(users), userId).value;
        && Snapshot() == old(Snapshot()).(users := old(users)[i := LoggedIn(old(users)[i], now)])
        && nextUserId == old(nextUserId)
        && GetUserById(users, userId) == Some(LoggedIn(old(users)[i], now))
    {
      if dbError {
        return false;
      }
      var found := UserIndex(users, userId);
      if found.None? {
        return false;
      }
      var i := found.value;
      var u := LoggedIn(users[i], now);
      TouchUserKeepsConsistent(Snapshot(), i, u);
      FirstIndexUpdate(users, i, u, (u: User) => u.id == userId);
      users := users[i := u];
      ok := true;
    }

    /**
     * create_task: the row built from the body, then one task_tags row per
     * name of a non-empty `tags` list. The id is the caller's fresh uuid; a
     * missing title or an unknown goal is an IntegrityError the function
     * does not catch.
     */
    method CreateTask(id: string, body: seq<TaskFields.TaskField>, userId: int, now: int, dbError: bool)
      returns (r: Option<Task>)
      requires Valid()
      requires id !in TaskIds(tasks) && userId in UserIds(users)
      requires TaskFields.TitleColumn in TaskFields.Written(body)
      requires TaskFields.GoalsExist(body, goals)
      modifies this
      ensures Valid()
      ensures dbError ==> r.None? && unchanged(this)
      ensures !dbError ==>
        && r == Some(TaskFields.NewTask(id, userId, now, body))
        && Snapshot() == old(Snapshot()).(tasks := old(tasks) + [r.value], tags := old(tags) + NewTags(id, CreateTags(body)))
        && nextUserId == old(nextUserId)
    {
      if dbError {
        return None;
      }
      var task := TaskFields.NewTask(id, userId, now, body);
      TaskFields.NewTaskLinked(id, userId, now, body, users, goals);
      var names := CreateTags(body);
      var newTags := AddTags(tags, id, names);
      AddTaskKeepsConsistent(Snapshot(), task, names);
      tasks, tags := tasks + [task], newTags;
      r := Some(task);
    }

    /**
     * update_task: for the caller's task, write every key that names a
     * column in body order (skipping `tags` and keys the row has no
     * attribute for), then, if the body has `tags`, replace the task's
     * tags by that list. None, and no change, for a task that is missing
     * or someone else's.
     */
    method UpdateTask(taskId: string, body: seq<TaskFields.TaskField>, userId: int, dbError: bool)
      returns (r: Option<Task>)
      requires Valid()
      requires TaskFields.OwnersExist(body, users) && TaskFields.GoalsExist(body, goals)
      modifies this
      ensures Valid()
      ensures r.None? <==> dbError || TaskIndex(old(tasks), taskId, Some(userId)).None?
      ensures r.None? ==> unchanged(this)
      ensures r.Some? ==>
        && var i := TaskIndex(old(tasks), taskId, Some(userId)).value;
        && r.value == TaskFields.ApplyTaskFields(old(tasks)[i], body)
        && Snapshot() == old(Snapshot()).(tasks := old(tasks)[i := r.value],
                                           tags := Retagged(old(tags), taskId, TaskFields.TagsGiven(body)))
        && nextUserId == old(nextUserId)
    {
      if dbError {
        return None;
      }
      var found := TaskIndex(tasks, taskId, Some(userId));
      if found.None? {
        return None;
      }
      var i := found.value;
      var task := WriteTaskFields(tasks[i], body);
      var given := TaskFields.TagsGiven(body);
      var newTags := tags;
      if given.Some? {
        newTags := AddTags(WithoutTagsOf(tags, taskId), taskId, given.value);
      }
      assert tasks[i] in tasks;
      TaskFields.ApplyTaskFieldsLinked(tasks[i], body, users, goals);
      ReplaceTaskKeepsConsistent(Snapshot(), i, task, given);
      tasks, tags := tasks[i := task], newTags;
      r := Some(task);
    }

    /** delete_task: delete the caller's task and, by the cascade, its tags. */
    method DeleteTask(taskId: string, userId: int, dbError: bool) returns (ok: bool)
      requires Valid()
      modifies this
      ensures Valid()
      ensures ok <==> !dbError && TaskIndex(old(tasks), taskId, Some(userId)).Some?
      ensures !ok ==> unchanged(this)
      ensures ok ==> Snapshot() == DeleteTaskCascade(old(Snapshot()), taskId) && nextUserId == old(nextUserId)
    {
      if dbError {
        return false;
      }
      var found := TaskIndex(tasks, taskId, Some(userId));
      if found.None? {
        return false;
      }
      DeleteTaskKeepsConsistent(Snapshot(), taskId);
      var t := DeleteTaskCascade(Snapshot(), taskId);
      tasks, tags := t.tasks, t.tags;
      ok := true;
    }

    /** toggle_task_complete: flip the caller's task's completion flag in place. */
    method ToggleTaskComplete(taskId: string, userId: int, dbError: bool) returns (r: Option<Task>)
      requires Valid()
      modifies this
      ensures Valid()
      ensures r.None? <==> dbError || TaskIndex(old(tasks), taskId, Some(userId)).None?
      ensures r.None? ==> unchanged(this)
      ensures r.Some? ==>
        && r.value == Toggled(old(tasks)[TaskIndex(old(tasks), taskId, Some(userId)).value])
        && Snapshot() == old(Snapshot()).(tasks := ToggleIn(old(tasks), taskId, Some(userId)))
        && nextUserId == old(nextUserId)
    {
      if dbError {
        return None;
      }
      var found := TaskIndex(tasks, taskId, Some(userId));
      if found.None? {
        return None;
      }
      var i := found.value;
      var task := tasks[i].(completed := !tasks[i].completed);
      assert tasks[i] in tasks;
      ReplaceTaskKeepsConsistent(Snapshot(), i, task, None);
      tasks := tasks[i := task];
      r := Some(task);
    }

    /**
     * create_goal: the row built from the body. The id is the caller's
     * fresh uuid; a missing title is an IntegrityError the function does
     * not catch, and the dates arrive parsed.
     */
    method CreateGoal(id: string, body: seq<GoalFields.GoalField>, userId: int, now: int, dbError: bool)
      returns (r: Option<Goal>)
      requires Valid()
      requires id !in GoalIds(goals) && userId in UserIds(users)
      requires GoalFields.TitleColumn in GoalFields.Written(body)
      requires GoalFields.DatesParsed(body)
      modifies this
      ensures Valid()
      ensures dbError ==> r.None? && unchanged(this)
      ensures !dbError ==>
        && r == Some(GoalFields.NewGoal(id, userId, now, body))
        && Snapshot() == old(Snapshot()).(goals := old(goals) + [r.value])
        && nextUserId == old(nextUserId)
    {
      if dbError {
        return None;
      }
      var goal := GoalFields.NewGoal(id, userId, now, body);
      GoalFields.NewGoalOwnerAndTime(id, userId, now, body);
      AddGoalKeepsConsistent(Snapshot(), goal);
      goals := goals + [goal];
      r := Some(goal);
    }

    /**
     * update_goal: for the caller's goal, write every key that names a
     * column, in body order. None, and no change, for a goal that is
     * missing or someone else's.
     */
    method UpdateGoal(goalId: string, body: seq<GoalFields.GoalField>, userId: int, dbError: bool)
      returns (r: Option<Goal>)
      requires Valid()
      requires GoalFields.GoalFieldsLinked(body, users) && GoalFields.DatesParsed(body)
      modifies this
      ensures Valid()
      ensures r.None? <==> dbError || GoalIndex(old(goals), goalId, Some(userId)).None?
      ensures r.None? ==> unchanged(this)
      ensures r.Some? ==>
        && var i := GoalIndex(old(goals), goalId, Some(userId)).value;
        && r.value == GoalFields.ApplyGoalFields(old(goals)[i], body)
        && Snapshot() == old(Snapshot()).(goals := old(goals)[i := r.value])
        && nextUserId == old(nextUserId)
    {
      if dbError {
        return None;
      }
      var found := GoalIndex(goals, goalId, Some(userId));
      if found.None? {
        return None;
      }
      var i := found.value;
      var goal := WriteGoalFields(goals[i], body);
      assert goals[i] in goals;
      GoalFields.ApplyGoalFieldsLinked(goals[i], body, users);
      ReplaceGoalKeepsConsistent(Snapshot(), i, goal);
      goals := goals[i := goal];
      r := Some(goal);
    }

    /** delete_goal: delete the caller's goal; its tasks stay, with goal_id cleared. */
    method DeleteGoal(goalId: string, userId: int, dbError: bool) returns (ok: bool)
      requires Valid()
      modifies this
      ensures Valid()
      ensures ok <==> !dbError && GoalIndex(old(goals), goalId, Some(userId)).Some?
      ensures !ok ==> unchanged(this)
      ensures ok ==> Snapshot() == DeleteGoalCascade(old(Snapshot()), goalId) && nextUserId == old(nextUserId)
    {
      if dbError {
        return false;
      }
      var found := GoalIndex(goals, goalId, Some(userId));
      if found.None? {
        return false;
      }
      DeleteGoalKeepsConsistent(Snapshot(), goalId);
      var t := DeleteGoalCascade(Snapshot(), goalId);
      tasks, goals := t.tasks, t.goals;
      ok := true;
    }

    /**
     * calculate_goal_progress: count the tasks linked to the goal (whoever
     * owns them) and the completed ones among them, then store the share.
     * False for an unknown goal; True and no change when no task is linked.
     */
    method CalculateGoalProgress(goalId: string, dbError: bool) returns (ok: bool)
      requires Valid()
      modifies this
      ensures Valid()
      ensures ok <==> !dbError && GoalIndex(old(goals), goalId, None).Some?
      ensures !ok ==> unchanged(this)
      ensures ok ==>
        && var i := GoalIndex(old(goals), goalId, None).value;
        && Snapshot() == old(Snapshot()).(goals := old(goals)[i := Recomputed(old(goals)[i], old(tasks))])
        && nextUserId == old(nextUserId)
    {
      if dbError {
        return false;
      }
      var found := GoalIndex(goals, goalId, None);
      if found.None? {
        return false;
      }
      var i := found.value;
      var goal := RecomputeGoal(goals[i], tasks);
      ReplaceGoalKeepsConsistent(Snapshot(), i, goal);
      goals := goals[i := goal];
      ok := true;
    }

    /**
     * add_token_to_blacklist: record the token. A token already listed is
     * an IntegrityError the function does not catch.
     */
    method AddTokenToBlacklist(token: string, now: int, dbError: bool) returns (ok: bool)
      requires Valid()
      requires forall b :: b in blacklist ==> b.token != token
      modifies this
      ensures Valid()
      ensures ok == !dbError
      ensures !ok ==> unchanged(this)
      ensures ok ==>
        && Snapshot() == old(Snapshot()).(blacklist := old(blacklist) + [BlacklistedToken(token, now)])
        && nextUserId == old(nextUserId)
        && IsTokenBlacklisted(blacklist, token, false)
    {
      if dbError {
        return false;
      }
      AddTokenKeepsConsistent(Snapshot(), BlacklistedToken(token, now));
      blacklist := blacklist + [BlacklistedToken(token, now)];
      assert blacklist[|blacklist| - 1].token == token;
      ok := true;
    }
  }
}
