/**
 * Task bodies as the data-access layer sees them: the sequence of a body's
 * keys with their values. update_task writes every key that names a column
 * onto the row, one key at a time (the setattr loop), and skips the rest;
 * create_task reads the keys it knows and leaves every other column at its
 * default.
 *
 * A JSON object cannot repeat a key; for a sequence that does, the last
 * value of a key is the one that stays, as in the loop.
 */
module TaskFields {
  import opened Seqs
  import opened Model

  // ---------------------------------------------------------------------
  // Tasks

  /** The task columns a body key can write. */
  datatype TaskColumn =
    | UserIdColumn | GoalIdColumn | TitleColumn | CompletedColumn | DueDateColumn
    | PriorityColumn | EstimatedTimeColumn | ActualTimeColumn | CreatedAtColumn
    | NotesColumn | ExpectedOutcomeColumn | EnthusiasmColumn | DifficultyColumn
    | ImportanceColumn | IsRepeatingColumn | RepeatFrequencyColumn | RepeatIntervalColumn
    | RepeatEndDateColumn | RepeatCountColumn | ParentTaskIdColumn | CustomWeekDaysColumn

  /** One key of a task body with its value; JSON null is None. */
  datatype TaskField =
    | SetUserId(userId: int)
    | SetGoalId(goalId: Option<string>)
    | SetTitle(title: string)
    | SetCompleted(completed: bool)
    | SetDueDate(dueDate: Option<int>)
    | SetPriority(priority: Priority)
    | SetEstimatedTime(estimatedTime: int)
    | SetActualTime(actualTime: int)
    | SetCreatedAt(createdAt: int)
    | SetNotes(notes: Option<string>)
    | SetExpectedOutcome(expectedOutcome: Option<string>)
    | SetEnthusiasm(enthusiasm: Option<int>)
    | SetDifficulty(difficulty: Option<int>)
    | SetImportance(importance: Option<int>)
    | SetIsRepeating(isRepeating: bool)
    | SetRepeatFrequency(repeatFrequency: Option<Frequency>)
    | SetRepeatInterval(repeatInterval: Option<int>)
    | SetRepeatEndDate(repeatEndDate: Option<int>)
    | SetRepeatCount(repeatCount: Option<int>)
    | SetParentTaskId(parentTaskId: Option<string>)
    | SetCustomWeekDays(customWeekDays: Option<seq<string>>)
      /** The tag list; written to task_tags, not to a column. */
    | SetTags(tags: seq<string>)
      /** A key that names no attribute of a task. */
    | Unrecognised(key: string)

  /** The column a body key writes, if any. */
  function TaskColumnOf(f: TaskField): Option<TaskColumn> {
    match f
    case SetUserId(_) => Some(UserIdColumn)
    case SetGoalId(_) => Some(GoalIdColumn)
    case SetTitle(_) => Some(TitleColumn)
    case SetCompleted(_) => Some(CompletedColumn)
    case SetDueDate(_) => Some(DueDateColumn)
    case SetPriority(_) => Some(PriorityColumn)
    case SetEstimatedTime(_) => Some(EstimatedTimeColumn)
    case SetActualTime(_) => Some(ActualTimeColumn)
    case SetCreatedAt(_) => Some(CreatedAtColumn)
    case SetNotes(_) => Some(NotesColumn)
    case SetExpectedOutcome(_) => Some(ExpectedOutcomeColumn)
    case SetEnthusiasm(_) => Some(EnthusiasmColumn)
    case SetDifficulty(_) => Some(DifficultyColumn)
    case SetImportance(_) => Some(ImportanceColumn)
    case SetIsRepeating(_) => Some(IsRepeatingColumn)
    case SetRepeatFrequency(_) => Some(RepeatFrequencyColumn)
    case SetRepeatInterval(_) => Some(RepeatIntervalColumn)
    case SetRepeatEndDate(_) => Some(RepeatEndDateColumn)
    case SetRepeatCount(_) => Some(RepeatCountColumn)
    case SetParentTaskId(_) => Some(ParentTaskIdColumn)
    case SetCustomWeekDays(_) => Some(CustomWeekDaysColumn)
    case SetTags(_) => None
    case Unrecognised(_) => None
  }

  /**
   * The column a field names holds the value the field stores there; keys
   * naming no column hold trivially.
   */
  predicate Holds(t: Task, f: TaskField) {
    match f
    case SetUserId(v) => t.userId == v
    case SetGoalId(v) => t.goalId == v
    case SetTitle(v) => t.title == v
    case SetCompleted(v) => t.completed == v
    case SetDueDate(v) => t.dueDate == v
    case SetPriority(v) => t.priority == v
    case SetEstimatedTime(v) => t.estimatedTime == v
    case SetActualTime(v) => t.actualTime == v
    case SetCreatedAt(v) => t.createdAt == v
    case SetNotes(v) => t.notes == v
    case SetExpectedOutcome(v) => t.expectedOutcome == v
    case SetEnthusiasm(v) => t.enthusiasm == v
    case SetDifficulty(v) => t.difficulty == v
    case SetImportance(v) => t.importance == v
    case SetIsRepeating(v) => t.isRepeating == v
    case SetRepeatFrequency(v) => t.repeatFrequency == v
    case SetRepeatInterval(v) => t.repeatInterval == v
    case SetRepeatEndDate(v) => t.repeatEndDate == v
    case SetRepeatCount(v) => t.repeatCount == v
    case SetParentTaskId(v) => t.parentTaskId == v
    case SetCustomWeekDays(v) => t.customWeekDays == StoredWeekDays(v)
    case SetTags(_) => true
    case Unrecognised(_) => true
  }

  /** `a` has the id of `b` and agrees with it on every column outside `written`. */
  predicate AgreeOutside(a: Task, b: Task, written: set<TaskColumn>) {
    && a.id == b.id
    && (UserIdColumn !in written ==> a.userId == b.userId)
    && (GoalIdColumn !in written ==> a.goalId == b.goalId)
    && (TitleColumn !in written ==> a.title == b.title)
    && (CompletedColumn !in written ==> a.completed == b.completed)
    && (DueDateColumn !in written ==> a.dueDate == b.dueDate)
    && (PriorityColumn !in written ==> a.priority == b.priority)
    && (EstimatedTimeColumn !in written ==> a.estimatedTime == b.estimatedTime)
    && (ActualTimeColumn !in written ==> a.actualTime == b.actualTime)
    && (CreatedAtColumn !in written ==> a.createdAt == b.createdAt)
    && (NotesColumn !in written ==> a.notes == b.notes)
    && (ExpectedOutcomeColumn !in written ==> a.expectedOutcome == b.expectedOutcome)
    && (EnthusiasmColumn !in written ==> a.enthusiasm == b.enthusiasm)
    && (DifficultyColumn !in written ==> a.difficulty == b.difficulty)
    && (ImportanceColumn !in written ==> a.importance == b.importance)
    && (IsRepeatingColumn !in written ==> a.isRepeating == b.isRepeating)
    && (RepeatFrequencyColumn !in written ==> a.repeatFrequency == b.repeatFrequency)
    && (RepeatIntervalColumn !in written ==> a.repeatInterval == b.repeatInterval)
    && (RepeatEndDateColumn !in written ==> a.repeatEndDate == b.repeatEndDate)
    && (RepeatCountColumn !in written ==> a.repeatCount == b.repeatCount)
    && (ParentTaskIdColumn !in written ==> a.parentTaskId == b.parentTaskId)
    && (CustomWeekDaysColumn !in written ==> a.customWeekDays == b.customWeekDays)
  }

  /** Rows that agree outside no column at all are the same row. */
  lemma AgreeEverywhere(a: Task, b: Task)
    requires AgreeOutside(a, b, {})
    ensures a == b
  {
  }

  lemma AgreeWeaken(a: Task, b: Task, w: set<TaskColumn>, w': set<TaskColumn>)
    requires AgreeOutside(a, b, w) && w <= w'
    ensures AgreeOutside(a, b, w')
  {
  }

  lemma AgreeTransitive(a: Task, b: Task, c: Task, w: set<TaskColumn>)
    requires AgreeOutside(a, b, w) && AgreeOutside(b, c, w)
    ensures AgreeOutside(a, c, w)
  {
  }

  /** What a field says about a row survives changes outside the field's column. */
  lemma HoldsFrame(a: Task, b: Task, f: TaskField, w: set<TaskColumn>)
    requires Holds(b, f)
    requires AgreeOutside(a, b, w)
    requires TaskColumnOf(f).Some? ==> TaskColumnOf(f).value !in w
    ensures Holds(a, f)
  {
  }

  /** The column a field writes, as a set of zero or one columns. */
  function ColumnSet(f: TaskField): set<TaskColumn> {
    if TaskColumnOf(f).Some? then {TaskColumnOf(f).value} else {}
  }

  /** The columns a body writes. */
  function Written(fs: seq<TaskField>): (w: set<TaskColumn>)
    ensures forall c :: c in w <==> exists k :: 0 <= k < |fs| && TaskColumnOf(fs[k]) == Some(c)
  {
    if fs == [] then {}
    else
      var init := fs[..|fs| - 1];
      assert forall k :: 0 <= k < |init| ==> init[k] == fs[k];
      Written(init) + ColumnSet(fs[|fs| - 1])
  }

  /** `fs[k]` names a column that no later key of `fs` names again. */
  predicate LastFor(fs: seq<TaskField>, k: int)
    requires 0 <= k < |fs|
  {
    TaskColumnOf(fs[k]).Some? && forall j :: k < j < |fs| ==> TaskColumnOf(fs[j]) != TaskColumnOf(fs[k])
  }

  /**
   * custom_week_days is stored as the JSON text of a non-empty list; an
   * empty list or null leaves the column NULL.
   */
  function StoredWeekDays(v: Option<seq<string>>): Option<seq<string>> {
    if v.Some? && v.value != [] then v else None
  }

  /** One pass of the setattr loop: write the key's column, or skip the key. */
  function ApplyTaskField(t: Task, f: TaskField): (r: Task)
    ensures r.id == t.id
  {
    match f
    case SetUserId(v) => t.(userId := v)
    case SetGoalId(v) => t.(goalId := v)
    case SetTitle(v) => t.(title := v)
    case SetCompleted(v) => t.(completed := v)
    case SetDueDate(v) => t.(dueDate := v)
    case SetPriority(v) => t.(priority := v)
    case SetEstimatedTime(v) => t.(estimatedTime := v)
    case SetActualTime(v) => t.(actualTime := v)
    case SetCreatedAt(v) => t.(createdAt := v)
    case SetNotes(v) => t.(notes := v)
    case SetExpectedOutcome(v) => t.(expectedOutcome := v)
    case SetEnthusiasm(v) => t.(enthusiasm := v)
    case SetDifficulty(v) => t.(difficulty := v)
    case SetImportance(v) => t.(importance := v)
    case SetIsRepeating(v) => t.(isRepeating := v)
    case SetRepeatFrequency(v) => t.(repeatFrequency := v)
    case SetRepeatInterval(v) => t.(repeatInterval := v)
    case SetRepeatEndDate(v) => t.(repeatEndDate := v)
    case SetRepeatCount(v) => t.(repeatCount := v)
    case SetParentTaskId(v) => t.(parentTaskId := v)
    case SetCustomWeekDays(v) => t.(customWeekDays := StoredWeekDays(v))
    case SetTags(_) => t
    case Unrecognised(_) => t
  }

  /** One pass writes the field's column and nothing else. */
  lemma ApplyTaskFieldWrites(t: Task, f: TaskField)
    ensures Holds(ApplyTaskField(t, f), f)
    ensures AgreeOutside(ApplyTaskField(t, f), t, ColumnSet(f))
  {
  }

  /** The whole setattr loop over a body. */
  function ApplyTaskFields(t: Task, fs: seq<TaskField>): (r: Task)
    ensures r.id == t.id
  {
    if fs == [] then t
    else ApplyTaskField(ApplyTaskFields(t, fs[..|fs| - 1]), fs[|fs| - 1])
  }

  /** The loop keeps every column the body does not name. */
  lemma {:induction false} ApplyTaskFieldsFrame(t: Task, fs: seq<TaskField>)
    ensures AgreeOutside(ApplyTaskFields(t, fs), t, Written(fs))
  {
    if fs != [] {
      var init, f := fs[..|fs| - 1], fs[|fs| - 1];
      var mid := ApplyTaskFields(t, init);
      ApplyTaskFieldsFrame(t, init);
      ApplyTaskFieldWrites(mid, f);
      AgreeWeaken(ApplyTaskFields(t, fs), mid, ColumnSet(f), Written(fs));
      AgreeWeaken(mid, t, Written(init), Written(fs));
      AgreeTransitive(ApplyTaskFields(t, fs), mid, t, Written(fs));
    }
  }

  /** Each named column ends up holding the value of the last key that names it. */
  lemma {:induction false} ApplyTaskFieldsLastWins(t: Task, fs: seq<TaskField>, k: int)
    requires 0 <= k < |fs| && LastFor(fs, k)
    ensures Holds(ApplyTaskFields(t, fs), fs[k])
  {
    var init, f := fs[..|fs| - 1], fs[|fs| - 1];
    var mid := ApplyTaskFields(t, init);
    ApplyTaskFieldWrites(mid, f);
    if k < |fs| - 1 {
      assert fs[k] == init[k];
      assert LastFor(init, k) by {
        forall j | k < j < |init| ensures TaskColumnOf(init[j]) != TaskColumnOf(init[k]) {
          assert init[j] == fs[j];
        }
      }
      ApplyTaskFieldsLastWins(t, init, k);
      HoldsFrame(ApplyTaskFields(t, fs), mid, fs[k], ColumnSet(f));
    }
  }

  /** A body that names no column (only tags or unknown keys) changes nothing. */
  lemma TaskFieldsWithoutColumns(t: Task, fs: seq<TaskField>)
    requires forall k :: 0 <= k < |fs| ==> TaskColumnOf(fs[k]) == None
    ensures ApplyTaskFields(t, fs) == t
  {
    ApplyTaskFieldsFrame(t, fs);
    assert Written(fs) == {};
    AgreeEverywhere(ApplyTaskFields(t, fs), t);
  }

  /** The tag list of a body, if it has a `tags` key (the last one). */
  function TagsGiven(fs: seq<TaskField>): (r: Option<seq<string>>)
    ensures r.Some? <==> exists k :: 0 <= k < |fs| && fs[k].SetTags?
  {
    if fs == [] then None
    else if fs[|fs| - 1].SetTags? then Some(fs[|fs| - 1].tags)
    else
      var r := TagsGiven(fs[..|fs| - 1]);
      assert forall k :: 0 <= k < |fs| - 1 ==> fs[..|fs| - 1][k] == fs[k];
      r
  }

  /** The keys create_task reads: not user_id, created_at or id. */
  predicate ReadOnCreate(f: TaskField) {
    !f.SetUserId? && !f.SetCreatedAt? && !f.SetTags? && !f.Unrecognised?
  }

  /** The row create_task builds: the column defaults overridden by the body's keys. */
  function NewTask(id: string, userId: int, now: int, body: seq<TaskField>): Task {
    ApplyTaskFields(TaskDefaults(id, userId, now), Filter(body, ReadOnCreate))
  }

  /** The columns create_task writes from a body are columns the body names, other than owner and creation time. */
  lemma CreateWritten(body: seq<TaskField>)
    ensures forall c :: c in Written(Filter(body, ReadOnCreate)) ==>
      && c != UserIdColumn && c != CreatedAtColumn
      && exists k :: 0 <= k < |body| && TaskColumnOf(body[k]) == Some(c)
  {
    forall c | c in Written(Filter(body, ReadOnCreate))
      ensures c != UserIdColumn && c != CreatedAtColumn
      ensures exists k :: 0 <= k < |body| && TaskColumnOf(body[k]) == Some(c)
    {
      CreateWrittenColumn(body, c);
    }
  }

  lemma CreateWrittenColumn(body: seq<TaskField>, c: TaskColumn)
    requires c in Written(Filter(body, ReadOnCreate))
    ensures c != UserIdColumn && c != CreatedAtColumn
    ensures exists k :: 0 <= k < |body| && TaskColumnOf(body[k]) == Some(c)
  {
    WrittenFilter(body);
  }

  lemma WrittenSnoc(fs: seq<TaskField>, f: TaskField)
    ensures Written(fs + [f]) == Written(fs) + ColumnSet(f)
  {
    assert (fs + [f])[..|fs|] == fs;
  }

  /** Selecting create's keys writes a subset of the body's columns, never the owner or the creation time. */
  lemma WrittenFilter(body: seq<TaskField>)
    ensures Written(Filter(body, ReadOnCreate)) <= Written(body)
    ensures UserIdColumn !in Written(Filter(body, ReadOnCreate))
    ensures CreatedAtColumn !in Written(Filter(body, ReadOnCreate))
  {
    WrittenFilterSubset(body);
  }

  lemma {:induction false} WrittenFilterSubset(body: seq<TaskField>)
    ensures Written(Filter(body, ReadOnCreate)) <= Written(body) - {UserIdColumn, CreatedAtColumn}
  {
    if body != [] {
      var init, f := body[..|body| - 1], body[|body| - 1];
      assert body == init + [f];
      var kept := Filter(init, ReadOnCreate);
      FilterSnoc(init, f, ReadOnCreate);
      WrittenFilterSubset(init);
      WrittenSnoc(init, f);
      if ReadOnCreate(f) {
        assert Filter(body, ReadOnCreate) == kept + [f];
        WrittenSnoc(kept, f);
      } else {
        assert Filter(body, ReadOnCreate) == kept + [];
        assert kept + [] == kept;
      }
    }
  }

  /** create_task takes the id, owner and creation time from the caller, never from the body. */
  lemma NewTaskOwnerAndTime(id: string, userId: int, now: int, body: seq<TaskField>)
    ensures var t := NewTask(id, userId, now, body);
      t.id == id && t.userId == userId && t.createdAt == now
  {
    ApplyTaskFieldsFrame(TaskDefaults(id, userId, now), Filter(body, ReadOnCreate));
    CreateWritten(body);
  }

  /** A new task agrees with the column defaults on every column its body does not name. */
  lemma NewTaskKeepsDefaults(id: string, userId: int, now: int, body: seq<TaskField>)
    ensures AgreeOutside(NewTask(id, userId, now, body), TaskDefaults(id, userId, now), Written(body))
  {
    var fs := Filter(body, ReadOnCreate);
    ApplyTaskFieldsFrame(TaskDefaults(id, userId, now), fs);
    CreateWritten(body);
    AgreeWeaken(NewTask(id, userId, now, body), TaskDefaults(id, userId, now), Written(fs), Written(body));
  }

  /** A new task has medium priority and is not completed unless its body says otherwise. */
  lemma NewTaskPriorityAndCompletion(id: string, userId: int, now: int, body: seq<TaskField>)
    requires PriorityColumn !in Written(body) && CompletedColumn !in Written(body)
    ensures NewTask(id, userId, now, body).priority == Medium
    ensures !NewTask(id, userId, now, body).completed
  {
    NewTaskKeepsDefaults(id, userId, now, body);
  }

  /** The body's goal_id keys name existing goals (a violation is an unhandled IntegrityError). */
  predicate GoalsExist(fs: seq<TaskField>, goals: seq<Goal>) {
    forall k :: 0 <= k < |fs| ==> fs[k].SetGoalId? && fs[k].goalId.Some? ==> fs[k].goalId.value in GoalIds(goals)
  }

  /** The body's user_id keys name existing users (a violation is an unhandled IntegrityError). */
  predicate OwnersExist(fs: seq<TaskField>, users: seq<User>) {
    forall k :: 0 <= k < |fs| ==> fs[k].SetUserId? ==> fs[k].userId in UserIds(users)
  }

  /** A row whose foreign keys hold keeps them through a body whose keys hold. */
  lemma {:induction false} ApplyTaskFieldsLinked(t: Task, fs: seq<TaskField>, users: seq<User>, goals: seq<Goal>)
    requires GoalsExist(fs, goals) && OwnersExist(fs, users)
    requires t.userId in UserIds(users)
    requires t.goalId.Some? ==> t.goalId.value in GoalIds(goals)
    ensures var r := ApplyTaskFields(t, fs);
      r.userId in UserIds(users) && (r.goalId.Some? ==> r.goalId.value in GoalIds(goals))
  {
    if fs != [] {
      var init := fs[..|fs| - 1];
      assert GoalsExist(init, goals) && OwnersExist(init, users) by {
        forall k | 0 <= k < |init| ensures init[k] == fs[k] {}
      }
      assert fs[|fs| - 1].SetGoalId? && fs[|fs| - 1].goalId.Some? ==> fs[|fs| - 1].goalId.value in GoalIds(goals);
      assert fs[|fs| - 1].SetUserId? ==> fs[|fs| - 1].userId in UserIds(users);
      ApplyTaskFieldsLinked(t, init, users, goals);
      ApplyTaskFieldLinked(ApplyTaskFields(t, init), fs[|fs| - 1], users, goals);
    }
  }

  lemma ApplyTaskFieldLinked(t: Task, f: TaskField, users: seq<User>, goals: seq<Goal>)
    requires f.SetGoalId? && f.goalId.Some? ==> f.goalId.value in GoalIds(goals)
    requires f.SetUserId? ==> f.userId in UserIds(users)
    requires t.userId in UserIds(users)
    requires t.goalId.Some? ==> t.goalId.value in GoalIds(goals)
    ensures var r := ApplyTaskField(t, f);
      r.userId in UserIds(users) && (r.goalId.Some? ==> r.goalId.value in GoalIds(goals))
  {
  }

  /** A created task belongs to an existing user and, if any, an existing goal. */
  lemma NewTaskLinked(id: string, userId: int, now: int, body: seq<TaskField>, users: seq<User>, goals: seq<Goal>)
    requires GoalsExist(body, goals)
    requires userId in UserIds(users)
    ensures var t := NewTask(id, userId, now, body);
      && t.id == id
      && t.userId in UserIds(users) && (t.goalId.Some? ==> t.goalId.value in GoalIds(goals))
  {
    var fs := Filter(body, ReadOnCreate);
    forall k | 0 <= k < |fs| ensures !fs[k].SetUserId? && (fs[k].SetGoalId? && fs[k].goalId.Some? ==> fs[k].goalId.value in GoalIds(goals)) {
      assert ReadOnCreate(fs[k]);
      assert fs[k] in body;
    }
    ApplyTaskFieldsLinked(TaskDefaults(id, userId, now), fs, users, goals);
  }
}
