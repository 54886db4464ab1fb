/**
 * Goal bodies as the data-access layer sees them: the sequence of a body's
 * keys with their values. update_goal writes every key that names a column
 * onto the row, one key at a time (the setattr loop); create_goal reads the
 * keys it knows and leaves every other column at its default.
 */
module GoalFields {
  import opened Seqs
  import opened Model

  /** The goal columns a body key can write. */
  datatype GoalColumn =
    UserIdColumn | TitleColumn | DescriptionColumn | CategoryColumn | ColorColumn | IconColumn | StartDateColumn | EndDateColumn | CompletedColumn | ProgressColumn | CreatedAtColumn | GoalTypeColumn

  /** One key of a goal body with its value; JSON null is None. */
  datatype GoalField =
    | SetUserId(userId: int)
    | SetTitle(title: string)
    | SetDescription(description: Option<string>)
    | SetCategory(category: Option<string>)
    | SetColor(color: string)
    | SetIcon(icon: Option<string>)
    | SetStartDate(startDate: Option<int>)
    | SetEndDate(endDate: Option<int>)
    | SetCompleted(completed: bool)
    | SetProgress(progress: int)
    | SetCreatedAt(createdAt: int)
    | SetGoalType(goalType: GoalType)
      /** A start_date or end_date whose text is not an ISO 8601 date. */
    | UnparsableDate(key: string)
      /** A key that names no attribute of a goal. */
    | Unrecognised(key: string)

  /** The column a body key writes, if any. */
  function GoalColumnOf(f: GoalField): Option<GoalColumn> {
    match f
    case SetUserId(_) => Some(UserIdColumn)
    case SetTitle(_) => Some(TitleColumn)
    case SetDescription(_) => Some(DescriptionColumn)
    case SetCategory(_) => Some(CategoryColumn)
    case SetColor(_) => Some(ColorColumn)
    case SetIcon(_) => Some(IconColumn)
    case SetStartDate(_) => Some(StartDateColumn)
    case SetEndDate(_) => Some(EndDateColumn)
    case SetCompleted(_) => Some(CompletedColumn)
    case SetProgress(_) => Some(ProgressColumn)
    case SetCreatedAt(_) => Some(CreatedAtColumn)
    case SetGoalType(_) => Some(GoalTypeColumn)
    case UnparsableDate(_) => None
    case Unrecognised(_) => None
  }

  /** The column a field names holds the field's value; keys naming no column hold trivially. */
  predicate Holds(g: Goal, f: GoalField) {
    match f
    case SetUserId(v) => g.userId == v
    case SetTitle(v) => g.title == v
    case SetDescription(v) => g.description == v
    case SetCategory(v) => g.category == v
    case SetColor(v) => g.color == v
    case SetIcon(v) => g.icon == v
    case SetStartDate(v) => g.startDate == v
    case SetEndDate(v) => g.endDate == v
    case SetCompleted(v) => g.completed == v
    case SetProgress(v) => g.progress == v
    case SetCreatedAt(v) => g.createdAt == v
    case SetGoalType(v) => g.goalType == v
    case UnparsableDate(_) => true
    case Unrecognised(_) => true
  }

  /** `a` has the id of `b` and agrees with it on every column outside `written`. */
  predicate AgreeOutside(a: Goal, b: Goal, written: set<GoalColumn>) {
    && a.id == b.id
    && (UserIdColumn !in written ==> a.userId == b.userId)
    && (TitleColumn !in written ==> a.title == b.title)
    && (DescriptionColumn !in written ==> a.description == b.description)
    && (CategoryColumn !in written ==> a.category == b.category)
    && (ColorColumn !in written ==> a.color == b.color)
    && (IconColumn !in written ==> a.icon == b.icon)
    && (StartDateColumn !in written ==> a.startDate == b.startDate)
    && (EndDateColumn !in written ==> a.endDate == b.endDate)
    && (CompletedColumn !in written ==> a.completed == b.completed)
    && (ProgressColumn !in written ==> a.progress == b.progress)
    && (CreatedAtColumn !in written ==> a.createdAt == b.createdAt)
    && (GoalTypeColumn !in written ==> a.goalType == b.goalType)
  }

  lemma AgreeEverywhere(a: Goal, b: Goal)
    requires AgreeOutside(a, b, {})
    ensures a == b
  {
  }

  lemma AgreeWeaken(a: Goal, b: Goal, w: set<GoalColumn>, w': set<GoalColumn>)
    requires AgreeOutside(a, b, w) && w <= w'
    ensures AgreeOutside(a, b, w')
  {
  }

  lemma AgreeTransitive(a: Goal, b: Goal, c: Goal, w: set<GoalColumn>)
    requires AgreeOutside(a, b, w) && AgreeOutside(b, c, w)
    ensures AgreeOutside(a, c, w)
  {
  }

  lemma HoldsFrame(a: Goal, b: Goal, f: GoalField, w: set<GoalColumn>)
    requires Holds(b, f)
    requires AgreeOutside(a, b, w)
    requires GoalColumnOf(f).Some? ==> GoalColumnOf(f).value !in w
    ensures Holds(a, f)
  {
  }

  function ColumnSet(f: GoalField): set<GoalColumn> {
    if GoalColumnOf(f).Some? then {GoalColumnOf(f).value} else {}
  }

  /** The columns a body writes. */
  function Written(fs: seq<GoalField>): (w: set<GoalColumn>)
    ensures forall c :: c in w <==> exists k :: 0 <= k < |fs| && GoalColumnOf(fs[k]) == Some(c)
  {
    if fs == [] then {}
    else
      var init := fs[..|fs| - 1];
      assert forall k :: 0 <= k < |init| ==> init[k] == fs[k];
      Written(init) + ColumnSet(fs[|fs| - 1])
  }

  /** `fs[k]` names a column that no later key of `fs` names again. */
  predicate LastFor(fs: seq<GoalField>, k: int)
    requires 0 <= k < |fs|
  {
    GoalColumnOf(fs[k]).Some? && forall j :: k < j < |fs| ==> GoalColumnOf(fs[j]) != GoalColumnOf(fs[k])
  }

  /** One pass of the setattr loop: write the key's column, or skip the key. */
  function ApplyGoalField(g: Goal, f: GoalField): (r: Goal)
    ensures r.id == g.id
  {
    match f
    case SetUserId(v) => g.(userId := v)
    case SetTitle(v) => g.(title := v)
    case SetDescription(v) => g.(description := v)
    case SetCategory(v) => g.(category := v)
    case SetColor(v) => g.(color := v)
    case SetIcon(v) => g.(icon := v)
    case SetStartDate(v) => g.(startDate := v)
    case SetEndDate(v) => g.(endDate := v)
    case SetCompleted(v) => g.(completed := v)
    case SetProgress(v) => g.(progress := v)
    case SetCreatedAt(v) => g.(createdAt := v)
    case SetGoalType(v) => g.(goalType := v)
    case UnparsableDate(_) => g
    case Unrecognised(_) => g
  }

  /** One pass writes the field's column and nothing else. */
  lemma ApplyGoalFieldWrites(g: Goal, f: GoalField)
    ensures Holds(ApplyGoalField(g, f), f)
    ensures AgreeOutside(ApplyGoalField(g, f), g, ColumnSet(f))
  {
  }

  /** The whole setattr loop over a body. */
  function ApplyGoalFields(g: Goal, fs: seq<GoalField>): (r: Goal)
    ensures r.id == g.id
  {
    if fs == [] then g
    else ApplyGoalField(ApplyGoalFields(g, fs[..|fs| - 1]), fs[|fs| - 1])
  }

  /** The loop keeps every column the body does not name. */
  lemma {:induction false} ApplyGoalFieldsFrame(g: Goal, fs: seq<GoalField>)
    ensures AgreeOutside(ApplyGoalFields(g, fs), g, Written(fs))
  {
    if fs != [] {
      var init, f := fs[..|fs| - 1], fs[|fs| - 1];
      var mid := ApplyGoalFields(g, init);
      ApplyGoalFieldsFrame(g, init);
      ApplyGoalFieldWrites(mid, f);
      AgreeWeaken(ApplyGoalFields(g, fs), mid, ColumnSet(f), Written(fs));
      AgreeWeaken(mid, g, Written(init), Written(fs));
      AgreeTransitive(ApplyGoalFields(g, fs), mid, g, Written(fs));
    }
  }

  /** Each named column ends up holding the value of the last key that names it. */
  lemma {:induction false} ApplyGoalFieldsLastWins(g: Goal, fs: seq<GoalField>, k: int)
    requires 0 <= k < |fs| && LastFor(fs, k)
    ensures Holds(ApplyGoalFields(g, fs), fs[k])
  {
    var init, f := fs[..|fs| - 1], fs[|fs| - 1];
    var mid := ApplyGoalFields(g, init);
    ApplyGoalFieldWrites(mid, f);
    if k < |fs| - 1 {
      assert fs[k] == init[k];
      assert LastFor(init, k) by {
        forall j | k < j < |init| ensures GoalColumnOf(init[j]) != GoalColumnOf(init[k]) {
          assert init[j] == fs[j];
        }
      }
      ApplyGoalFieldsLastWins(g, init, k);
      HoldsFrame(ApplyGoalFields(g, fs), mid, fs[k], ColumnSet(f));
    }
  }

  /** A body that names no column (only unknown keys) changes nothing. */
  lemma GoalFieldsWithoutColumns(g: Goal, fs: seq<GoalField>)
    requires forall k :: 0 <= k < |fs| ==> GoalColumnOf(fs[k]) == None
    ensures ApplyGoalFields(g, fs) == g
  {
    ApplyGoalFieldsFrame(g, fs);
    assert Written(fs) == {};
    AgreeEverywhere(ApplyGoalFields(g, fs), g);
  }

  /** Every date in the body has been parsed. */
  predicate DatesParsed(fs: seq<GoalField>) {
    forall k :: 0 <= k < |fs| ==> !fs[k].UnparsableDate?
  }

  /** The body has a `completed` or a `progress` key. */
  predicate TouchesProgress(fs: seq<GoalField>) {
    CompletedColumn in Written(fs) || ProgressColumn in Written(fs)
  }

  /** The keys create_goal reads: not user_id, created_at or id. */
  predicate ReadOnCreate(f: GoalField) {
    !f.SetUserId? && !f.SetCreatedAt? && !f.UnparsableDate? && !f.Unrecognised?
  }

  /** The row create_goal builds: the column defaults overridden by the body's keys. */
  function NewGoal(id: string, userId: int, now: int, body: seq<GoalField>): Goal {
    ApplyGoalFields(GoalDefaults(id, userId, now), Filter(body, ReadOnCreate))
  }

  lemma CreateWritten(body: seq<GoalField>)
    ensures forall c :: c in Written(Filter(body, ReadOnCreate)) ==>
      && c != UserIdColumn && c != CreatedAtColumn
      && exists k :: 0 <= k < |body| && GoalColumnOf(body[k]) == Some(c)
  {
    forall c | c in Written(Filter(body, ReadOnCreate))
      ensures c != UserIdColumn && c != CreatedAtColumn
      ensures exists k :: 0 <= k < |body| && GoalColumnOf(body[k]) == Some(c)
    {
      CreateWrittenColumn(body, c);
    }
  }

  lemma CreateWrittenColumn(body: seq<GoalField>, c: GoalColumn)
    requires c in Written(Filter(body, ReadOnCreate))
    ensures c != UserIdColumn && c != CreatedAtColumn
    ensures exists k :: 0 <= k < |body| && GoalColumnOf(body[k]) == Some(c)
  {
    WrittenFilter(body);
  }

  lemma WrittenSnoc(fs: seq<GoalField>, f: GoalField)
    ensures Written(fs + [f]) == Written(fs) + ColumnSet(f)
  {
    assert (fs + [f])[..|fs|] == fs;
  }

  /** Selecting create's keys writes a subset of the body's columns, never the owner or the creation time. */
  lemma WrittenFilter(body: seq<GoalField>)
    ensures Written(Filter(body, ReadOnCreate)) <= Written(body)
    ensures UserIdColumn !in Written(Filter(body, ReadOnCreate))
    ensures CreatedAtColumn !in Written(Filter(body, ReadOnCreate))
  {
    WrittenFilterSubset(body);
  }

  lemma {:induction false} WrittenFilterSubset(body: seq<GoalField>)
    ensures Written(Filter(body, ReadOnCreate)) <= Written(body) - {UserIdColumn, CreatedAtColumn}
  {
    if body != [] {
      var init, f := body[..|body| - 1], body[|body| - 1];
      assert body == init + [f];
      var kept := Filter(init, ReadOnCreate);
      FilterSnoc(init, f, ReadOnCreate);
      WrittenFilterSubset(init);
      WrittenSnoc(init, f);
      if ReadOnCreate(f) {
        assert Filter(body, ReadOnCreate) == kept + [f];
        WrittenSnoc(kept, f);
      } else {
        assert Filter(body, ReadOnCreate) == kept + [];
        assert kept + [] == kept;
      }
    }
  }

  /** create_goal takes the id, owner and creation time from the caller, never from the body. */
  lemma NewGoalOwnerAndTime(id: string, userId: int, now: int, body: seq<GoalField>)
    ensures var g := NewGoal(id, userId, now, body);
      g.id == id && g.userId == userId && g.createdAt == now
  {
    ApplyGoalFieldsFrame(GoalDefaults(id, userId, now), Filter(body, ReadOnCreate));
    CreateWritten(body);
  }

  /** A new goal agrees with the column defaults on every column its body does not name. */
  lemma NewGoalKeepsDefaults(id: string, userId: int, now: int, body: seq<GoalField>)
    ensures AgreeOutside(NewGoal(id, userId, now, body), GoalDefaults(id, userId, now), Written(body))
  {
    var fs := Filter(body, ReadOnCreate);
    ApplyGoalFieldsFrame(GoalDefaults(id, userId, now), fs);
    CreateWritten(body);
    AgreeWeaken(NewGoal(id, userId, now, body), GoalDefaults(id, userId, now), Written(fs), Written(body));
  }

  /** A new goal is active, at progress 0, not completed and black unless its body says otherwise. */
  lemma NewGoalDefaults(id: string, userId: int, now: int, body: seq<GoalField>)
    requires GoalTypeColumn !in Written(body) && ProgressColumn !in Written(body)
    requires CompletedColumn !in Written(body) && ColorColumn !in Written(body)
    ensures var g := NewGoal(id, userId, now, body);
      g.goalType == Active && g.progress == 0 && !g.completed && g.color == DefaultColor
  {
    NewGoalKeepsDefaults(id, userId, now, body);
  }

  /** The value of the body's last `title` key: what reading `title` from the body yields. */
  function TitleOf(fs: seq<GoalField>): Option<string> {
    if fs == [] then None
    else if fs[|fs| - 1].SetTitle? then Some(fs[|fs| - 1].title)
    else TitleOf(fs[..|fs| - 1])
  }

  /** There is a title exactly when the body names the title column. */
  lemma {:induction false} TitleOfWritten(fs: seq<GoalField>)
    ensures TitleOf(fs).Some? <==> TitleColumn in Written(fs)
  {
    if fs != [] {
      TitleOfWritten(fs[..|fs| - 1]);
    }
  }

  /** The setattr loop leaves the title of the body's last `title` key, or keeps the old one. */
  lemma {:induction false} ApplyGoalFieldsTitle(g: Goal, fs: seq<GoalField>)
    ensures ApplyGoalFields(g, fs).title == TitleOf(fs).GetOr(g.title)
  {
    if fs != [] {
      ApplyGoalFieldsTitle(g, fs[..|fs| - 1]);
    }
  }

  lemma TitleOfSnoc(fs: seq<GoalField>, f: GoalField)
    ensures TitleOf(fs + [f]) == if f.SetTitle? then Some(f.title) else TitleOf(fs)
  {
    assert (fs + [f])[..|fs|] == fs;
  }

  /** create_goal reads the title key, so selecting its keys keeps the body's title. */
  lemma {:induction false} TitleOfFilter(fs: seq<GoalField>)
    ensures TitleOf(Filter(fs, ReadOnCreate)) == TitleOf(fs)
  {
    if fs != [] {
      var init, f := fs[..|fs| - 1], fs[|fs| - 1];
      assert fs == init + [f];
      var kept := Filter(init, ReadOnCreate);
      FilterSnoc(init, f, ReadOnCreate);
      TitleOfFilter(init);
      TitleOfSnoc(init, f);
      if ReadOnCreate(f) {
        assert Filter(fs, ReadOnCreate) == kept + [f];
        TitleOfSnoc(kept, f);
      } else {
        assert Filter(fs, ReadOnCreate) == kept + [];
        assert kept + [] == kept;
      }
    }
  }

  /** A new goal carries the body's title, or the empty default when there is none. */
  lemma NewGoalTitle(id: string, userId: int, now: int, body: seq<GoalField>)
    ensures NewGoal(id, userId, now, body).title == TitleOf(body).GetOr("")
  {
    ApplyGoalFieldsTitle(GoalDefaults(id, userId, now), Filter(body, ReadOnCreate));
    TitleOfFilter(body);
  }

  /** The body's owner key names an existing user (a violation is an unhandled IntegrityError). */
  predicate GoalFieldsLinked(fs: seq<GoalField>, users: seq<User>) {
    forall k :: 0 <= k < |fs| ==> fs[k].SetUserId? ==> fs[k].userId in UserIds(users)
  }

  lemma {:induction false} ApplyGoalFieldsLinked(g: Goal, fs: seq<GoalField>, users: seq<User>)
    requires GoalFieldsLinked(fs, users)
    requires g.userId in UserIds(users)
    ensures ApplyGoalFields(g, fs).userId in UserIds(users)
  {
    if fs != [] {
      var init := fs[..|fs| - 1];
      assert GoalFieldsLinked(init, users) by {
        forall k | 0 <= k < |init| ensures init[k] == fs[k] {}
      }
      ApplyGoalFieldsLinked(g, init, users);
      assert fs[|fs| - 1].SetUserId? ==> fs[|fs| - 1].userId in UserIds(users);
      ApplyGoalFieldLinked(ApplyGoalFields(g, init), fs[|fs| - 1], users);
    }
  }

  lemma ApplyGoalFieldLinked(g: Goal, f: GoalField, users: seq<User>)
    requires f.SetUserId? ==> f.userId in UserIds(users)
    requires g.userId in UserIds(users)
    ensures ApplyGoalField(g, f).userId in UserIds(users)
  {
  }
}
