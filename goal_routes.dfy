/**
 * The goal routes. Each runs after token_required has admitted `user`,
 * a row of the users table; each is a chain of early returns over the
 * store. A request body is the sequence of its keys with their values,
 * dates already parsed or marked unparsable.
 */
module GoalRoutes {
  import opened Seqs
  import opened Model
  import opened Dao
  import opened GoalFields
  import opened Http

  /** get_goals: the caller's goals of the `type` argument (default "all"), newest first. */
  function GetGoals(goals: seq<Goal>, user: User, typeArg: Option<string>): (reply: Reply<seq<Goal>>)
    ensures reply.Success? && reply.status == 200
    ensures SortedBy(reply.value, NewestGoalFirst())
    ensures typeArg.None? ==>
      && (forall g :: g in reply.value <==> g in goals && g.userId == user.id)
      && multiset(reply.value) == multiset(Filter(goals, (g: Goal) => g.userId == user.id))
    ensures forall g :: g in reply.value ==> g in goals && g.userId == user.id
  {
    var rows := GetGoalsByUserId(goals, user.id, Some(typeArg.GetOr("all")));
    OwnedGoalsAll(goals, user.id);
    Success(200, rows)
  }

  /** With the type "all" the type restriction selects nothing away. */
  lemma OwnedGoalsAll(goals: seq<Goal>, userId: int)
    ensures OwnedGoals(goals, userId, Some("all")) == Filter(goals, (g: Goal) => g.userId == userId)
  {
    var p := (g: Goal) => g.userId == userId && PassesType(g, Some("all"));
    var q := (g: Goal) => g.userId == userId;
    FilterSame(goals, p, q);
  }

  lemma {:induction false} FilterSame<T(!new)>(s: seq<T>, p: T -> bool, q: T -> bool)
    requires forall x :: p(x) == q(x)
    ensures Filter(s, p) == Filter(s, q)
  {
    if s != [] {
      FilterSame(s[1..], p, q);
    }
  }

  /**
   * add_goal: 400 missing_title for an absent or empty title, then 400
   * invalid_date for a date that does not parse, then the insert: 500
   * create_failed when it fails, else 201 with the new goal, owned by the
   * caller and titled as the body says.
   */
  method AddGoal(store: Store, user: User, id: string, body: seq<GoalField>, now: int, dbError: bool)
    returns (reply: Reply<Goal>)
    requires store.Valid()
    requires user.id in UserIds(store.users) && id !in GoalIds(store.goals)
    modifies store
    ensures store.Valid()
    ensures reply.Failure? ==> unchanged(store)
    ensures !Truthy(TitleOf(body)) ==> reply == Failure(400, "missing_title")
    ensures Truthy(TitleOf(body)) && !DatesParsed(body) ==> reply == Failure(400, "invalid_date")
    ensures Truthy(TitleOf(body)) && DatesParsed(body) && dbError ==> reply == Failure(500, "create_failed")
    ensures reply.Success? <==> Truthy(TitleOf(body)) && DatesParsed(body) && !dbError
    ensures reply.Success? ==>
      && reply == Success(201, NewGoal(id, user.id, now, body))
      && reply.value.id == id && reply.value.userId == user.id && reply.value.createdAt == now
      && reply.value.title == TitleOf(body).value
      && store.Snapshot() == old(store.Snapshot()).(goals := old(store.goals) + [reply.value])
  {
    if !Truthy(TitleOf(body)) {
      return Failure(400, "missing_title");
    }
    if !DatesParsed(body) {
      return Failure(400, "invalid_date");
    }
    TitleOfWritten(body);
    var goal := store.CreateGoal(id, body, user.id, now, dbError);
    if goal.None? {
      return Failure(500, "create_failed");
    }
    NewGoalOwnerAndTime(id, user.id, now, body);
    NewGoalTitle(id, user.id, now, body);
    reply := Success(201, goal.value);
  }

  /** get_goal: the caller's goal with that id, or 404 goal_not_found. */
  function GetGoal(goals: seq<Goal>, user: User, goalId: string): (reply: Reply<Goal>)
    ensures reply.Success? <==> exists g :: g in goals && g.id == goalId && OwnerOk(g.userId, Some(user.id))
    ensures reply.Success? ==> reply.status == 200 && reply.value in goals && reply.value.id == goalId
    ensures reply.Success? && user.id != 0 ==> reply.value.userId == user.id
    ensures reply.Failure? ==> reply == Failure(404, "goal_not_found")
  {
    match GetGoalById(goals, goalId, Some(user.id))
    case Some(g) => Success(200, g)
    case None => Failure(404, "goal_not_found")
  }

  /**
   * With unique goal ids, the lookup by the id of row `i` finds row `i`
   * exactly when the owner filter admits that row.
   */
  lemma GoalIndexById(goals: seq<Goal>, id: string, owner: Option<int>, i: int)
    requires UniqueBy(goals, (g: Goal) => g.id)
    requires 0 <= i < |goals| && goals[i].id == id
    ensures GoalIndex(goals, id, owner) == if OwnerOk(goals[i].userId, owner) then Some(i) else None
  {
    var r := GoalIndex(goals, id, owner);
    if r.Some? {
      var k := r.value;
      assert goals[k].id == goals[i].id;
      assert !(k < i) && !(i < k);
    }
  }

  /** An updated row, recomputed when the body touched completion or progress. */
  function UpdatedGoal(g: Goal, body: seq<GoalField>, tasks: seq<Task>, progressDbError: bool): Goal {
    var g1 := ApplyGoalFields(g, body);
    if TouchesProgress(body) && !progressDbError then Recomputed(g1, tasks) else g1
  }

  /**
   * update_goal_route: 400 missing_data for an empty body, 400
   * invalid_date for a date that does not parse, 404 goal_not_found when
   * the caller has no such goal or the update fails. Otherwise the keys are
   * written; a `completed` or `progress` key triggers a recompute of the
   * goal's progress from its tasks; the goal is read back with the owner
   * filter. When the body moved the goal to another owner, that read finds
   * nothing and formatting it fails: the answer is 500, with the changes
   * already committed.
   */
  method UpdateGoalRoute(store: Store, user: User, goalId: string, body: seq<GoalField>,
                         dbError: bool, progressDbError: bool) returns (reply: Reply<Goal>)
    requires store.Valid()
    requires GoalFieldsLinked(body, store.users)
    modifies store
    ensures store.Valid()
    ensures body == [] ==> reply == Failure(400, "missing_data") && unchanged(store)
    ensures body != [] && !DatesParsed(body) ==> reply == Failure(400, "invalid_date") && unchanged(store)
    ensures body != [] && DatesParsed(body) && (dbError || GoalIndex(old(store.goals), goalId, Some(user.id)).None?) ==>
      reply == Failure(404, "goal_not_found") && unchanged(store)
    ensures body != [] && DatesParsed(body) && !dbError && GoalIndex(old(store.goals), goalId, Some(user.id)).Some? ==>
      && var i := GoalIndex(old(store.goals), goalId, Some(user.id)).value;
      && var g2 := UpdatedGoal(old(store.goals)[i], body, old(store.tasks), progressDbError);
      && store.Snapshot() == old(store.Snapshot()).(goals := old(store.goals)[i := g2])
      && reply == (if OwnerOk(g2.userId, Some(user.id)) then Success(200, g2) else Failure(500, ""))
  {
    if body == [] {
      return Failure(400, "missing_data");
    }
    if !DatesParsed(body) {
      return Failure(400, "invalid_date");
    }
    var updated := store.UpdateGoal(goalId, body, user.id, dbError);
    if updated.None? {
      return Failure(404, "goal_not_found");
    }
    ghost var i := GoalIndex(old(store.goals), goalId, Some(user.id)).value;
    reply := RecomputeAndReRead(store, user, goalId, TouchesProgress(body), progressDbError, i);
  }

  /**
   * The tail of update_goal_route, once row `i` holds the written goal:
   * recompute its progress when asked to, then read it back with the owner
   * filter.
   */
  method RecomputeAndReRead(store: Store, user: User, goalId: string, recompute: bool, progressDbError: bool,
                            ghost i: int) returns (reply: Reply<Goal>)
    requires store.Valid()
    requires 0 <= i < |store.goals| && store.goals[i].id == goalId
    modifies store
    ensures store.Valid()
    ensures var g := old(store.goals)[i];
      && var g2 := if recompute && !progressDbError then Recomputed(g, old(store.tasks)) else g;
      && store.Snapshot() == old(store.Snapshot()).(goals := old(store.goals)[i := g2])
      && reply == (if OwnerOk(g2.userId, Some(user.id)) then Success(200, g2) else Failure(500, ""))
  {
    if recompute {
      GoalIndexById(store.goals, goalId, None, i);
      var recomputed := store.CalculateGoalProgress(goalId, progressDbError);
      RecomputedOutcome(old(store.goals)[i], store.tasks);
    }
    GoalIndexById(store.goals, goalId, Some(user.id), i);
    var reread := GetGoalById(store.goals, goalId, Some(user.id));
    if reread.None? {
      return Failure(500, "");
    }
    reply := Success(200, reread.value);
  }

  /**
   * A progress the body sets survives only on a goal without tasks: once
   * tasks are linked, the recompute replaces it with their completed share.
   */
  lemma {:induction false} ProgressAfterUpdate(g: Goal, body: seq<GoalField>, tasks: seq<Task>, k: int)
    requires 0 <= k < |body| && body[k].SetProgress? && LastFor(body, k)
    ensures var r, linked := UpdatedGoal(g, body, tasks, false), GoalTasks(tasks, g.id);
      && (|linked| == 0 ==> r.progress == body[k].progress)
      && (|linked| > 0 ==> r.progress == Percent(CompletedCount(linked), |linked|))
  {
    var g1 := ApplyGoalFields(g, body);
    ApplyGoalFieldsLastWins(g, body, k);
    assert ProgressColumn in Written(body);
    RecomputedOutcome(g1, tasks);
  }

  /**
   * delete_goal_route: 404 goal_not_found, or 204 with the goal gone and
   * its tasks kept but detached from it.
   */
  method DeleteGoalRoute(store: Store, user: User, goalId: string, dbError: bool) returns (reply: Reply<()>)
    requires store.Valid()
    modifies store
    ensures store.Valid()
    ensures reply.Success? <==> !dbError && GoalIndex(old(store.goals), goalId, Some(user.id)).Some?
    ensures reply.Failure? ==> reply == Failure(404, "goal_not_found") && unchanged(store)
    ensures reply.Success? ==>
      && reply == Success(204, ())
      && store.Snapshot() == DeleteGoalCascade(old(store.Snapshot()), goalId)
      && GetGoalById(store.goals, goalId, None).None?
      && (forall x :: x in store.tasks ==> x.goalId != Some(goalId))
  {
    var ok := store.DeleteGoal(goalId, user.id, dbError);
    if !ok {
      return Failure(404, "goal_not_found");
    }
    reply := Success(204, ());
  }

  /**
   * get_goal_tasks: 404 goal_not_found unless the caller has the goal;
   * otherwise the caller's task list restricted to the goal. The day is
   * not consulted, since no keyword is given.
   */
  function GetGoalTasks(goals: seq<Goal>, tasks: seq<Task>, user: User, goalId: string): (reply: Reply<seq<Task>>)
    ensures reply.Failure? <==> GetGoalById(goals, goalId, Some(user.id)).None?
    ensures reply.Failure? ==> reply == Failure(404, "goal_not_found")
    ensures reply.Success? ==> reply.status == 200
  {
    match GetGoalById(goals, goalId, Some(user.id))
    case None => Failure(404, "goal_not_found")
    case Some(_) => Success(200, GetTasksByUserId(tasks, user.id, None, Some(goalId), None, 0))
  }

  /** The listed tasks are exactly the caller's tasks in that goal, newest first. */
  lemma GoalTasksListed(goals: seq<Goal>, tasks: seq<Task>, user: User, goalId: string)
    requires goalId != ""
    requires GetGoalById(goals, goalId, Some(user.id)).Some?
    ensures var reply := GetGoalTasks(goals, tasks, user, goalId);
      && reply.Success?
      && (forall x :: x in reply.value <==> x in tasks && x.userId == user.id && x.goalId == Some(goalId))
      && multiset(reply.value) == multiset(Filter(tasks, (x: Task) => x.userId == user.id && x.goalId == Some(goalId)))
      && (forall i, j :: 0 <= i < j < |reply.value| ==> reply.value[i].createdAt >= reply.value[j].createdAt)
  {
    var r := GetTasksByUserId(tasks, user.id, None, Some(goalId), None, 0);
    FilterSame(tasks, (x: Task) => Wanted(x, user.id, None, Some(goalId), 0),
      (x: Task) => x.userId == user.id && x.goalId == Some(goalId));
    assert SortedBy(r, Le(CreatedAtDesc));
    forall i, j | 0 <= i < j < |r| ensures r[i].createdAt >= r[j].createdAt {
      assert KeyLe(CreatedAtDesc, r[i], r[j]);
    }
  }
}
