# A verified model of the FlowTodo task and goal service

FlowTodo is a small Flask REST API for tasks and goals. Users register and log
in. They receive a short-lived access token (30 minutes) and a long-lived
refresh token (7 days). With those they manage their tasks and goals. A goal's
progress is the share of its tasks that are completed. Logging out blacklists
the access token.

This project models the core of that service in Dafny:

- the record shapes and constraints of `wxcloudrun/model.py`;
- the data-access layer of `wxcloudrun/dao.py`: queries as functions over the
  tables, writes as methods of a `Store` class that holds the tables as
  sequences;
- the token issuance, decoding and request guards of `wxcloudrun/utils.py`;
- the authentication routes of `wxcloudrun/auth.py`;
- the goal routes of `wxcloudrun/goals.py`.

The clock is a parameter, and timestamps are integers (seconds). Every
database failure the source catches (`OperationalError`) is a boolean
parameter of the write that can fail.

Modules, in dependency order:

| file | module | what it holds |
|---|---|---|
| `seqs.dfy` | `Seqs` | `Option`; filtering, first match, counting; a stable insertion sort; lexicographic order |
| `model.dfy` | `Model` | the five tables as datatypes; enums and column defaults; the uniqueness and foreign-key invariant `Consistent`; the delete cascades |
| `task_fields.dfy` | `TaskFields` | a task request body as a sequence of typed keys; the setattr loop `ApplyTaskFields`; the row `create_task` builds |
| `goal_fields.dfy` | `GoalFields` | the same for goals, and the title a body carries |
| `dao.dfy` | `Dao` | the queries; tags, toggling and progress as functions; the `Store` class and its write methods |
| `tokens.dfy` | `Tokens` | claims, an abstract JWT codec, `decode_token`, Authorization header parsing, the two guards, the abstract password hasher |
| `http.dfy` | `Http` | `Reply`: a status with a value, or a status with an error code |
| `auth.dfy` | `Auth` | register, login, refresh and logout, and the client session of the API script |
| `goal_routes.dfy` | `GoalRoutes` | the goal routes |

The design choices that shape the model:

- **Tokens.** A token is the encoding of a `Claims(sub, type, iat, exp)` record under a `Codec` value (encode and decode functions). `Sound(codec)` says decoding inverts encoding and that an encoded token is a non-empty string without spaces. Expiry follows PyJWT: a token is rejected once `exp <= now`.
- **Request bodies.** A body is a sequence of one typed field per key (`SetTitle(..)`, `SetProgress(..)`, `Unrecognised(key)`, …). The update functions walk the body key by key, as the source's setattr loop does. A later key for the same column wins, as it does in a JSON object.
- **Errors the source leaves uncaught.** Duplicate keys and dangling foreign keys raise `IntegrityError`, which these handlers do not catch. Those cases are preconditions of the writes.
- **Deleting a goal.** `Goal.tasks` has no delete cascade. The ORM's default then sets the `goal_id` of the goal's tasks to NULL, and the model pins that choice.
- **Sorting.** A `dueDate` sort puts tasks without a due date first, as MySQL does. Titles sort by code point. Ties keep storage order, but the contracts state only sortedness and a permutation.

## Model

| member | source | states |
|---|---|---|
| Model.DeleteTaskCascade | wxcloudrun/model.py:58 | deleting a task removes exactly that task and exactly its tags; users, goals and blacklist are untouched |
| Model.DeleteGoalCascade | wxcloudrun/model.py:80 | deleting a goal removes exactly that goal and keeps every task, clearing goal_id exactly on the tasks that pointed at it |
| Model.DeleteUserCascade | wxcloudrun/model.py:26-27 | deleting a user removes exactly that user and their goals; every other user's task survives, with goal_id cleared exactly where it named one of the deleted goals, and nothing else appears; exactly the tags of the deleted user's tasks go; the blacklist is kept |
| Model.DeleteTaskKeepsConsistent | wxcloudrun/model.py:58 | the task cascade preserves uniqueness of every key and every foreign key |
| Model.DeleteGoalKeepsConsistent | wxcloudrun/model.py:80 | the goal cascade preserves the invariant: no task is left pointing at a missing goal |
| Model.DeleteUserKeepsConsistent | wxcloudrun/model.py:26-27 | the user cascade preserves the invariant, including other users' tasks that referenced the user's goals |
| TaskFields.ApplyTaskFieldsFrame | wxcloudrun/dao.py:204-210 | the update loop leaves every column the body does not name unchanged |
| TaskFields.ApplyTaskFieldsLastWins | wxcloudrun/dao.py:204-210 | each named column ends up holding the value of the last key naming it |
| TaskFields.TaskFieldsWithoutColumns | wxcloudrun/dao.py:209-210 | a body whose keys name no attribute leaves the task unchanged |
| TaskFields.NewTaskOwnerAndTime | wxcloudrun/dao.py:155-176 | a created task has the caller's id, owner and creation time, whatever the body says |
| TaskFields.NewTaskKeepsDefaults | wxcloudrun/dao.py:155-176 | a created task agrees with the column defaults on every column the body does not name |
| TaskFields.NewTaskPriorityAndCompletion | wxcloudrun/dao.py:159-161 | without those keys a new task has priority medium and is not completed |
| TaskFields.ApplyTaskFieldsLinked | wxcloudrun/model.py:35-36 | an update whose owner and goal keys name existing rows keeps the task's foreign keys valid |
| GoalFields.ApplyGoalFieldsFrame | wxcloudrun/dao.py:328-330 | the goal update loop leaves every column the body does not name unchanged |
| GoalFields.ApplyGoalFieldsLastWins | wxcloudrun/dao.py:328-330 | each named goal column ends up holding the value of the last key naming it |
| GoalFields.GoalFieldsWithoutColumns | wxcloudrun/dao.py:329-330 | a body of unknown keys leaves the goal unchanged |
| GoalFields.NewGoalOwnerAndTime | wxcloudrun/dao.py:297-309 | a created goal has the caller's id, owner and creation time |
| GoalFields.NewGoalDefaults | wxcloudrun/dao.py:302-308 | without those keys a new goal is active, at progress 0, not completed and coloured #000000 |
| GoalFields.NewGoalTitle | wxcloudrun/dao.py:299 | a created goal carries the body's title |
| GoalFields.TitleOfWritten | wxcloudrun/goals.py:38 | a body has a title exactly when it has a title key |
| Dao.GetUserById | wxcloudrun/dao.py:14-22 | the user found has that id and is in the table; None means no user has that id |
| Dao.GetUserByUsername | wxcloudrun/dao.py:24-32 | the user found has that username; None means none has it |
| Dao.GetUserByEmail | wxcloudrun/dao.py:34-42 | the user found has that email; None means none has it |
| Dao.GetTasksByUserId | wxcloudrun/dao.py:81-131 | the list holds exactly the caller's tasks passing the keyword and the goal restriction, as a permutation of them; it is sorted by the requested key, and an unknown key keeps storage order |
| Dao.TaskListKeywords | wxcloudrun/dao.py:91-104 | for each keyword, which of the caller's tasks are listed, read off the due date and completion relative to today's midnight; no keyword, the empty one and "all" keep every task |
| Dao.TaskListOwnedAndInGoal | wxcloudrun/dao.py:88-108 | every listed task is the caller's, and has the requested goal when one is given |
| Dao.KeyLeTotalPreorder | wxcloudrun/dao.py:111-129 | each of the sort orders (due date with no date first, newest first, priority rank high < medium < low, title) is a total preorder |
| Dao.GetTaskById | wxcloudrun/dao.py:136-148 | the task found has that id and passes the owner filter; None means no task does |
| Dao.GetGoalById | wxcloudrun/dao.py:279-290 | the goal found has that id and passes the owner filter; None means no goal does |
| Dao.GetGoalsByUserId | wxcloudrun/dao.py:264-277 | exactly the caller's goals of the requested type ("all" and none keep every type), newest first, as a permutation |
| Dao.IsTokenBlacklisted | wxcloudrun/dao.py:405-413 | true exactly when the lookup fails or some entry holds the token |
| Dao.BlacklistPermanent | wxcloudrun/dao.py:391-413 | a token listed in a blacklist stays listed in every extension of it; every write of `Dao.Store` leaves the blacklist unchanged or appends to it (its Snapshot ensures), so no operation unlists a token |
| Dao.NewTagsNames | wxcloudrun/dao.py:182-185 | the tags added for a task carry exactly the given names, in order, and no other task's |
| Dao.RetaggedNames | wxcloudrun/dao.py:213-220 | after retagging a task its tag names are exactly the given list, and every other task keeps its names |
| Dao.ToggledOnlyCompletion | wxcloudrun/dao.py:255 | toggling negates completed and changes no other column |
| Dao.ToggleTwice | wxcloudrun/dao.py:246-261 | toggling the same task twice restores the task table |
| Dao.Percent | wxcloudrun/dao.py:376 | the progress of done out of total lies in 0..100 and is 100 exactly when all tasks are done |
| Dao.PercentIsFloor | wxcloudrun/dao.py:376 | the progress is the floor of 100 × done / total |
| Dao.RecomputedOutcome | wxcloudrun/dao.py:366-381 | with no linked task the goal is unchanged; otherwise progress is the completed share of every task linked to the goal, whatever its owner, and completed becomes true at 100 and is never cleared |
| Dao.RecomputedExample | wxcloudrun/dao.py:372-377 | two of three linked tasks completed give progress 66 and leave completed as it was |
| Dao.LoggedIn | wxcloudrun/dao.py:71 | login stamps last_login with now, and updated_at with now through its on-update default; it keeps the id, names, hash, creation time and activity flag |
| Dao.AddTags | wxcloudrun/dao.py:182-185 | the tag loop appends one tag per name to the tag table |
| Dao.WriteTaskFields | wxcloudrun/dao.py:204-210 | the setattr loop computes the body applied to the task, skipping tags and unknown keys |
| Dao.WriteGoalFields | wxcloudrun/dao.py:328-330 | the setattr loop computes the body applied to the goal |
| Dao.CountCompleted | wxcloudrun/dao.py:373 | the loop counts the completed tasks among those linked |
| Dao.RecomputeGoal | wxcloudrun/dao.py:366-381 | the recompute computes the goal's new progress and completion from its linked tasks |
| Dao.Store.constructor | wxcloudrun/model.py:13-98 | a fresh store has empty tables and satisfies the invariant |
| Dao.Store.CreateUser | wxcloudrun/dao.py:44-62 | on failure nothing changes; otherwise exactly one user is appended, with the next id, the given names and hash, both timestamps now, no last login and active |
| Dao.Store.UpdateUserLastLogin | wxcloudrun/dao.py:64-78 | succeeds exactly for an existing user without a fault, and then changes only that user's row to the logged-in row |
| Dao.Store.CreateTask | wxcloudrun/dao.py:150-192 | on failure nothing changes; otherwise the new task row is appended and one tag per listed name |
| Dao.Store.UpdateTask | wxcloudrun/dao.py:194-227 | None, with no change, exactly for a missing or unowned task or a fault; otherwise only that row changes, to the body applied to it, and its tags are replaced when the body lists tags and kept otherwise |
| Dao.Store.DeleteTask | wxcloudrun/dao.py:229-244 | succeeds exactly for an owned task; the store becomes the task cascade of the old one |
| Dao.Store.ToggleTaskComplete | wxcloudrun/dao.py:246-261 | None, with no change, exactly for a missing or unowned task or a fault; otherwise only that task's completed is negated |
| Dao.Store.CreateGoal | wxcloudrun/dao.py:292-317 | on failure nothing changes; otherwise exactly the new goal row is appended |
| Dao.Store.UpdateGoal | wxcloudrun/dao.py:319-337 | None, with no change, exactly for a missing or unowned goal or a fault; otherwise only that row changes, to the body applied to it |
| Dao.Store.DeleteGoal | wxcloudrun/dao.py:339-354 | succeeds exactly for an owned goal; the store becomes the goal cascade of the old one |
| Dao.Store.CalculateGoalProgress | wxcloudrun/dao.py:356-388 | false, with no change, for an unknown goal or a fault; otherwise only that goal changes, to its recomputed row |
| Dao.Store.AddTokenToBlacklist | wxcloudrun/dao.py:391-403 | true exactly without a fault, and then the token is appended with the time and is blacklisted |
| Tokens.AccessTokenDecodes | wxcloudrun/utils.py:33-43 | an access token decodes, until 30 minutes after issue, to sub = the user, type access, exp = iat + 30 minutes |
| Tokens.RefreshTokenDecodes | wxcloudrun/utils.py:45-55 | a refresh token decodes, until 7 days after issue, to sub = the user, type refresh, exp = iat + 7 days |
| Tokens.JwtDecode | wxcloudrun/utils.py:62 | decoding yields the claims exactly for a well-formed token that has not expired |
| Tokens.DecodeToken | wxcloudrun/utils.py:57-69 | the payload exactly when the token decodes, has not expired and is not blacklisted; the blacklist is consulted only after decoding |
| Tokens.BlacklistAffectsOnlyItsToken | wxcloudrun/utils.py:63 | listing one token does not change how any other token decodes |
| Tokens.JoinSplit | wxcloudrun/utils.py:83 | splitting on a single space is inverted by joining with it, so empty words are kept |
| Tokens.BearerToken | wxcloudrun/utils.py:80-88 | a token taken from the header is non-empty and contains no space |
| Tokens.BearerTokenOfHeader | wxcloudrun/utils.py:83 | the token is the second word whatever the first word is |
| Tokens.BearerTokenMissing | wxcloudrun/utils.py:80-88 | a header of one word, and a header whose second word is empty, give no token |
| Tokens.Authenticate | wxcloudrun/utils.py:76-105 | when the guard admits, the user is the stored user with the token's sub |
| Tokens.GuardPrecedence | wxcloudrun/utils.py:80-105 | each outcome holds exactly when every earlier check passed: missing, then invalid, expired or revoked, then wrong type, then unknown user; otherwise the handler gets the user by sub |
| Tokens.RevokedTokenRejected | wxcloudrun/utils.py:63-64 | a blacklisted token that is present is rejected as invalid by either guard |
| Tokens.RefreshTokenNeverAccess | wxcloudrun/utils.py:96 | a refresh token never passes the access guard |
| Tokens.AccessTokenNeverRefresh | wxcloudrun/utils.py:134 | an access token never passes the refresh guard |
| Tokens.AccessTokenAdmitted | wxcloudrun/utils.py:71-107 | a fresh, unrevoked access token of an existing user, behind any first word without a space, admits that user |
| Tokens.RefreshTokenAdmitted | wxcloudrun/utils.py:109-145 | the same for a refresh token and the refresh guard |
| Tokens.HashPassword | wxcloudrun/utils.py:21-31 | the hash made from a password checks against that password |
| Auth.RegisterCheck | wxcloudrun/auth.py:18-27 | missing_fields exactly when a field is absent or empty; username_exists when the username is taken, before email_exists; none otherwise |
| Auth.Register | wxcloudrun/auth.py:10-37 | a failed check is 400 with its code and no change; a failed insert is 500 create_failed; otherwise 201 and exactly one user appended, storing the hash of the password |
| Auth.RegisteredPasswordChecks | wxcloudrun/auth.py:30-31 | the registered user's stored hash checks against the password given |
| Auth.LoginCheck | wxcloudrun/auth.py:47-57 | missing_fields for an absent or empty field; success exactly when a user with that username has a matching password; 401 invalid_credentials otherwise |
| Auth.Login | wxcloudrun/auth.py:39-71 | a failed check changes nothing; a success is 200 with an access and a refresh token for the user's id issued now; only the user's row changes, to the logged-in row, and when that update fails nothing changes but the login still succeeds |
| Auth.Refresh | wxcloudrun/auth.py:73-84 | a guard rejection is 401 with its code; otherwise 200 with a new access token for the refresh token's user |
| Auth.RefreshIssuesAccess | wxcloudrun/auth.py:80-84 | a fresh refresh token yields an access token issued now for its user, and nothing is revoked |
| Auth.Logout | wxcloudrun/auth.py:86-100 | a guard rejection is 401 with no change; a failed insert is 500 logout_failed; otherwise 204 with exactly the presented token blacklisted, which the access guard then refuses as invalid at every later time |
| Auth.RegisterThenLogin | test_api.py:242-243 | on a fresh store, registering then logging in yields the user and the two tokens, with the stored row stamped at login |
| Auth.SessionScenario | test_api.py:241-261 | register, login, use the access token, refresh, log out with the new access token: each succeeds; afterwards that token is refused as invalid and the refresh token still works |
| GoalRoutes.GetGoals | wxcloudrun/goals.py:14-27 | always 200 and newest first; only the caller's goals; without a type argument, exactly the caller's goals, as a permutation |
| GoalRoutes.AddGoal | wxcloudrun/goals.py:29-61 | 400 missing_title for an absent or empty title, then 400 invalid_date, then 500 create_failed, all with no change; otherwise 201 with the new goal, owned by the caller, titled by the body, appended |
| GoalRoutes.GetGoal | wxcloudrun/goals.py:63-74 | 200 with the goal exactly when the caller has a goal with that id; 404 goal_not_found otherwise |
| GoalRoutes.GoalIndexById | wxcloudrun/dao.py:279-287 | with unique ids, the lookup finds the row holding the id exactly when the owner filter admits it |
| GoalRoutes.UpdateGoalRoute | wxcloudrun/goals.py:76-114 | 400 missing_data for an empty body, 400 invalid_date, 404 goal_not_found for a missing or unowned goal or a failed update, each with no change; otherwise the owned goal is written, recomputed when the body has completed or progress and no fault, then read back: 200 with it, or 500 when the body moved it to another owner |
| GoalRoutes.RecomputeAndReRead | wxcloudrun/goals.py:108-114 | the recompute runs exactly when asked and changes only that goal; the re-read returns the row when the owner filter admits it |
| GoalRoutes.ProgressAfterUpdate | wxcloudrun/goals.py:108-109 | a client-set progress survives only on a goal without tasks; once tasks are linked the recomputed share replaces it |
| GoalRoutes.DeleteGoalRoute | wxcloudrun/goals.py:116-127 | 404 goal_not_found with no change for a missing or unowned goal; otherwise 204, the goal cascade applied, no goal with that id left and no task pointing at it |
| GoalRoutes.GetGoalTasks | wxcloudrun/goals.py:129-144 | 404 goal_not_found exactly when the caller has no such goal |
| GoalRoutes.GoalTasksListed | wxcloudrun/goals.py:136-142 | for the caller's goal, exactly the caller's tasks with that goal id, each once (a permutation of them), newest first |

## Left out

- JWT encoding and HS256 signing are abstract. A `Codec` of encode and decode functions replaces PyJWT, and `Sound` states the round trip it is assumed to satisfy.
- PyJWT's own checks beyond expiry are not modelled: signature, algorithm, iat, and claim types.
- Password hashing is an abstract `Hasher` digest of salt and password, with the random salt as a parameter. That the stored value is not the plaintext holds only by typing: a `PasswordHash` record is not a string.
- The clock is a parameter. The two `utcnow()` readings of one token are the same instant. `datetime.now()` in the store and the midnight computation (wxcloudrun/dao.py:92) are inputs.
- Date parsing with `fromisoformat` is a library call. Date fields arrive parsed, or marked unparsable.
- Dao.Store.CalculateGoalProgress: computes the floor of 100 × done / total. The source's `int((c / t) * 100)` goes through floating point and can land one below that floor (29 of 100 gives 28).
- SQL details are not modelled: collation (titles compare by code point), case-insensitive uniqueness checks, and the tie order of equal sort keys.
- Dao.GetTasksByUserId: places tasks without a due date first, as MySQL does; another engine may differ.
- `IntegrityError` cases are preconditions of the writes, because the source does not catch them: duplicate usernames, emails, ids and tokens, a missing task title, and dangling owner or goal ids.
- Read failures are not modelled, except the blacklist lookup, whose failure answers "blacklisted". Every other `OperationalError` on a read yields an empty list or None in the source, and the model treats read queries as infallible.
- The `format_task`, `format_goal` and `format_user` JSON shaping is serialisation and is left out. Replies carry the row itself.
- GoalRoutes.UpdateGoalRoute: the 500 for a goal moved to another owner is `Failure(500, "")`. In the source this is the framework's answer to an uncaught exception, not a JSON error code.
- Auth.Login: the user returned is the row after the login stamp, or the row before it when the stamp is rolled back. In the source `format_user` reads the ORM object that the stamp changed, and a rollback reloads it.
- wxcloudrun/tasks.py is not part of this model; its handlers pass through to the data-access layer. wxcloudrun/views.py and wxcloudrun/__init__.py (wiring, CORS, health check) are not either. The API script test_api.py makes live HTTP calls; only its session order appears, as `Auth.SessionScenario`.
- The `/me` route is the access guard followed by serialisation; the scenario uses the guard directly.
- The `id` body key and the relationship attributes (`user` and `goal` on a task, `user` and `tasks` on a goal) are not body keys in the model, although the setattr loop would accept them. A task's `tags` key is modelled: the loop skips it (wxcloudrun/dao.py:205-206) and the tag table is rewritten instead.
- JSON null is not modelled for nine columns that the schema leaves nullable but the model types as plain values: a task's `completed`, `priority`, `estimated_time`, `actual_time` and `is_repeating` (wxcloudrun/model.py:38, 40-42, 49), a goal's `completed`, `progress` and `goal_type` (wxcloudrun/model.py:74-77), and a user's `is_active` (wxcloudrun/model.py:23). A null sent for one of them on update is stored as NULL in the source. A null on a non-null column, and a string outside an enum, is a database error at commit and is not modelled either.
- Dao.KeyLeTotalPreorder: the priority sort uses the rank high < medium < low stated by the comment at wxcloudrun/dao.py:117. The call at wxcloudrun/dao.py:119-123 passes the medium case as a second positional argument to `db.case`, where SQLAlchemy reads it as the `value` argument, not as a second branch; what SQL that yields depends on the library version and is not modelled.
- Two type errors that end in a 500 from the framework are not modelled: `tags: null` on a task update, which the tag loop at wxcloudrun/dao.py:218 cannot iterate, and a truthy `start_date` or `end_date` that is not a string, which has no `.replace` (wxcloudrun/goals.py:44, 50, 91, 97).
- The special handling of falsy date strings such as `""` is not modelled. Such a value skips parsing in the source and reaches the column as-is.
- The width of `custom_week_days` (String(20)) is not modelled. An empty list given on update is stored as that list rather than encoded as JSON.
- Tag rows have surrogate integer keys in the source. The model does not give them any key beyond (task id, name).
- Non-JSON request bodies (where `get_json()` yields None or fails) are not modelled. An empty JSON object is modelled as the empty body.
