# Synalix AI backend — a verified model of its service core

Synalix AI is a Java (Spring Boot) backend for a fine-tuning platform. Users
upload datasets and files, register base models, launch training and
inference tasks on a separate compute backend, collect the checkpoints those
tasks produce, and read system messages. Administrators manage accounts, GPU
grants and the model catalogue.

This project models the business logic of that backend in Dafny and proves
what the services promise:

- **Tasks** (`tasks.dfy`, `task_service.dfy`). Tasks are created, submitted,
  refreshed against the backend's status words, listed, stopped, and reported
  (metrics and logs).
- **Checkpoints** (`checkpoints.dfy`). The backend's nested checkpoint answer
  is flattened into rows. Each row gets a checkpoint kind and is named after
  its path.
- **Messages** (`messages.dfy`). Public and private system messages, with the
  rule that decides who may read which.
- **Accounts** (`users.dfy`, `auth.dfy`, `refresh_tokens.dfy`). User
  management with its self-protection guards, login, token refresh and
  logout, and the refresh-token table with its bulk queries.
- **GPU grants** (`gpu_permissions.dfy`). The per-user set of allowed GPUs.
- **Object-storage services** (`files.dfy`, `datasets.dfy`,
  `model_checkpoints.dfy`, `storage.dfy`). Stored files, datasets and
  uploaded checkpoints. Their object keys, presigned upload and download URLs
  and upload confirmation are covered.
- **Model registries** (`base_models.dfy`, `models.dfy`).
- **Controller parsers and routing** (`memory_readings.dfy`, `spa.dfy`). The
  memory reading "used/totalMB" that the GPU and resource listings parse, and
  the single-page-application fallback controller.

Each service that updates tables in place is a `class`. Its tables are `map`
or `seq` fields, and its audit trail is an append-only `seq`. Every
state-changing method states the whole new state and its error cases. The
pure parts are functions, and lemmas relate them: round trips, idempotence,
and "nothing else changes". The outside world enters as parameters:

- the compute backend's answers;
- the object store's signer and its reads and deletes;
- the password encoder, the JWT signer and the random token value;
- the current time;
- the id the database generates.

A failed `@Transactional` method leaves its tables as they were. The model
snapshots the table and restores it on the error path. Requests already sent
and audit records already queued stay.

A Java exception that no handler maps to a code becomes
`INTERNAL_SERVER_ERROR`, which is how the global handler answers it. This
covers the `NullPointerException` that `Map.of` throws on a null audit
value. It happens in:

- `createFile` with a null file name;
- `markUploaded` with a null size;
- `updateDataset` with a null size or path;
- `confirmUpload` with a null file size;
- `stopTask` on a task without an external id.

The model keeps these paths as the code has them.

Modules follow the Java packages: `Common` (ids, error codes, `Result`),
`Strings` (the `java.lang.String` operations the services use, ASCII only),
then one module per service.

## Model

| member | source | states |
|---|---|---|
| Tasks.MergeGpuIds | src/main/java/ai/synalix/synalixai/service/TaskService.java:118-133 | A missing or empty GPU list keeps the configuration. Otherwise "gpuIds" is set to the list, a configuration is created when there is none, and every other key keeps its value. |
| Tasks.MapBackendStatus | src/main/java/ai/synalix/synalixai/service/TaskService.java:327-338 | For each status, the result is that status exactly when the lower-cased word is one of its backend words. A missing status and any unknown word give PENDING. |
| Tasks.MapBackendStatusIgnoresCase | src/main/java/ai/synalix/synalixai/service/TaskService.java:327-338 | Two words that lower-case alike map to the same status. |
| Tasks.MapBackendStatusOfLowered | src/main/java/ai/synalix/synalixai/service/TaskService.java:327-338 | Lower-casing a word before mapping it changes nothing. |
| Tasks.BackendWord | src/main/java/ai/synalix/synalixai/service/TaskService.java:327-338 | Each status has a canonical backend word, and that word is already lower case. |
| Tasks.MapBackendStatusRoundTrip | src/main/java/ai/synalix/synalixai/service/TaskService.java:327-338 | Every local status is reachable: its canonical word, in any casing, maps back to it. |
| Tasks.PolledItem | src/main/java/ai/synalix/synalixai/service/TaskService.java:290-322 | A status item is acted on exactly when all of these hold: the task has a non-blank external id, the query succeeded, the body is present, and the body has an item under that id. The item is then the body's entry for that id. |
| Tasks.Refreshed | src/main/java/ai/synalix/synalixai/service/TaskService.java:290-322 | A refresh changes only the status. The task is untouched when no item is found; otherwise the status is the mapped word. |
| Tasks.RefreshIdempotent | src/main/java/ai/synalix/synalixai/service/TaskService.java:290-322 | Refreshing twice against the same answer is refreshing once. |
| Tasks.RefreshCanReopenFinishedTask | src/main/java/ai/synalix/synalixai/service/TaskService.java:310-318 | A COMPLETED task whose backend item has no status word goes back to PENDING. |
| TaskOrchestration.AcceptedTaskId | src/main/java/ai/synalix/synalixai/service/TaskService.java:72-79 | A backend task id is found exactly when the submission answered with a body whose nested request carries a task id. |
| TaskOrchestration.PollRequests | src/main/java/ai/synalix/synalixai/service/TaskService.java:167 | A listing sends at most one status query per task. |
| TaskOrchestration.RefreshedTable | src/main/java/ai/synalix/synalixai/service/TaskService.java:156-169 | Refreshing the selected rows keeps the table's ids. |
| TaskOrchestration.RefreshAllIdempotent | src/main/java/ai/synalix/synalixai/service/TaskService.java:156-169 | Listing every task twice against an unchanged backend leaves the table as the first listing did. |
| TaskOrchestration.FindTasks | src/main/java/ai/synalix/synalixai/service/TaskService.java:156-166 | The ids `getAllTasks` lists are stored ones, and exactly those of the tasks that pass the given status and type filters. |
| TaskOrchestration.FindTasksFilters | src/main/java/ai/synalix/synalixai/repository/TaskRepository.java:27-44 | Without filters the service's query lists every task, and the query by status and type lists exactly the tasks that both single-filter queries list. |
| TaskOrchestration.RefreshedTableStep | src/main/java/ai/synalix/synalixai/service/TaskService.java:167 | Refreshing one more task: its row was still the original, and saving the refreshed row (only when the backend reported an item) yields the table with that task refreshed too. |
| TaskOrchestration.PollRequestsSnoc | src/main/java/ai/synalix/synalixai/service/TaskService.java:167 | The queries of a longer listing are those of its prefix, then those of its last task. |
| TaskOrchestration.IdsOf | src/main/java/ai/synalix/synalixai/service/TaskService.java:156-169 | The ids of a task list, position by position. |
| TaskOrchestration.TaskService.SubmitTask | src/main/java/ai/synalix/synalixai/service/TaskService.java:66-95 | The submission is always sent. Without a backend id the result is INTERNAL_SERVER_ERROR and the table and audit are unchanged. With one, the task is saved as RUNNING with that id and the configuration, and a submission record is audited. |
| TaskOrchestration.TaskService.CreateTask | src/main/java/ai/synalix/synalixai/service/TaskService.java:101-151 | An unknown model gives MODEL_NOT_FOUND, then an unknown dataset gives DATASET_NOT_FOUND; in both cases nothing changes. Otherwise the create record is audited, the merged configuration is submitted, and the new row is either saved RUNNING or rolled back with INTERNAL_SERVER_ERROR. |
| TaskOrchestration.TaskService.GetTaskById | src/main/java/ai/synalix/synalixai/service/TaskService.java:174-177 | The stored task, or TASK_NOT_FOUND exactly when the id is unknown. |
| TaskOrchestration.TaskService.RefreshStatus | src/main/java/ai/synalix/synalixai/service/TaskService.java:290-322 | The returned task is `Refreshed`. It is saved only when an item was found. At most one query is sent and nothing is audited. |
| TaskOrchestration.TaskService.GetAllTasks | src/main/java/ai/synalix/synalixai/service/TaskService.java:156-169 | Each filtered task is returned once, refreshed. The table becomes the refreshed table, and one query is sent per returned task. |
| TaskOrchestration.TaskService.RefreshEach | src/main/java/ai/synalix/synalixai/service/TaskService.java:167 | The loop refreshes the given tasks in order. The result and the table agree with `Refreshed` for each task. |
| TaskOrchestration.TaskService.StopTask | src/main/java/ai/synalix/synalixai/service/TaskService.java:183-222 | An unknown task gives TASK_NOT_FOUND and a finished one TASK_CANNOT_STOP, with nothing sent or changed. Otherwise the backend is asked to cancel when the task has an external id. A confirmed cancel saves STOPPED and audits the previous status. A failed cancel, or a missing external id (the audit map throws), gives INTERNAL_SERVER_ERROR with the table unchanged. |
| TaskOrchestration.TaskService.GetTaskMetrics | src/main/java/ai/synalix/synalixai/service/TaskService.java:227-250 | TASK_NOT_FOUND exactly for an unknown task. Otherwise one entry, stamped `now`: epoch 1 exactly when the task is RUNNING, and all zero otherwise. |
| TaskOrchestration.TaskService.GetTaskLogs | src/main/java/ai/synalix/synalixai/service/TaskService.java:276-282 | TASK_NOT_FOUND exactly for an unknown task. Otherwise the log text, or the fixed notice when the object cannot be read. |
| Checkpoints.MapType | src/main/java/ai/synalix/synalixai/service/CheckpointService.java:177-185 | ADAPTER exactly for "lora" or "adapter" in any case; anything else, or nothing, is a full model. |
| Checkpoints.ExtractName | src/main/java/ai/synalix/synalixai/service/CheckpointService.java:190-198 | When the path has a '/' before its last character, the name is the non-empty, slash-free tail after the last '/'. Otherwise it is the task id, and "checkpoint" when there is none. |
| Checkpoints.ExtractNameOfJoinedPath | src/main/java/ai/synalix/synalixai/service/CheckpointService.java:190-198 | "dir/segment" with a non-empty, slash-free last segment is named after that segment, even one made only of white space. |
| Checkpoints.BlankLastSegmentNotStorable | src/main/java/ai/synalix/synalixai/entity/Checkpoint.java:52-54 | A backend path whose last segment is blank, such as "a/ ", gives the blank name that the entity's `@NotBlank` refuses, so it can never be stored. |
| Checkpoints.ExtractNameWithoutSlash | src/main/java/ai/synalix/synalixai/service/CheckpointService.java:190-198 | A path without '/' yields the task id. |
| Checkpoints.Drafts | src/main/java/ai/synalix/synalixai/service/CheckpointService.java:105-123 | One checkpoint per (kind, task, path) triple. |
| Checkpoints.DraftsAppend | src/main/java/ai/synalix/synalixai/service/CheckpointService.java:105-123 | Building checkpoints distributes over concatenation. |
| Checkpoints.TaskSources | src/main/java/ai/synalix/synalixai/service/CheckpointService.java:110-121 | A task contributes one triple per path, in order; a null or empty path list contributes none. |
| Checkpoints.FlattenLength | src/main/java/ai/synalix/synalixai/service/CheckpointService.java:105-123 | The flattening yields exactly one checkpoint per path in the answer. |
| Checkpoints.SourcesLength | src/main/java/ai/synalix/synalixai/service/CheckpointService.java:105-123 | The answer has as many triples as paths. |
| Checkpoints.GroupSourcesLength | src/main/java/ai/synalix/synalixai/service/CheckpointService.java:106-122 | A kind has as many triples as its tasks have paths. |
| Checkpoints.GroupSourcesMembers | src/main/java/ai/synalix/synalixai/service/CheckpointService.java:106-122 | A kind's triples are exactly the paths of its tasks. |
| Checkpoints.SourcesMembers | src/main/java/ai/synalix/synalixai/service/CheckpointService.java:105-123 | The answer's triples are exactly its (kind, task, path) triples. |
| Checkpoints.FlattenMembers | src/main/java/ai/synalix/synalixai/service/CheckpointService.java:105-123 | Every stored checkpoint comes from one triple of the answer, and every triple gives one. |
| Checkpoints.ToResponse | src/main/java/ai/synalix/synalixai/service/CheckpointService.java:220-229 | The response copies id, model, name, path, time and kind. |
| Checkpoints.ToResponseHidesTaskId | src/main/java/ai/synalix/synalixai/service/CheckpointService.java:220-229 | The response does not depend on the task id. |
| Checkpoints.RowsOfModel | src/main/java/ai/synalix/synalixai/service/CheckpointService.java:58-64 | The rows of a model are exactly the stored rows with that model id. |
| Checkpoints.Responses | src/main/java/ai/synalix/synalixai/service/CheckpointService.java:58-64 | One response per row, in order. |
| Checkpoints.Saved | src/main/java/ai/synalix/synalixai/service/CheckpointService.java:125-126 | The drafts saved together become rows in the same order, each under its own generated id. |
| Checkpoints.SavedKeepsIdsUnique | src/main/java/ai/synalix/synalixai/entity/Checkpoint.java:29-31 | Saving under distinct, unused generated ids keeps the primary key unique. |
| Checkpoints.BuildCheckpoints | src/main/java/ai/synalix/synalixai/service/CheckpointService.java:105-123 | The nested loops produce exactly `Flatten` of the answer. |
| Checkpoints.AddGroup | src/main/java/ai/synalix/synalixai/service/CheckpointService.java:106-122 | The loop over one kind appends that kind's checkpoints. |
| Checkpoints.AddPaths | src/main/java/ai/synalix/synalixai/service/CheckpointService.java:110-121 | The loop over a task's paths appends one checkpoint per path. |
| Checkpoints.CheckpointService.GetByModelId | src/main/java/ai/synalix/synalixai/service/CheckpointService.java:58-64 | A null model id gives MODEL_NOT_FOUND. Otherwise the result is the responses of exactly that model's rows. Table order is the model's choice, since `findByModelId` has no ORDER BY. |
| Checkpoints.CheckpointService.FetchAndStore | src/main/java/ai/synalix/synalixai/service/CheckpointService.java:99-127 | A failed fetch passes its error on, and a null or empty answer gives RESOURCE_NOT_FOUND; in both cases nothing is saved. If any flattened checkpoint breaks the entity's constraints (null or blank path, blank name, path over 512 or name over 200 characters), the transactional save fails as a whole: INTERNAL_SERVER_ERROR and nothing is saved. Otherwise the flattened checkpoints are appended under fresh generated ids and returned, and the primary key stays unique. |
| Messages.NewestFirst | src/main/java/ai/synalix/synalixai/repository/MessageRepository.java:18 | The table in reverse creation order, with the same messages. |
| Messages.VisibleMessages | src/main/java/ai/synalix/synalixai/repository/MessageRepository.java:23 | Exactly the public messages and those addressed to the requester. |
| Messages.VisibleMessagesSnoc | src/main/java/ai/synalix/synalixai/repository/MessageRepository.java:23 | The visible list keeps table order: one more message joins its end exactly when the requester may read it. |
| Messages.Find | src/main/java/ai/synalix/synalixai/service/MessageService.java:85-102 | The message with that id, or none exactly when no stored message has it. |
| Messages.Without | src/main/java/ai/synalix/synalixai/service/MessageService.java:108-124 | Exactly the messages with another id. |
| Messages.FindStored | src/main/java/ai/synalix/synalixai/service/MessageService.java:85-102 | With distinct ids, looking up a stored message's id finds it. |
| Messages.WithoutKeepsDistinct | src/main/java/ai/synalix/synalixai/service/MessageService.java:108-124 | Deleting a message keeps the ids distinct. |
| Messages.MessageService.CreateMessage | src/main/java/ai/synalix/synalixai/service/MessageService.java:41-70 | A private message without a target gives MISSING_REQUIRED_FIELD; one with an unknown target gives USER_NOT_FOUND. Otherwise the message is appended and audited. A public message keeps its target unchecked. |
| Messages.MessageService.GetMessages | src/main/java/ai/synalix/synalixai/service/MessageService.java:75-80 | An administrator asking for all gets every message, newest first. Anyone else gets the messages visible to them, each once, newest first (the reverse of creation order). |
| Messages.MessageService.GetMessage | src/main/java/ai/synalix/synalixai/service/MessageService.java:85-102 | MESSAGE_NOT_FOUND exactly for an unknown id. An administrator reads any message; others read only visible ones, else ACCESS_DENIED. |
| Messages.MessageService.DeleteMessage | src/main/java/ai/synalix/synalixai/service/MessageService.java:108-124 | An unknown id gives MESSAGE_NOT_FOUND. Otherwise exactly that message is removed and the deletion is audited. |
| Messages.MessageService.GetMessageAgreesWithList | src/test/java/ai/synalix/synalixai/service/MessageServiceTest.java:51-210 | A non-administrator can open a stored message exactly when it is in their list. |
| RefreshTokens.NewToken | src/main/java/ai/synalix/synalixai/entity/RefreshToken.java:41-45 | A new token is not revoked and carries its user, value, expiry and creation time. |
| RefreshTokens.Revoke | src/main/java/ai/synalix/synalixai/entity/RefreshToken.java:69-71 | Revoking sets the flag and changes nothing else. |
| RefreshTokens.IsExpired | src/main/java/ai/synalix/synalixai/entity/RefreshToken.java:55-57 | An expired token is caught by the expired-token query. That query also catches a token at its very instant of expiry. |
| RefreshTokens.IsValid | src/main/java/ai/synalix/synalixai/entity/RefreshToken.java:62-64 | A token is valid exactly when the valid-token query returns it, or when it is unrevoked and expires at that very instant. |
| RefreshTokens.ExpiredStaysExpired | src/main/java/ai/synalix/synalixai/entity/RefreshToken.java:55-64 | An expired token stays expired and invalid later. |
| RefreshTokens.RevokeIsFinal | src/main/java/ai/synalix/synalixai/entity/RefreshToken.java:62-71 | Revoking is idempotent, and a revoked token is never valid. |
| RefreshTokens.ValidQueryVersusIsValid | src/main/java/ai/synalix/synalixai/repository/RefreshTokenRepository.java:34-35 | The valid-token query agrees with `isValid` except at the exact instant of expiry, which only `isValid` accepts. |
| RefreshTokens.Where | src/main/java/ai/synalix/synalixai/repository/RefreshTokenRepository.java:29-41 | A SELECT returns exactly the matching rows. Keeping table order is the model's choice, since these queries have no ORDER BY. |
| RefreshTokens.First | src/main/java/ai/synalix/synalixai/repository/RefreshTokenRepository.java:24 | A matching row, or none exactly when no row matches. |
| RefreshTokens.MarkRevoked | src/main/java/ai/synalix/synalixai/repository/RefreshTokenRepository.java:46-55 | An UPDATE revokes exactly the selected rows, in place. |
| RefreshTokens.MarkRevokedKeepsDistinct | src/main/java/ai/synalix/synalixai/repository/RefreshTokenRepository.java:46-55 | Revoking keeps ids and token values unique. |
| RefreshTokens.WhereSplits | src/main/java/ai/synalix/synalixai/repository/RefreshTokenRepository.java:61-69 | The kept rows and the deleted rows together make up the table. |
| RefreshTokens.WhereNone | src/main/java/ai/synalix/synalixai/repository/RefreshTokenRepository.java:29-41 | A selection that no row satisfies is empty. |
| RefreshTokens.AtMostOneRowPerToken | src/main/java/ai/synalix/synalixai/entity/RefreshToken.java:33 | Token values are unique, so a value selects at most one row. |
| RefreshTokens.WhereKeepsDistinct | src/main/java/ai/synalix/synalixai/repository/RefreshTokenRepository.java:61-69 | A filtered table stays free of duplicates. |
| RefreshTokens.NoValidTokenAfterRevokeAll | src/main/java/ai/synalix/synalixai/repository/RefreshTokenRepository.java:46-48 | After revoking all of a user's tokens, the user's valid-token query is empty at any time. |
| RefreshTokens.NoValidTokens | src/main/java/ai/synalix/synalixai/repository/RefreshTokenRepository.java:34-35 | The valid-token query is empty exactly when each of the user's tokens fails `isValid` or expires at that instant. |
| RefreshTokens.Sift | src/main/java/ai/synalix/synalixai/repository/RefreshTokenRepository.java:61-69 | The DELETE loop keeps the unselected rows and counts the selected ones. |
| RefreshTokens.Mark | src/main/java/ai/synalix/synalixai/repository/RefreshTokenRepository.java:46-55 | The UPDATE loop yields the table with exactly the selected rows revoked, and counts them. |
| RefreshTokens.RefreshTokenRepository.FindByToken | src/main/java/ai/synalix/synalixai/repository/RefreshTokenRepository.java:24 | The row with that value, or none exactly when there is none. |
| RefreshTokens.RefreshTokenRepository.FindByUserId | src/main/java/ai/synalix/synalixai/repository/RefreshTokenRepository.java:29 | Exactly the user's rows. |
| RefreshTokens.RefreshTokenRepository.FindValidTokensByUserId | src/main/java/ai/synalix/synalixai/repository/RefreshTokenRepository.java:34-35 | Exactly the user's unrevoked rows expiring after `now`. |
| RefreshTokens.RefreshTokenRepository.CountValidTokensByUserId | src/main/java/ai/synalix/synalixai/repository/RefreshTokenRepository.java:74-75 | The count is the size of the valid-token query. |
| RefreshTokens.RefreshTokenRepository.FindExpiredTokens | src/main/java/ai/synalix/synalixai/repository/RefreshTokenRepository.java:40-41 | Exactly the rows expiring at or before the given time. |
| RefreshTokens.RefreshTokenRepository.Save | src/main/java/ai/synalix/synalixai/service/AuthService.java:212-219 | A fresh token is appended to the table. |
| RefreshTokens.RefreshTokenRepository.RevokeWhere | src/main/java/ai/synalix/synalixai/repository/RefreshTokenRepository.java:46-55 | The rows become `MarkRevoked`, and the count is the number of matched rows. |
| RefreshTokens.RefreshTokenRepository.DeleteWhere | src/main/java/ai/synalix/synalixai/repository/RefreshTokenRepository.java:61-69 | Exactly the selected rows are removed, and the count is how many. |
| RefreshTokens.RefreshTokenRepository.RevokeAllTokensByUserId | src/main/java/ai/synalix/synalixai/repository/RefreshTokenRepository.java:46-48 | Every row of the user is revoked and no other row changes. |
| RefreshTokens.RefreshTokenRepository.RevokeTokenByToken | src/main/java/ai/synalix/synalixai/repository/RefreshTokenRepository.java:53-55 | The row with that value is revoked. The count is at most 1, and it is 1 exactly when such a row existed. |
| RefreshTokens.RefreshTokenRepository.DeleteExpiredTokens | src/main/java/ai/synalix/synalixai/repository/RefreshTokenRepository.java:61-62 | Exactly the rows expiring at or before the time are removed, and none is left. |
| RefreshTokens.RefreshTokenRepository.DeleteRevokedTokensOlderThan | src/main/java/ai/synalix/synalixai/repository/RefreshTokenRepository.java:67-69 | Exactly the revoked rows created at or before the cutoff are removed. |
| Users.UserRepository.FindByUsername | src/main/java/ai/synalix/synalixai/repository/UserRepository.java:25 | The stored user with that name, or none exactly when the name is unused. |
| Users.UserRepository.LookupByUsername | src/main/java/ai/synalix/synalixai/repository/UserRepository.java:25 | The lookup agrees with `FindByUsername`. |
| Users.UserService.GetUserById | src/main/java/ai/synalix/synalixai/service/UserService.java:96-99 | The stored user, or USER_NOT_FOUND exactly for an unknown id. |
| Users.UserService.CreateUser | src/main/java/ai/synalix/synalixai/service/UserService.java:51-91 | A taken name gives USERNAME_EXISTS, then a taken non-blank e-mail gives EMAIL_EXISTS, with nothing changed. Otherwise an enabled user with the hash and the given role (USER by default) is added and audited. |
| Users.UserService.UpdateUserInfo | src/main/java/ai/synalix/synalixai/service/UserService.java:120-154 | A new non-blank nickname replaces the old one. A new e-mail replaces the old one, and a blank one clears it, unless another user has it (EMAIL_EXISTS). Nothing is saved when nothing changes. |
| Users.UserService.ChangePassword | src/main/java/ai/synalix/synalixai/service/UserService.java:160-181 | A wrong current password is audited as a failure and changes nothing else. A right one replaces the hash and revokes all the user's tokens. |
| Users.UserService.ResetPassword | src/main/java/ai/synalix/synalixai/service/UserService.java:187-202 | The hash is replaced and all the user's tokens are revoked. |
| Users.UserService.UpdateUserRole | src/main/java/ai/synalix/synalixai/service/UserService.java:208-245 | The user and the operator must exist and the operator must be an admin. An admin cannot change their own role. The same role changes nothing; a new role revokes the user's tokens. |
| Users.UserService.UpdateUserStatus | src/main/java/ai/synalix/synalixai/service/UserService.java:251-284 | Nobody may disable themselves. The same status changes nothing. Disabling revokes the user's tokens; enabling revokes none. |
| Users.UserService.DeleteUser | src/main/java/ai/synalix/synalixai/service/UserService.java:290-321 | Nobody may delete themselves or an administrator. Otherwise the user's tokens are revoked and only that user is removed. |
| Auth.AuthService.GenerateAndSaveRefreshToken | src/main/java/ai/synalix/synalixai/service/AuthService.java:204-221 | An unrevoked token for the user, expiring in seven days, is appended and its value returned. |
| Auth.AuthService.Authenticate | src/main/java/ai/synalix/synalixai/service/AuthService.java:102-132 | An unknown name, then a disabled account, then a wrong password each fail without a token. A login issues a new refresh token and is audited. |
| Auth.AuthService.RefreshAccessToken | src/main/java/ai/synalix/synalixai/service/AuthService.java:138-171 | An unknown, revoked, expired or ownerless token gives INVALID_REFRESH_TOKEN, and a disabled user gives ACCOUNT_DISABLED. Otherwise an access token is issued for the token's user. The token table never changes. |
| Auth.AuthService.Logout | src/main/java/ai/synalix/synalixai/service/AuthService.java:177-188 | The given token is revoked (nothing when absent) and the logout is audited. |
| Auth.AuthService.LogoutByToken | src/main/java/ai/synalix/synalixai/service/AuthService.java:85-96 | The given token is revoked, and the logout is audited under the stored token's user. |
| Auth.AuthService.RevokeAllUserTokens | src/main/java/ai/synalix/synalixai/service/AuthService.java:194-199 | Every token of the user is revoked, and the revocation is audited. |
| Auth.LoggedOutTokenIsInvalid | src/main/java/ai/synalix/synalixai/service/AuthService.java:138-188 | A token revoked by logout is never valid again. |
| GpuPermissions.ToView | src/main/java/ai/synalix/synalixai/service/GpuPermissionService.java:121-128 | The view carries the user's id, name, nickname and GPU ids. |
| GpuPermissions.GrantsOf | src/main/java/ai/synalix/synalixai/service/GpuPermissionService.java:89-96 | Exactly one row per listed GPU for that user. |
| GpuPermissions.UnknownGpu | src/main/java/ai/synalix/synalixai/service/GpuPermissionService.java:77-86 | One unknown GPU fails the check. |
| GpuPermissions.GpuPermissionService.HasGpuPermission | src/main/java/ai/synalix/synalixai/service/GpuPermissionService.java:107-109 | True exactly when a permission row for that user and GPU exists. |
| GpuPermissions.GpuPermissionService.AllowedGpuIds | src/main/java/ai/synalix/synalixai/service/GpuPermissionService.java:114-116 | Exactly the GPUs the user has a row for. |
| GpuPermissions.GpuPermissionService.GetAllowedGpuIds | src/main/java/ai/synalix/synalixai/service/GpuPermissionService.java:114-116 | The user's GPUs, each once. |
| GpuPermissions.GpuPermissionService.GetUserGpuPermission | src/main/java/ai/synalix/synalixai/service/GpuPermissionService.java:59-65 | USER_NOT_FOUND exactly for an unknown user; otherwise the user with the GPUs they may use. |
| GpuPermissions.GpuPermissionService.GetAllUserGpuPermissions | src/main/java/ai/synalix/synalixai/service/GpuPermissionService.java:46-54 | Exactly one entry per user, each with that user's GPUs. |
| GpuPermissions.GpuPermissionService.UpdateUserGpuPermission | src/main/java/ai/synalix/synalixai/service/GpuPermissionService.java:71-102 | An unknown user or an unknown GPU fails with nothing changed. Otherwise the user's grants become exactly the listed GPUs, and other users' grants are untouched. |
| Storage.FileExtension | src/main/java/ai/synalix/synalixai/service/MinioService.java:196-210 | The text from the last '.', when that dot is neither first nor last; "" otherwise. |
| Storage.ExtensionOfJoinedName | src/main/java/ai/synalix/synalixai/service/MinioService.java:196-210 | "base.ext" with a dot-free, non-empty extension has extension ".ext". |
| Storage.HiddenFileHasNoExtension | src/main/java/ai/synalix/synalixai/service/MinioService.java:196-210 | A name whose only dot is its first character has no extension. |
| Storage.SlashDelimitedIdInjective | src/main/java/ai/synalix/synalixai/service/MinioService.java:116-141 | Keys built as prefix/id/suffix from slash-free ids differ when the ids differ. |
| Storage.DatasetKeysDistinct | src/main/java/ai/synalix/synalixai/service/MinioService.java:116-119 | Different datasets get different object keys. |
| Storage.FileKeysDistinct | src/main/java/ai/synalix/synalixai/service/MinioService.java:138-141 | Different files get different object keys. |
| Storage.CheckpointKeysDistinct | src/main/java/ai/synalix/synalixai/service/MinioService.java:127-130 | Different checkpoints get different object keys, whatever the file name. |
| Storage.PresignedUrlFor | src/main/java/ai/synalix/synalixai/service/MinioService.java:151-176 | A client failure gives PRESIGNED_URL_GENERATION_FAILED. Otherwise the URL carries the label PUT with the upload lifetime, or GET with the download lifetime. |
| Storage.CheckedPresign | src/main/java/ai/synalix/synalixai/service/FileService.java:90-93 | A signing failure gives PRESIGNED_URL_GENERATION_FAILED, and a missing or blank URL gives INTERNAL_SERVER_ERROR. Otherwise the URL is usable and labelled as in `PresignedUrlFor`. |
| Storage.StorageKeyLayout | src/main/java/ai/synalix/synalixai/service/MinioService.java:116-141 | `generateDatasetStorageKey`, `generateFileStorageKey` and `generateCheckpointStorageKey` file each object under "datasets/<id>/data", "files/<id>/file" or "checkpoints/<id>". Dataset and file objects end with the uploaded name's extension. A checkpoint object is "model.zip" whatever the name. |
| Storage.TaskLogObjectName | src/main/java/ai/synalix/synalixai/service/MinioService.java:264 | A task's log object is its id followed by ".log". |
| Storage.TaskLogs | src/main/java/ai/synalix/synalixai/service/MinioService.java:263-275 | The log object's text, or "No logs available for task <id>" when it cannot be read. |
| StoredFiles.MarkedUploaded | src/main/java/ai/synalix/synalixai/service/FileService.java:124-142 | The file becomes UPLOADED, with the new size when one is given, and nothing else changes. |
| StoredFiles.MarkedUploadedIdempotent | src/main/java/ai/synalix/synalixai/service/FileService.java:124-142 | Marking twice with the same size is marking once. |
| StoredFiles.FileService.CreateFile | src/main/java/ai/synalix/synalixai/service/FileService.java:50-76 | No user gives UNAUTHORIZED, and a null file name gives INTERNAL_SERVER_ERROR with both saves rolled back. Otherwise the new row is PENDING_UPLOAD, keyed by `FileStorageKey` of its own id and name, and an upload record is audited. |
| StoredFiles.FileService.GetFile | src/main/java/ai/synalix/synalixai/service/FileService.java:150-154 | The stored file, or RESOURCE_NOT_FOUND exactly for an unknown id. |
| StoredFiles.FileService.OwnedFile | src/main/java/ai/synalix/synalixai/service/FileService.java:180-184 | The file, or UNAUTHORIZED when the caller does not own it. |
| StoredFiles.FileService.GenerateUploadUrl | src/main/java/ai/synalix/synalixai/service/FileService.java:86-95 | Only the owner gets a URL: a usable PUT URL for the file's own storage key in the files bucket. |
| StoredFiles.FileService.GenerateDownloadUrl | src/main/java/ai/synalix/synalixai/service/FileService.java:104-113 | Only the owner gets a URL: a usable GET URL for the stored key. |
| StoredFiles.FileService.MarkUploaded | src/main/java/ai/synalix/synalixai/service/FileService.java:124-142 | Not found and not owned fail with nothing changed. A row left without a size gives INTERNAL_SERVER_ERROR and a rollback. Otherwise the row becomes `MarkedUploaded` and the completion is audited. |
| StoredFiles.FileService.StorageKeysDistinct | src/main/java/ai/synalix/synalixai/service/MinioService.java:138-141 | No two stored files share an object key. |
| Datasets.WithUpload | src/main/java/ai/synalix/synalixai/service/DatasetService.java:261-282 | The dataset gets the size and path and becomes UPLOADED; nothing else changes. |
| Datasets.WithUploadIdempotent | src/main/java/ai/synalix/synalixai/service/DatasetService.java:261-282 | Recording the same upload twice is recording it once. |
| Datasets.DatasetService.GetDatasetById | src/main/java/ai/synalix/synalixai/service/DatasetService.java:84-87 | The caller's dataset, or DATASET_NOT_FOUND when it is unknown or someone else's. |
| Datasets.DatasetService.GetDatasetsByOwner | src/main/java/ai/synalix/synalixai/service/DatasetService.java:70-75 | Exactly the caller's datasets, each once. |
| Datasets.DatasetService.CreateDataset | src/main/java/ai/synalix/synalixai/service/DatasetService.java:97-127 | A name the owner already uses gives DATASET_NAME_EXISTS, then an unknown owner gives USER_NOT_FOUND. Otherwise the dataset is added PENDING_UPLOAD, with an empty path and size 0, and audited. |
| Datasets.DatasetService.GenerateUploadUrl | src/main/java/ai/synalix/synalixai/service/DatasetService.java:136-154 | The caller's dataset gets the storage key of its id and name as its path, even when signing then fails. The result is the PUT URL for that key. |
| Datasets.DatasetService.GenerateDownloadUrl | src/main/java/ai/synalix/synalixai/service/DatasetService.java:163-176 | The caller's dataset's GET URL for its path. Nothing changes except an audit record on success. |
| Datasets.DatasetService.DeleteDataset | src/main/java/ai/synalix/synalixai/service/DatasetService.java:228-250 | A failed object removal gives DATASET_DELETE_NOT_ALLOWED and keeps the row. Otherwise exactly that dataset is removed. |
| Datasets.DatasetService.UpdateDataset | src/main/java/ai/synalix/synalixai/service/DatasetService.java:261-282 | A null size or path gives INTERNAL_SERVER_ERROR with a rollback. Otherwise the row becomes `WithUpload` and the update is audited. |
| BaseModels.WithEnabled | src/main/java/ai/synalix/synalixai/service/BaseModelService.java:161-180 | Only that model's enabled flag changes. |
| BaseModels.WithEnabledIdempotent | src/main/java/ai/synalix/synalixai/service/BaseModelService.java:161-180 | Switching is idempotent, only the last switch counts, and the table stays well keyed. |
| BaseModels.BaseModelService.GetModelById | src/main/java/ai/synalix/synalixai/service/BaseModelService.java:71-76 | The stored model, or MODEL_NOT_FOUND exactly for an unknown id. |
| BaseModels.BaseModelService.GetAllEnabledModels | src/main/java/ai/synalix/synalixai/service/BaseModelService.java:46-51 | Exactly the enabled models, each once. |
| BaseModels.BaseModelService.GetAllModels | src/main/java/ai/synalix/synalixai/service/BaseModelService.java:58-63 | Every model, each once. |
| BaseModels.BaseModelService.CreateModel | src/main/java/ai/synalix/synalixai/service/BaseModelService.java:86-126 | A taken name, then a taken HuggingFace id, both give MODEL_NAME_EXISTS; then an unknown admin gives USER_NOT_FOUND. Success happens exactly otherwise, and the new model is enabled. |
| BaseModels.BaseModelService.SetModelEnabled | src/main/java/ai/synalix/synalixai/service/BaseModelService.java:161-180 | MODEL_NOT_FOUND for an unknown id. Otherwise the table becomes `WithEnabled` and the switch is audited. |
| BaseModels.BaseModelService.DeleteModel | src/main/java/ai/synalix/synalixai/service/BaseModelService.java:135-150 | MODEL_NOT_FOUND for an unknown id. Otherwise exactly that model is removed. |
| Models.ModelService.GetModelById | src/main/java/ai/synalix/synalixai/service/ModelService.java:59-64 | The stored model, or MODEL_NOT_FOUND exactly for an unknown id. |
| Models.ModelService.GetAllModels | src/main/java/ai/synalix/synalixai/service/ModelService.java:46-51 | Exactly one entry per stored model. |
| Models.ModelService.CreateModel | src/main/java/ai/synalix/synalixai/service/ModelService.java:74-109 | A taken name gives MODEL_NAME_EXISTS, then an unknown admin gives USER_NOT_FOUND. Otherwise the model is added with the request's fields and audited. |
| Models.ModelService.DeleteModel | src/main/java/ai/synalix/synalixai/service/ModelService.java:118-133 | MODEL_NOT_FOUND for an unknown id. Otherwise exactly that model is removed. |
| ModelCheckpoints.ModelCheckpointService.GetCheckpointById | src/main/java/ai/synalix/synalixai/service/ModelCheckpointService.java:70-73 | The caller's checkpoint, or CHECKPOINT_NOT_FOUND when it is unknown or someone else's. |
| ModelCheckpoints.ModelCheckpointService.GetCheckpointsByOwner | src/main/java/ai/synalix/synalixai/service/ModelCheckpointService.java:56-61 | Exactly the caller's completely uploaded checkpoints, each once. |
| ModelCheckpoints.ModelCheckpointService.CreateCheckpoint | src/main/java/ai/synalix/synalixai/service/ModelCheckpointService.java:88-127 | Checks run in order: a taken name (MODEL_NAME_EXISTS), an unknown owner (USER_NOT_FOUND), an unknown base model (MODEL_NOT_FOUND), an unknown dataset (DATASET_NOT_FOUND). Otherwise the row is added, incomplete, under its own key. |
| ModelCheckpoints.ModelCheckpointService.GenerateUploadUrl | src/main/java/ai/synalix/synalixai/service/ModelCheckpointService.java:135-150 | An unknown checkpoint gives CHECKPOINT_NOT_FOUND and a finished upload VALIDATION_FAILED. Otherwise the PUT URL for its key. |
| ModelCheckpoints.ModelCheckpointService.ConfirmUpload | src/main/java/ai/synalix/synalixai/service/ModelCheckpointService.java:160-184 | Confirmation happens once; a second one gives VALIDATION_FAILED. A null size gives INTERNAL_SERVER_ERROR with a rollback. Otherwise the row becomes complete with its size. |
| ModelCheckpoints.ModelCheckpointService.GenerateDownloadUrl | src/main/java/ai/synalix/synalixai/service/ModelCheckpointService.java:193-213 | Only the owner of a completely uploaded checkpoint gets the GET URL for its key; otherwise CHECKPOINT_NOT_FOUND. |
| ModelCheckpoints.ModelCheckpointService.DeleteCheckpoint | src/main/java/ai/synalix/synalixai/service/ModelCheckpointService.java:222-235 | Only the owner can delete, and exactly that checkpoint is removed. |
| ModelCheckpoints.ModelCheckpointService.UploadAndDownloadShareObject | src/main/java/ai/synalix/synalixai/service/ModelCheckpointService.java:135-213 | The upload and the download URL of a checkpoint sign the same object. |
| MemoryReadings.ParseReading | src/main/java/ai/synalix/synalixai/controller/GpuController.java:94-101 | A parsed reading has two 32-bit figures. |
| MemoryReadings.ToGpuResource | src/main/java/ai/synalix/synalixai/controller/GpuController.java:87-115 | Id, name and status are copied. A missing, slash-less or malformed reading gives zeros. Otherwise the parsed figures are used, with free = total − used in 32-bit arithmetic. |
| MemoryReadings.ToResourceView | src/main/java/ai/synalix/synalixai/controller/ResourceController.java:43-52 | INTERNAL_SERVER_ERROR exactly when the reading is missing or malformed; otherwise the parsed figures. |
| MemoryReadings.ParseReadingText | src/main/java/ai/synalix/synalixai/controller/GpuController.java:94-101 | A reported "used/totalMB" reading parses back to its figures. |
| MemoryReadings.GpuFiguresFromReading | src/main/java/ai/synalix/synalixai/controller/GpuController.java:94-112 | A well-formed reading gives its figures to both listings. Free memory is total − used, and it is negative exactly when used exceeds total. |
| Strings.ParseInt | src/main/java/ai/synalix/synalixai/controller/GpuController.java:96-97 | `Integer.parseInt`: an optional sign and digits whose value fits in 32 bits, else nothing. |
| Strings.Int32Sub | src/main/java/ai/synalix/synalixai/controller/GpuController.java:100 | Java `int` subtraction, wrapping around at 32 bits. |
| Spa.Segments | src/main/java/ai/synalix/synalixai/controller/SpaController.java:80-86 | A path's segments are non-empty. |
| Spa.Normalize | src/main/java/ai/synalix/synalixai/controller/SpaController.java:82 | `Path.normalize` yields a path without empty, "." or ".." segments that is no longer than its input. |
| Spa.NormalizeNormal | src/main/java/ai/synalix/synalixai/controller/SpaController.java:82 | Normalising a normal path changes nothing. |
| Spa.NormalizeAppend | src/main/java/ai/synalix/synalixai/controller/SpaController.java:82 | Normalising a normal directory extended by normal segments only appends them. |
| Spa.Resolve | src/main/java/ai/synalix/synalixai/controller/SpaController.java:82 | Resolving against the static directory yields a normal path. |
| Spa.ResolveStaticPath | src/main/java/ai/synalix/synalixai/controller/SpaController.java:80-86 | The resolved path, or null exactly when it leaves the static directory. |
| Spa.ExtractRelativePath | src/main/java/ai/synalix/synalixai/controller/SpaController.java:71-78 | Never blank. "index.html" for a null, blank or "/" URI; otherwise the URI without one leading "/", or "index.html" when only white space is left. |
| Spa.ServeSpa | src/main/java/ai/synalix/synalixai/controller/SpaController.java:43-69 | "/api…" gives 404. A served file is a regular file under the directory. For any other URI, the resolved candidate is served with a five-minute public cache when it is a regular file. Otherwise the index page is served with no cache when the request is not an asset and the index exists. Everything else gives 404. |
| Spa.AssetNeverFallsBack | src/main/java/ai/synalix/synalixai/controller/SpaController.java:50-68 | An asset request is answered with the file itself or with 404, never with the index. |
| Spa.PlainPathResolvesInside | src/main/java/ai/synalix/synalixai/controller/SpaController.java:80-86 | A relative path of plain segments resolves to the file under the directory. |
| Spa.NormalizeParent | src/main/java/ai/synalix/synalixai/controller/SpaController.java:82 | A ".." after a normal directory removes its last segment. |
| Spa.ParentEscapeRejected | src/main/java/ai/synalix/synalixai/controller/SpaController.java:80-86 | "../name" leaves the directory and is rejected. |

## Left out

- **Compute-backend HTTP calls.** Submit, poll and cancel in the task
  service, the checkpoint fetch, and GPU status are answers passed in as
  parameters. JSON shapes and URL encoding are not modelled.
- DatasetService.updateDataset(UUID, UUID) is not part of this model. This
  two-argument overload posts the dataset's download URL to the compute
  backend and only audits the call. The four-argument overload, which
  records an upload, is modelled as `Datasets.DatasetService.UpdateDataset`.
- **Object store.** Signing, reads, object removal and bucket creation are
  oracle parameters (`Signer`, `fetch`, `removed`).
- **Cryptography.** JWT signing and parsing, BCrypt, and the SecureRandom
  token value are parameters: `accessTokenFor`, `encode`/`matches`,
  `tokenValue`.
- **Audit delivery.** The queue with a database fallback and its threads are
  replaced by an append-only audit sequence per service.
- **Wall-clock time.** `now` is a parameter, and times are whole seconds.
  The date parsing that reads a checkpoint's creation time from a task id is
  the parameter `timeOf`.
- **Floating point.** Metric loss and accuracy are `real` constants. Dataset
  split ratios are not modelled.
- **Concurrency.** Concurrency and JPA transactions are not modelled; a
  raised error restores the tables the method changed.
- **HTTP surface.** Controllers other than the reading parsers and the SPA
  routing, `@PreAuthorize` rules, DTO validation and request mapping are not
  modelled. The requester's id and admin flag are parameters.
- **Entity validation.** The `@NotBlank` and `@Size` constraints on entity
  fields are modelled only in `Checkpoints.CheckpointService.FetchAndStore`,
  whose values come from the compute backend. Elsewhere the values come from
  request DTOs that carry the same constraints and are validated by the HTTP
  layer, which is not modelled. Examples are the type and content of a message,
  and the names of users, datasets and models. The service members therefore
  accept blank or over-long text that the entity would refuse.
- **Foreign keys and cascades** are not modelled. Deletes are assumed not to
  be blocked by referencing rows. For example, `Users.UserService.DeleteUser`
  revokes the user's refresh tokens and then always removes the user, and
  `BaseModels.BaseModelService.DeleteModel` always succeeds, even though
  model checkpoints refer to their base model. The schema is not part of
  this model, so whether the database would refuse such a delete is not
  stated.
- **Listing order.** Queries without ORDER BY return their rows in some
  order. The model proves which rows are returned, each once, but not their
  order.
- **Generated ids.** Fresh ids are parameters required to be unused, and the
  UUID generator is not modelled. Ids are their canonical text.
- **Media-type probing** when a static file is served is not modelled; only
  the cache policy is.
- **Text.** Lower-casing, white space and trimming follow ASCII; Java's
  Unicode tables are not modelled.
- **Filesystem.** The SPA's file system is the predicate `regularFile`.
  Paths are segment sequences, and symbolic links are not modelled.
- **Source inconsistencies.** Where these files disagree with the method
  bodies, the model follows the method bodies:
  - `Dataset.java` declares no `path` or `size` field, but the dataset
    service reads and writes both. The model gives the dataset those fields.
  - `ModelCheckpointService` calls one-argument MinIO key and URL methods
    that do not exist. The model uses the checkpoint key of the id,
    `checkpoints/<id>/model.zip`, which ignores the file name anyway.
  - `ModelCheckpointService` calls a dataset lookup the dataset service does
    not define. It is modelled as a check that the dataset id exists,
    failing with DATASET_NOT_FOUND.
  - `ResourceDetail.java` types the memory reading as an `Integer`, but both
    controllers treat it as text. The model treats it as text.
  - `ApiErrorCode.java` lacks many of the codes the services throw. The
    model's `ErrorCode` has every code that the modelled services let reach
    a caller. STORAGE_ERROR, which `MinioService.deleteFile` raises, is
    caught by `deleteDataset` and shows up there as a failed removal.
    INVALID_REQUEST_FORMAT belongs to the HTTP layer, which is not modelled.
  - `FileStatus.java` is not part of this model. Its two values,
    PENDING_UPLOAD and UPLOADED, are the ones `FileService` uses.
- MemoryReadings.ParseReading: states only that a parsed reading has two
  32-bit figures. The exact result of a parse is fixed by the round trip
  `ParseReadingText` for the text a node reports; other inputs are not
  characterised.
- Spa.Resolve: states only that the result is normal. The exact path is
  given by `PlainPathResolvesInside` and `ParentEscapeRejected` for the two
  shapes of input that matter.
- TaskOrchestration.PollRequests: states only the bound. The queries
  themselves are fixed by `PollRequestsSnoc` and the methods' contracts.
- TaskOrchestration.RefreshedTable: states only that the ids are kept. The
  contents are fixed by `RefreshedTableStep`.
