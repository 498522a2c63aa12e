# Laravel marketplace back office, modelled in Dafny

This project models the access-controlled administration core of a Laravel
and React back office. The back office manages three tables: permissions,
roles and users. The model covers:

- the three resource controllers (`PermissionController`, `RoleController`,
  `UserController`), each a function from a request and a database value to
  a response and the next database value;
- the form requests that authorize and validate their payloads
  (`PermissionRequest`, `RoleRequest`, `UserRequest`), together with the part
  of Laravel's validator those rules rely on;
- the two seeders (`PermissionSeeder`, `AdminUserSeeder`);
- the client-side logic that is pure:
  - the server-side table's option record and its transitions (`DatatableServer.tsx`);
  - the role list's search (`RoleList.tsx`);
  - the user and role form schemas, the checkbox toggle and the submit choice
    (`UserForm.tsx`, `RoleForm.tsx`).

The database is one immutable value (`Database.Db`). It holds three row maps
keyed by auto-increment identifiers, three join tables of (owner, related)
pairs, and the next identifier for each table. A handler receives:

- the five booleans its controller computes once per request from the acting
  user's abilities (`Caps`);
- a context carrying the set of ability names the user holds, the clock reading
  and the e-mail format check (`Http.Ctx`).

A handler answers with a `Step`: a response (`Forbidden`, `NotFound`,
`Invalid`, `Unprocessable`, `ServerError`, `Created`, `Ok`) and the database
afterwards.

Before any of this, Laravel's global `TrimStrings` and `ConvertEmptyStringsToNull`
middleware rewrite the payload (`Middleware.Prepare`): text is trimmed, except
the password, and text left empty becomes null. Each controller's `Handle`
passes its handlers the payload in that form.

The pipeline follows Laravel's order. Each step can end the request:

1. Route-model binding → 404.
2. The form request's `authorize` → 403.
3. The form request's validation → 400.
4. The controller's own boolean → 403.
5. The duplicate-name check → 400.
6. The write.

Module layout, one file per module:

| file | module | what it holds |
|---|---|---|
| common.dfy | Common | `Option`, order-preserving `Filter`, subsequences |
| text.dfy | Text | decimal text, ASCII lower-casing, substring search, PHP's `trim` |
| database.dfy | Database | the tables, join-table `Sync`/`Attach`, inserts, single and bulk deletes |
| gate.dfy | Gate | the five controller booleans; ability names a user holds through roles |
| http.dfy | Http | responses, status codes, the request context |
| middleware.dfy | Middleware | the global `TrimStrings` and `ConvertEmptyStringsToNull` middleware every payload passes |
| validation.dfy | Validation | payload values and Laravel's rule evaluation order |
| requests.dfy | Requests | the three form requests: rules, `authorize`, failure shape |
| permission_controller.dfy | PermissionController | `PermissionController` |
| role_controller.dfy | RoleController | `RoleController` |
| user_controller.dfy | UserController | `UserController` |
| permission_seeder.dfy | PermissionSeeder | `PermissionSeeder::run` |
| admin_user_seeder.dfy | AdminUserSeeder | `AdminUserSeeder::run` |
| scenarios.dfy | Scenarios | consequences spanning seeders, gates and controllers |
| datatable_server.dfy | DatatableServer | the server-side table's options, paging text and bulk delete |
| role_list.dfy | RoleList | the role list search |
| forms.dfy | Forms | the checkbox toggle and submit choice the two forms share |
| user_form.dfy | UserForm | the user form schema, defaults and submit |
| role_form.dfy | RoleForm | the role form schema, defaults and submit |

Two places where the code does something other than it appears to intend;
the model follows the code:

- A bulk delete (`destroys`) whose `ids` is missing or is not an array is
  rejected by `$request->validate`. That is Laravel's 422 answer, not the 400
  the form requests build.
- The `permission_data` key of the permission show and edit pages is written
  twice, so the page receives the catalogue and not the row.

## Model

| member | source | states |
|---|---|---|
| PermissionController.CapsOf | app/Http/Controllers/Auth/PermissionController.php:23-33 | each of the five booleans is true exactly when the user can do the matching "Permission Lists/Views/Creates/Updates/Deletes" |
| PermissionController.RequestAbility | app/Http/Requests/PermissionRequest.php:16-25 | on both routes that use the request, store and update, authorization asks for "Permission Updates"; the "Creates" branch needs a route that never carries the request |
| PermissionController.Index | app/Http/Controllers/Auth/PermissionController.php:39-48 | the list page is answered exactly when `list` holds, otherwise 403; nothing is written |
| PermissionController.CreatePage | app/Http/Controllers/Auth/PermissionController.php:53-64 | 403 exactly when `create` is false; otherwise the create form with the whole permission catalogue; nothing is written |
| PermissionController.Store | app/Http/Controllers/Auth/PermissionController.php:69-97 | 403 exactly when the request lacks "Permission Updates" or a valid payload meets a false `create`; invalid payloads get the validator's errors; the duplicate error iff the value the name query binds (the text, or a list's first scalar) is a taken name, and then nothing is written; a name that passes this check but is not text is a server error; otherwise exactly one row with the next id and the given name is added, and the new row's links become the existing ids it names only when `permissions` is given |
| PermissionController.Insert | app/Http/Controllers/Auth/PermissionController.php:74-96 | after validation: the duplicate error iff the bound name is taken; otherwise a non-text name is a server error; on success only the new row and its own links change |
| Validation.DuplicateNotRuleMessages | app/Http/Controllers/Auth/PermissionController.php:75-86 | the 400 body a controller builds for a used name carries its own message, which no validation rule produces, so it is never one the validator could have answered |
| PermissionController.Link | app/Http/Controllers/Auth/PermissionController.php:92-94 | when `permissions` is absent or null no link changes; otherwise the row's links are replaced by exactly the named existing permissions and no other row's links change |
| PermissionController.Show | app/Http/Controllers/Auth/PermissionController.php:102-116 | a missing id is 404; otherwise 403 unless `view`; the page gets the catalogue, since the second `permission_data` entry overwrites the row |
| PermissionController.Edit | app/Http/Controllers/Auth/PermissionController.php:121-136 | as `Show`, gated by `update` |
| PermissionController.Update | app/Http/Controllers/Auth/PermissionController.php:141-174 | a missing id is 404; the duplicate error iff another row holds the bound name, so a row may keep its own name; a non-text name that passes is a server error; on success only that row's name and timestamp change, and its links are replaced, not merged, when `permissions` is given |
| PermissionController.Rewrite | app/Http/Controllers/Auth/PermissionController.php:146-173 | after validation, the duplicate check binds the name as the query does and excludes the row itself; success changes only that row and its own links |
| PermissionController.Destroy | app/Http/Controllers/Auth/PermissionController.php:179-186 | a missing id is 404; without `delete` 403 and nothing changes; otherwise that row goes with every edge pointing at it, while the links it owns stay |
| Database.DeletePermission | app/Http/Controllers/Auth/PermissionController.php:185 | `$permission->delete()`: exactly that row goes, with every edge pointing at it; the links it owns stay, as after the bulk delete |
| Database.DeletePermissionPreserves | app/Http/Controllers/Auth/PermissionController.php:185 | a single permission delete keeps the database well formed and names unique; from a database without orphan links it leaves one exactly when the deleted row owned a link to another permission |
| PermissionController.Destroys | app/Http/Controllers/Auth/PermissionController.php:188-197 | without `delete` 403; a missing or non-array or empty `ids` is 422 and nothing changes; otherwise the rows whose ids are listed are removed, unknown ids are skipped, edges pointing at removed rows go while the links those rows own stay, and the answer says whether any row went |
| PermissionController.Datatables | app/Http/Controllers/Auth/PermissionController.php:199-207 | all rows when `list` holds, else 403; nothing is written |
| PermissionController.Handle | app/Http/Controllers/Auth/PermissionController.php:17-207 | the controller's routes, each handler given the payload as the global middleware left it: the index, create, show, edit and datatables routes never write, and any write comes with a 201 or 200 answer |
| PermissionController.DeniedChangesNothing | app/Http/Controllers/Auth/PermissionController.php:41-43 | whenever the handler's boolean is false the database is unchanged and the answer is a refusal; it is 403 unless the row is missing or the request already rejected the payload |
| PermissionController.StorePreserves | app/Http/Controllers/Auth/PermissionController.php:75-96 | store keeps the database well formed and every table's names unique |
| PermissionController.UpdatePreserves | app/Http/Controllers/Auth/PermissionController.php:147-170 | update keeps the database well formed and every table's names unique |
| PermissionController.RewritePreserves | app/Http/Controllers/Auth/PermissionController.php:147-170 | writing one row under a name no other row holds, changing only that row's links to existing rows, keeps the database well formed and names unique |
| PermissionController.HandlePreserves | app/Http/Controllers/Auth/PermissionController.php:39-207 | every permission handler keeps the database well formed (every edge points at an existing row, and every edge's owner id was already handed out) and names unique |
| PermissionController.StoreTwice | app/Http/Controllers/Auth/PermissionController.php:75-96 | storing the same valid name twice creates it once and answers the second time with "Permission name has been used", writing nothing |
| PermissionController.UpdateKeepsOwnName | app/Http/Controllers/Auth/PermissionController.php:147-151 | submitting a row's current name succeeds |
| PermissionController.DestroyThenShow | app/Http/Controllers/Auth/PermissionController.php:179-186 | after a row is destroyed, showing it is 404 |
| PermissionController.ListNameChecked | app/Http/Controllers/Auth/PermissionController.php:75-96 | a name sent as a one-element list passes validation; the duplicate 400 comes iff its element is a taken name, and otherwise the write fails with a server error |
| PermissionController.BlankPermissionsKeepLinks | app/Http/Controllers/Auth/PermissionController.php:146-170 | a blank `permissions` arrives as null, so `isset` is false and an update, whatever its answer, leaves every link as it was |
| PermissionController.PaddedNameIsDuplicate | app/Http/Controllers/Auth/PermissionController.php:74-86 | the name is trimmed before the duplicate query, so a taken name sent with blanks around it is the duplicate 400 and nothing is written |
| RoleController.CapsOf | app/Http/Controllers/Auth/RoleController.php:21-34 | the booleans come from "List roles", "View role", "Create role", "Update role", "Delete role" |
| RoleController.RequestAbility | app/Http/Requests/RoleRequest.php:16-25 | store and update both ask for "Role Updates" |
| RoleController.Index | app/Http/Controllers/Auth/RoleController.php:39-48 | the list page with every role when `list` holds, else 403 |
| RoleController.CreatePage | app/Http/Controllers/Auth/RoleController.php:53-62 | the empty form when `create` holds, else 403 |
| RoleController.Store | app/Http/Controllers/Auth/RoleController.php:67-92 | as permission store, with "Role name has been used" and the same name binding; success adds one role and never touches any join table |
| RoleController.RoleRulesMeaningAlias | app/Http/Requests/RoleRequest.php:32-38 | the role rules pass iff the name is present with 1 to 255 characters and `permissions` is absent, null or an array |
| RoleController.Show | app/Http/Controllers/Auth/RoleController.php:97-108 | 404, 403, or the role row itself without any id list |
| RoleController.Edit | app/Http/Controllers/Auth/RoleController.php:113-123 | as `Show`, gated by `update` |
| RoleController.Update | app/Http/Controllers/Auth/RoleController.php:128-158 | the duplicate error iff another role holds the bound name; success changes only that role's name and timestamp, never its permissions |
| RoleController.Destroy | app/Http/Controllers/Auth/RoleController.php:163-170 | 404, 403, or exactly that role removed |
| RoleController.Destroys | app/Http/Controllers/Auth/RoleController.php:172-181 | 403, 422, or the listed roles removed and unknown ids skipped |
| RoleController.Handle | app/Http/Controllers/Auth/RoleController.php:17-181 | the controller's routes, each handler given the payload as the global middleware left it: the index, create, show and edit routes never write, and any write comes with a 201 or 200 answer |
| RoleController.DeniedChangesNothing | app/Http/Controllers/Auth/RoleController.php:41-43 | a false boolean writes nothing and refuses; 403 unless 404 or a rejected payload came first |
| RoleController.RolePermissionsOnlyShrink | app/Http/Controllers/Auth/RoleController.php:154 | no role handler adds a role-permission link; only deletions remove some |
| RoleController.StorePreserves | app/Http/Controllers/Auth/RoleController.php:74-91 | role store keeps the database well formed and names unique |
| RoleController.UpdatePreserves | app/Http/Controllers/Auth/RoleController.php:134-155 | role update keeps the database well formed and names unique |
| RoleController.HandlePreserves | app/Http/Controllers/Auth/RoleController.php:39-181 | every role handler keeps the database well formed and names unique |
| RoleController.UpdateKeepsOwnName | app/Http/Controllers/Auth/RoleController.php:134-138 | submitting a role's current name succeeds |
| UserController.CapsOf | app/Http/Controllers/Auth/UserController.php:24-34 | the booleans come from "User Lists/Views/Creates/Updates/Deletes" |
| UserController.RequestAbility | app/Http/Requests/UserRequest.php:16-25 | store and update both ask for "User Updates" |
| UserController.Index | app/Http/Controllers/Auth/UserController.php:40-50 | the list page when `list` holds, else 403 |
| UserController.CreatePage | app/Http/Controllers/Auth/UserController.php:55-66 | the empty form with the role catalogue when `create` holds, else 403 |
| UserController.Store | app/Http/Controllers/Auth/UserController.php:71-111 | 403 exactly when "User Updates" is missing or a valid payload meets a false `create`; the bound name is checked before the e-mail; either duplicate writes nothing; a name that passes the checks but is not text, or a list password, is a server error; success adds one user and gives it the named existing roles on top of any it had |
| UserController.Insert | app/Http/Controllers/Auth/UserController.php:76-108 | after validation: the name error iff the bound name is taken; the e-mail error iff the name is free and the e-mail taken; on success only the new user and its own role links change |
| UserController.InsertPreserves | app/Http/Controllers/Auth/UserController.php:105-108 | a successful insert keeps the database well formed, names unique and e-mails unique |
| UserController.Form | app/Http/Controllers/Auth/UserController.php:122-129 | the show and edit payload carries the user, exactly the ids of its roles, and every role |
| UserController.Show | app/Http/Controllers/Auth/UserController.php:116-131 | 404, 403 without `view`, or that payload |
| UserController.Edit | app/Http/Controllers/Auth/UserController.php:136-151 | 404, 403 without `update`, or that payload |
| UserController.Apply | app/Http/Controllers/Auth/UserController.php:158-188 | after validation: the duplicate error iff another user has the bound name; a missing or non-text name, or a list password, is then a server error; success rewrites only that user's row |
| UserController.Update | app/Http/Controllers/Auth/UserController.php:156-189 | a missing id is 404; every field is optional; the duplicate check excludes the user itself; the e-mail is not re-checked; success changes that one user row and never its roles |
| UserController.Destroy | app/Http/Controllers/Auth/UserController.php:194-201 | 404, 403, or exactly that user and its role links removed (an Eloquent delete) |
| UserController.Destroys | app/Http/Controllers/Auth/UserController.php:203-212 | 403, 422, or the listed users removed and unknown ids skipped; their role links stay, since the query-builder delete fires no model events |
| Database.DeleteUser | app/Http/Controllers/Auth/UserController.php:200 | `$user->delete()`: exactly that user goes, with its role links; nothing else changes |
| Database.DeleteUserPreserves | app/Http/Controllers/Auth/UserController.php:200 | a single user delete keeps the database well formed, names and e-mails unique, and a database without orphan links without them |
| Database.DeleteUsersLeavesOrphans | app/Http/Controllers/Auth/UserController.php:211 | a bulk delete of a user that holds a role leaves a role link whose owner no longer exists |
| Database.DeletePermissionsLeavesOrphans | app/Http/Controllers/Auth/PermissionController.php:196 | a bulk delete of a permission owning a link to a kept permission leaves a link whose owner no longer exists |
| UserController.Datatables | app/Http/Controllers/Auth/UserController.php:214-222 | all users when `list` holds, else 403 |
| UserController.Handle | app/Http/Controllers/Auth/UserController.php:18-222 | the controller's routes, each handler given the payload as the global middleware left it: the index, create, show, edit and datatables routes never write, and any write comes with a 201 or 200 answer |
| UserController.DeniedChangesNothing | app/Http/Controllers/Auth/UserController.php:42-44 | a false boolean writes nothing and refuses; 403 unless 404 or a rejected payload came first |
| UserController.NameCheckedBeforeEmail | app/Http/Controllers/Auth/UserController.php:77-103 | when both the name and the e-mail are taken, the error is on `name` |
| UserController.DuplicatesNotRuleMessages | app/Http/Controllers/Auth/UserController.php:77-103 | the two duplicate answers of user store carry messages no validation rule produces, and they differ from each other |
| UserController.ListNameChecked | app/Http/Controllers/Auth/UserController.php:76-107 | a name sent as a one-element list passes validation; its element is checked as the name, then the e-mail is checked, and a request passing both fails in the write with a server error |
| UserController.EmptyPasswordRefused | app/Http/Requests/UserRequest.php:37 | an empty password arrives as null, which `min:8` refuses: store, and update of any existing user, answer 400 with a bag naming the password, and nothing is written |
| UserController.BlankRoleRefused | app/Http/Requests/UserRequest.php:39 | a role sent as blank text arrives as null, which `numeric` refuses: store and update answer 400 and nothing is written |
| UserController.StoredPasswordNotEmpty | app/Http/Controllers/Auth/UserController.php:76-107 | a created user has no password or a non-empty one: an empty password never reaches `User::create` |
| UserController.PaddedNameIsDuplicate | app/Http/Controllers/Auth/UserController.php:76-90 | the name is trimmed before the duplicate query, so a taken name sent with blanks around it is the name 400 and nothing is written |
| UserController.StoreWritesSentFields | app/Http/Controllers/Auth/UserController.php:76-107 | a created user holds the name and e-mail exactly as sent, the sent password or none when none was sent, no verification, and the clock reading in both stamps |
| UserController.UpdateWritesSentFields | app/Http/Controllers/Auth/UserController.php:161-182 | an updated user holds the sent name, each other sent field as sent and each absent one as before, keeps its verification and creation time, and gets the clock reading as update time; other users and all role links stay |
| UserController.UpdateIgnoresSentRoles | app/Http/Controllers/Auth/UserController.php:183-185 | an accepted update that sends `roles` leaves the user's roles, and every role link, as they were |
| UserController.UpdateSyncingRoles | app/Http/Controllers/Auth/UserController.php:161-188 | the corrected update answers as the original and writes the same row; when a role list was sent, the user's roles become exactly the stored roles it names and other users keep theirs |
| UserController.UpdateSyncingRolesPreserves | app/Http/Controllers/Auth/UserController.php:161-188 | the corrected update keeps the database well formed |
| UserController.RolesChangeOnlyByStoreOrDelete | app/Http/Controllers/Auth/UserController.php:182-211 | only store and the single delete change user-role links: update never does, because `users` is never a validated key, and the bulk delete leaves them; store leaves existing users' roles alone |
| UserController.StorePreserves | app/Http/Controllers/Auth/UserController.php:71-111 | store keeps the database well formed, names unique and e-mails unique |
| UserController.UpdatePreserves | app/Http/Controllers/Auth/UserController.php:162-186 | update keeps the database well formed and names unique |
| UserController.HandlePreserves | app/Http/Controllers/Auth/UserController.php:40-222 | every user handler keeps the database well formed and names unique, and all but update keep e-mails unique |
| UserController.UpdateCanDuplicateEmail | app/Http/Controllers/Auth/UserController.php:161-182 | update can give a user another user's e-mail address |
| UserController.ValidatedUserFields | app/Http/Requests/UserRequest.php:34-40 | the fields the controller reads from the validated data are the ones sent; `users` is never among them |
| Requests.PrefixSometimes | app/Http/Requests/UserRequest.php:42-47 | off the store route, each field keeps its rules in order with exactly one `sometimes` in front |
| Middleware.Prepare | app/Http/Controllers/Auth/UserController.php:76 | the payload `validated()` reads from keeps every key; no text in it is empty, and every text but the password has no blank run at either end |
| Middleware.PrepareValue | app/Http/Requests/UserRequest.php:34-40 | a null stays null; trimmed text is null exactly when it was blank and otherwise its `trim`; the password's text is null exactly when empty and otherwise as sent; a list keeps its length |
| Middleware.PrepareFixes | app/Http/Controllers/Auth/UserController.php:76 | the middleware leave a payload as it is exactly when every field is already in the form they produce |
| Middleware.PrepareIdempotent | app/Http/Controllers/Auth/UserController.php:76 | running the middleware a second time changes nothing |
| Middleware.PreparedText | app/Http/Controllers/Auth/PermissionController.php:75 | a field sent as text between blank runs arrives as that text, and blank text as null |
| Requests.Ability | app/Http/Requests/PermissionRequest.php:19-24 | the "Creates" ability is asked for exactly on the create route name, the "Updates" one otherwise |
| Requests.Check | app/Http/Requests/PermissionRequest.php:16-51 | 403 exactly when the ability is missing; otherwise the validator's errors exactly when the rules fail; otherwise the validated data holds exactly the submitted fields that have rules |
| Requests.Refusal | app/Http/Requests/UserRequest.php:51-62 | a failed authorization answers 403, a failed validation answers 400 with the validator's error map |
| Requests.WhereKey | app/Http/Controllers/Auth/PermissionController.php:75 | the value `where('name', …)` binds: text binds itself, null matches nothing, a list binds its first flattened scalar |
| Requests.WhereKeyOfList | app/Http/Controllers/Auth/PermissionController.php:75 | a list binds as its first element when that element holds a scalar, and skips it when it holds none |
| Requests.NameKey | app/Http/Controllers/Auth/UserController.php:76 | the name the duplicate query binds is the sent text when the name is text, and nothing when the name is absent |
| Requests.NameRulesMeaning | app/Http/Requests/PermissionRequest.php:35 | `required, max:255, min:1` passes iff the name is present and filled (not null, not blank text, not an empty list) and at most 255 characters or items long; with `sometimes` an absent name also passes |
| Requests.AssociationRulesMeaning | app/Http/Requests/PermissionRequest.php:36 | `nullable, array` passes iff `permissions` is absent, null, an array, or blank text (which the validator skips) |
| Requests.PermissionRulesMeaning | app/Http/Requests/PermissionRequest.php:32-38 | the permission and role rule sets pass iff the name rules and the association rules both pass |
| Requests.EmailRulesMeaning | app/Http/Requests/UserRequest.php:36 | `required, email` passes iff the e-mail is present, not blank, and accepted by the format check |
| Requests.PasswordRulesMeaning | app/Http/Requests/UserRequest.php:37 | the password is never required; when present and not blank it has at least 8 characters or items |
| Requests.RolesRulesMeaning | app/Http/Requests/UserRequest.php:38 | `required, array` passes iff `roles` is a non-empty array; with `sometimes` an absent `roles` also passes |
| Requests.RoleItemRulesMeaning | app/Http/Requests/UserRequest.php:39 | one `roles.*` element passes iff it is text that is blank or an optionally signed run of digits |
| Requests.RoleItemsMeaning | app/Http/Requests/UserRequest.php:39 | every element of an array `roles` must pass `numeric` |
| Requests.UserStoreRulesMeaning | app/Http/Requests/UserRequest.php:34-40 | on `user.store` the rules pass iff name, e-mail, password, roles and every role element pass |
| Requests.UserUpdateRulesMeaning | app/Http/Requests/UserRequest.php:42-48 | on any other route each field may be absent, and a field that is present must pass its rules |
| Requests.UserValidatedFields | app/Http/Requests/UserRequest.php:34-40 | the validated user data can hold only name, e-mail, password and roles |
| Requests.NamedEntityFields | app/Http/Requests/RoleRequest.php:34-37 | the validated permission and role data can hold only name and permissions |
| Requests.BulkRulesMeaning | app/Http/Controllers/Auth/PermissionController.php:193-195 | `ids` passes `required, array` iff it is a non-empty array |
| Database.Sync | app/Http/Controllers/Auth/PermissionController.php:93 | `sync`: the owner's links become exactly the given set; other owners keep theirs |
| Database.SyncIdempotent | app/Http/Controllers/Auth/PermissionController.php:169 | syncing twice with the same set is the same as syncing once |
| Database.SyncCurrent | app/Http/Controllers/Auth/PermissionController.php:169 | syncing an owner to its current links changes nothing |
| Database.Attach | app/Http/Controllers/Auth/UserController.php:108 | `assignRole`: the owner's links grow by the given set; other owners keep theirs |
| Database.AddPermission | app/Http/Controllers/Auth/PermissionController.php:91 | `Permission::create`: the row is stored under the next auto-increment id, the counter moves past it, and nothing else changes |
| Database.AddRole | app/Http/Controllers/Auth/RoleController.php:90 | `Role::create`: the same for the roles table |
| Database.AddUser | app/Http/Controllers/Auth/UserController.php:107 | `User::create`: the same for the users table |
| Database.AddPermissionWellformed | app/Http/Controllers/Auth/PermissionController.php:91 | a created permission takes an id no row holds and no leftover link names as its owner, and the database stays well formed |
| Database.AddRoleWellformed | app/Http/Controllers/Auth/RoleController.php:90 | a created role takes an id no role holds, and the database stays well formed |
| Database.AddUserWellformed | app/Http/Controllers/Auth/UserController.php:107 | a created user takes an id no user holds and no leftover role link names, becomes the only new row, and every other user is kept; the database stays well formed |
| Validation.IdsOf | app/Http/Controllers/Auth/PermissionController.php:196 | the ids read from a list are exactly the elements that are decimal text, read as numbers |
| Validation.IdsOfDecimals | app/Http/Controllers/Auth/PermissionController.php:196 | a list of ids written as decimal text reads back as exactly those ids |
| Database.DeletePermissions | app/Http/Controllers/Auth/PermissionController.php:196 | exactly the listed rows go, with every edge that points at one of them; the links they own stay; everything else stays |
| Database.DeleteRoles | app/Http/Controllers/Auth/RoleController.php:180 | exactly the listed roles go, along with their permission and user links |
| Database.DeleteUsers | app/Http/Controllers/Auth/UserController.php:211 | exactly the listed users go; every join table, their role links included, stays as it was |
| Database.DeletePermissionsPreserves | app/Http/Controllers/Auth/PermissionController.php:196 | a bulk permission delete keeps the database well formed and names unique |
| Database.DeleteRolesPreserves | app/Http/Controllers/Auth/RoleController.php:169-180 | deleting roles keeps the database well formed, names unique, and a database without orphan links without them |
| Database.DeleteUsersPreserves | app/Http/Controllers/Auth/UserController.php:211 | a bulk user delete keeps the database well formed, names unique and e-mails unique |
| PermissionSeeder.Prefixed | database/seeders/PermissionSeeder.php:32-36 | one module's names are the module, a space and each plural action, in order |
| PermissionSeeder.SeedNamesExact | database/seeders/PermissionSeeder.php:15-17 | the seeder asks for exactly "Permission Lists" … "Role Deletes", in that order |
| PermissionSeeder.FirstOrCreate | database/seeders/PermissionSeeder.php:33-35 | an existing name is found and nothing changes; a new name gets one row with the next id; the answer is the lowest id with that name |
| PermissionSeeder.CreateAll | database/seeders/PermissionSeeder.php:31-43 | every existing row stays, the names become the old names plus the requested ones, and nothing is written when all exist |
| PermissionSeeder.SeedPermissions | database/seeders/PermissionSeeder.php:31-43 | only the permissions table grows, by the missing names |
| PermissionSeeder.SeedRole | database/seeders/PermissionSeeder.php:46-48 | "Super Admin" is found or created once; no other table changes |
| PermissionSeeder.GrantAll | database/seeders/PermissionSeeder.php:51-55 | the role's permission links are replaced by the first row of every permission name, so it holds every name; other roles keep theirs |
| PermissionSeeder.FirstHolders | database/seeders/PermissionSeeder.php:51-55 | the lowest-id row of every permission name: existing rows only, covering every name, and every row when names are unique |
| PermissionSeeder.FirstUser | database/seeders/PermissionSeeder.php:58 | `User::first()`: none exactly when there are no users, otherwise the lowest id |
| PermissionSeeder.PromoteFirstUser | database/seeders/PermissionSeeder.php:58-60 | with no users nothing changes; otherwise the first user's roles become exactly "Super Admin" and no other user's roles change |
| PermissionSeeder.PromoteEffect | database/seeders/PermissionSeeder.php:58-60 | promotion keeps the users; with none it changes no link; the lowest-id user ends with exactly the role, and the links of every later user stay |
| PermissionSeeder.Seed | database/seeders/PermissionSeeder.php:28-61 | the body of `run` for a given list of names keeps the database well formed; its effect is given by the `Seed*Effect` lemmas |
| PermissionSeeder.Run | database/seeders/PermissionSeeder.php:28-61 | `run` with its own module and action lists keeps the database well formed; `RunNames` and `RunIdempotent` give its effect |
| PermissionSeeder.SeedPermissionsEffect | database/seeders/PermissionSeeder.php:31-43 | after the run the permission names are the old names plus the seeded ones, and no existing row changed |
| PermissionSeeder.SeedRoleEffect | database/seeders/PermissionSeeder.php:46-55 | after the run "Super Admin" holds every permission name, and no other role's links changed |
| PermissionSeeder.SeedUsersEffect | database/seeders/PermissionSeeder.php:58-60 | after the run the first user has exactly the one role, and later users keep theirs |
| PermissionSeeder.SeedIdempotent | database/seeders/PermissionSeeder.php:28-61 | running the seeder a second time, at any later time, changes nothing |
| PermissionSeeder.RunIdempotent | database/seeders/PermissionSeeder.php:28-61 | the same for the seeder with its own module and action lists |
| PermissionSeeder.SeedNameSet | database/seeders/PermissionSeeder.php:15-19 | the seeded names are exactly the ten literals, with no extras |
| PermissionSeeder.RunNames | database/seeders/PermissionSeeder.php:31-43 | a run adds exactly the ten literal names to the permission names |
| AdminUserSeeder.Run | database/seeders/AdminUserSeeder.php:16-24 | afterwards some user has "admin@gmail.com"; nothing changes iff one already did; existing users are untouched and at most one user, the administrator, is added |
| AdminUserSeeder.RunIdempotent | database/seeders/AdminUserSeeder.php:16-24 | a second run changes nothing |
| AdminUserSeeder.RunKeepsEmailsUnique | database/seeders/AdminUserSeeder.php:16 | the guard on the e-mail keeps e-mails unique |
| AdminUserSeeder.RunCanDuplicateName | database/seeders/AdminUserSeeder.php:16-18 | the guard looks at the e-mail only, so an existing "Super Admin" user gets a namesake |
| Scenarios.SeededNamesHeldByFirstUser | database/seeders/PermissionSeeder.php:51-60 | on a database without permissions, the first user holds through its roles exactly the seeded names |
| Scenarios.FirstUserHoldsSeedNames | database/seeders/PermissionSeeder.php:28-61 | the same for the seeder's own ten names |
| Scenarios.AdminIsFirstUser | database/seeders/AdminUserSeeder.php:16-24 | on an empty database the administrator becomes user 1 and the only user |
| Scenarios.FreshInstallGrants | database/seeders/PermissionSeeder.php:58-60 | after both seeders, user 1 holds exactly the ten seeded names |
| Scenarios.SeedNamesCaps | app/Http/Controllers/Auth/RoleController.php:25-31 | holding exactly the ten seeded names turns on every permission boolean and no role or user boolean |
| Scenarios.FreshInstallCaps | app/Http/Controllers/Auth/UserController.php:26-32 | the administrator of a fresh install may do everything on permissions and nothing on roles or users |
| Scenarios.Selection | resources/js/Components/Datatable/DatatableServer.tsx:138-144 | a selected row's key is its id as decimal text, which reads back as that id |
| Scenarios.BulkRequestIds | resources/js/Components/Datatable/DatatableServer.tsx:277-278 | the ids a bulk request carries are exactly the selected ids |
| Scenarios.BulkDeletePermissions | app/Http/Controllers/Auth/PermissionController.php:188-197 | a table bulk delete removes exactly the selected permissions and says whether any existed |
| Scenarios.BulkDeleteUsers | app/Http/Controllers/Auth/UserController.php:203-212 | a table bulk delete removes exactly the selected users and leaves every role link in place |
| Gate.ResolveThroughRoles | app/Http/Controllers/Auth/RoleController.php:25-31 | each of a controller's five booleans, computed from the names a user holds through its roles, is true exactly when one of the user's roles holds a stored permission of that ability name |
| Gate.RoleDerivedNames | app/Http/Controllers/Auth/PermissionController.php:25-31 | a name is among those a user holds through roles exactly when one of its roles is linked to a stored permission of that name |
| DatatableServer.DeriveColumns | resources/js/Components/Datatable/DatatableServer.tsx:75-92 | the columns are the definitions that have an accessor key, in order, each searchable and orderable with an empty non-regex search |
| DatatableServer.DeriveColumnsComplete | resources/js/Components/Datatable/DatatableServer.tsx:75-92 | every derived column comes from a definition, and every keyed definition gets a column |
| DatatableServer.DefaultOptions | resources/js/Components/Datatable/DatatableServer.tsx:73-100 | the initial options: draw 1, start 0, length 5, no order, the derived columns |
| DatatableServer.ColumnIndex | resources/js/Components/Datatable/DatatableServer.tsx:179-186 | the least index whose name matches, or -1 iff none matches |
| DatatableServer.FindColumnIndex | resources/js/Components/Datatable/DatatableServer.tsx:179-186 | the loop finds the least matching index, or -1 iff none matches |
| DatatableServer.FindColumnIndexAgrees | resources/js/Components/Datatable/DatatableServer.tsx:179-186 | any answer meeting that description is the functional one's, so the loop and the recursion agree |
| DatatableServer.OnSearch | resources/js/Components/Datatable/DatatableServer.tsx:190-210 | an unknown column leaves everything alone; a known one changes only that column's search text, sets start 0 and length 5, and returns to page 0 |
| DatatableServer.PageChangeAsWritten | resources/js/Components/Datatable/DatatableServer.tsx:213-222 | the code as written: draw goes up by one, order is cleared, length is the page size, and start is the page index times the previous length |
| DatatableServer.PageChange | resources/js/Components/Datatable/DatatableServer.tsx:213-222 | the corrected start: the first requested row is the first row the footer announces |
| DatatableServer.PageChangeSameSize | resources/js/Components/Datatable/DatatableServer.tsx:213-222 | while the page size is unchanged, the code as written and the corrected one agree |
| DatatableServer.PageChangeAsWrittenMismatch | resources/js/Components/Datatable/DatatableServer.tsx:217 | after a page-size change the code requests a different first row than the one the footer announces |
| DatatableServer.OnSort | resources/js/Components/Datatable/DatatableServer.tsx:224-259 | only the order changes; no sort key clears it; an unknown column leaves the options alone; a known one gives one entry for that column, descending iff the key says so |
| DatatableServer.TransitionsKeepSingleOrder | resources/js/Components/Datatable/DatatableServer.tsx:213-259 | sorting, searching and paging never leave more than one order entry |
| DatatableServer.PageCount | resources/js/Components/Datatable/DatatableServer.tsx:160 | the least page count that covers every filtered record |
| DatatableServer.ShowingFrom | resources/js/Components/Datatable/DatatableServer.tsx:406 | the footer's first row number |
| DatatableServer.ShowingTo | resources/js/Components/Datatable/DatatableServer.tsx:406 | the footer's last row number: the page end, cut at the record count |
| DatatableServer.ShowingTiles | resources/js/Components/Datatable/DatatableServer.tsx:406 | full pages tile the rows: one page ends just before the next begins, and shows exactly a page size of rows |
| DatatableServer.ShowingLastPage | resources/js/Components/Datatable/DatatableServer.tsx:160-406 | when the page count comes from the page-change request, whose `length` is the page size, the footer of the last page ends at the record count and starts within it |
| DatatableServer.BulkRequest | resources/js/Components/Datatable/DatatableServer.tsx:277-278 | the request body is `ids` holding exactly the selected keys, in order |
| DatatableServer.OnDeleteBulk | resources/js/Components/Datatable/DatatableServer.tsx:273-297 | without a route nothing is sent; otherwise the selection is sent, and it is cleared only on success |
| RoleList.Mount | resources/js/Pages/Auth/Role/RoleList.tsx:77-79 | after mounting, every role the server sent is shown |
| RoleList.MountShowsAll | resources/js/Pages/Auth/Role/RoleList.tsx:75-79 | from the empty first render, the mount effect shows the server's list |
| RoleList.Search | resources/js/Pages/Auth/Role/RoleList.tsx:81-84 | the shown rows are a subsequence of the server's list in the original order, all matching, and including every matching row |
| RoleList.SearchCounts | resources/js/Pages/Auth/Role/RoleList.tsx:82 | a row is shown exactly as often as it was sent when it matches, and never otherwise |
| RoleList.EmptyQueryKeepsAll | resources/js/Pages/Auth/Role/RoleList.tsx:82 | an empty query shows every row |
| RoleList.SearchIgnoresQueryCase | resources/js/Pages/Auth/Role/RoleList.tsx:82 | lower-casing the query first changes nothing |
| RoleList.ReplayIsLastSearch | resources/js/Pages/Auth/Role/RoleList.tsx:81-84 | searches do not accumulate: after several, the page shows what the last one alone shows |
| Forms.Toggle | resources/js/Pages/Auth/User/UserForm.tsx:188-193 | the box shows the requested state afterwards; checking appends the id; unchecking keeps every other entry, in order |
| Forms.ToggleCounts | resources/js/Pages/Auth/Role/RoleForm.tsx:211-215 | toggling changes how often the toggled id occurs, to zero when unchecked, and no other id's count |
| Forms.UncheckUndoesCheck | resources/js/Pages/Auth/Role/RoleForm.tsx:211-215 | unchecking a box just checked restores a list that did not hold the id |
| Forms.Submit | resources/js/Pages/Auth/User/UserForm.tsx:64-75 | create always posts to the store route; edit puts to the update route iff the id is truthy; show sends nothing |
| UserForm.Issues | resources/js/Pages/Auth/User/UserForm.tsx:29-35 | the schema reports nothing iff the values are acceptable field by field, and each complaint names one of the four fields |
| UserForm.IssuePaths | resources/js/Pages/Auth/User/UserForm.tsx:31-34 | each field is reported exactly when its own check fails: empty name, no role, a bad or empty e-mail, a present password shorter than 8 or without an upper-case letter |
| UserForm.Start | resources/js/Pages/Auth/User/UserForm.tsx:37-55 | the page starts from the server's values when sent, else from blank values |
| UserForm.DefaultsRefused | resources/js/Pages/Auth/User/UserForm.tsx:37-43 | the blank create form cannot be sent; its empty password already draws the length complaint |
| UserForm.ToggleRole | resources/js/Pages/Auth/User/UserForm.tsx:188-193 | a role box changes the roles list only |
| UserForm.ToggleRoleKeepsOthers | resources/js/Pages/Auth/User/UserForm.tsx:188-193 | a role box changes its own checked state and no other box's |
| UserForm.SubmitUser | resources/js/Pages/Auth/User/UserForm.tsx:64-75 | nothing is sent iff the schema refuses; an edit puts to `user.update` with the submitted id iff it is truthy |
| RoleForm.Issues | resources/js/Pages/Auth/Role/RoleForm.tsx:23-27 | the schema reports nothing iff the name is non-empty and the permission list is present; an empty name draws the length message, a missing list "Required" |
| RoleForm.Start | resources/js/Pages/Auth/Role/RoleForm.tsx:29-52 | the page starts from the server's role when sent, else from an empty name and an empty permission list |
| RoleForm.DefaultsRefusedForName | resources/js/Pages/Auth/Role/RoleForm.tsx:29-52 | the blank create form is refused for its name alone, and no box starts ticked |
| RoleForm.Boxes | resources/js/Pages/Auth/Role/RoleForm.tsx:199-223 | no catalogue means the page throws while drawing; otherwise one box per catalogue entry, checked exactly when the form's list holds its id |
| RoleForm.TogglePermission | resources/js/Pages/Auth/Role/RoleForm.tsx:208-215 | with a list, a box is drawn checked afterwards exactly when it was ticked; without one, ticking throws and clearing leaves the list absent |
| RoleForm.ToggleOtherKeepsChecked | resources/js/Pages/Auth/Role/RoleForm.tsx:208-215 | ticking one box leaves every other box as it was |
| RoleForm.SubmitRole | resources/js/Pages/Auth/Role/RoleForm.tsx:63-74 | nothing is sent iff the name is empty or the permission list is missing; an edit puts to `role.update` iff the page's own role id is truthy, whatever id the values carry |
| RoleForm.EditWithoutRoleSendsNothing | resources/js/Pages/Auth/Role/RoleForm.tsx:49-52 | an edit page opened without a role never sends an update |
| RoleForm.EditsKeepPermissionsAbsent | resources/js/Pages/Auth/Role/RoleForm.tsx:177-215 | from values without a permission list, no run of renames and box clicks produces one |
| RoleForm.ControllerProps | app/Http/Controllers/Auth/RoleController.php:53-123 | the create page gets no role; show and edit get the bare role row, with no permission list; no page gets a permission catalogue |
| RoleForm.AsWrittenEditNeverUpdates | app/Http/Controllers/Auth/RoleController.php:113-123 | with those props no role page draws its boxes, and the edit page never sends its update, whatever the visitor edits |
| RoleForm.CorrectedProps | app/Http/Controllers/Auth/RoleController.php:53-123 | the corrected props send the catalogue on every page and the role with its permission list |
| RoleForm.CorrectedEditUpdates | app/Http/Controllers/Auth/RoleController.php:113-123 | with the corrected props, a stored role's edit page checks exactly the role's permissions and submitting the loaded values puts them to `role.update` for that role |

## Left out

- Authentication and the redirect to the login page: every handler assumes an
  authenticated user.
- Inertia page rendering: pages are datatypes carrying the props the
  controllers pass.
- Gate internals: `can` is answered from the set of ability names in the
  context. Permissions the user holds through roles are computed separately
  (`Gate.RoleDerivedNames`). A super-administrator bypass registered outside
  these files is not part of this model, so `Scenarios.FreshInstallCaps` shows
  the literal consequence of the names.
- The server-side filtering, sorting and paging behind `DataTables::of(...)`:
  that is a foreign library, so `Datatables` only models the `list` gate.
- Spatie's `sync`, `assignRole`, `syncRoles`, `syncPermissions`: these are
  set replacement or union. Ids naming no row are dropped rather than raising
  an error. In the code, an unknown id makes `sync` fail on the
  `permission_id` foreign key and `assignRole` throw `RoleDoesNotExist`, so
  the answer is a server error after the row was already written. A `permissions` value that is not a list is cast to a one-element
  list.
- The join tables' foreign keys come from the permission package's
  migration, which is not part of this model. As modelled, `permission_id` and
  `role_id` cascade on delete and `model_id` has no foreign key. The deleting
  hooks that run on a single delete come from the package's `HasPermissions`
  and `HasRoles` traits, also not part of this model. As modelled, `$user->delete()`
  detaches the user's roles, and `$permission->delete()` detaches nothing,
  because the hook detaches a model's own permissions for every model but a
  permission.
- Database.DeletePermission: follows the package's current deleting hook, which
  skips the detach for a permission; releases without that check also removed
  the links the deleted permission owns. No file of the repository fixes the
  package version.
- `App\Models\User` is not part of this model. The model assumes its
  mass-assignment settings let every field the code writes through, and that
  an update always saves. `AdminUserSeeder.Admin` stores `email_verified_at`,
  which Laravel's default `$fillable` (name, e-mail, password) would drop.
  `UserController.Revised` stamps `updated_at` on every update, while Eloquent
  writes nothing, and so no stamp, when no field changed.
- Reuse of auto-increment ids: before MySQL 8.0 a restart could hand the
  highest deleted id out again, and that new row would inherit the links the
  bulk deletes left behind. The model's counters never go back.
- `Str::plural`: appends "s" to the five fixed action words.
- `bcrypt`: the password is stored as an opaque value.
- Timestamps: `date(...)` and `now()` are a clock parameter.
- Database collation (case-insensitive name equality) is left out; names compare exactly.
- Races between the duplicate check and the insert are left out, because requests are sequential here.
- The users table's unique e-mail index is not modelled. A duplicate e-mail on update is accepted, as `UserController.UpdateCanDuplicateEmail` shows.
- The global middleware stack: app/Http/Kernel.php is not part of this model.
  `Middleware.Prepare` assumes Laravel's default stack, in which `TrimStrings`
  (exempting `current_password`, `password` and `password_confirmation`) runs
  before `ConvertEmptyStringsToNull`. Trimming removes the characters PHP's
  `trim` removes; the further Unicode spaces that newer releases' pattern also
  strips are not modelled. The controller handlers (`Store`, `Update`,
  `Destroys`) take the payload in the form the middleware leave it, and
  `StoreWritesSentFields` and `UpdateWritesSentFields` state the stored fields
  against that payload.
- `is_numeric` also accepts decimals, exponents and surrounding spaces. The
  model's `IsNumericText` accepts an optional sign and digits only. Association
  ids and the bulk-delete `ids` are read as plain decimal text only
  (`Validation.IdsOf`); MySQL's `whereIn` would coerce text such as "12abc" to
  12, and the model drops such an id instead.
- The order between 404 and 403 when an unauthorised user names a missing row:
  it depends on middleware order. The model binds the route first.
- PermissionController.DeniedChangesNothing: promises 403 only when the row exists and the payload passed the request's validation; otherwise the answer is the earlier 404 or 400, because the form request runs before the controller's boolean.
- RoleController.DeniedChangesNothing: weaker in the same way, for the same reason.
- UserController.DeniedChangesNothing: weaker in the same way, for the same reason.
- UserController.HandlePreserves: does not promise unique e-mails after update, because update does not check them.
- DatatableServer.PageCount: requires a positive length. The source's `|| 0` turns a zero length's `NaN` into 0, and floating-point division is not modelled.
- PermissionSeeder.Seed: requires a well-formed database: every edge points at an existing row, which the foreign keys ensure, and every edge's owner id was already handed out, which holds because the counters never go back. Links owned by deleted rows are allowed.
- AdminUserSeeder.Run: requires a well-formed database, in the same sense.
- RoleList.Search: lower-cases ASCII letters only; JavaScript's full Unicode case mapping is not modelled.
- The zod e-mail pattern and the validator's `email` rule are a parameter (`isEmail`), not a regular expression.
- JavaScript number typing: form identifiers are integers.
- Payload values are null, text or lists. JSON numbers and booleans are not modelled.
- The duplicate-name query on a list with no scalar at all (an empty or nested-empty list that passes the name rules) binds `false`, which MySQL compares as 0. The model lets such a list match no row.
- Validation messages: the error bag holds each failed rule's key (`required`, `min`, `email`, …), as `Validation.Rule.Key` gives it, and not the translated sentence Laravel reads from its language files, which are not part of this model.
- A user stored without a password gets no password. The users table's `password` column is NOT NULL in the default migration, which is not part of this model, so such an insert would fail there.
- The form component's navigation, toasts, `form.reset` and server-error display are UI plumbing and are left out.
- The table's debounce timers, `AbortController` and fetch are asynchronous UI plumbing and are left out.
- `Datatable.tsx` (the client-side table) is left out.
- The list pages, buttons, dialogs and layout components hold no logic beyond configuration and are left out.
- `PermissionForm.tsx` has a single non-empty-name schema, the same as `RoleForm.Issues`, and is left out.

## Findings

| source | as written | input that shows it | evidently intended | confidence | as-written member | corrected member |
|---|---|---|---|---|---|---|
| resources/js/Components/Datatable/DatatableServer.tsx:217 | `start: pageIndex * tableOptions.length` uses the length of the previous request | change the page size from 5 to 10 while on page 3: the table moves to page index 1, and the request asks for rows from 5 while the footer says "Showing 11 to 20" | `start: pageIndex * pageSize`, so the first requested row is the first row announced | medium, not executed | DatatableServer.PageChangeAsWritten, DatatableServer.PageChangeAsWrittenMismatch | DatatableServer.PageChange |
| app/Http/Controllers/Auth/RoleController.php:103-122 | `show` and `edit` pass the bare role row as `role_data`, with no `permissions` key, and no page of the role form gets `permission_data` | open the edit page of any role: `permission_data.map` throws while drawing, and even values taken as given are refused with "Required" on `permissions`, so no update is sent | pass the role with its permission ids, and the permission catalogue on every role form page | high, not executed | RoleForm.ControllerProps, RoleForm.AsWrittenEditNeverUpdates | RoleForm.CorrectedProps, RoleForm.CorrectedEditUpdates |
| app/Http/Controllers/Auth/UserController.php:183-185 | roles are synced only `if (isset($data['users']))`, a key the request never validates | update user 2, which holds role 1, with its own name and `roles: ["3"]` while role 3 exists: the answer is 200 and user 2 still holds only role 1 | `syncRoles($data['roles'])` whenever `roles` was sent | high, not executed | UserController.Update, UserController.UpdateIgnoresSentRoles | UserController.UpdateSyncingRoles, UserController.UpdateSyncingRolesPreserves |
