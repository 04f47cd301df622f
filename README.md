# Build-control backend core, in Dafny

This project models the data-access and service core of a FastAPI/SQLModel back end for construction projects. Users register with a mobile number, an email and a password. They log in with that password, or with a one-time code sent to their phone. They then create and read their own projects.

The model covers five parts:

- **the persisted-entity base** (`Records`, app/common/models.py). A row has a uuid, `created_at`, `updated_at` and a nullable `deleted_at`, plus its model's own columns. `soft_delete` and `restore` change only `deleted_at`. A row is a `Record` value. The ORM instance that the repository loads, changes and commits is an `Entity` object.
- **the generic repository** (`Repositories`, app/common/repository.py). A table is a `seq<Record>` owned by a `Repository` object.
  - Reads are functions of the table: `get`, `get_all`, `get_by_filters`, `exists`, `count` and `count_by_filters`.
  - Writes are methods that replace the table: `create`, `create_bulk`, `update`, `update_bulk`, `delete`, `delete_bulk`, `soft_delete`, `soft_delete_bulk`, `restore` and `restore_bulk`.
  - Filters keep only the keys the model has an attribute for. A `None` filter value means `IS NULL`.
  - Soft-deleted rows are hidden only for models that derive from the soft-delete mixin. Operations that require the mixin raise `TypeError` on other models.
- **the OTP table queries** (`OtpRepositories`, app/otp/repository.py) and **the in-memory OTP service** (`OtpServices`, app/otp/services.py). The service is a dictionary from mobile number to a pending code, its expiry and its attempt count.
- **the user and project repositories** (`Users`, `Projects`): the lookups by email, by mobile number and by name.
- **the user and project services** (`UserServices`, `ProjectServices`):
  - registration with duplicate checks;
  - password login with its 401/403 outcomes and the access-token claims;
  - sending a code and logging in with it;
  - creating a project, reading one with its ownership check, and listing the caller's projects.

Time is an integer number of seconds, passed in as `now`; the settings count minutes. Some things are parameters of the model:

- the password hasher and verifier;
- the UUID parser;
- the SMS outcome;
- the settings values (`Config.Settings`);
- the uuid that uuid4 would generate.

Every proof holds for all values of these parameters.

Where the project's documentation and the code disagree, the model follows the code:

- **OTPs.** The documentation has the OTP lifecycle kept in the OTP table: issuing a code soft-deletes the previous one, and verifying marks a record verified. The service the code actually uses is the in-memory dictionary of app/otp/services.py. The OTP table has only the three queries of app/otp/repository.py.
- **Passwords.** The documentation gives users a hashed password. The User table declares no password column (Findings, row 1).
- **Bulk creation.** The documentation calls bulk operations item-by-item and non-atomic. `create_bulk` commits all instances in one transaction, so a reused uuid fails the whole batch. `update_bulk` does run item by item.
- **Wrong OTP.** The documentation files an invalid or expired code under 401. The code answers 400.

## Model

| member | source | states |
|---|---|---|
| Records.Dump | app/users/services.py:131 | `model_dump(exclude=…)` has exactly the record's attributes minus the excluded names, each with its getattr value |
| Records.ConstructConforms | app/users/services.py:65 | `Model(**kwargs)` holds exactly the model's columns: a given column takes its value, a missing one its default, a non-column key is dropped |
| Records.SoftDeleteOnlyStamps | app/common/models.py:32-33 | after `soft_delete` the row is deleted, `deleted_at` is the clock reading, and every other attribute is unchanged |
| Records.RestoreUndoesSoftDelete | app/common/models.py:32-36 | restoring a live row that was just soft-deleted gives back the original row |
| Records.RestoreIdempotent | app/common/models.py:35-36 | a restored row is live, restoring twice equals restoring once, and restore changes nothing but `deleted_at` |
| Records.Entity.New | app/common/models.py:9-30 | a new instance has the generated uuid, created_at and updated_at from the given clock reading, no deletion stamp, and the given columns |
| Records.Entity.Load | app/common/repository.py:91-92 | the instance a query hands out holds exactly the stored row |
| Records.Distinct | app/common/repository.py:64 | the instances `add_all` puts in the session: each listed instance once, and no other |
| Records.DistinctInOrder | app/common/repository.py:64 | the session's instances come in the order of their first listing |
| Records.Entity.SoftDelete | app/common/models.py:32-33 | the instance's row afterwards is its soft-deleted row |
| Records.Entity.Restore | app/common/models.py:35-36 | the instance's row afterwards is its restored row |
| Records.Entity.SetAttr | app/common/repository.py:215-217 | setattr changes exactly the named attribute of the instance |
| Repositories.Page | app/common/repository.py:117 | OFFSET/LIMIT: at most `limit` rows, exactly `min(limit, n - skip)` of them, taken in order from position `skip` |
| Repositories.UnknownFilterIgnored | app/common/repository.py:147-150 | a filter key the model has no attribute for is dropped, whatever its value |
| Repositories.MatchingFewer | app/common/repository.py:152-153 | adding filters never selects more rows than no filters at all |
| Repositories.UpdatedAttrs | app/common/repository.py:211-217 | after update, uuid and created_at are unchanged, every other given attribute the row has takes its new value, and every attribute not given keeps its value |
| Repositories.UpdatedIgnoresProtected | app/common/repository.py:211-213 | including uuid or created_at in the changes makes no difference |
| Repositories.UpdatedConforms | app/common/repository.py:215-217 | an update keeps the row's uuid and its set of columns |
| Repositories.UpdateAll | app/common/repository.py:240-247 | update_bulk keeps the table's length and its uniqueness of uuids, and returns at most one row per requested update |
| Repositories.SoftDeletedInByPositions | app/common/repository.py:325-336 | stamping each selected live row in selection order gives the table in which exactly the listed live rows are soft-deleted; uuids and columns are kept |
| Repositories.RestoredInByPositions | app/common/repository.py:380-391 | clearing each selected row's stamp gives the table in which exactly the listed deleted rows are restored |
| Repositories.SoftDeleteBulkTwice | app/common/repository.py:325-336 | after soft_delete_bulk, the same list selects no row, so a second call counts 0 |
| Repositories.RestoreBulkTwice | app/common/repository.py:380-391 | after restore_bulk, the same list selects no row, so a second call counts 0 |
| Repositories.PartitionCount | app/common/repository.py:279-287 | the rows delete_bulk removes plus the rows it keeps are the whole table |
| Repositories.Repository.constructor | app/common/repository.py:26-35 | a repository over a well-formed model and a table of conforming rows with unique uuids |
| Repositories.Repository.Get | app/common/repository.py:75-92 | returns a row with that uuid, live when the model soft-deletes; None exactly when no such visible row exists |
| Repositories.Repository.GetAll | app/common/repository.py:94-120 | a page of the visible rows, of exactly the size offset and limit allow over `count` |
| Repositories.Repository.FilterConditions | app/common/repository.py:147-150 | the conditions built are exactly the filters whose key is an attribute of the model |
| Repositories.Repository.GetByFilters | app/common/repository.py:122-162 | a page of visible rows, each equal to every recognised filter value, of exactly the size offset and limit allow over `count_by_filters` |
| Repositories.Repository.First | app/users/repository.py:14-15 | `results[0] if results else None`: a visible row meeting every recognised filter; None exactly when no row is selected |
| Repositories.Repository.Exists | app/common/repository.py:164-186 | true exactly when some row meets the recognised filters; soft-deleted rows count too |
| Repositories.Repository.Count | app/common/repository.py:398-414 | at most the table size, and the whole table when deleted rows are included or the model has no soft delete |
| Repositories.Repository.CountByFilters | app/common/repository.py:416-443 | never more than `count` with the same include_deleted |
| Repositories.CountIsPositions | app/common/repository.py:398-414 | the count is the number of table positions whose row the query can see |
| Repositories.CountByFiltersIsPositions | app/common/repository.py:416-443 | the count is the number of table positions whose row is visible and meets every recognised filter |
| Repositories.GetAllAt | app/common/repository.py:94-120 | get_all's rows are the visible rows at consecutive selected positions from `skip` on, in table order, `min(limit, n - skip)` of them for `n` visible rows |
| Repositories.GetByFiltersAt | app/common/repository.py:122-162 | get_by_filters' rows are the selected rows at consecutive selected positions from `skip` on, in table order, `min(limit, n - skip)` of them for `n` selected rows |
| Repositories.Repository.Create | app/common/repository.py:39-52 | a fresh uuid appends the instance's row and returns it; a reused uuid is an IntegrityError and leaves the table alone |
| Repositories.Repository.CreateBulk | app/common/repository.py:54-71 | one commit: it succeeds exactly when the uuids of the session's instances stay unique, appends each instance's row once, and returns the list as given; otherwise nothing is stored |
| Repositories.AddAll | app/common/repository.py:64 | the instances added are exactly `Distinct` of the list |
| Repositories.Repository.Update | app/common/repository.py:190-221 | a row get cannot see gives None and no change; otherwise exactly that row is replaced by its updated row, which is returned |
| Repositories.AssignChanges | app/common/repository.py:215-217 | the loop of update turns the instance into its row with every change it has an attribute for applied |
| Repositories.Repository.UpdateBulk | app/common/repository.py:223-247 | the table is that of applying update to each pair in turn; the returned instances are rows of the final table, one per uuid, and are the rows each update produced when no uuid is updated twice |
| Repositories.Refetched | app/common/repository.py:219-220 | each returned instance keeps its uuid and, when the row is stored, shows the stored row |
| Repositories.UpdateAllKeeps | app/common/repository.py:240-247 | updates of other uuids leave a row as it was |
| Repositories.UpdateAllUuids | app/common/repository.py:240-247 | update_bulk keeps every row's uuid, and every row it returns has a stored row |
| Repositories.RefetchedDistinct | app/common/repository.py:240-247 | with no uuid updated twice, the refreshed instances are exactly the rows the updates produced |
| Repositories.RefetchedResult | app/common/repository.py:240-247 | the refreshed instances are rows of the final table, those with one uuid are one and the same, and they are the updates' rows when no uuid repeats |
| Repositories.Repository.Delete | app/common/repository.py:251-267 | true exactly when get finds the row; then exactly that row is removed and no row with the uuid remains |
| Repositories.Repository.DeleteBulk | app/common/repository.py:269-287 | removes exactly the listed rows, deleted or not, and returns how many were removed |
| Repositories.Repository.SoftDelete | app/common/repository.py:289-310 | TypeError without the mixin; otherwise it stamps the live row with that uuid, or returns None; afterwards get finds no row with that uuid |
| Repositories.Repository.Restore | app/common/repository.py:341-365 | TypeError without the mixin; otherwise it clears the stamp of the row with that uuid, deleted or not, and get finds the restored row |
| Repositories.Repository.SoftDeleteBulk | app/common/repository.py:312-339 | TypeError without the mixin; otherwise exactly the listed live rows are stamped and counted |
| Repositories.Repository.SoftDeleteWhere | app/common/repository.py:332-339 | stamps each selected row, in table order, and returns their number |
| Repositories.SoftDeleteRows | app/common/repository.py:335-336 | the loop `for obj in objects: obj.soft_delete()` soft-deletes exactly the rows at the selected positions |
| Repositories.SoftDeleteRow | app/common/models.py:32-33 | loading a row, calling soft_delete and reading it back gives its soft-deleted row |
| Repositories.RestoreRows | app/common/repository.py:390-391 | the loop `for obj in objects: obj.restore()` restores exactly the rows at the selected positions |
| Repositories.RestoreRow | app/common/models.py:35-36 | loading a row, calling restore and reading it back gives its restored row |
| Repositories.Repository.RestoreBulk | app/common/repository.py:367-394 | TypeError without the mixin; otherwise exactly the listed deleted rows are restored and counted |
| OtpRepositories.Latest | app/otp/repository.py:31-32 | ORDER BY created_at DESC LIMIT 1: None only for no rows, otherwise a selected row no older than any other |
| OtpRepositories.GetActiveByMobile | app/otp/repository.py:15-36 | the newest OTP row for the number that is unexpired, unverified and live; None exactly when there is none |
| OtpRepositories.GetLatestByMobile | app/otp/repository.py:38-52 | the newest OTP row for the number, hiding deleted rows unless include_deleted; None exactly when there is none |
| OtpRepositories.SoftDeleteExpired | app/otp/repository.py:54-75 | stamps exactly the expired, unverified, live rows and returns their number |
| OtpRepositories.Swept | app/otp/repository.py:60-72 | only that the sweep keeps the table's length; SoftDeleteExpired, SweepKeepsActive and SweepTwiceFindsNothing carry its meaning |
| OtpRepositories.ActiveExcludesSweepable | app/otp/repository.py:26-62 | no row is both active and sweepable; a live unverified row with an expiry is one or the other |
| OtpRepositories.SweepKeepsActive | app/otp/repository.py:15-75 | the sweep changes no number's active OTPs |
| OtpRepositories.SweepTwiceFindsNothing | app/otp/repository.py:54-75 | a second sweep at the same instant stamps nothing |
| OtpServices.ExpiryMinutes | app/otp/services.py:26 | `expiry_minutes or default`: a given non-zero value is used, a missing or zero one falls back to OTP_EXPIRE_MINUTES |
| OtpServices.VerifyOutcome | app/otp/services.py:34-64 | other numbers' entries are untouched, no entry is added, and success removes the entry |
| OtpServices.PeekOutcome | app/otp/services.py:66-78 | a code is returned exactly when one is pending and unexpired, leaving the store alone; otherwise the entry is removed |
| OtpServices.OtpService.constructor | app/otp/services.py:14-16 | the store starts empty |
| OtpServices.OtpService.GenerateOtp | app/otp/services.py:18-20 | exactly `length` characters (none for a negative length), each a decimal digit |
| OtpServices.OtpService.StoreOtp | app/otp/services.py:22-32 | the number's entry is replaced by the new code, with its expiry and zero attempts |
| OtpServices.OtpService.VerifyOtp | app/otp/services.py:34-64 | the answer and the new store are those of VerifyOutcome |
| OtpServices.OtpService.GetOtp | app/otp/services.py:66-78 | the answer and the new store are those of PeekOutcome |
| OtpServices.OtpService.ClearOtp | app/otp/services.py:80-82 | the number's entry is removed, present or not |
| OtpServices.StoreThenClear | app/otp/services.py:28-32 | clearing a number right after storing its code gives the earlier store without that number |
| OtpServices.VerifyAcceptsExactly | app/otp/services.py:39-62 | a code is accepted exactly when it is pending, unexpired, under the attempt limit and equal |
| OtpServices.VerifyWrongCodeCounts | app/otp/services.py:55-64 | a wrong code on a live entry is refused, counted, and the entry is kept |
| OtpServices.ExpiredRefused | app/otp/services.py:44-48 | past its expiry even the right code is refused and the entry is dropped |
| OtpServices.ExpiryBoundaryAccepted | app/otp/services.py:45 | a code is still accepted at the very instant it expires |
| OtpServices.SingleUse | app/otp/services.py:59-62 | an accepted code is never accepted again |
| OtpServices.StoredThenVerified | app/otp/services.py:22-64 | a stored code verifies until its expiry, when attempts are allowed, and is consumed |
| OtpServices.StoreReplacesCode | app/otp/services.py:28-32 | storing a second code for a number makes the first one fail |
| OtpServices.PeekMatchesVerify | app/otp/services.py:66-78 | get_otp's code is accepted by verify_otp exactly when attempts remain |
| OtpServices.VerifyEach | app/otp/services.py:34-64 | only that a run of attempts gives one answer per attempt; WrongCodesCounted and LockedOutAfterMaxAttempts carry its meaning |
| OtpServices.WrongCodesCounted | app/otp/services.py:50-64 | within the expiry and the limit, every wrong code is refused and the count rises by the number of attempts |
| OtpServices.LockedOutAfterMaxAttempts | app/otp/services.py:50-53 | after OTP_MAX_ATTEMPTS wrong codes even the right code is refused and the entry is dropped |
| Users.GetByEmail | app/users/repository.py:12-15 | the first visible user with that email; None exactly when no user has it |
| Users.GetByMobile | app/users/repository.py:17-20 | the first visible user with that mobile number; None exactly when no user has it |
| Users.SoftDeletedUserFoundByEmail | app/users/repository.py:12-15 | a soft-deleted user is still found by email, since User lacks the repository's mixin |
| Users.SoftDeletedUserFoundByMobile | app/users/repository.py:17-20 | a soft-deleted user is still found by mobile number |
| Projects.GetByName | app/projects/repository.py:12-15 | as written: a visible project, and None only when no project is visible |
| Projects.GetByNameIgnoresName | app/projects/repository.py:14 | as written, the answer does not depend on the name given |
| Projects.GetByNameFindsOtherProject | app/projects/repository.py:14 | as written, a name no project has still returns a project of another name |
| Projects.GetByNameCorrected | app/projects/repository.py:12-15 | a visible project with that name; None exactly when no visible project has it |
| ProjectServices.ProjectColumns | app/projects/services.py:29-33 | the new project's columns are the payload's fields with user_id set to the caller's uuid |
| ProjectServices.ProjectService.constructor | app/projects/services.py:19-21 | a service over the project table |
| ProjectServices.ProjectService.CreateProject | app/projects/services.py:23-39 | the stored project carries the payload and the caller as owner, and get then finds it; a reused uuid is an IntegrityError that stores nothing |
| ProjectServices.ProjectService.GetProject | app/projects/services.py:41-68 | 400 for text that is not a UUID, 404 for no live project, 403 exactly when the project is someone else's; otherwise the caller's own live project |
| ProjectServices.ProjectService.GetAllProjects | app/projects/services.py:70-76 | the caller's live projects at consecutive positions from `skip` on, in table order, `min(limit, n - skip)` of them for `n` such projects |
| ProjectServices.OwnedSelected | app/projects/services.py:76 | filtering on user_id selects exactly the caller's live projects |
| ProjectServices.CreatedProjectReadable | app/projects/services.py:41-68 | the owner reads back a live project they own by its uuid |
| ProjectServices.OtherUserForbidden | app/projects/services.py:61-66 | any other user is refused with 403 |
| ProjectServices.DeletedProjectNotFound | app/projects/services.py:54-59 | a soft-deleted project is 404, even for its owner |
| UserServices.PasswordCheck | app/users/services.py:114 | verify against a missing attribute raises, against a null hash is false, and against a string hash is the verifier's answer |
| UserServices.RegisteredColumns | app/users/services.py:59-65 | with a password column, registration stores the hashed password and the email, and the account starts active |
| UserServices.UserService.constructor | app/users/services.py:30-33 | a service over the user table and the OTP service |
| UserServices.UserService.CreateUser | app/users/services.py:35-71 | a taken mobile number is 400, then a taken email is 400; otherwise, over the User table with the password column of Findings row 1, the user is stored with the password hashed and is what get_by_email then finds |
| UserServices.UserService.GetUserByEmail | app/users/services.py:73-81 | the user with that email, or 404 exactly when there is none |
| UserServices.UserService.CreateAccessToken | app/users/services.py:83-96 | the claims name the user's uuid and email and expire JWT_ACCESS_TOKEN_EXPIRE_MINUTES after issue |
| UserServices.UserService.Authenticated | app/users/services.py:127-136 | a bearer token for the user, and the user's attributes without the password |
| UserServices.UserService.Login | app/users/services.py:98-136 | over the User table with a password column: unknown email and wrong password are 401, a verified password on an inactive account is 403, a password check that raises is that error; success needs a verified password and an active account |
| UserServices.LoginSucceeds | app/users/services.py:106-136 | login succeeds for a known email whose password verifies on an active account, answering with that user's token and data |
| UserServices.UserService.SendOtp | app/users/services.py:138-184 | unknown number 404, inactive 403, both leaving the store alone; otherwise a fresh code is stored, and cleared again when the SMS is not delivered |
| UserServices.UserService.OtpLogin | app/users/services.py:196-226 | a refused code is 400, a missing user 404, an inactive one 403; success exactly otherwise |
| UserServices.UserService.VerifyOtpAndLogin | app/users/services.py:186-226 | the code is checked, and consumed, before the user is looked up; the answer is OtpLogin's |
| UserServices.NewRowFirstByEmail | app/users/services.py:51-66 | after an insert the email check allowed, the new row is the only one with its email |
| UserServices.WrongPasswordLooksLikeUnknownEmail | app/users/services.py:106-118 | a wrong password and an unknown email get the same answer |
| UserServices.LoginAfterRegistration | app/users/services.py:59-136 | with a password column, a registered user logs in with their password |
| UserServices.RegistrationDropsPassword | app/users/services.py:62-65 | with the User table as declared, the hashed password is not stored |
| UserServices.LoginAsWrittenRaises | app/users/services.py:114 | with the User table as declared, every login of a known email raises AttributeError |
| UserServices.PasswordNotDeclared | app/users/models.py:8-57 | the declared User table has no password column |
| UserServices.SentCodeLogsIn | app/users/services.py:162-218 | a delivered code logs an active user in until it expires, and is consumed |

## Left out

- HTTP wiring, dependency injection and exception handlers are not modelled. A `Failure` stands for the HTTPException raised, or for the uncaught exception.
- The async session, transactions and `refresh` are not modelled. A table is a value the repository replaces, the rows of a query come in table order, and ORDER BY ties are broken by table order.
- The identity map is modelled only where create_bulk and update_bulk depend on it: an instance listed twice is added once, and update_bulk returns one instance per row showing its last committed state. Elsewhere a returned row is a snapshot, not a shared instance.
- The unique indexes on a user's email and mobile number, and NOT NULL, are not modelled. Only the uuid primary key is enforced. Duplicates are kept out only by create_user's checks, which a concurrent request could race.
- The multiple-row error of `scalar_one_or_none` is not modelled. Unique uuids rule it out for get and restore. OTP queries have LIMIT 1.
- Repositories.Repository.Update: models only the dictionary form of `obj_in`. It requires base-column values of their column's type.
- The model-instance form of `update`, `model_dump(exclude_unset=True)`, is not modelled; it needs Pydantic's set-field tracking.
- `hasattr` is modelled over column names only. Methods and other class attributes, which hasattr would also accept as filter keys, are not.
- `soft_delete_bulk` and `soft_delete_expired` read the clock once per object. The model uses one `now` for the whole call.
- Records.Entity.New: created_at and updated_at come from one clock reading. The source calls `now_utc_naive` once per field, so the two may differ slightly.
- UserServices.UserService: its user table is the one with the password column of Findings row 1, so CreateUser, Login, LoginSucceeds and LoginAfterRegistration describe the corrected behaviour. The table as declared is covered by RegistrationDropsPassword and LoginAsWrittenRaises.
- The `onupdate` of `updated_at` is not modelled. In the declared User table an update refreshes `updated_at` on its own.
- Negative `skip` or `limit` are not modelled. The database rejects them.
- JWT encoding and signing are not modelled; a token is represented by its claims.
- bcrypt hashing and verification are parameters, and `Sound` states the one fact the proofs use. GenerateOtp's random digits are an arbitrary choice.
- The SMS provider is an input of send_otp: delivered, not delivered, or raising.
- The UUID parser of get_project is a parameter.
- app/users/services.py builds its OTP service from a session and awaits its synchronous methods. UserService is given the in-memory service's semantics instead.
- The settings values (OTP length, expiry, attempt limit, token lifetime) are not part of this model. They are fields of `Config.Settings`, and every result holds for all their values.
- Timezone handling (naive against aware datetimes) is not modelled. Every clock reading is a number of seconds.

## Findings

| source | as written | input that shows it | evidently intended | confidence | as-written member | corrected member |
|---|---|---|---|---|---|---|
| app/users/services.py:62-65,114 | registration stores the bcrypt hash under `password`, but the User table declares no such column. `User(**data)` drops it, and login's `user.password` raises AttributeError, a 500 | register any user, then log in with the same email and password | the hash is stored in a password column, and the registered password logs in | medium, not executed | UserServices.LoginAsWrittenRaises | UserServices.LoginAfterRegistration |
| app/projects/repository.py:14 | get_by_name filters on `project_name`, which is not a Project attribute. The filter is dropped, and the first live project of any name is returned | one live project named "A"; get_by_name("B") returns it | return a live project whose `name` equals the argument, or None | high, not executed | Projects.GetByNameFindsOtherProject | Projects.GetByNameCorrected |
