# TaskFlow core in Dafny

A functional model of the behavioural core of TaskFlow, a multi-tenant task
manager built on Django. Every tenant (organization) has its own schema;
user accounts live in a shared table.

- **Scheduled-task processor** (`services.dfy`, `process_tasks.dfy`).
  `TaskProcessor.process_scheduled_task` turns one scheduled task into a
  task. It resolves the board, falling back to the creator's first board or
  a new "Default Board". It copies the fields and assignees, marks the row
  PROCESSED, creates the next occurrence of a recurring task, and writes a
  best-effort audit entry. On any exception it rolls the unit back and
  records FAILED. The `process_tasks` command runs this for every due row of
  every tenant except `public`, and counts successes and failures.
- **Task models** (`task_models.dfy`): the enums and their stored codes,
  defaults, the `completed_at` rule of `Task.save`, `is_overdue`, and the
  `Meta.ordering` of scheduled tasks.
- **Request helpers** (`request_meta.dfy`): the client address, the
  truncated user agent, and the audit write that never raises.
- **Organization helpers** (`org_helper.dfy`): the next payment date by
  calendar month or year, and schema- and domain-name generation.
- **Validators** (`org_serializers.dfy`, `account_serializers.dfy`): the
  `validate_*` methods of the organization and account serializers. Also
  the login response, the change-password rule and the password split of
  `create`.
- **Accounts** (`account_models.dfy`, `account_auth.dfy`): `full_name`,
  `clean`, the permission class `IsOrganizationAdminOrOwner`, and the
  decision order of the JWT authentication.
- **Views, as status-code decisions** (`account_views.dfy`,
  `org_views.dfy`):
  - signup restricted to the organization's e-mail domain;
  - the user-detail access rules;
  - the organization-details PATCH;
  - the subscription PATCH action machine;
  - organization creation with its derived fields.

`common.dfy` holds `Option`, `Result`, JSON-like values and the HTTP
status codes. `text.dfy` holds Python's `str.strip` (over Python's full
whitespace set), an ASCII `lower`, `lstrip` of one character, `split` by
a separator, and slicing.

Modelling choices:

- **Tables.** A tenant's tables are a `Store` of sequences, indexed by row
  id. New rows are appended, so fresh ids are deterministic.
- **Time.** Time is integer seconds, and calendar dates are `Date` records.
  The clock is a parameter:
  - `ItemEnv.stamp` stands for every clock read inside one item's unit:
    the read at services.py line 110, the `timezone.now()` of `Task.save`
    (task_manager/models.py line 100) and the `auto_now_add` timestamps of
    the new Board, Task, successor and AuditLog rows. They get one value;
  - `ItemEnv.recurrenceNow` is the separate read at services.py line 52;
  - the command's `now` is read once, at process_tasks.py line 13.
- **Exceptions.** An exception inside the atomic unit is a fault parameter,
  `FailAt(step, message)`. It fires only if the named statement is reached.
  Whether the audit insert raises, and whether the FAILED save raises, are
  two further booleans.
- **Library outputs.** `slugify`, `uuid4().hex`, the JWT library's
  verdicts and DRF's field checks are inputs. The string fields of the
  forms are the values DRF's field step hands on: stripped of surrounding
  whitespace, since `CharField` and `EmailField` trim by default. For the
  change-password form that field step is modelled as well
  (`AccountSerializers.ChangePasswordRequest`).

Two behaviours of the code worth knowing:

- **`processed_at` on failure.** The processor marks the in-memory row
  PROCESSED with `processed_at` set (services.py lines 108-110) before
  statements that can still raise, and the failure path saves that same
  row. So a late failure stores FAILED with `processed_at` set. That is
  `Services.MarkFailed`.
- **Email-domain validator.** Both serializers' `validate_email_domain`
  accept `"@"` as the empty domain (see Findings). The views use the
  validator as the code has it (`OrgSerializers.ValidateEmailDomainAsWritten`):
  the details PATCH stores `""` for `"@"`, and creation stores `""` too.
  `OrgSerializers.ValidateEmailDomain` is the corrected validator, with its
  properties proved.

## Model

| member | source | states |
|---|---|---|
| TaskModels.StatusCodeRoundTrip | task_manager/models.py:13-18 | Task statuses are stored as their codes and parsed back: parsing a code gives the status it came from, and a code parses to a status only if it is that status's code. |
| TaskModels.AsTaskStatus | task_manager/models.py:122-125 | Every scheduled-task status code is also a valid Task status code, so copying the status into a Task never fails. |
| TaskModels.ProcessingCodeRoundTrip | task_manager/models.py:127-130 | The processing statuses are the integers 0, 1 and 2, parsed back one to one. Code 0 means exactly PENDING. |
| TaskModels.SaveTask | task_manager/models.py:97-103 | After `save`, `completed_at` is set iff the status is COMPLETED. An existing completion time is kept, a missing one becomes the clock, and no other field changes. |
| TaskModels.SaveTaskIdempotent | task_manager/models.py:97-103 | Saving twice is saving once, whatever the second clock reads. |
| TaskModels.NewTaskDefaults | task_manager/models.py:33-46 | A new task is PENDING, of MEDIUM priority, unassigned, without due date or completion time. |
| TaskModels.NewScheduledTaskDefaults | task_manager/models.py:147-218 | A new scheduled task has processing code 0 and recurrence ONCE. It has no board, failure reason or processing time, and is PENDING with MEDIUM priority. |
| TaskModels.OverdueAtDueDate | task_manager/models.py:105-113 | An open task with a due date is not overdue at the due instant (strict comparison), is overdue one second later, and stays overdue as time passes. |
| TaskModels.NeverOverdue | task_manager/models.py:105-113 | A task without due date, or one that is COMPLETED or CANCELLED, is never overdue. |
| TaskModels.PrecedesTotalPreorder | task_manager/models.py:233-234 | The ordering by scheduled time, then newest created first, is reflexive, total and transitive. Mutual precedence means equal keys. |
| Services.FirstBoardIn | task_manager/services.py:23-27 | The creator's first board under `Board` ordering by name: none iff the creator owns no board. Otherwise it is the creator's board whose name is least in code-point order, the lowest id among equal names (see Left out for the collation). |
| Services.ResolveBoard | task_manager/services.py:79-90 | The scheduled task's board when it has one. Otherwise the creator's first board by name. Only when the creator owns none is exactly one "Default Board" appended for the creator. The board tables change in no other case. |
| Services.FallbackBoardReused | task_manager/services.py:29-36 | After a fallback, the creator owns a board, so a second board-less task of the same creator creates no further board. |
| Services.NextScheduledTime | task_manager/services.py:44-65 | No next time iff the pattern is ONCE. Every other pattern gives a time at least a day after the clock. |
| Services.RecurrenceIntervals | task_manager/services.py:49-63 | DAILY, WEEKLY and MONTHLY add exactly 86400, 604800 and 2592000 seconds. MONTHLY is a fixed 30 days, not a calendar month. |
| Services.RecurrenceDrifts | task_manager/services.py:52-63 | The next time is measured from the processing clock, not from `scheduled_time`: moving the clock by d moves the result by d. |
| Services.MaterializedTask | task_manager/services.py:93-105 | The new task copies title, description, status code, priority, creator, due date and assignees, and goes on the resolved board. It carries a completion time iff the copied status is COMPLETED. |
| Services.Successor | task_manager/services.py:116-132 | The next occurrence is pending, with no failure reason or processing time, on the resolved board, at the computed time, with its own creation time. It equals the original in every other field, including the unchanged due date. |
| Services.MarkProcessed | task_manager/services.py:107-110 | The row becomes PROCESSED with no failure reason and the processing time set. Nothing else changes. |
| Services.MarkFailed | task_manager/services.py:159-164 | The row becomes FAILED with the error text. The in-memory marks are not undone, so a failure after line 110 leaves `processed_at` set to the processing clock, and an earlier one leaves it as it was. Nothing else changes. |
| Services.ProcessScheduledTask | task_manager/services.py:68-173 | Never raises. It succeeds iff no injected fault is reached, and the error is absent iff it succeeds. Tables stay consistent and only grow, and other scheduled rows are untouched. On failure no board, task, successor or audit row survives, and the row is FAILED unless that save raised too. On success the row is PROCESSED, one task is added, a successor is added iff the pattern is not ONCE, and the audit row is added iff its insert did not raise. |
| Services.RolledBack | task_manager/services.py:159-173 | The failure path keeps boards, tasks and audit log as they were, and writes only the FAILED status of the one row, unless that save raised. |
| Services.Committed | task_manager/services.py:77-157 | The success path keeps the store consistent and touches no other scheduled row. It adds exactly the resolved board (if new), one task, the successor for a recurring pattern, and the audit row unless its insert raised. |
| Services.AuditFailureSwallowed | task_manager/services.py:140-157 | A failing audit insert changes neither the result nor the error, nor any table but the audit log. |
| Services.DefaultBoardCreatedOnce | task_manager/services.py:79-90 | After a successful board-less item, its creator owns a board. A later board-less item of that creator adds none, and at most one board was added. |
| Services.SuccessorShape | task_manager/services.py:113-132 | A recurring item's successor has processing code 0 and the same pattern and due date. It is on the resolved, existing board, never a null one, and is due no sooner than a day after the processing clock. |
| ProcessTasks.SelectPrefix | task_manager/management/commands/process_tasks.py:28-31 | The due query returns exactly as many ids as there are pending, due rows, each a row of the tenant. |
| ProcessTasks.SelectPrefixMembers | task_manager/management/commands/process_tasks.py:28-31 | A row is selected iff its processing code is 0 and its scheduled time is at most `now`. PROCESSED and FAILED rows are never selected. |
| ProcessTasks.SelectPrefixOrdered | task_manager/models.py:233-234 | The selected ids are distinct and come in `Meta.ordering`. |
| ProcessTasks.SortedChain | task_manager/models.py:233-234 | In a list sorted pair by pair under that ordering, every row precedes every later row. |
| ProcessTasks.ProcessScheduledTaskContract | task_manager/services.py:68-173 | The per-item call keeps the contract the loop relies on. It disturbs no other row, and settles its own row unless the FAILED save raised too. It succeeds when nothing raises. Any row it adds is pending and at least a day after its clock. |
| ProcessTasks.RunItems | task_manager/management/commands/process_tasks.py:38-47 | Processing the selected ids in order keeps the tables consistent and growing. Processed plus failed equals the number of ids. |
| ProcessTasks.RunItemsUntouched | task_manager/management/commands/process_tasks.py:38-47 | Rows not selected keep their value, and rows added by the loop are not due at the run's `now`. |
| ProcessTasks.RunItemsSettled | task_manager/management/commands/process_tasks.py:38-47 | Each selected row is settled by its own item, whatever the other items did: a failing item does not stop the loop. |
| ProcessTasks.RunItemsAllSucceed | task_manager/management/commands/process_tasks.py:38-47 | When no item raises, every id is counted as processed and none as failed. |
| ProcessTasks.RunOrganization | task_manager/management/commands/process_tasks.py:14-47 | One tenant's run keeps the tables consistent and growing, and counts exactly its due rows. `public`, and a tenant with nothing due, are returned unchanged with zero counts. |
| ProcessTasks.RunPrefix | task_manager/management/commands/process_tasks.py:16-47 | Over the first n tenants, processed plus failed is the total number of due rows, and there is one result per tenant. |
| ProcessTasks.RunPrefixTenant | task_manager/management/commands/process_tasks.py:19-47 | Each tenant's entry afterwards is its own run's result, independent of what happened in other tenants. |
| ProcessTasks.RunPrefixNames | task_manager/management/commands/process_tasks.py:14 | No tenant is renamed, and the `public` tenant is left exactly as it was. |
| ProcessTasks.Advance | task_manager/management/commands/process_tasks.py:40-47 | One loop iteration extends the tally to one more id: the item's store, plus one to the counter its outcome selects. |
| ProcessTasks.RunLoop | task_manager/management/commands/process_tasks.py:38-47 | The item loop computes the same tables and counters as processing the selected ids in order. |
| ProcessTasks.RunTenant | task_manager/management/commands/process_tasks.py:19-47 | The tenant loop body computes one tenant's run: it skips `public` and a tenant with nothing due. |
| ProcessTasks.HandleWith | task_manager/management/commands/process_tasks.py:16-47 | The tenant loop with running totals computes the batch over all tenants. |
| ProcessTasks.Handle | task_manager/management/commands/process_tasks.py:12-53 | With `process_scheduled_task` as the item: the totals count every due row of every non-public tenant exactly once, no tenant is renamed, and `public` is untouched. |
| ProcessTasks.TenantRunProperties | task_manager/management/commands/process_tasks.py:13-47 | After a tenant's run, unselected rows are untouched and each selected row is settled. Successors created in the run are not due at its `now`. A second query at the same `now` finds only rows whose item and FAILED save both raised. |
| ProcessTasks.NoFaultsAllProcessed | task_manager/management/commands/process_tasks.py:38-53 | Without faults the failed total is 0 and the processed total is the number of due rows. |
| ProcessTasks.RunOrganizationNoFault | task_manager/management/commands/process_tasks.py:34-47 | Without faults, one tenant's due rows all count as processed. |
| RequestMeta.ClientIp | task_manager/utils/helpers.py:11-33 | Without a request the address is absent, and a present address is never empty. With a forwarded header the address is its text before the first comma, stripped, and absent when that is blank. Otherwise it is `REMOTE_ADDR`, absent when empty. |
| RequestMeta.ClientIpFirstEntry | task_manager/utils/helpers.py:24-33 | For a forwarded header that is a single padded address, or such an address followed by a comma and more entries, the address is that entry with its padding stripped, whatever `REMOTE_ADDR` says. |
| RequestMeta.ClientIpBlankEntry | task_manager/utils/helpers.py:24-33 | A blank first entry, alone or followed by a comma and more entries, yields an absent address, never `""`. |
| RequestMeta.UserAgent | task_manager/utils/helpers.py:36-51 | The user agent is a prefix of the header of at most 255 characters: the whole header when it fits, exactly 255 characters otherwise, and `""` without a request. |
| RequestMeta.CreateAuditLog | task_manager/utils/helpers.py:54-92 | A failing insert is swallowed: nothing is written and the result is absent. Otherwise one entry is appended and returned, carrying the request's address and agent, and the metadata or an empty map. |
| RequestMeta.CreateAuditLogAppendsAtMostOne | task_manager/utils/helpers.py:71-92 | The audit table only grows, by exactly the returned entry when there is one. |
| OrgHelper.AddMonth | organizations/utils/helper.py:19-21 | One calendar month later: the month index grows by one (December rolls into January), the day is clamped to the month's length, and the result is valid and later. It fails only past the last representable month. |
| OrgHelper.AddYear | organizations/utils/helper.py:22-24 | One calendar year later, same month, day clamped (29 February becomes 28 February), valid and later. |
| OrgHelper.NextPaymentDate | organizations/utils/helper.py:11-30 | A missing start date means today. MONTHLY and YEARLY add a month or a year and give a later valid date. Any other cycle is an error naming the cycle. |
| OrgHelper.AddMonthCalendar | organizations/utils/helper.py:19-21 | December rolls over to January of the next year; other months advance within the year. A day up to 28 is kept, and a day past the end of the next month becomes its last day. |
| OrgHelper.AddYearLeapDay | organizations/utils/helper.py:22-24 | A leap day moves to 28 February of the next year, and every other day is kept. |
| OrgHelper.GenerateSchemaName | organizations/utils/helper.py:33-71 | The name is non-empty and at most 63 characters. It uses only lower-case letters, digits and `_`, never starts with a digit, and is the base, `_` and the 8-character suffix, cut to 63. |
| OrgHelper.SchemaBaseOfCleanSlug | organizations/utils/helper.py:50-61 | A clean slug of at least 3 characters that does not start with a digit is its own base, and one that starts with a digit gets `org_` in front. |
| OrgHelper.SchemaNameKeepsSuffix | organizations/utils/helper.py:63-69 | A base of at most 54 characters keeps the whole 8-character suffix: the name is base, `_` and suffix. |
| OrgHelper.GenerateDomainName | organizations/utils/helper.py:74-101 | The domain is a non-empty label of lower-case letters, digits and `-`, then `.` and the base domain. |
| OrgHelper.DomainLabelCases | organizations/utils/helper.py:91-96 | A clean slug is its own label, and a slug with no usable character becomes `org-` and 8 hex digits. |
| OrgSerializers.ValidatePlan | organizations/serializers.py:30-46 | A plan is accepted iff the price is not negative and both limits are positive. It is then unchanged, and each failing field is reported. |
| OrgSerializers.FreePlanAccepted | organizations/serializers.py:30-46 | A zero price is accepted, and a zero limit is refused. |
| OrgSerializers.ValidateBillingCycle | organizations/serializers.py:111-118 | Only MONTHLY and YEARLY are accepted, unchanged. |
| OrgSerializers.ValidateEndDate | organizations/serializers.py:120-126 | An end date is accepted iff it is strictly after today. |
| OrgSerializers.ValidateNextPaymentDate | organizations/serializers.py:128-136 | A payment date is accepted iff it is strictly after today. |
| OrgSerializers.TodayIsNotFuture | organizations/serializers.py:120-136 | Today itself is refused by both date validators, and tomorrow is accepted. |
| OrgSerializers.DerivedPaymentDateIsFuture | organizations/serializers.py:128-136 | A payment date derived from a billing cycle is always one the validator accepts. |
| OrgSerializers.ValidateBusinessName | organizations/serializers.py:229-233 | An empty or blank name is refused. Any other is returned stripped and non-empty. |
| OrgSerializers.ValidateBusinessNameIdempotent | organizations/serializers.py:323-326 | A validated business name validates to itself. |
| OrgSerializers.ValidateOptionalEmail | organizations/serializers.py:235-239 | A billing e-mail comes back as the sent address stripped and lower-cased, so an empty one stays empty and one already trimmed and lower-case comes back unchanged. |
| OrgSerializers.ValidateRequiredEmail | organizations/serializers.py:328-336 | An empty owner or billing e-mail is refused with its own message. Any other is accepted as the sent address stripped and lower-cased; one already trimmed and lower-case comes back unchanged. |
| OrgSerializers.ValidatedEmailsNormal | organizations/serializers.py:328-336 | Lower-casing and stripping a validated e-mail again changes nothing. |
| OrgSerializers.ValidatedEmailsIgnoreCase | organizations/serializers.py:328-336 | An address and its lower-cased, stripped form validate alike, for the required fields whenever that form is not empty. |
| OrgSerializers.ValidateEmailDomainAsWritten | organizations/serializers.py:241-252 | The validator as written: a blank value is refused as missing. Otherwise the value is accepted iff its normal form (stripped, leading `@`s removed, lower-cased) contains no `' '` and no `'@'`, and that normal form is the result; any other value gets the format message. |
| OrgSerializers.EmailDomainAtSignAccepted | organizations/serializers.py:338-349 | As written, `"@"` is accepted as the empty domain, although `""` is refused as missing. |
| OrgSerializers.EmailDomainWhitespaceKept | organizations/serializers.py:338-349 | As written, `"@"` followed by a tab or newline and a domain is accepted with that whitespace kept. |
| OrgSerializers.EmailDomainWhitespaceDropped | organizations/serializers.py:338-349 | Without the `@`, the same padded domain is accepted stripped. So the validator as written is not idempotent. |
| OrgSerializers.ValidateEmailDomain | organizations/serializers.py:338-349 | The corrected validator: a blank value is refused as missing. Otherwise the value is accepted iff its normal form, stripped once more, is non-empty and contains no `' '` and no `'@'`, and that is the result (non-empty, trimmed, lower-case); any other value gets the format message. |
| OrgSerializers.ValidateEmailDomainIdempotent | organizations/serializers.py:241-252 | The corrected validator accepts its own result unchanged. |
| OrgSerializers.EmailDomainCorrectionConservative | organizations/serializers.py:241-252 | On every input whose as-written result is non-empty and trimmed, the corrected validator agrees with the code. |
| OrgSerializers.ValidateOwnerPassword | organizations/serializers.py:351-356 | An owner password is accepted, unchanged, iff it has at least 8 characters. |
| AccountModels.NewUser | accounts/models.py:14-45 | A new account has no role, is active and unrestricted, belongs to its organization and has empty names. |
| AccountModels.FullName | accounts/models.py:61-63 | The full name never has outer whitespace. |
| AccountModels.FullNameCases | accounts/models.py:61-63 | Two empty names give `""`. With one name empty, the result is the other name stripped, with no stray space. Two trimmed names give `first + " " + last`. |
| AccountModels.OrganizationAttribute | accounts/models.py:20-26 | Reading the non-null `organization` relation gives the organization when one is set and raises `RelatedObjectDoesNotExist` ("UserAccount has no organization.") otherwise. |
| AccountModels.Clean | accounts/models.py:65-68 | `clean` as evidently intended (testing `organization_id`): it fails iff the organization is missing, with a `ValidationError` carrying the fixed message, and otherwise accepts the account unchanged. |
| AccountModels.CleanAsWritten | accounts/models.py:65-68 | `clean` as written fails iff the organization is missing, but with the descriptor's `RelatedObjectDoesNotExist`, and otherwise accepts the account unchanged. |
| AccountModels.CleanValidationErrorUnreachable | accounts/models.py:65-68 | As written, `clean` never produces its `ValidationError`: every refusal is the descriptor's exception. |
| AccountModels.CleanCorrectionAgrees | accounts/models.py:65-68 | The as-written and corrected `clean` accept the same accounts unchanged and differ only in the kind of refusal. |
| Permissions.HasPermission | accounts/permissions.py:11-17 | Only an authenticated user is admitted, and then iff they are an admin or the owner. |
| Permissions.PermissionCases | accounts/permissions.py:11-17 | No user and an anonymous user are refused. An admin is admitted, and so is an owner. A user with neither role is refused. |
| Authentication.GetUser | accounts/authentication.py:47-79 | Checks run in order: missing or empty `user_id`, unknown user, inactive before restricted. A user is returned iff it exists, is active and is not restricted. |
| Authentication.Authenticate | accounts/authentication.py:20-45 | No header or no raw token gives no credentials, and no error. A rejected token fails. An accepted result is the validated token's active, unrestricted user, belonging to the tenant when there is one. |
| Authentication.AuthenticateAcceptsExactly | accounts/authentication.py:20-79 | Credentials are accepted iff the token names an admissible user who belongs to the tenant, or there is no tenant. User-level failures pass through before the organization check, and `organization_mismatch` arises only with a tenant. |
| AccountSerializers.Login | accounts/serializers.py:14-34 | A restricted user's login is refused with the fixed message, and library errors pass through. A successful response carries the token pair and a user map with exactly the seven keys and no password, each key holding the user's own value (full name, names, id, e-mail, role flags). |
| AccountSerializers.ValidateName | accounts/serializers.py:68-78 | A first or last name comes back trimmed and no longer, and an empty name is returned as it is. |
| AccountSerializers.ValidateNameIdempotent | accounts/serializers.py:157-167 | Validating a name twice is validating it once, and a trimmed name is kept. |
| AccountSerializers.ValidateEmail | accounts/serializers.py:212-216 | An empty e-mail is refused with "Email is required.". Any other is accepted as the sent address stripped and lower-cased; one already trimmed and lower-case comes back unchanged. |
| AccountSerializers.ValidateEmailIdempotent | accounts/serializers.py:212-216 | A non-empty validated e-mail validates to itself. |
| AccountSerializers.ValidateEmailIgnoresCase | accounts/serializers.py:212-216 | An address and its lower-cased, stripped form validate alike whenever that form is not empty. |
| AccountSerializers.ValidatePassword | accounts/serializers.py:218-224 | A creation password is accepted, unchanged, iff it has at least 8 characters. |
| AccountSerializers.ValidateOldPassword | accounts/serializers.py:259-263 | The old password is accepted, unchanged, iff it is non-empty. |
| AccountSerializers.ValidateNewPassword | accounts/serializers.py:265-271 | The new password is accepted, unchanged, iff it has at least 8 characters. |
| AccountSerializers.ValidateChange | accounts/serializers.py:273-279 | The pair is accepted iff old and new differ, and refused with the dedicated message otherwise. |
| AccountSerializers.ChangePasswordAccepts | accounts/serializers.py:252-279 | On the values DRF's field step hands on (already stripped): the change goes through iff the old password is given, the new one has at least 8 characters, and they differ. The pair is then passed on unchanged. An equal pair of long-enough passwords is refused with the dedicated message alone. |
| AccountSerializers.CharFieldValue | accounts/serializers.py:252-257 | DRF's `CharField` step under its defaults: a whitespace-only value is refused as blank. Otherwise it passes iff its stripped form has the minimum length and no null character, each failing validator adding its own message, and the stripped form is what the field validator receives. |
| AccountSerializers.ChangePasswordRequestAccepts | accounts/serializers.py:246-279 | On the request body: the change goes through iff the old password is not blank, the new one has at least 8 characters once stripped, neither holds a null character, and the two differ once stripped. The stripped pair is passed on. |
| AccountSerializers.ChangePasswordRequestTrims | accounts/serializers.py:246-279 | Passwords that differ only in surrounding whitespace are the same password and get the dedicated refusal. A blank old password, or a null character in the new one, is refused by the field step first. |
| AccountSerializers.CreateUser | accounts/serializers.py:238-243 | Creation fails iff no password was validated, and the password is never among the fields passed on. |
| AccountSerializers.CreateUserSplitsPassword | accounts/serializers.py:238-243 | Only the password is taken out: putting it back restores the validated data, and every other field reaches `create_user` unchanged. |
| AccountViews.EmailDomainOf | accounts/views.py:312-313 | The domain of an address is the text after its last `@`, or `""` when there is none, and never contains `@`. |
| AccountViews.EmailDomainOfAddress | accounts/views.py:312-313 | `local@domain` has domain `domain` whenever `domain` has no `@`. |
| AccountViews.SignupAccount | accounts/serializers.py:187-243 | The account the sign-up saves has the normalised address, the validated names and the requester's organization; it is never the owner, and its admin, staff, active and restricted flags are the body's, with the model defaults when not sent. |
| AccountViews.SignupStatus | accounts/views.py:290-330 | Signup returns 400 without an organization, with an empty organization domain, or with an invalid form. It returns 201 exactly when the organization has a domain, the form is valid, the normalised address's domain matches the organization's normalised domain and the address is not registered yet; every status is 201, 400 or 409. |
| AccountViews.Signup | accounts/views.py:285-337 | The endpoint as written: its status is the signup decision, an account is created iff 201, and that account is the one `SignupAccount` describes for the normalised address. |
| AccountViews.SignupGrantsAdmin | accounts/views.py:285-337 | As written, a successful anonymous signup that sends `is_admin` creates an admin, whom the permission class admits. |
| AccountViews.SignupCorrected | accounts/views.py:285-337 | Signup as evidently intended: the same status, and a created account that is never owner, admin or staff, and is active and unrestricted. |
| AccountViews.SignupCorrectedGrantsNoRole | accounts/views.py:285-337 | The corrected signup's account is never admitted by the permission class, and it equals the code's account whenever the body sends no flag other than its default. |
| AccountViews.SignupMismatchBeforeConflict | accounts/views.py:311-330 | A domain mismatch gives 400 even for an address already registered. With the right domain, 409 is returned iff the address is registered. |
| AccountViews.SignupIgnoresDomainCase | accounts/views.py:315 | The organization's domain and its lower-cased, stripped form decide every signup alike. |
| AccountViews.SignupIgnoresEmailCase | accounts/views.py:312 | An address and its lower-cased, stripped form get the same answer and create the same account. |
| AccountViews.FindUser | accounts/views.py:200-201 | A user is found iff they exist and belong to the requester's organization. |
| AccountViews.DetailGet | accounts/views.py:190-230 | No organization gives 400, and a user not found gives 404. Otherwise the answer is 200 iff the requester is owner, admin or the user themself, and only a user of the requester's organization is shown. |
| AccountViews.OtherOrganizationNotFound | accounts/views.py:200-205 | A user of another organization is not found, whoever asks. |
| AccountViews.DetailPatch | accounts/views.py:232-271 | A requester without a role who names another user gets 403 before anything else. Otherwise the checks are 400 without an organization, 404 for an unknown user, 400 for an invalid body, else 200. |
| AccountViews.GuardedDetailGet | accounts/views.py:185-230 | A request the permission class refuses gets 401 when anonymous and 403 otherwise. An admitted one gets the handler's answer. |
| AccountViews.GuardedDetailPatch | accounts/views.py:185-271 | The same guard before the PATCH handler. |
| AccountViews.SelfAccessUnreachable | accounts/views.py:213-216 | Because the permission class admits only admins and owners, a user without a role is refused even for their own record. For admitted users, GET succeeds exactly for users of the same organization. |
| OrgViews.PatchSubscription | organizations/views.py:289-352 | A non-owner gets 403, a missing organization context 400, and no organization or subscription 404. 200 is returned iff the action is `cancel`, or `update_stripe_id` with a non-empty id that no other subscription holds and that fits the 255-character column and holds no NUL character; such an id that cannot be stored gives 500. Cancelling deactivates and stamps the expiry with the clock. Anything but 200 changes nothing. |
| OrgViews.PatchSubscriptionFrame | organizations/views.py:305-334 | A successful action changes only the subscription, never its terms. Cancelling keeps the Stripe id, and an id update changes the Stripe id alone. |
| OrgViews.SubscriptionActionsCompose | organizations/views.py:310-326 | Cancelling twice only moves the expiry to the later call, and two id updates leave the second id whenever the second can be stored. |
| OrgViews.GuardedPatchSubscription | organizations/views.py:289-295 | With the permission classes in front, a refused request gets 401 or 403 and changes nothing. An admitted one reaches the owner check. |
| OrgViews.OnlyOwnerManagesSubscription | organizations/views.py:291-295 | Only the owner ever gets 200, and an admin who is not the owner always gets 403 and changes nothing. |
| OrgViews.ApplyDetails | organizations/serializers.py:229-252 | A partial update changes only the fields sent. Sent names are stripped and non-empty, a sent billing e-mail is stored as the sent address lower-cased and stripped, a sent domain is stored as the code's validator returns it (its normal form, without `' '` or `'@'`, possibly empty), and identity, owner address, subscription and schema never change. |
| OrgViews.ApplyDetailsIdempotent | organizations/views.py:233-238 | Applying the same valid update twice equals applying it once. |
| OrgViews.PatchDetails | organizations/views.py:217-246 | A non-owner gets 403 and no tenant gets 404. 200 is returned iff an owner sends a body the code's validators accept to an existing organization, and it stores the applied update. Anything but 200 changes nothing. |
| OrgViews.PatchDetailsKeepsIdentity | organizations/views.py:233-241 | An empty body saves the organization unchanged, and no update reaches the owner address, subscription or schema. |
| OrgViews.PatchDetailsStoresEmptyDomain | organizations/serializers.py:241-252 | An owner's update with email_domain `"@"` succeeds with 200 and stores the empty domain. |
| OrgViews.PatchDetailsKeepsDomainWhitespace | organizations/serializers.py:241-252 | An update with `"@"`, a non-space whitespace character and a clean domain succeeds and stores that whitespace in front of the domain. |
| OrgViews.PaymentDate | organizations/views.py:110-115 | The form's payment date is used when sent. Otherwise it is one billing cycle after today, always in the future. |
| OrgViews.CreateOrganization | organizations/views.py:90-187 | Creation returns 201, 400, 409 or 500, with rows iff 201. A form the code's validators refuse, or an unknown plan, gives 400. A 201 means an accepted form, a known plan, a derivable payment date, and no clash with any unique value in use. |
| OrgViews.CreateOrganizationCases | organizations/views.py:90-187 | Each status is characterised exactly, with the code's validators. 400 for a refused form or unknown plan. 500 when no payment date can be derived. 409 on a unique-column clash. |
| OrgViews.PaymentDateFailsAtEndOfCalendar | organizations/views.py:110-115 | Deriving the payment date fails only in the last representable month or year, and never when the form sends one. |
| OrgViews.CreatedOrganizationNormal | organizations/views.py:133-151 | The stored owner and billing e-mails are the form's addresses lower-cased and stripped, the billing address and contact number are the form's (an absent number stored as `""`), and the business name is stripped and non-empty. The stored e-mail domain is lower-case, stripped and free of `' '` and `'@'`, and the owner's account uses the organization's owner address. |
| OrgViews.CreatedDomainAgainstCorrection | organizations/views.py:139 | Thanks to the view's extra `.lower().strip()`, the stored domain is what the corrected validator returns where that one accepts, and `""` where it refuses. |
| OrgViews.CreateAcceptsAtSignDomain | organizations/serializers.py:338-349 | A form with email_domain `"@"` gets the same status as one with any domain the code accepts, and a created organization then has the empty domain. |
| OrgViews.CreatedSubscriptionTerms | organizations/views.py:110-149 | The subscription is active, on the chosen plan, with the form's cycle, end date and Stripe id (`""` when absent). Its payment date is the form's or one cycle ahead, and is accepted by the validator. The schema and domain names come from the generators. |
| OrgViews.CreatedOwnerAdmitted | organizations/views.py:151-162 | The owner's account is owner and staff, not admin, with stripped names, in the new organization. The permission class admits it, and a token naming it authenticates on the new tenant. |
| OrgViews.BlankStripeIdsCollide | organizations/views.py:118-125 | Once one subscription has the default empty Stripe id, creating another organization without one cannot succeed, and ends in 409 when it gets that far. |
| OrgViews.CreateIgnoresEndDate | organizations/views.py:118-125 | The end date is not checked against today at creation: two forms differing only in the end date get the same status. |

## Left out

- Concurrency: `select_for_update(skip_locked=True)` and overlapping command runs are database guarantees. One sequential run is modelled.
- Transaction mechanics: savepoints and rollback marking are not modelled. Each item is all-or-nothing plus its explicit FAILED write, and the per-tenant transaction of the command is not modelled separately.
- Tenant switching (`schema_context`) and schema creation: a tenant is its own store in a sequence of organizations.
- Logging, the command's stdout lines and summary text: they change no data.
- Library internals are inputs, not code: `slugify`, `uuid4`, `relativedelta` (modelled by its calendar rule), JWT parsing, validation and blacklisting, password hashing and checking, and DRF's field checks (`EmailField`, `max_length`, `min_length`, `required`).
- Response bodies, pagination, health checks, middleware, URL routing and the admin classes: only status-code decisions are modelled.
- The GET endpoints that only serialise (profile, user list, organization detail, subscription and plan reads): they decide nothing beyond what is modelled. LogoutView, ChangePasswordView and UserProfileView are out too, since they rest on library calls (blacklisting, `check_password`).
- `SubscriptionSerializer.create`/`update` and `SubscriptionPlanSerializer` persistence: plumbing around the modelled validators.
- task_manager/views.py and task_manager/serializers.py: older CRUD code that refers to fields the models do not have.
- notifications/services.py: not called by the processor.
- Prices are integer cents, and only their sign is checked, because Decimal arithmetic plays no part.
- Races between the uniqueness check and the insert are not modelled. A clash is decided against the set of values in use at the time of the request, and the signup's late IntegrityError branch is subsumed by its 409.
- Non-string JSON values for `action` and `stripe_id` are modelled only as absent or as a string.
- OrgViews.Collides: only the unique columns known from the models (Stripe id, schema name, domain and owner e-mail) are checked. Other database constraints are not modelled.
- AccountModels.FullName: its contract states only that the result is trimmed; FullNameCases gives the cases.
- AccountViews.DetailPatch: the body's validity is a boolean input. The patched fields' values are not modelled.
- Services.FirstBoardIn: `.first()` under `ordering = ["name"]` sorts by the database collation, which depends on the locale (under en_US "apple" precedes "Banana"), and leaves equal names in no set order. The model uses code-point order (the C collation) and breaks ties by the lowest id, because the collation is a database setting outside the code.
- Text.LowerChar: Python's `str.lower` maps every Unicode cased letter (`'Ä'` to `'ä'`) and can change a string's length (`'İ'`). Only the ASCII letters are mapped here, so e-mail, domain and signup comparisons on non-ASCII letters are not modelled.
- Clock reads inside one processed item: `timezone.now()` at services.py line 110, in `Task.save` (task_manager/models.py line 100) and the `auto_now_add` fields of the new Board, Task, successor and AuditLog are separate reads in the code but share `ItemEnv.stamp`. The order between timestamps of the same item is therefore not modelled.
- `create_user` (accounts/managers.py) is not part of this model: it is taken to store the fields it is given, which is what `create` hands it.
- Form strings: the values of `SignupForm`, `CreateForm` and `DetailsPatch` are those DRF's field step hands on (stripped, non-blank where required); that step is modelled only for the change-password form (`AccountSerializers.ChangePasswordRequest`).
- OrgViews.ApplyDetails: a patched e-mail domain is not promised non-empty or trimmed, because the code's validator stores `""` for `"@"` and keeps whitespace after an `@` (see Findings).
- OrgViews.CreatedOrganizationNormal: the stored e-mail domain is not promised non-empty, because creation stores `""` for `"@"` (see Findings).

## Findings

| source | as written | input that shows it | evidently intended | confidence | as-written member | corrected member |
|---|---|---|---|---|---|---|
| organizations/serializers.py:241-252 and 338-349 | `validate_email_domain` strips, removes leading `@` and lower-cases, then rejects only `' '` and `'@'`. It never re-strips after removing `@`, and never re-checks for emptiness. | `"@"` is accepted as the empty domain `""`. `"@\tx.com"` is accepted as `"\tx.com"`, which validates again to `"x.com"`. | After removing `@`, strip again and refuse an empty result, so that an accepted domain is non-empty, trimmed and validates to itself. | not executed | OrgSerializers.ValidateEmailDomainAsWritten, OrgSerializers.EmailDomainAtSignAccepted, OrgSerializers.EmailDomainWhitespaceKept, OrgSerializers.EmailDomainWhitespaceDropped | OrgSerializers.ValidateEmailDomain, OrgSerializers.ValidateEmailDomainIdempotent |
| accounts/models.py:65-68 | `clean` tests `if not self.organization`. Reading the unset non-null relation raises `RelatedObjectDoesNotExist`, which is not a `ValidationError`, so `full_clean` lets it escape. | A `UserAccount` whose organization was never set, as in the admin add form left without an organization: `clean` raises the descriptor's exception instead of "User must belong to an organization." | Test `self.organization_id` and raise the `ValidationError`, so the refusal becomes a form error. | not executed | AccountModels.CleanAsWritten, AccountModels.CleanValidationErrorUnreachable | AccountModels.Clean, AccountModels.CleanCorrectionAgrees |
| accounts/serializers.py:187-210 and accounts/views.py:285-337 | `CreateUserSerializer` leaves `is_admin`, `is_staff`, `is_active` and `is_restricted` writable, and the public sign-up endpoint (`AllowAny`) saves whatever the body sends. | An anonymous POST to the sign-up endpoint with a matching address and `"is_admin": true` creates an admin account, which `IsOrganizationAdminOrOwner` admits. | A public sign-up creates an ordinary account: no role, active, unrestricted. | not executed | AccountViews.Signup, AccountViews.SignupGrantsAdmin | AccountViews.SignupCorrected, AccountViews.SignupCorrectedGrantsNoRole |
