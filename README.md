# Shiftroster scheduling core in Dafny

This project models the back end of Shiftroster, a workforce scheduling and approval
tool. The tool keeps employees (users) with a role, an optional area of responsibility and
a set of skills, shift types, roster entries (an employee scheduled on a shift for a
date), timesheets and leave requests. Managers and administrators create, change, approve
and reject roster entries, look at aggregate coverage and availability figures, and keep
the reference data (roles, areas, skills, shifts) and the employee records. An
administrator can import employees from a spreadsheet.

The store is a `Database` class (`models.dfy`) holding one map from id to record per
table, plus a single id counter. Its `Valid()` predicate gathers the schema's rules:
- unique names and user keys;
- every foreign key resolves;
- every id lies below the counter.

Every handler that updates the store is a method on that class. Each method:
- returns `Result<_, Error>`;
- keeps `Valid()`;
- states its whole new state against `old(...)`;
- leaves the store untouched on every error path.

Read-only endpoints and the rule layers are functions with lemmas beside them. A lemma
relates an operation to an independent statement of what it should do: an invariant it
keeps, an inverse, a partition, a concrete scenario. Loops in the source are methods whose
while loops carry invariants against a function that states their result. Examples:
- the bulk roster loop;
- the field loop of the employee update;
- the skill search loop;
- the coverage grouping loop;
- the import row and skill loops;
- the validation loops.

Modules, one per source file:
- `Common` (`common.dfy`): Option/Result, the error kinds, ASCII case folding, `LIKE`/`ILIKE` with `%` and `_` wildcards, Python's `split`, `strip` (over the full `str.isspace` set) and `rsplit`, and sets in ascending order.
- `Models` (`models.dfy`): the record types, column defaults, schema rules, `Database` and the `to_dict` projections.
- `Decorators` (`decorators.dfy`): `role_required`, `permission_required`, `get_current_user`, and the inline Admin/Manager check the route files repeat.
- `Roster`, `Analytics`, `Admin` and `Employees`: one module per route file.
- `ImportData` (`import_data.dfy`): the spreadsheet import over its own store, `ImportDatabase`. The source code of `import_data.py` uses a schema of its own; see "Left out".

Representation choices:
- Dates are day numbers.
- Times of day are minutes.
- Hours are `real`.
- Request dates and times arrive already parsed or marked malformed (`DateParam`, `TimeParam`).
- The principal is the token identity `uid`. Handlers look it up as `get_current_user` does.
- "Today", the current week and "now" are parameters.

Behaviour of the code worth knowing, which the model keeps:
- Approving or rejecting an entry that is already decided overwrites the earlier decision: the code has no guard on the prior status.
- The roster and analytics handlers admit principals by the role names Admin and Manager, not by an `approve_rosters` permission.
- A missing field in a bulk entry does not skip the entry, so the entry is reported more than once (see "Findings"). `Roster.BulkFoldAsWritten` is the loop as written; the handler reports the corrected list (see "Left out").
- `update_employee` and `delete_employee` can fail at the commit after their checks have passed. The model returns `Internal` there and leaves the store unchanged.
- In `update_employee`, a role or area lookup that finds nothing first autoflushes the changes made so far. When those cannot be written, the request fails with 500 rather than with the 400 for the bad reference.
- The import picks its reader with a case-sensitive test for `.csv`, so "ROTA.CSV" passes the extension check but is read as an Excel file.

## Model

| member | source | states |
|---|---|---|
| Common.Max0 | src/routes/analytics.py:88 | `max(0, x)`: at least x and at least 0, and equal to one of them |
| Common.SortedKeys | src/routes/analytics.py:291 | lists exactly the elements of the set, each once (length equals the set size) |
| Common.SortedKeysIncreasing | src/routes/analytics.py:291 | the listed keys are strictly ascending and start with the least one (the order the model fixes for a query without `order_by`) |
| Common.LowerStr | src/routes/employees.py:39-45 | case folding keeps the length and folds each character on its own |
| Common.LowerIdempotent | src/routes/employees.py:39-45 | folding twice is folding once |
| Common.LikeAnything | src/routes/employees.py:39 | a lone `%` matches every string |
| Common.LikePrefix | src/routes/employees.py:39 | for a term without wildcards, `s LIKE term%` holds iff the term is a prefix of s |
| Common.LikeSomeSuffix | src/routes/employees.py:39 | `s LIKE %r` holds iff r matches some suffix of s |
| Common.ILikeLiteral | src/routes/employees.py:39-45 | a term without `%` or `_` matches exactly the strings that contain it, ignoring case |
| Common.WildcardsInTerm | src/routes/analytics.py:286-289 | the unescaped term `a_c` matches "ABC", which does not contain it, and `%` matches every string |
| Common.ILikeIgnoresPatternCase | src/routes/employees.py:39-45 | `ILIKE '%p%'` matches the same strings whatever the case of p |
| Common.ILikeEmptyPattern | src/routes/employees.py:38-45 | the empty pattern matches every string |
| Common.Split | src/routes/import_data.py:95 | `split(',')` gives at least one piece, and no piece holds the separator |
| Common.JoinSplit | src/routes/import_data.py:95 | joining the pieces with the separator gives back the cell |
| Common.TrimLeft | src/routes/import_data.py:95 | a suffix of the text that does not start with white space (Python's `isspace` set) |
| Common.TrimLeftSpaces | src/routes/import_data.py:95 | everything TrimLeft drops is white space |
| Common.TrimRight | src/routes/import_data.py:95 | a prefix of the text that does not end with white space (Python's `isspace` set) |
| Common.TrimRightSpaces | src/routes/import_data.py:95 | everything TrimRight drops is white space |
| Common.Strip | src/routes/import_data.py:95 | `strip()`: no longer than the text, and neither starts nor ends with a character Python counts as white space |
| Common.StripSurrounds | src/routes/import_data.py:95 | the stripped text is a contiguous slice of the original with only white space around it |
| Common.PeelBothEnds | src/routes/import_data.py:95 | dropping white space from the front and then from the back leaves a slice surrounded by white space |
| Common.AfterLast | src/routes/import_data.py:17 | `rsplit('.', 1)[1]`: present iff the separator occurs; it is the text after the last occurrence and holds no separator |
| Decorators.GetCurrentUser | src/utils/decorators.py:53-56 | the user whose id is the token identity, and none iff no such user exists |
| Decorators.RoleNameOf | src/routes/roster.py:77 | `current_user.role_ref.name`: present iff the user and their role record exist, and then it is the role's name |
| Decorators.RoleRequired | src/utils/decorators.py:7-27 | user not found iff the user is missing; no role iff the role record is missing; admits exactly the users whose role name is allowed; only these three errors |
| Decorators.PermissionRequired | src/utils/decorators.py:29-51 | user checked, then role, then the permission; admits iff the decoded map holds the key with a truthy value; only these three errors |
| Decorators.StaffGate | src/routes/roster.py:77-78 | the inline check admits exactly Admin and Manager; a missing user or role is an internal error |
| Decorators.StaffGateAgreesWithRoleRequired | src/routes/roster.py:77-78 | the inline check and `role_required('Admin', 'Manager')` admit and refuse the same principals |
| Decorators.MissingPermissionsDenyAll | src/utils/decorators.py:44-47 | a role whose permission column is NULL is refused every permission |
| Models.NewRecordsUndecided | src/models/models.py:152-163 | new roster entries, timesheets and leave requests start pending, with no approver and no approval time (defaults at lines 160, 208, 253) |
| Models.Database.constructor | src/models/models.py:5-13 | an empty store satisfies every schema rule |
| Models.RoleToDict | src/models/models.py:29-35 | keeps id and name; a NULL permission column reads as the empty map |
| Models.AreaToDict | src/models/models.py:51-57 | the area projection carries the id and every stored column, so the record can be read back from it |
| Models.SkillToDict | src/models/models.py:70-76 | the skill projection carries the id and every stored column, so the record can be read back from it |
| Models.ShiftToDict | src/models/models.py:140-150 | the shift projection carries the id and every stored column (times as minutes), so the record can be read back from it |
| Models.UserViewSummaries | src/models/models.py:104-120 | in a valid store `User.to_dict` embeds the user's own role, an area exactly when one is assigned, and each of the user's skills exactly once as its skill projection |
| Models.TimesheetViewSummaries | src/models/models.py:217-240 | in a valid store: approver summary null iff no approver is set, and otherwise naming the approver; the employee summary is the timesheet's own employee with that employee's code; the roster entry it refers to is embedded |
| Models.LeaveViewSummaries | src/models/models.py:265-288 | in a valid store: approver summary null iff no approver is set, and otherwise naming the approver; the employee summary is the request's own employee with that employee's code |
| Models.Person | src/models/models.py:190-194 | the id-and-names summary exists iff an id is given and names a stored user |
| Models.RosterViewSummaries | src/models/models.py:172-198 | in a valid store: approver summary null iff no approver is set; employee and shift summaries present; the employee summary carries the name of the employee's own role, and an area iff the employee has one; the status text of the stored status |
| Models.StatusNameInjective | src/models/models.py:160 | two statuses have the same column text iff they are the same status |
| Roster.FirstOf | src/routes/roster.py:59 | a member of the list that comes before every other member in date, then start-time order |
| Roster.Ordered | src/routes/roster.py:59 | `order_by(date, start_time)`: exactly the entries of the set, each once, sorted |
| Roster.SortedCons | src/routes/roster.py:59 | putting the first entry of a set in front of a sorted rest of it keeps the list sorted |
| Roster.GetRoster | src/routes/roster.py:10-67 | errors in order: missing role, bad start date, bad end date; otherwise lists exactly the visible entries that pass every filter and have a stored shift, in listing order |
| Roster.SortedDistinct | src/routes/roster.py:58-59 | a listing never repeats an entry |
| Roster.ListingScope | src/routes/roster.py:24-32 | a principal other than Admin or Manager sees only its own entries; Admin or Manager without filters sees every entry that has a shift |
| Roster.FirstMissing | src/routes/roster.py:83-86 | the first absent field among employee_id, shift_id, date and hours, in that order; none iff all four are present |
| Roster.CheckEntry | src/routes/roster.py:82-122 | checks in order: missing field, unknown employee, unknown shift, malformed date, double booking; accepts iff all pass, building a pending entry with the given fields and notes defaulting to empty |
| Roster.AcceptedKeepsNoDoubleBooking | src/routes/roster.py:104-113 | storing an accepted entry keeps at most one entry per employee and date |
| Roster.SecondBookingConflicts | src/routes/roster.py:104-113 | once an accepted entry is stored, creating another for the same employee and date fails with the conflict, whatever its shift and hours |
| Roster.CreateRosterEntry | src/routes/roster.py:69-134 | gate error, or the first validation error, with the store unchanged; otherwise exactly one new entry under a fresh id and nothing else changes; keeps the no-double-booking invariant |
| Roster.Patch | src/routes/roster.py:153-176 | fails on an unknown employee, then an unknown shift, then a bad date; otherwise takes each supplied field, keeps the others, and keeps status, approver and approval time |
| Roster.PatchNeutralAndIdempotent | src/routes/roster.py:153-176 | an empty body changes nothing, and applying a body twice equals applying it once |
| Roster.UpdateCanDoubleBook | src/routes/roster.py:166-170 | moving an entry onto a date the employee is already booked on is accepted and breaks the one-entry-per-day invariant |
| Roster.ReplaceKeepsReferences | src/routes/roster.py:154-164 | replacing an entry by one whose references are stored keeps every roster and timesheet reference valid |
| Roster.UpdateRosterEntry | src/routes/roster.py:136-187 | gate error, not found, or the patch's error with the store unchanged; otherwise only that entry is replaced by the patched one |
| Roster.DeleteRosterEntry | src/routes/roster.py:189-215 | gate error, not found, or refused while a timesheet references it (store unchanged); otherwise exactly that entry is removed |
| Roster.Decide | src/routes/roster.py:232-243 | fails iff the action is neither approve nor reject; otherwise sets the status, the acting approver and the time, replaces the notes only when given, and changes nothing else |
| Roster.DecisionOverwrites | src/routes/roster.py:235-243 | deciding again overwrites the first decision, and the outcome does not depend on the prior status |
| Roster.ApproveRosterEntry | src/routes/roster.py:217-254 | gate error, not found, or invalid action with the store unchanged; otherwise only that entry takes the decision |
| Roster.LaterFailure | src/routes/roster.py:285-322 | the checks after the field loop report at most one error per entry |
| Roster.RequiredErrorsAsWritten | src/routes/roster.py:279-283 | the field loop as written reports nothing iff no field is missing, and reports the first missing field first |
| Roster.EntryErrors | src/routes/roster.py:276-322 | the corrected per-entry report: empty iff the single-entry check accepts, otherwise exactly that check's error |
| Roster.MissingFieldReportedTwice | src/routes/roster.py:279-289 | as written, an entry without employee_id is reported at least twice: once as missing and once with the KeyError |
| Roster.AsWrittenSameVerdict | src/routes/roster.py:279-322 | what is written and the correction reject the same entries; the corrected report is the first message of the written one |
| Roster.At | src/routes/roster.py:282 | tags every error of an entry with its 1-based position |
| Roster.BulkFoldWellFormed | src/routes/roster.py:276-328 | the staged table keeps the committed rows and refers only to stored employees and shifts; one id is used per created entry |
| Roster.BulkErrorsPositioned | src/routes/roster.py:282-328 | every reported error carries a position between 1 and the number of entries |
| Roster.BulkReportsDefect | src/routes/roster.py:276-328 | an entry with a missing field, an unknown employee or shift, or a malformed date is reported under its own position |
| Roster.BulkCreatesEveryEntry | src/routes/roster.py:315-325 | a clean batch creates one pending entry per input, with that input's fields, under a new id |
| Roster.CreatedBelowNext | src/routes/roster.py:324-325 | created ids are consecutive from the counter, so each is fresh |
| Roster.BulkKeepsNoDoubleBooking | src/routes/roster.py:303-313 | each entry is checked against the committed rows and the ones staged before it, so the batch keeps one entry per employee and day |
| Roster.AsWrittenBatchAgrees | src/routes/roster.py:276-340 | the loop as written and the corrected loop stage the same rows, create the same ids and reject the same batches; every corrected message is also reported as written |
| Roster.BulkScenarioMissingEmployee | src/routes/roster.py:279-289 | one entry without employee_id: reported twice as written (missing, then the KeyError), once when corrected |
| Roster.StageEntries | src/routes/roster.py:276-328 | the entry loop computes the batch fold: staged rows, created ids, errors and the next id |
| Roster.CreateBulkRoster | src/routes/roster.py:256-346 | gate error or empty list refused; any error rejects the whole batch with the store unchanged; otherwise every staged entry is committed; rejected exactly when the loop as written reports an error; keeps no double booking |
| Roster.BulkScenarioUnknownShift | src/routes/roster.py:291-294 | three entries whose second names a missing shift give exactly one error, the shift not-found error at position 2 |
| Analytics.CurrentWeek | src/routes/analytics.py:26-29 | Monday to Sunday around today: contains today and spans six days |
| Analytics.ResolveRange | src/routes/analytics.py:22-35 | the default range unless both bounds are given; then both must parse, else an invalid date error |
| Analytics.OnShift | src/routes/analytics.py:41-47 | the distinct employees with an approved entry dated in the range |
| Analytics.OnLeave | src/routes/analytics.py:50-56 | the distinct employees with an approved leave overlapping the range |
| Analytics.SumHours | src/routes/analytics.py:71-77 | `sum(hours) or 0`: non-negative when every summed entry's hours are |
| Analytics.DashboardMetrics | src/routes/analytics.py:10-95 | gate error, or a bad date; otherwise head count, distinct on shift, distinct on leave, clamped availability, pending count and approved hours, all over the resolved range |
| Analytics.AvailabilityDoubleCounts | src/routes/analytics.py:59-88 | availability lies between 0 and the head count, and an employee both on shift and on leave is subtracted twice |
| Analytics.DashboardExample | src/routes/analytics.py:37-91 | ten employees, one approved 8-hour entry and an approved leave over that day give 1 on shift, 1 on leave, 8 available, 0 pending, 8.0 hours |
| Analytics.EmployeesByShift | src/routes/analytics.py:97-152 | one group per stored shift with approved entries in the range, holding its name, color and distinct-employee count |
| Analytics.ShiftCountsBounded | src/routes/analytics.py:123-133 | each shift's count is at least 1 and at most the dashboard's on-shift count |
| Analytics.EmployeesByRole | src/routes/analytics.py:154-180 | the inner join lists exactly the roles that have users, each with its user count |
| Analytics.EmployeesByArea | src/routes/analytics.py:182-208 | the outer join lists every area, each with its user count (possibly 0) |
| Analytics.RoleCountsPartition | src/routes/analytics.py:165-168 | summing per-role counts over some roles counts the users holding one of them |
| Analytics.HoldersSplit | src/routes/analytics.py:165-168 | the holders of a set of roles split disjointly into those of one role and the rest |
| Analytics.AreaCountsPartition | src/routes/analytics.py:193-196 | summing per-area counts over some areas counts the users assigned to one of them |
| Analytics.MembersSplit | src/routes/analytics.py:193-196 | the members of a set of areas split disjointly into those of one area and the rest |
| Analytics.RoleCountsCoverEveryone | src/routes/analytics.py:165-168 | in a valid store the role counts add up to the number of users |
| Analytics.EveryoneHoldsACountedRole | src/routes/analytics.py:165-168 | when every user's role is stored, the holders of the listed roles are all users |
| Analytics.AreaCountsCoverAssigned | src/routes/analytics.py:193-196 | in a valid store the area counts add up to the number of users that have an area |
| Analytics.SumDays | src/routes/analytics.py:239-253 | `sum(days) or 0`: non-negative when every summed request's days are |
| Analytics.LeaveSummary | src/routes/analytics.py:210-265 | default range 1 January to today; one group per leave type with approved leave contained in the range, holding a count and the summed days |
| Analytics.SummarisedLeaveIsOnLeave | src/routes/analytics.py:240-245 | leave contained in a range overlaps it, so a summarised employee counts as on leave for the range |
| Analytics.FirstId | src/routes/analytics.py:305 | `.first()`: none iff nothing matches, otherwise the lowest id |
| Analytics.StatusToday | src/routes/analytics.py:299-322 | on leave (with a covering leave's type) iff an approved leave covers today; else on shift iff an approved entry is dated today; else available |
| Analytics.Matching | src/routes/analytics.py:283-291 | exactly the employees passing the skill and role filters, ANDed |
| Analytics.SkillSearch | src/routes/analytics.py:267-340 | gate error, or criteria missing when neither is given; otherwise each matching employee once, in ascending id order, with today's status and today's entry |
| Analytics.TodayHits | src/routes/analytics.py:297-328 | one hit per employee in the given order, each with that employee's status and entry for today |
| Analytics.TodayStatusText | src/routes/analytics.py:307-322 | the `shift_status` text: `available` and `on_shift` exactly for those statuses, and `on_<type>_leave` for leave of that type |
| Analytics.TodayStatusTextInjective | src/routes/analytics.py:307-322 | two statuses give the same text iff they are equal, so the leave type can be read back from the text |
| Analytics.LeaveOverridesShift | src/routes/analytics.py:307-322 | an employee with an approved entry today and approved leave covering today is reported on leave, and the entry is still attached |
| Analytics.ShiftsOn | src/routes/analytics.py:368-380 | the shifts grouped for a date are stored shifts |
| Analytics.RowsForShifts | src/routes/analytics.py:368-380 | one row per listed shift, in that order, for the given date; each row carries its shift's name and colour, and the number and summed hours of the group's entries |
| Analytics.DayRows | src/routes/analytics.py:368-380 | the rows built for a date all carry that date and describe their groups |
| Analytics.ShiftOnHasEntries | src/routes/analytics.py:368-378 | a shift that occurs on a date has a non-empty group there |
| Analytics.DayRowsGroups | src/routes/analytics.py:368-380 | a date's rows are one per shift occurring that day, every such shift has one, in ascending shift id |
| Analytics.GroupRowsConcat | src/routes/analytics.py:368-380 | rows that each describe a group still do when concatenated |
| Analytics.PairsDistinctConcat | src/routes/analytics.py:376-377 | rows of one date followed by rows of other dates keep their (date, shift) pairs distinct |
| Analytics.HasRowConcat | src/routes/analytics.py:368-380 | a group with a row in either part has one in the concatenation |
| Analytics.DayRowsFacts | src/routes/analytics.py:368-380 | a date's rows describe its groups, cover every shift of that day, and repeat no pair |
| Analytics.RowsForDaysGroups | src/routes/analytics.py:368-380 | for ascending dates: every row describes a group of its date, every group of those dates has a row, no pair has two |
| Analytics.CoverageGroups | src/routes/analytics.py:368-380 | the query's rows are the (date, shift) groups of approved in-range entries: each row has the group's count (at least one) and summed hours, every such entry's group has exactly one row |
| Analytics.RowsForDays | src/routes/analytics.py:368-380 | rows carry only the listed dates, none before the first of ascending dates |
| Analytics.RowsForDaysSorted | src/routes/analytics.py:380 | rows built for ascending dates come in date order |
| Analytics.ConcatOrdered | src/routes/analytics.py:380 | one date's rows followed by date-ordered later rows stay date-ordered |
| Analytics.CoverageRows | src/routes/analytics.py:368-380 | the grouped query comes ordered by date, and carries only dates with approved in-range entries |
| Analytics.Item | src/routes/analytics.py:389-393 | a row's dict item carries its shift name, colour, count and hours |
| Analytics.ItemsOf | src/routes/analytics.py:389-393 | one item per row, in order |
| Analytics.ItemsOnAppend | src/routes/analytics.py:383-394 | one more row adds its item to its own date only |
| Analytics.ItemsOnConcat | src/routes/analytics.py:383-394 | the items of a date over two row lists are those of the first, then the second |
| Analytics.ItemsOnOneDay | src/routes/analytics.py:383-394 | rows all of one date contribute all their items to it and none elsewhere |
| Analytics.DayOfRowsForDays | src/routes/analytics.py:368-394 | in the rows for ascending dates, a date's items are exactly those of its own rows |
| Analytics.OrganizeFilesByDate | src/routes/analytics.py:383-394 | each date's list holds exactly the items of that date's rows, in row order; a date with no rows has no key |
| Analytics.OrganizeKeys | src/routes/analytics.py:383-394 | the dict's keys are exactly the row dates, each once, ascending when the rows are |
| Analytics.ItemCountAppend | src/routes/analytics.py:383-394 | counting items over one more date adds that date's list length |
| Analytics.ItemCountBump | src/routes/analytics.py:389-394 | filing one more item under a date adds one per occurrence of that date |
| Analytics.OccursOnce | src/routes/analytics.py:386-387 | a key inserted once occurs exactly once in the key list |
| Analytics.OrganizeKeepsRows | src/routes/analytics.py:383-394 | organising loses no row: the lists under the keys hold one item per row |
| Analytics.OrganizeRows | src/routes/analytics.py:383-394 | the grouping loop builds the organised dict of the rows |
| Analytics.ShiftCoverageReport | src/routes/analytics.py:342-405 | gate error, or a bad date; otherwise the organised coverage rows of the resolved range |
| Analytics.CoverageDatesAscending | src/routes/analytics.py:380-401 | the report lists its dates ascending, and its dates are exactly those with approved entries in the range |
| Analytics.CoverageReportItems | src/routes/analytics.py:368-401 | under each date the report lists one item per shift of that day, in shift id order, each with the shift's name and colour and the group's count and summed hours |
| Admin.OwnNameIsFree | src/routes/admin.py:67-72 | with unique names, renaming a record to its own name is never a clash (also lines 167-175, 270-278, 386-394) |
| Admin.NewRole | src/routes/admin.py:31-42 | name required; fails iff another role has the name; the role takes the name and the given permissions, defaulting to an empty map |
| Admin.PatchRole | src/routes/admin.py:65-75 | fails iff a different role holds the new name; supplied name and permissions replace the old ones, the rest stays |
| Admin.CreatedRoleNameTaken | src/routes/admin.py:35-37 | after a role is created, creating another with its name fails |
| Admin.CreateRole | src/routes/admin.py:24-54 | permission error, or the role's error, with the store unchanged; otherwise exactly that role is added under a fresh id |
| Admin.UpdateRole | src/routes/admin.py:56-86 | permission error, not found, or a name clash; otherwise only that role is replaced |
| Admin.DeleteRole | src/routes/admin.py:88-108 | permission error, not found, or refused while a user has the role; otherwise only that role is removed |
| Admin.NewArea | src/routes/admin.py:131-142 | name required; fails iff another area has the name; description defaults to empty |
| Admin.PatchArea | src/routes/admin.py:165-178 | fails iff a different area holds the new name; supplied fields replace, the rest stays |
| Admin.CreateArea | src/routes/admin.py:124-154 | permission error, or the area's error, with the store unchanged; otherwise exactly that area is added |
| Admin.UpdateArea | src/routes/admin.py:156-189 | permission error, not found, or a name clash; otherwise only that area is replaced |
| Admin.DeleteArea | src/routes/admin.py:191-212 | permission error, not found, or refused while a user is assigned to it; otherwise only that area is removed |
| Admin.NewSkill | src/routes/admin.py:234-245 | name required; fails iff another skill has the name; description defaults to empty |
| Admin.PatchSkill | src/routes/admin.py:268-281 | fails iff a different skill holds the new name; supplied fields replace, the rest stays |
| Admin.CreateSkill | src/routes/admin.py:227-257 | permission error, or the skill's error, with the store unchanged; otherwise exactly that skill is added |
| Admin.UpdateSkill | src/routes/admin.py:259-292 | permission error, not found, or a name clash; otherwise only that skill is replaced |
| Admin.DeleteSkill | src/routes/admin.py:294-315 | permission error, not found, or refused while an employee holds it; otherwise only that skill is removed |
| Admin.MissingShiftField | src/routes/admin.py:337-340 | the first absent field among name, start_time, end_time and hours; none iff all are present |
| Admin.NewShift | src/routes/admin.py:337-361 | missing field, then a taken name, then a bad time; otherwise the given fields, with description defaulting to empty and color to #3498db |
| Admin.PatchShift | src/routes/admin.py:384-415 | name clash excluding itself, then a bad start time, then a bad end time; otherwise supplied fields replace and the rest stays |
| Admin.PatchShiftNeutralAndIdempotent | src/routes/admin.py:384-415 | an empty update changes nothing, and replaying an update on its result changes nothing more |
| Admin.CreateShift | src/routes/admin.py:330-373 | permission error, or the shift's error, with the store unchanged; otherwise exactly that shift is added |
| Admin.UpdateShift | src/routes/admin.py:375-426 | permission error, not found, or the patch's error, with the store unchanged; otherwise only that shift is replaced |
| Admin.DeleteShift | src/routes/admin.py:428-448 | permission error, not found, or refused while a roster entry uses it; otherwise only that shift is removed |
| Employees.GetEmployees | src/routes/employees.py:9-55 | Admin and Manager only; exactly the users passing every filter |
| Employees.FiltersIntersect | src/routes/employees.py:29-45 | the listing with all filters is the intersection of the single-filter listings |
| Employees.EmptySearchMatchesAll | src/routes/employees.py:38-45 | skipping an empty search loses nothing: the empty pattern matches every user |
| Employees.GetEmployee | src/routes/employees.py:114-132 | oneself, or Admin or Manager, may view; refused otherwise; not found when missing; the view is the user's projection |
| Employees.StorableKeepsUsersValid | src/models/models.py:82-95 | storing a user that passes the schema rules keeps the user table's references valid |
| Employees.MissingKey | src/routes/employees.py:65-68 | an absent key among google_id, email, name, surname and role_id, checked in that order; none iff all are present |
| Employees.NewEmployee | src/routes/employees.py:64-100 | missing key, then an existing google_id or email, then an unknown role, then a given but unknown area; an accepted user carries the body's values and no skills |
| Employees.ExistingKeyRefused | src/routes/employees.py:71-77 | a body with a stored user's google_id or email is refused |
| Employees.CreateEmployee | src/routes/employees.py:57-112 | permission error, or the record's error, with the store unchanged; otherwise exactly that user is added under a fresh id |
| Employees.UpdateAccess | src/routes/employees.py:148-155 | Admin gets every listed field; anyone else only their own contact_no; others refused; a missing role is an internal error |
| Employees.SetField | src/routes/employees.py:170 | a field outside the Admin list changes nothing; google_id and skills are never changed; a draft marked unstorable stays so |
| Employees.Only | src/routes/employees.py:158-159 | the body restricted to the allowed keys |
| Employees.UnlistedKeysIgnored | src/routes/employees.py:158-159 | keys outside the allowed list do not affect the update |
| Employees.SelfUpdateOnlyContact | src/routes/employees.py:152-170 | a self-update changes at most the contact number and never fails before the commit |
| Employees.AdminUpdateSetsFields | src/routes/employees.py:149-170 | an Admin's body with a new email, a stored role_id and an unlisted password key sets the email and the role and ignores the password |
| Employees.FailureSticks | src/routes/employees.py:160-168 | the first bad reference ends the loop: fields after it are not looked at |
| Employees.UpdateFields | src/routes/employees.py:158-170 | the field loop computes the field-by-field update of the allowed fields |
| Employees.UnfitValueMasksBadRole | src/routes/employees.py:158-170 | an Admin body that clears the name and names a missing role fails with `Internal` (the lookup's autoflush), not with the bad reference |
| Employees.UpdateEmployee | src/routes/employees.py:134-182 | not found, refused, bad reference (or `Internal` when the lookup's autoflush cannot write the changes so far), or a failing commit, with the store unchanged; otherwise only that user is replaced by the updated record |
| Employees.ForgetApprover | src/models/models.py:98-99 | on deleting a user: the same records; none names the deleted user as approver afterwards; those it approved have the approver cleared and the rest are unchanged. Roster entries (line 98), timesheets (line 99) and leave requests (line 260) are its three instances |
| Employees.DeletionLeavesNoDanglingRefs | src/routes/employees.py:194-198 | after the deletion no roster entry, timesheet or leave request names the deleted user |
| Employees.DeleteEmployee | src/routes/employees.py:184-204 | permission error, not found, refused while roster entries or timesheets exist, failing commit while leave requests exist; otherwise only that user is gone and approver references are cleared |
| Employees.SkillParam | src/routes/employees.py:216-219 | a skill id is read iff skill_id is present, truthy and an integer |
| Employees.AddEmployeeSkill | src/routes/employees.py:206-238 | permission error, not found, skill_id required, unknown skill, or already held, with the store unchanged; otherwise the employee holds the skill on top of the previous ones |
| Employees.RemoveEmployeeSkill | src/routes/employees.py:240-266 | permission error, not found, unknown skill, or not held, with the store unchanged; otherwise the employee lacks the skill and keeps every other one |
| Employees.AddThenRemoveRestores | src/routes/employees.py:228-256 | adding a skill the employee lacks and removing it again restores the employee |
| ImportData.LastDotUnique | src/routes/import_data.py:17 | there is only one last dot |
| ImportData.AllowedFile | src/routes/import_data.py:14-17 | true iff the name has a dot and the text after the last one, lower-cased, is csv, xlsx or xls |
| ImportData.LowerDot | src/routes/import_data.py:17 | case folding neither creates nor removes dots |
| ImportData.LowerSuffix | src/routes/import_data.py:17 | folding a suffix is the suffix of the folded text |
| ImportData.AllowedFileIgnoresCase | src/routes/import_data.py:17 | the extension check gives the same answer for the lower-cased name (the reader choice afterwards is case-sensitive) |
| ImportData.UpperCaseCsvReadAsExcel | src/routes/import_data.py:36-39 | "ROTA.CSV" passes the extension check but its content goes to the Excel reader; "rota.csv" goes to the CSV reader |
| ImportData.MissingFrom | src/routes/import_data.py:42-45 | the missing required columns, in the required order |
| ImportData.RequiredColumnsInRows | src/routes/import_data.py:42-54 | with no required column missing, every row has the four required cells |
| ImportData.FindByName | src/routes/import_data.py:62 | `filter_by(name=...).first()`: a record with that name, none iff no record has it |
| ImportData.GetOrCreate | src/routes/import_data.py:59-75 | finds the named record, or creates it under the next id with an auto-created description |
| ImportData.GetOrCreateKeepsUnique | src/routes/import_data.py:59-75 | names stay unique, the record found or created is the only one with the name, old records stay |
| ImportData.GetOrCreateIdempotent | src/routes/import_data.py:59-75 | asking again for the same name returns what the first call found or created, and changes nothing |
| ImportData.FindOnly | src/routes/import_data.py:62 | the only record with a name is the one found by it (via `Common.LeastUnique`: the least element of a set is unique) |
| ImportData.Filled | src/routes/import_data.py:95-97 | each kept name is the non-empty strip of some part, and every non-empty stripped part is kept |
| ImportData.StripWithin | src/routes/import_data.py:95 | stripping adds no characters |
| ImportData.SkillNamesClean | src/routes/import_data.py:94-97 | every skill name is non-empty, holds no comma and has no surrounding white space |
| ImportData.AttachStep | src/routes/import_data.py:96-105 | one more skill name gets or creates that skill and adds its id to the held set |
| ImportData.AttachSkillsCorrect | src/routes/import_data.py:96-105 | the employee ends up with exactly the skills the cell names, each name existing once in the skill table |
| ImportData.HireDate | src/routes/import_data.py:86 | no date when the cell is absent or NaN; a failure iff the date parser rejects the given cell, text or typed |
| ImportData.Active | src/routes/import_data.py:87 | active when the Status column is absent; a failure iff the cell is present and not text (NaN or a typed number, boolean or timestamp, which have no `lower`) |
| ImportData.ActiveIgnoresCase | src/routes/import_data.py:87 | the status compares without regard to case |
| ImportData.ClaimKeepsValid | src/routes/import_data.py:59-75 | getting or creating the role and area keeps the store valid, touches only its own table and the counter, and yields an id iff the cell is given |
| ImportData.NewEmployee | src/routes/import_data.py:77-88 | the record carries the row's id, name, surname and email, the contact number defaulting to empty, and no skills yet |
| ImportData.SkillsCell | src/routes/import_data.py:94-95 | skill names are taken iff the Skills cell is given, and are then its cleaned parts |
| ImportData.InsertKeepsValid | src/routes/import_data.py:90-91 | storing an employee who refers to stored records under the counter keeps the store valid |
| ImportData.SkillsKeepValid | src/routes/import_data.py:93-105 | growing the skill table and giving the employee skills from it keeps the store valid |
| ImportData.AdmitCorrect | src/routes/import_data.py:90-105 | admitting adds exactly the new employee under a fresh key, with exactly the named skills, and leaves the other employees, roles and areas alone |
| ImportData.AdmitWithSkills | src/routes/import_data.py:93-105 | the same, for a row with a Skills cell |
| ImportData.AdmitWithout | src/routes/import_data.py:90-94 | the same, for a row without a Skills cell: no skills |
| ImportData.SkillsAttached | src/routes/import_data.py:93-105 | admitting with the skill loop's result keeps every admission guarantee |
| ImportData.ImportRowCorrect | src/routes/import_data.py:51-111 | a row is skipped with its line number and the employees untouched, or adds exactly one employee with the row's id under a fresh key; the store stays valid |
| ImportData.FailedRowCorrect | src/routes/import_data.py:86-87 | a row whose hire date or status fails is skipped, though its role and area stay created |
| ImportData.AdmittedRowCorrect | src/routes/import_data.py:77-107 | a row with a new id and a valid date and status is imported |
| ImportData.ImportedSkills | src/routes/import_data.py:93-105 | an imported employee holds exactly the skills its Skills cell names |
| ImportData.ReimportSkipped | src/routes/import_data.py:54-57 | importing the same row again reports the existing id and changes nothing |
| ImportData.PrefixHasRequired | src/routes/import_data.py:51 | every prefix of the rows keeps the required cells |
| ImportData.Tally | src/routes/import_data.py:107-111 | an imported row adds one to the count; a skipped row appends its error |
| ImportData.ImportRowsStep | src/routes/import_data.py:51-111 | one more row tallies that row's outcome on the store left by the earlier rows |
| ImportData.ImportRowsCorrect | src/routes/import_data.py:47-120 | every row is counted as imported or reported once, in file order; the count equals the employees added; earlier rows stay when a later one fails |
| ImportData.AttachAll | src/routes/import_data.py:96-105 | the skill loop computes the attach fold |
| ImportData.ImportDatabase.constructor | src/routes/import_data.py:3 | the store of the tables that line imports (employees, roles, areas, skills and their links) starts empty and valid |
| ImportData.ImportDatabase.ImportRowInto | src/routes/import_data.py:52-111 | one turn of the row loop changes the tables as the row step specifies and returns its outcome |
| ImportData.ImportDatabase.AdmitInto | src/routes/import_data.py:90-105 | stores the employee and attaches its skills as admission specifies |
| ImportData.ImportEmployeesCsv | src/routes/import_data.py:19-124 | Admin only; no file, no name, bad type, a failing reader (`Internal`, chosen by the case-sensitive `.csv` test), or missing columns (listed) with the store unchanged; otherwise the row loop's count and errors, and the store it leaves is kept |
| ImportData.ImportAll | src/routes/import_data.py:51-111 | the row loop computes the fold over the rows: final store, count and errors |
| ImportData.EmailIssuesCorrect | src/routes/import_data.py:176-184 | the email loop fails iff some email cell is truthy but not text (NaN, or a truthy typed value), on which `'@' not in email` raises; otherwise it reports exactly the non-empty emails without @, with their line numbers |
| ImportData.TypedCellsScenario | src/routes/import_data.py:87 | a numeric Status fails the row; a truthy numeric email fails validation, and a falsy one is skipped |
| ImportData.Warnings | src/routes/import_data.py:161-187 | a duplicate warning iff duplicates exist; an existing-ids warning iff some id is stored; an email warning iff issues exist, listing the first five at most |
| ImportData.CollectExistingIds | src/routes/import_data.py:168-171 | the ids already stored, in file order |
| ImportData.CollectEmailIssues | src/routes/import_data.py:177-184 | the email loop computes the issue list, or the failure |
| ImportData.EmailIssuesFailFrom | src/routes/import_data.py:178-184 | once the email loop has failed, later rows do not undo it |
| ImportData.ValidateEmployeeImport | src/routes/import_data.py:126-192 | Admin only; the same file checks and reader choice; valid iff no required column is missing; with a valid header, the three warnings, or a failure on an email cell that is truthy but not text; nothing is stored |
| ImportData.DuplicateIdsCorrect | src/routes/import_data.py:163 | an id is reported as a duplicate iff another row has the same id |

## Left out

- Transport and authentication: HTTP routing, status codes and JSON message texts, JWT parsing and issuance, CORS, and `str(e)` error texts. They are I/O and framework glue. Errors are an `Error` datatype, and the principal is an id.
- Parsing: `strptime` date parsing, time-of-day parsing and pandas' spreadsheet reading are parameters or pre-parsed values (`DateParam`, `TimeParam`; an `Upload` carries the frame each reader would produce, or its failure). A cell is text, NaN, or a value the reader typed (number, boolean, timestamp), kept as its `str()` text and its truthiness. The hire-date parser `pd.to_datetime` is a function parameter.
- Clocks: `date.today()`, `datetime.utcnow()` and the weekday are parameters. `created_at` and `updated_at` timestamps are not stored.
- Floating point: hours are `real`, and float rounding and `float()` conversions are not modelled. `SumHours` and `SumDays` state non-negativity, not a closed form for unions of entry sets.
- JSON values in the employee bodies (`Employees`): booleans, integers, strings and null; nested values are not represented. A body value of the wrong type that the ORM would reject at commit makes the model return `Internal`.
- JSON values in the admin and roster bodies (`Admin.RoleFields`, `Admin.CatalogFields`, `Admin.ShiftFields`, `Roster.EntryFields`): each field is `None` for an absent key or a value of its column's type. A key present with JSON null and a value of the wrong type cannot be expressed. In the source, a null name, hours or date reaches a NOT NULL column or the parser and fails with 500. A null `employee_id` or `shift_id` gives "not found". A null description is stored as NULL. The model reads all of these as an absent key.
- Storage engine:
  - The database is assumed to enforce the schema's foreign keys at commit. SQLite does so only under `PRAGMA foreign_keys=ON`, and the engine configuration is not part of this model. On an engine that does not enforce them, an Admin's `{"role_id": 0}` in `update_employee` (never looked up, since 0 is falsy) would commit a dangling id where the model returns `Internal`.
  - The database's own autoincrement sequences are one shared id counter.
  - Ties in the listing order (same date and start time) are broken by id.
  - Coverage rows of one date come in shift-id order; SQL leaves that order open.
- Common.SortedKeysIncreasing: a query without `order_by` returns rows in an order SQL leaves open. The model fixes ascending id wherever the source relies on that order.
- Analytics.FirstId: `.first()` without `order_by` may return any match; the model returns the lowest id.
- Analytics.StatusToday: when several approved entries or leaves match today, the one reported follows the model's ascending-id order, not an order the source fixes.
- Employees.GetEmployees: `search` is placed between `%`s without escaping, and `Common.ILike` treats a `%` or `_` inside it as a wildcard. The backslash escape that PostgreSQL's `LIKE` applies by default is not modelled; the model reads a backslash as a plain character, as SQLite does. Folding is ASCII only.
- Analytics.Matching: the skill and role terms are wildcard patterns as in `Employees.GetEmployees`, with the same backslash and ASCII-folding limits.
- Employees.NewEmployee: `role_id` and `area_of_responsibility_id` find a record only when they are JSON integers. The source hands the raw value to `query.get`, and whether `"1"` or `true` finds id 1 depends on the database's type coercion, which is not part of this model. The model refuses such a value as `InvalidReference`.
- Employees.CreateEmployee: inherits the integer-only reading of `Employees.NewEmployee`, so `"role_id": "1"` is refused where the database may accept it.
- Employees.SkillParam: a skill id is read only from a JSON integer. A numeric string or `true` that the database might coerce to an id reads as no skill.
- Employees.AddEmployeeSkill: inherits the integer-only reading of `Employees.SkillParam`, so `{"skill_id": "3"}` gives `NotFound("Skill")` where the database may find skill 3.
- Concurrency: the check-then-insert race on double booking and any concurrent requests are out of scope, since every handler runs sequentially.
- The admin GET listings (`get_roles`, `get_areas`, `get_skills`, `get_shifts`) are plain table dumps. They are outside the modelled core.
- `src/routes/export.py`, `src/routes/auth.py`, `src/main.py` and `src/init_db.py` are not part of this model. Neither are backup and restore in `src/routes/import_data.py:194-291`.
- Import store: `import_data.py` imports `Employee`, `Area`, `admin_required` and `manager_required`, which `models.py` and `decorators.py` do not define. The module could not load as written.
  - The model gives the import its own store with the field names that file uses.
  - It gates the import on `role_required('Admin')`.
- ImportData.ImportEmployeesCsv: a flush or commit failure inside the row loop (an IntegrityError on a duplicate email, for instance) is not modelled. Neither is the failed session that such an error leaves behind for later rows. Only the hire-date and status failures skip a row after its role and area were created.
- Roster.CreateBulkRoster: a rejected batch carries the corrected error list, one message per defective entry. As written, an entry with a missing field also gets the message of the KeyError that follows. `Roster.BulkFoldAsWritten` computes that list, and `Roster.AsWrittenBatchAgrees` proves that both loops stage, create and reject alike.
- Typed cells: a typed Role, Area of Responsibility or Employee ID cell is looked up and stored by its `str()` text (names) or as the typed value (ids). Whether the database compares a number with a text column, or `5` with `"5"`, depends on the engine, which is not part of this model.
- ImportData.SkillsCell: a skill named twice in one cell is attached once. The relationship list is modelled as a set.
- ImportData.Warnings: the comma-joined warning texts and `set(duplicate_ids)` ordering are not modelled. The warning carries the values.
- Employees.UpdateEmployee: `updated_at` is not modelled, and a value the ORM would coerce is treated as not fitting its column.
- Analytics.SkillSearch: matching employees are listed in ascending id order, which the query without `order_by` does not promise. The employee projection is reduced to the id, today's status and today's entry id. The full `to_dict` is `Models.UserToDict`. Its skill and role terms have the limits listed under `Analytics.Matching`.

## Findings

| source | as written | input that shows it | evidently intended | confidence | as-written member | corrected member |
|---|---|---|---|---|---|---|
| src/routes/roster.py:280-283 | the `continue` after a missing required field only moves the inner field loop on, so the entry is checked further and `entry_data['employee_id']` raises KeyError | a bulk entry without `employee_id` gets "employee_id is required" and then a second error for the KeyError. A missing `date` also reads the absent key before the date check | skip to the next entry after the first missing field, reporting one error for that position | not executed | Roster.RequiredErrorsAsWritten, Roster.MissingFieldReportedTwice, Roster.BulkScenarioMissingEmployee | Roster.EntryErrors, Roster.AsWrittenSameVerdict, Roster.AsWrittenBatchAgrees |
