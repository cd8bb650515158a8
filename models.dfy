/** Record shapes of the store (roles, areas of responsibility, skills, users,
    shift types, roster entries, timesheets, leave requests), their defaults,
    the uniqueness and reference rules the schema imposes, the in-memory
    database the handlers mutate, and the `to_dict` projections. */
module Models {
  import opened Common

  /** The approval state shared by roster entries, timesheets and leave requests. */
  datatype Status = Pending | Approved | Rejected

  /** The text stored in the `status` column. */
  function StatusName(s: Status): string {
    match s
    case Pending => "pending"
    case Approved => "approved"
    case Rejected => "rejected"
  }

  /** A JSON value stored in a role's permission map (nested arrays and objects are not modelled). */
  datatype Json = JBool(b: bool) | JNum(n: int) | JText(t: string) | JNull

  /** Python truthiness of a decoded JSON value. */
  predicate Truthy(v: Json) {
    match v
    case JBool(b) => b
    case JNum(n) => n != 0
    case JText(t) => t != ""
    case JNull => false
  }

  type Permissions = map<string, Json>

  /** `permissions` is the decoded JSON text; None when the column is NULL or empty. */
  datatype Role = Role(name: string, permissions: Option<Permissions>)

  datatype Area = Area(name: string, description: string)

  datatype Skill = Skill(name: string, description: string)

  /** A user (employee). `employeeCode` is the optional `employee_id` column;
      `skills` is the employee_skills association (a set: its key is the pair). */
  datatype User = User(
    googleId: string,
    email: string,
    name: string,
    surname: string,
    employeeCode: Option<string>,
    contactNo: Option<string>,
    roleId: Id,
    areaId: Option<Id>,
    skills: set<Id>)

  datatype Shift = Shift(
    name: string,
    startTime: Minute,
    endTime: Minute,
    hours: real,
    description: string,
    color: string)

  /** A row of `shift_roster`. */
  datatype RosterEntry = RosterEntry(
    employeeId: Id,
    shiftId: Id,
    date: Day,
    hours: real,
    status: Status,
    approvedBy: Option<Id>,
    approvedAt: Option<Instant>,
    notes: string)

  datatype Timesheet = Timesheet(
    employeeId: Id,
    rosterId: Id,
    date: Day,
    hoursWorked: real,
    status: Status,
    approvedBy: Option<Id>,
    approvedAt: Option<Instant>,
    notes: string)

  datatype LeaveRequest = LeaveRequest(
    employeeId: Id,
    leaveType: string,
    startDate: Day,
    endDate: Day,
    days: int,
    reason: string,
    status: Status,
    approvedBy: Option<Id>,
    approvedAt: Option<Instant>)

  const DefaultShiftColor: string := "#3498db"

  // ---------------------------------------------------------------------------
  // Column defaults: status starts `pending`, no approver, no approval time.

  function NewRosterEntry(employeeId: Id, shiftId: Id, date: Day, hours: real, notes: string): RosterEntry {
    RosterEntry(employeeId, shiftId, date, hours, Pending, None, None, notes)
  }

  function NewTimesheet(employeeId: Id, rosterId: Id, date: Day, hoursWorked: real, notes: string): Timesheet {
    Timesheet(employeeId, rosterId, date, hoursWorked, Pending, None, None, notes)
  }

  function NewLeaveRequest(employeeId: Id, leaveType: string, startDate: Day, endDate: Day, days: int, reason: string): LeaveRequest {
    LeaveRequest(employeeId, leaveType, startDate, endDate, days, reason, Pending, None, None)
  }

  /** A record that has not been decided yet. */
  predicate Undecided(status: Status, approvedBy: Option<Id>, approvedAt: Option<Instant>) {
    status == Pending && approvedBy.None? && approvedAt.None?
  }

  /** Every record the three factories build is undecided, whatever its payload. */
  lemma NewRecordsUndecided(employeeId: Id, otherId: Id, date: Day, hours: real, text: string, days: int)
    ensures var r := NewRosterEntry(employeeId, otherId, date, hours, text); Undecided(r.status, r.approvedBy, r.approvedAt)
    ensures var t := NewTimesheet(employeeId, otherId, date, hours, text); Undecided(t.status, t.approvedBy, t.approvedAt)
    ensures var l := NewLeaveRequest(employeeId, text, date, date + days, days, text); Undecided(l.status, l.approvedBy, l.approvedAt)
  {
  }

  // ---------------------------------------------------------------------------
  // Uniqueness constraints of the schema

  predicate UniqueRoleNames(roles: map<Id, Role>) {
    forall i, j :: i in roles && j in roles && roles[i].name == roles[j].name ==> i == j
  }

  predicate UniqueAreaNames(areas: map<Id, Area>) {
    forall i, j :: i in areas && j in areas && areas[i].name == areas[j].name ==> i == j
  }

  predicate UniqueSkillNames(skills: map<Id, Skill>) {
    forall i, j :: i in skills && j in skills && skills[i].name == skills[j].name ==> i == j
  }

  predicate UniqueShiftNames(shifts: map<Id, Shift>) {
    forall i, j :: i in shifts && j in shifts && shifts[i].name == shifts[j].name ==> i == j
  }

  /** `google_id` and `email` are unique; `employee_id` is unique among users that have one. */
  predicate UniqueUserKeys(users: map<Id, User>) {
    && (forall i, j :: i in users && j in users && users[i].googleId == users[j].googleId ==> i == j)
    && (forall i, j :: i in users && j in users && users[i].email == users[j].email ==> i == j)
    && (forall i, j ::
          i in users && j in users && users[i].employeeCode.Some? && users[i].employeeCode == users[j].employeeCode
          ==> i == j)
  }

  // ---------------------------------------------------------------------------
  // Reference rules: every foreign key names a stored record.
  // Note there is NO uniqueness on (employee, date) for roster entries.

  predicate UsersReferToStore(users: map<Id, User>, roles: map<Id, Role>, areas: map<Id, Area>, skills: map<Id, Skill>) {
    forall u :: u in users ==>
      && users[u].roleId in roles
      && (users[u].areaId.Some? ==> users[u].areaId.value in areas)
      && users[u].skills <= skills.Keys
  }

  predicate ApproverKnown(approvedBy: Option<Id>, users: map<Id, User>) {
    approvedBy.Some? ==> approvedBy.value in users
  }

  predicate RostersReferToStore(rosters: map<Id, RosterEntry>, users: map<Id, User>, shifts: map<Id, Shift>) {
    forall k :: k in rosters ==>
      && rosters[k].employeeId in users
      && rosters[k].shiftId in shifts
      && ApproverKnown(rosters[k].approvedBy, users)
  }

  predicate TimesheetsReferToStore(timesheets: map<Id, Timesheet>, users: map<Id, User>, rosters: map<Id, RosterEntry>) {
    forall k :: k in timesheets ==>
      && timesheets[k].employeeId in users
      && timesheets[k].rosterId in rosters
      && ApproverKnown(timesheets[k].approvedBy, users)
  }

  predicate LeavesReferToStore(leaves: map<Id, LeaveRequest>, users: map<Id, User>) {
    forall k :: k in leaves ==>
      && leaves[k].employeeId in users
      && ApproverKnown(leaves[k].approvedBy, users)
  }

  predicate KeysBelow<T>(m: map<Id, T>, bound: Id) {
    forall k :: k in m ==> k < bound
  }

  /** The in-memory store that stands in for the relational database. New
      records take their id from `nextId`, one sequence for all tables. */
  class Database {
    var roles: map<Id, Role>
    var areas: map<Id, Area>
    var skills: map<Id, Skill>
    var users: map<Id, User>
    var shifts: map<Id, Shift>
    var rosters: map<Id, RosterEntry>
    var timesheets: map<Id, Timesheet>
    var leaves: map<Id, LeaveRequest>
    var nextId: Id

    /** The schema's constraints: unique names and keys, and every reference resolves. */
    ghost predicate Valid()
      reads this
    {
      && UniqueRoleNames(roles) && UniqueAreaNames(areas)
      && UniqueSkillNames(skills) && UniqueShiftNames(shifts)
      && UniqueUserKeys(users)
      && UsersReferToStore(users, roles, areas, skills)
      && RostersReferToStore(rosters, users, shifts)
      && TimesheetsReferToStore(timesheets, users, rosters)
      && LeavesReferToStore(leaves, users)
      && KeysBelow(roles, nextId) && KeysBelow(areas, nextId) && KeysBelow(skills, nextId)
      && KeysBelow(users, nextId) && KeysBelow(shifts, nextId) && KeysBelow(rosters, nextId)
      && KeysBelow(timesheets, nextId) && KeysBelow(leaves, nextId)
    }

    /** All tables at once, so that a handler can say which ones it left alone. */
    ghost function Snapshot(): Tables
      reads this
    {
      Tables(roles, areas, skills, users, shifts, rosters, timesheets, leaves, nextId)
    }

    constructor ()
      ensures Valid()
      ensures roles == map[] && areas == map[] && skills == map[] && users == map[]
      ensures shifts == map[] && rosters == map[] && timesheets == map[] && leaves == map[]
    {
      roles, areas, skills, users := map[], map[], map[], map[];
      shifts, rosters, timesheets, leaves := map[], map[], map[], map[];
      nextId := 1;
    }
  }

  /** A value copy of every table of a `Database`. */
  datatype Tables = Tables(
    roles: map<Id, Role>,
    areas: map<Id, Area>,
    skills: map<Id, Skill>,
    users: map<Id, User>,
    shifts: map<Id, Shift>,
    rosters: map<Id, RosterEntry>,
    timesheets: map<Id, Timesheet>,
    leaves: map<Id, LeaveRequest>,
    nextId: Id)

  // ---------------------------------------------------------------------------
  // `to_dict` projections (timestamps of creation/update are not modelled)

  datatype RoleView = RoleView(id: Id, name: string, permissions: Permissions)
  datatype AreaView = AreaView(id: Id, name: string, description: string)
  datatype SkillView = SkillView(id: Id, name: string, description: string)
  datatype ShiftView = ShiftView(id: Id, name: string, startTime: Minute, endTime: Minute,
                                 hours: real, description: string, color: string)
  datatype UserView = UserView(
    id: Id, googleId: string, email: string, name: string, surname: string,
    employeeCode: Option<string>, contactNo: Option<string>,
    roleId: Id, role: Option<RoleView>,
    areaId: Option<Id>, area: Option<AreaView>,
    skills: seq<SkillView>)
  /** The employee summary embedded in a roster entry. */
  datatype EmployeeBrief = EmployeeBrief(id: Id, name: string, surname: string, employeeCode: Option<string>,
                                         role: Option<string>, area: Option<string>)
  /** The id and names embedded for an employee or an approver. */
  datatype PersonBrief = PersonBrief(id: Id, name: string, surname: string)
  datatype RosterView = RosterView(
    id: Id, employeeId: Id, employee: Option<EmployeeBrief>,
    shiftId: Id, shift: Option<ShiftView>,
    date: Day, hours: real, status: string,
    approvedBy: Option<Id>, approver: Option<PersonBrief>,
    approvedAt: Option<Instant>, notes: string)
  datatype TimesheetView = TimesheetView(
    id: Id, employeeId: Id, employee: Option<PersonBrief>, employeeCode: Option<string>,
    rosterId: Id, roster: Option<RosterView>,
    date: Day, hoursWorked: real, status: string,
    approvedBy: Option<Id>, approver: Option<PersonBrief>,
    approvedAt: Option<Instant>, notes: string)
  datatype LeaveView = LeaveView(
    id: Id, employeeId: Id, employee: Option<PersonBrief>, employeeCode: Option<string>,
    leaveType: string, startDate: Day, endDate: Day, days: int, reason: string, status: string,
    approvedBy: Option<Id>, approver: Option<PersonBrief>, approvedAt: Option<Instant>)

  /** Role.to_dict: a NULL or empty permission column reads as the empty map. */
  function RoleToDict(id: Id, r: Role): (v: RoleView)
    ensures v.id == id && v.name == r.name
    ensures r.permissions.None? ==> v.permissions == map[]
  {
    RoleView(id, r.name, r.permissions.GetOr(map[]))
  }

  /** AreaOfResponsibility.to_dict: the projection keeps every stored column. */
  function AreaToDict(id: Id, a: Area): (v: AreaView)
    ensures v.id == id && Area(v.name, v.description) == a
  {
    AreaView(id, a.name, a.description)
  }

  /** Skill.to_dict: the projection keeps every stored column. */
  function SkillToDict(id: Id, s: Skill): (v: SkillView)
    ensures v.id == id && Skill(v.name, v.description) == s
  {
    SkillView(id, s.name, s.description)
  }

  /** Shift.to_dict: the projection keeps every stored column (times stay in minutes). */
  function ShiftToDict(id: Id, s: Shift): (v: ShiftView)
    ensures v.id == id && Shift(v.name, v.startTime, v.endTime, v.hours, v.description, v.color) == s
  {
    ShiftView(id, s.name, s.startTime, s.endTime, s.hours, s.description, s.color)
  }

  /** The summary of user `id`, or None when no such user is stored. */
  function Person(users: map<Id, User>, id: Option<Id>): (p: Option<PersonBrief>)
    ensures p.Some? <==> id.Some? && id.value in users
  {
    if id.Some? && id.value in users then
      var u := users[id.value]; Some(PersonBrief(id.value, u.name, u.surname))
    else None
  }

  /** User.to_dict; skills are listed in ascending id order. */
  function UserToDict(roles: map<Id, Role>, areas: map<Id, Area>, skills: map<Id, Skill>, id: Id, u: User): UserView {
    var skillIds := SortedKeys(u.skills * skills.Keys);
    UserView(
      id, u.googleId, u.email, u.name, u.surname, u.employeeCode, u.contactNo,
      u.roleId, if u.roleId in roles then Some(RoleToDict(u.roleId, roles[u.roleId])) else None,
      u.areaId, if u.areaId.Some? && u.areaId.value in areas then Some(AreaToDict(u.areaId.value, areas[u.areaId.value])) else None,
      seq(|skillIds|, i requires 0 <= i < |skillIds| =>
        assert skillIds[i] in skillIds; SkillToDict(skillIds[i], skills[skillIds[i]])))
  }

  /** ShiftRoster.to_dict, with the employee's role and area names inlined. */
  function RosterToDict(users: map<Id, User>, roles: map<Id, Role>, areas: map<Id, Area>, shifts: map<Id, Shift>,
                        id: Id, e: RosterEntry): RosterView
  {
    var employee :=
      if e.employeeId in users then
        var u := users[e.employeeId];
        Some(EmployeeBrief(e.employeeId, u.name, u.surname, u.employeeCode,
                           if u.roleId in roles then Some(roles[u.roleId].name) else None,
                           if u.areaId.Some? && u.areaId.value in areas then Some(areas[u.areaId.value].name) else None))
      else None;
    RosterView(
      id, e.employeeId, employee,
      e.shiftId, if e.shiftId in shifts then Some(ShiftToDict(e.shiftId, shifts[e.shiftId])) else None,
      e.date, e.hours, StatusName(e.status),
      e.approvedBy, Person(users, e.approvedBy), e.approvedAt, e.notes)
  }

  function TimesheetToDict(users: map<Id, User>, roles: map<Id, Role>, areas: map<Id, Area>, shifts: map<Id, Shift>,
                           rosters: map<Id, RosterEntry>, id: Id, t: Timesheet): TimesheetView
  {
    TimesheetView(
      id, t.employeeId, Person(users, Some(t.employeeId)),
      if t.employeeId in users then users[t.employeeId].employeeCode else None,
      t.rosterId, if t.rosterId in rosters then Some(RosterToDict(users, roles, areas, shifts, t.rosterId, rosters[t.rosterId])) else None,
      t.date, t.hoursWorked, StatusName(t.status),
      t.approvedBy, Person(users, t.approvedBy), t.approvedAt, t.notes)
  }

  function LeaveToDict(users: map<Id, User>, id: Id, l: LeaveRequest): LeaveView {
    LeaveView(
      id, l.employeeId, Person(users, Some(l.employeeId)),
      if l.employeeId in users then users[l.employeeId].employeeCode else None,
      l.leaveType, l.startDate, l.endDate, l.days, l.reason, StatusName(l.status),
      l.approvedBy, Person(users, l.approvedBy), l.approvedAt)
  }

  /** In a well-formed store a roster entry's projection has an approver summary
      exactly when an approver is set, and its employee summary carries the
      employee's own role name and area name. */
  lemma RosterViewSummaries(users: map<Id, User>, roles: map<Id, Role>, areas: map<Id, Area>, skills: map<Id, Skill>,
                            shifts: map<Id, Shift>, rosters: map<Id, RosterEntry>, id: Id)
    requires UsersReferToStore(users, roles, areas, skills) && RostersReferToStore(rosters, users, shifts)
    requires id in rosters
    ensures var v := RosterToDict(users, roles, areas, shifts, id, rosters[id]);
      && (v.approver.None? <==> rosters[id].approvedBy.None?)
      && v.employee.Some? && v.shift.Some?
      && v.employee.value.role == Some(roles[users[rosters[id].employeeId].roleId].name)
      && (v.employee.value.area.None? <==> users[rosters[id].employeeId].areaId.None?)
      && v.status == StatusName(rosters[id].status)
  {
  }

  /** In a well-formed store a user's projection embeds the user's role, an area
      exactly when one is assigned, and each of the user's skills exactly once. */
  lemma {:induction false} UserViewSummaries(users: map<Id, User>, roles: map<Id, Role>, areas: map<Id, Area>,
                                             skills: map<Id, Skill>, id: Id)
    requires UsersReferToStore(users, roles, areas, skills)
    requires id in users
    ensures var u := users[id]; var v := UserToDict(roles, areas, skills, id, u);
      && v.role == Some(RoleToDict(u.roleId, roles[u.roleId]))
      && (v.area.Some? <==> u.areaId.Some?)
      && (v.area.Some? ==> v.area.value == AreaToDict(u.areaId.value, areas[u.areaId.value]))
      && |v.skills| == |u.skills|
      && (forall i :: 0 <= i < |v.skills| ==>
            v.skills[i].id in u.skills && v.skills[i] == SkillToDict(v.skills[i].id, skills[v.skills[i].id]))
      && (forall s :: s in u.skills ==> exists i :: 0 <= i < |v.skills| && v.skills[i].id == s)
      && (forall i, j :: 0 <= i < j < |v.skills| ==> v.skills[i].id != v.skills[j].id)
  {
    var u := users[id];
    var v := UserToDict(roles, areas, skills, id, u);
    assert u.skills * skills.Keys == u.skills;
    var ks := SortedKeys(u.skills);
    SortedKeysIncreasing(u.skills);
    assert |v.skills| == |ks|;
    forall i | 0 <= i < |v.skills| ensures v.skills[i].id == ks[i] {
      assert ks[i] in ks;
    }
    forall s | s in u.skills ensures exists i :: 0 <= i < |v.skills| && v.skills[i].id == s {
      var i :| 0 <= i < |ks| && ks[i] == s;
      assert v.skills[i].id == s;
    }
  }

  /** In a well-formed store a timesheet's projection has an approver summary
      exactly when an approver is set, summarises its own employee with that
      employee's code, and embeds the roster entry it was recorded against. */
  lemma TimesheetViewSummaries(users: map<Id, User>, roles: map<Id, Role>, areas: map<Id, Area>,
                               shifts: map<Id, Shift>, rosters: map<Id, RosterEntry>,
                               timesheets: map<Id, Timesheet>, id: Id)
    requires TimesheetsReferToStore(timesheets, users, rosters)
    requires id in timesheets
    ensures var t := timesheets[id]; var v := TimesheetToDict(users, roles, areas, shifts, rosters, id, t);
      && (v.approver.None? <==> t.approvedBy.None?)
      && (v.approver.Some? ==> v.approver.value.id == t.approvedBy.value)
      && v.employee == Some(PersonBrief(t.employeeId, users[t.employeeId].name, users[t.employeeId].surname))
      && v.employeeCode == users[t.employeeId].employeeCode
      && v.roster == Some(RosterToDict(users, roles, areas, shifts, t.rosterId, rosters[t.rosterId]))
      && v.status == StatusName(t.status)
  {
  }

  /** In a well-formed store a leave request's projection has an approver summary
      exactly when an approver is set and summarises its own employee with that
      employee's code. */
  lemma LeaveViewSummaries(users: map<Id, User>, leaves: map<Id, LeaveRequest>, id: Id)
    requires LeavesReferToStore(leaves, users)
    requires id in leaves
    ensures var l := leaves[id]; var v := LeaveToDict(users, id, l);
      && (v.approver.None? <==> l.approvedBy.None?)
      && (v.approver.Some? ==> v.approver.value.id == l.approvedBy.value)
      && v.employee == Some(PersonBrief(l.employeeId, users[l.employeeId].name, users[l.employeeId].surname))
      && v.employeeCode == users[l.employeeId].employeeCode
      && v.status == StatusName(l.status)
  {
  }

  /** The status text determines the status: no two states share a column value. */
  lemma {:induction false} StatusNameInjective(a: Status, b: Status)
    ensures StatusName(a) == StatusName(b) <==> a == b
  {
    if a != b {
      match a
      case Pending => assert StatusName(a)[0] == 'p';
      case Approved => assert StatusName(a)[0] == 'a';
      case Rejected => assert StatusName(a)[0] == 'r';
    }
  }
}
